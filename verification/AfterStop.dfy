/** What is unmapped after a stop. */
module AfterStop {
  import opened Pairing
  import opened Protocol
  import opened Steps
  import opened Passes
  import opened CrashRecovery

  ghost predicate Joins(m: map<Id, Id>, x: Id, y: Id)
  {
    x in m && m[x] == y
  }

  /** The run has recorded x together with its mate. */
  ghost predicate DoneGitHub(p: Plan, w1: World, b1: Births, x: Id)
  {
    exists y :: Mates(p, b1, x, y) && Linked(w1, x, y)
  }

  ghost predicate DoneForgejo(p: Plan, w1: World, b1: Births, y: Id)
  {
    exists x :: Mates(p, b1, x, y) && Linked(w1, x, y)
  }

  ghost predicate PlanFacts(w: World, p: Plan, b: Births)
  {
    && Splits(w, p) && Valid(w) && BirthsOk(w, p, b)
    && (forall n :: n in b.github ==> n !in w.githubUsed && b.github[n] in p.leftForgejo)
    && (forall n :: n in b.forgejo ==> n !in w.forgejoUsed && b.forgejo[n] in p.leftGitHub)
  }

  lemma PlanFactsHold(w: World, w1: World, b1: Births)
    requires Valid(w) && Interrupted(w, PlanOf(w), w1, b1)
    ensures PlanFacts(w, PlanOf(w), b1)
  {
    hide PlanOf;
    PlanSplits(w);
    BornInPlan(w, PlanOf(w), b1);
  }

  lemma MatesAreUnique(w: World, p: Plan, b: Births)
    requires PlanFacts(w, p, b)
    ensures forall x, y, y' :: Mates(p, b, x, y) && Mates(p, b, x, y') ==> y == y'
    ensures forall x, x', y :: Mates(p, b, x, y) && Mates(p, b, x', y) ==> x == x'
    ensures forall x, y :: Mates(p, b, x, y) ==> (x in FreeGitHub(w) || x in b.github) && (y in FreeForgejo(w) || y in b.forgejo)
  {
    assert forall x :: x in p.join ==> p.join[x] in p.join.Values;
  }

  lemma MatesExist(w: World, p: Plan, w1: World, b1: Births, x: Id, y: Id)
    requires PlanFacts(w, p, b1) && Framed(w, w1, b1) && Mates(p, b1, x, y)
    ensures x in w1.github && y in w1.forgejo
  {
    hide Live, Tied;
    MatesAreUnique(w, p, b1);
    FreeExists(w);
  }

  lemma SourceLinksMates(w: World, p: Plan, w1: World, b1: Births, g: Id)
    requires g in w1.rows && RowSource(w, p, w1, b1, g)
    ensures (g in w.rows && w1.rows[g] == w.rows[g]) || Mates(p, b1, g, w1.rows[g].forgejo)
  {
  }

  /** A row that is not a live one of w is kept, or records mates. */
  lemma RowAfterStop(w: World, p: Plan, w1: World, b1: Births, g: Id)
    requires Interrupted(w, p, w1, b1) && g in w1.rows
    ensures || (Live(w, g) && Live(w1, g) && w1.rows[g].forgejo == w.rows[g].forgejo)
            || (!Live(w, g) && g in w.rows && w1.rows[g] == w.rows[g])
            || (!Live(w, g) && Mates(p, b1, g, w1.rows[g].forgejo))
  {
    hide Valid, BirthsOk, Framed, NewConflicts, RowSource, View, Mates;
    if Live(w, g) {
      assert PairProgress(w, w1, g);
    } else {
      SourceLinksMates(w, p, w1, b1, g);
    }
  }

  /** Exactly the unmapped and the new objects that are not recorded with their mates. */
  lemma FreeGitHubAfterStop(w: World, p: Plan, w1: World, b1: Births, x: Id)
    requires PlanFacts(w, p, b1) && Interrupted(w, p, w1, b1)
    ensures x in FreeGitHub(w1) <==> (x in FreeGitHub(w) || x in b1.github) && !DoneGitHub(p, w1, b1, x)
  {
    hide Interrupted, Mates, View, Valid, PlanFacts, Framed, BirthsOk;
    InterruptedParts(w, p, w1, b1);
    InterruptedKeepsRows(w, p, w1, b1);
    if y :| Mates(p, b1, x, y) && Linked(w1, x, y) { MatesExist(w, p, w1, b1, x, y); }
    if x in w1.rows { RowAfterStop(w, p, w1, b1, x); }
    BirthsAreNew(w, p, b1);
  }

  lemma BirthsAreNew(w: World, p: Plan, b: Births)
    requires PlanFacts(w, p, b)
    ensures forall n :: n in b.github ==> n !in w.github && n !in w.rows
    ensures forall n :: n in b.forgejo ==> n !in w.forgejo && forall g :: g in w.rows ==> w.rows[g].forgejo != n
  {
  }

  lemma InterruptedKeepsRows(w: World, p: Plan, w1: World, b1: Births)
    requires Interrupted(w, p, w1, b1)
    ensures w.rows.Keys <= w1.rows.Keys && w1.pins == w.pins
    ensures w1.github.Keys == w.github.Keys + b1.github.Keys && w1.forgejo.Keys == w.forgejo.Keys + b1.forgejo.Keys
    ensures forall g :: Live(w, g) ==> Live(w1, g) && w1.rows[g].forgejo == w.rows[g].forgejo
  {
    hide Valid, BirthsOk, NewConflicts, RowSource, View;
    forall g | Live(w, g) ensures Live(w1, g) && w1.rows[g].forgejo == w.rows[g].forgejo {
      assert PairProgress(w, w1, g);
    }
  }

  lemma FreeForgejoAfterStop(w: World, p: Plan, w1: World, b1: Births, y: Id)
    requires PlanFacts(w, p, b1) && Interrupted(w, p, w1, b1)
    ensures y in FreeForgejo(w1) <==> (y in FreeForgejo(w) || y in b1.forgejo) && !DoneForgejo(p, w1, b1, y)
  {
    hide Interrupted, Mates, Valid, PlanFacts, Framed, BirthsOk, Held, DoneForgejo;
    InterruptedParts(w, p, w1, b1);
    InterruptedKeepsRows(w, p, w1, b1);
    if y in w1.forgejo { HeldAfterStop(w, p, w1, b1, y); }
    if DoneForgejo(p, w1, b1, y) { DoneExists(w, p, w1, b1, y); }
    if y in b1.forgejo { BornIsNotHeld(w, p, b1, y); }
  }

  lemma DoneExists(w: World, p: Plan, w1: World, b1: Births, y: Id)
    requires PlanFacts(w, p, b1) && Framed(w, w1, b1) && DoneForgejo(p, w1, b1, y)
    ensures y in w1.forgejo
  {
    hide Mates, PlanFacts, Framed;
    var x :| Mates(p, b1, x, y) && Linked(w1, x, y);
    MatesExist(w, p, w1, b1, x, y);
  }

  lemma BornIsNotHeld(w: World, p: Plan, b1: Births, y: Id)
    requires PlanFacts(w, p, b1) && y in b1.forgejo
    ensures y !in w.forgejo && !Held(w, y)
  {
    hide PlanFacts;
    BirthsAreNew(w, p, b1);
  }

  /** After a stop y is held by the row that held it before, or by that of its mate. */
  lemma HeldAfterStop(w: World, p: Plan, w1: World, b1: Births, y: Id)
    requires PlanFacts(w, p, b1) && Interrupted(w, p, w1, b1) && y in w1.forgejo
    ensures Held(w1, y) <==> Held(w, y) || DoneForgejo(p, w1, b1, y)
  {
    hide Interrupted, Mates, View, Valid, PlanFacts, Framed, BirthsOk;
    InterruptedParts(w, p, w1, b1);
    InterruptedKeepsRows(w, p, w1, b1);
    BirthsAreNew(w, p, b1);
    if x :| Mates(p, b1, x, y) && Linked(w1, x, y) { MatesExist(w, p, w1, b1, x, y); }
    if Held(w1, y) {
      var g :| g in w1.rows && w1.rows[g].forgejo == y && (w1.pins || g in w1.github);
      RowAfterStop(w, p, w1, b1, g);
    }
    if Held(w, y) {
      var g :| g in w.rows && w.rows[g].forgejo == y && (w.pins || g in w.github);
      RowAfterStop(w, p, w1, b1, g);
      MatesAreUnique(w, p, b1);
    }
  }

  /** Unmapped objects are not touched, and copies have their source's content. */
  lemma FreeUnchanged(w: World, p: Plan, w1: World, b1: Births)
    requires PlanFacts(w, p, b1) && Framed(w, w1, b1)
    ensures forall x :: x in FreeGitHub(w) ==> x in w.github && x in w1.github && w1.github[x] == w.github[x]
    ensures forall y :: y in FreeForgejo(w) ==> y in w.forgejo && y in w1.forgejo && w1.forgejo[y] == w.forgejo[y]
    ensures forall n :: n in b1.github ==>
              b1.github[n] in w.forgejo && n in w1.github && w1.github[n].content == w.forgejo[b1.github[n]].content
    ensures forall n :: n in b1.forgejo ==>
              b1.forgejo[n] in w.github && n in w1.forgejo && w1.forgejo[n].content == w.github[b1.forgejo[n]].content
  {
    forall y | y in FreeForgejo(w) ensures !Tied(w, y) {}
  }

  ghost predicate SameObjects(w: World, w1: World)
  {
    && (forall x :: x in FreeGitHub(w) ==> x in w.github && x in w1.github && w1.github[x] == w.github[x])
    && (forall y :: y in FreeForgejo(w) ==> y in w.forgejo && y in w1.forgejo && w1.forgejo[y] == w.forgejo[y])
  }

  /** The unmapped objects of w1, in terms of those of w and of what was recorded. */
  ghost predicate Freed(w: World, p: Plan, w1: World, b1: Births)
  {
    && SameObjects(w, w1)
    && (forall x :: x in FreeGitHub(w1) <==> (x in FreeGitHub(w) || x in b1.github) && !DoneGitHub(p, w1, b1, x))
    && (forall y :: y in FreeForgejo(w1) <==> (y in FreeForgejo(w) || y in b1.forgejo) && !DoneForgejo(p, w1, b1, y))
  }

  lemma FreedAfterStop(w: World, w1: World, b1: Births)
    requires Valid(w) && Interrupted(w, PlanOf(w), w1, b1)
    ensures PlanFacts(w, PlanOf(w), b1) && Freed(w, PlanOf(w), w1, b1)
  {
    hide PlanOf, Interrupted, PlanFacts, DoneGitHub, DoneForgejo, FreeGitHub, FreeForgejo, Framed, Valid;
    var p := PlanOf(w);
    PlanFactsHold(w, w1, b1);
    InterruptedParts(w, p, w1, b1);
    FreeUnchanged(w, p, w1, b1);
    forall x { FreeGitHubAfterStop(w, p, w1, b1, x); }
    forall y { FreeForgejoAfterStop(w, p, w1, b1, y); }
  }

  /** Without births the mates are the pairs of the plan. */
  lemma FreedWithoutBirths(w: World, p: Plan, w1: World)
    requires PlanFacts(w, p, NO_BIRTHS) && Freed(w, p, w1, NO_BIRTHS)
    ensures forall x :: x in FreeGitHub(w1) <==> x in FreeGitHub(w) && !(x in p.join && Linked(w1, x, p.join[x]))
    ensures forall y :: y in FreeForgejo(w1) <==> y in FreeForgejo(w) && forall x :: Joins(p.join, x, y) ==> !Linked(w1, x, y)
  {
    hide FreeGitHub, FreeForgejo, PlanFacts, Linked;
    forall x ensures DoneGitHub(p, w1, NO_BIRTHS, x) <==> x in p.join && Linked(w1, x, p.join[x]) {
      if x in p.join { assert Mates(p, NO_BIRTHS, x, p.join[x]); }
    }
    forall y ensures DoneForgejo(p, w1, NO_BIRTHS, y) <==> exists x :: Joins(p.join, x, y) && Linked(w1, x, y) {
      if x :| Joins(p.join, x, y) && Linked(w1, x, y) { assert Mates(p, NO_BIRTHS, x, y); }
      if x :| Mates(p, NO_BIRTHS, x, y) && Linked(w1, x, y) { assert Joins(p.join, x, y); }
    }
  }

  lemma FreedObjects(w: World, p: Plan, w1: World, b1: Births)
    requires Freed(w, p, w1, b1)
    ensures SameObjects(w, w1)
  {
  }

  lemma PlanFactsInjective(w: World, b: Births)
    requires PlanFacts(w, PlanOf(w), b)
    ensures Injective(PlanOf(w).join)
    ensures forall x, x', y :: Joins(PlanOf(w).join, x, y) && Joins(PlanOf(w).join, x', y) ==> x == x'
  {
    hide PlanOf;
  }
}
