/** What complete runs achieve: a perfect matching, then a fixed point. */
module Convergence {
  import opened Pairing
  import opened Protocol
  import opened Steps

  /** A row that lost its GitHub side while the Forgejo side is still there. */
  ghost predicate Orphaned(w: World)
  {
    exists g :: g in w.rows && g !in w.github && w.rows[g].forgejo in w.forgejo
  }

  ghost predicate Mapped(w: World, f: Id)
  {
    exists g :: g in w.rows && w.rows[g].forgejo == f
  }

  /** Every object is in a row (in exactly one, by the table's two keys); unless survivors are
      pinned, each row names two existing objects or two missing ones. */
  ghost predicate Matched(w: World)
  {
    && (forall g :: g in w.github ==> g in w.rows)
    && (forall f :: f in w.forgejo ==> Mapped(w, f))
    && (!w.pins ==> forall g :: g in w.rows ==> (g in w.github <==> w.rows[g].forgejo in w.forgejo))
  }

  /** No work is left: nothing unmapped, every live pair final, every conflict recorded. */
  ghost predicate Settled(w: World)
  {
    && FreeGitHub(w) == {} && FreeForgejo(w) == {}
    && (forall g :: Live(w, g) ==> View(w, g) == Sync(View(w, g)))
    && NewConflicts(w) <= w.conflicts
  }

  /** A dead row survives a run with its Forgejo id, unless its GitHub object is given a new one. */
  lemma DeadRowKept(w: World, p: Plan, w': World, b: Births, g: Id)
    requires Valid(w) && Splits(w, p) && Run(w, p, w', b) && g in w.rows && !Live(w, g) && (g !in w.github || w.pins)
    ensures g in w'.rows && w'.rows[g] == w.rows[g]
  {
    assert g !in FreeGitHub(w);
    assert RowSource(w, p, w', b, g);
  }

  /** Each unmapped Forgejo object ends up in the row of an unmapped or new GitHub object. */
  lemma FreeForgejoGetsRow(w: World, p: Plan, w': World, b: Births, f: Id) returns (g: Id)
    requires Splits(w, p) && Run(w, p, w', b) && f in FreeForgejo(w)
    ensures g in w'.rows && w'.rows[g].forgejo == f && (g in FreeGitHub(w) || g in b.github)
  {
    if f in p.leftForgejo {
      g :| g in b.github && b.github[g] == f;
    } else {
      g :| g in p.join && p.join[g] == f;
    }
  }

  /** A run that completes started without orphaned rows (unless survivors are pinned). */
  lemma CompletedRunHadNoOrphans(w: World, p: Plan, w': World, b: Births)
    requires Valid(w) && Splits(w, p) && Run(w, p, w', b)
    ensures w.pins || !Orphaned(w)
  {
    if !w.pins && Orphaned(w) {
      var g0 :| g0 in w.rows && g0 !in w.github && w.rows[g0].forgejo in w.forgejo;
      DeadRowKept(w, p, w', b, g0);
      assert !Held(w, w.rows[g0].forgejo);
      var g := FreeForgejoGetsRow(w, p, w', b, w.rows[g0].forgejo);
      assert false;
    }
  }

  lemma {:induction false} GitHubMatched(w: World, p: Plan, w': World, b: Births, g: Id)
    requires Valid(w) && Splits(w, p) && Run(w, p, w', b) && g in w'.github
    ensures g in w'.rows && (!w.pins ==> Live(w', g))
  {
    if g in b.github {
      assert b.github[g] in p.leftForgejo;
    } else if g in FreeGitHub(w) {
      if g in p.join {
        assert p.join[g] in p.join.Values;
      } else {
        var n :| n in b.forgejo && b.forgejo[n] == g;
      }
    }
  }

  lemma ForgejoMatched(w: World, p: Plan, w': World, b: Births, f: Id)
    requires Valid(w) && Splits(w, p) && Run(w, p, w', b) && f in w'.forgejo
    ensures Mapped(w', f)
  {
    if f in b.forgejo {
      assert w'.rows[b.forgejo[f]].forgejo == f;
    } else if f in FreeForgejo(w) {
      var g := FreeForgejoGetsRow(w, p, w', b, f);
    } else {
      var g :| g in w.rows && w.rows[g].forgejo == f && (w.pins || g in w.github);
      if Live(w, g) { assert SameLink(w, w', g); } else { DeadRowKept(w, p, w', b, g); }
      assert w'.rows[g].forgejo == f;
    }
  }

  /** Unless survivors are pinned, no row is left with one side only. */
  lemma RowsAreWhole(w: World, p: Plan, w': World, b: Births, g: Id)
    requires Valid(w) && Splits(w, p) && Run(w, p, w', b) && !w.pins && g in w'.rows && g !in w'.github
    ensures w'.rows[g].forgejo !in w'.forgejo
  {
    CompletedRunHadNoOrphans(w, p, w', b);
    assert RowSource(w, p, w', b, g);
    DeadRowKept(w, p, w', b, g);
  }

  lemma RunIsValid(w: World, p: Plan, w': World, b: Births)
    requires Run(w, p, w', b)
    ensures Valid(w') && UniqueForgejo(w'.rows) && w'.pins == w.pins
  {
    hide RowSource, PairProgress, BirthsOk, NewConflicts, UniqueForgejo;
  }

  /** After a complete run every object of either forge is in exactly one row. */
  lemma PerfectMatching(w: World, p: Plan, w': World, b: Births)
    requires Valid(w) && Splits(w, p) && Run(w, p, w', b)
    ensures Matched(w') && UniqueForgejo(w'.rows)
  {
    hide Valid, Splits, Run, Mapped, UniqueForgejo;
    RunIsValid(w, p, w', b);
    forall g | g in w'.github ensures g in w'.rows && (!w.pins ==> Live(w', g)) {
      GitHubMatched(w, p, w', b, g);
    }
    forall f | f in w'.forgejo ensures Mapped(w', f) {
      ForgejoMatched(w, p, w', b, f);
    }
    if !w.pins {
      forall g | g in w'.rows && g !in w'.github ensures w'.rows[g].forgejo !in w'.forgejo {
        RowsAreWhole(w, p, w', b, g);
      }
    }
  }

  lemma MatchedHasNothingFree(w: World)
    requires Matched(w)
    ensures FreeGitHub(w) == {} && FreeForgejo(w) == {}
  {
    forall f | f in w.forgejo ensures Held(w, f) {
      var g :| g in w.rows && w.rows[g].forgejo == f;
    }
  }

  lemma NothingFreeNoBirths(w: World, p: Plan, b: Births)
    requires FreeGitHub(w) == {} && FreeForgejo(w) == {} && Splits(w, p) && BirthsOk(w, p, b)
    ensures b == NO_BIRTHS && p.join == map[]
  {
    NonEmptyValues(b.github);
    NonEmptyValues(b.forgejo);
    assert p.join.Keys == {};
  }

  lemma NothingFreeSameKeys(w: World, p: Plan, w': World, b: Births)
    requires p.join == map[] && b == NO_BIRTHS && Interrupted(w, p, w', b)
    ensures w'.github.Keys == w.github.Keys && w'.forgejo.Keys == w.forgejo.Keys
  {
    hide RowSource, PairProgress, BirthsOk, NewConflicts, Valid;
  }

  /** With nothing free, a run only works on live pairs. */
  lemma NothingFreeMeansNoPlan(w: World, p: Plan, w': World, b: Births)
    requires FreeGitHub(w) == {} && FreeForgejo(w) == {} && Splits(w, p) && Interrupted(w, p, w', b)
    ensures b == NO_BIRTHS
    ensures w'.github.Keys == w.github.Keys && w'.forgejo.Keys == w.forgejo.Keys && w'.rows.Keys == w.rows.Keys
    ensures forall g :: g in w.rows && !Live(w, g) ==> w'.rows[g] == w.rows[g]
    ensures forall g :: g in w.rows ==> w'.rows[g].forgejo == w.rows[g].forgejo
  {
    hide Valid, NewConflicts;
    NothingFreeNoBirths(w, p, b);
    NothingFreeSameKeys(w, p, w', b);
    forall g | g in w'.rows && !Live(w, g) ensures g in w.rows && w'.rows[g] == w.rows[g] {
      assert RowSource(w, p, w', b, g);
    }
    forall g | Live(w, g) ensures g in w'.rows && w'.rows[g].forgejo == w.rows[g].forgejo {
      assert PairProgress(w, w', g);
    }
  }

  /** A dead row reports the same conflict after a run that created nothing. */
  lemma DeadConflictUnchanged(w: World, w': World, g: Id)
    requires Valid(w) && Framed(w, w', NO_BIRTHS)
    requires g in w.rows && !Live(w, g) && g in w'.rows && w'.rows[g] == w.rows[g]
    ensures !Live(w', g) && ConflictOf(w', g) == ConflictOf(w, g)
  {
    assert forall h :: Live(w, h) ==> w.rows[h].forgejo != w.rows[g].forgejo;
  }

  lemma LivePairIsSynced(w: World, p: Plan, w': World, b: Births, g: Id)
    requires Run(w, p, w', b) && Live(w, g)
    ensures Live(w', g) && View(w', g) == Sync(View(w, g)) && View(w', g) == Sync(View(w', g))
    ensures g in w'.rows && w'.rows[g].forgejo == w.rows[g].forgejo
  {
    assert PairProgress(w, w', g);
  }

  /** A run that met nothing unmapped leaves the world settled. */
  lemma RunOfMatchedSettles(w: World, p: Plan, w': World, b: Births)
    requires Valid(w) && Splits(w, p) && Run(w, p, w', b)
    requires FreeGitHub(w) == {} && FreeForgejo(w) == {}
    ensures Settled(w')
  {
    PerfectMatching(w, p, w', b);
    MatchedHasNothingFree(w');
    NothingFreeMeansNoPlan(w, p, w', b);
    forall g | Live(w', g) ensures View(w', g) == Sync(View(w', g)) {
      LivePairIsSynced(w, p, w', b, g);
    }
    forall g | g in w'.rows && Raises(w', g) ensures ConflictOf(w', g) in w'.conflicts {
      if Live(w, g) {
        LivePairIsSynced(w, p, w', b, g);
      } else {
        DeadConflictUnchanged(w, w', g);
      }
      assert Raises(w, g) && ConflictOf(w', g) == ConflictOf(w, g);
      assert ConflictOf(w, g) in NewConflicts(w);
    }
  }

  lemma FinalPairUnchanged(w: World, w': World, g: Id)
    requires Live(w, g) && PairProgress(w, w', g) && View(w, g) == Sync(View(w, g))
    requires w'.github[g].address == w.github[g].address
    requires w'.forgejo[w.rows[g].forgejo].address == w.forgejo[w.rows[g].forgejo].address
    ensures w'.rows[g] == w.rows[g] && w'.github[g] == w.github[g]
    ensures w'.forgejo[w.rows[g].forgejo] == w.forgejo[w.rows[g].forgejo]
  {
    assert View(w', g) == View(w, g);
  }

  lemma FinalForgejoUnchanged(w: World, w': World, f: Id)
    requires Framed(w, w', NO_BIRTHS) && f in w.forgejo
    requires forall g :: Live(w, g) ==> PairProgress(w, w', g) && View(w, g) == Sync(View(w, g))
    ensures w'.forgejo[f] == w.forgejo[f]
  {
    if Tied(w, f) {
      var g :| Live(w, g) && w.rows[g].forgejo == f;
      FinalPairUnchanged(w, w', g);
    }
  }

  lemma FinalObjectsUnchanged(w: World, w': World)
    requires Framed(w, w', NO_BIRTHS)
    requires forall g :: Live(w, g) ==> PairProgress(w, w', g) && View(w, g) == Sync(View(w, g))
    ensures w'.github == w.github && w'.forgejo == w.forgejo
  {
    forall g | g in w.github ensures w'.github[g] == w.github[g] {
      if Live(w, g) { FinalPairUnchanged(w, w', g); }
    }
    forall f | f in w.forgejo ensures w'.forgejo[f] == w.forgejo[f] {
      FinalForgejoUnchanged(w, w', f);
    }
  }

  /** A run of a settled world changes nothing at all. */
  lemma SettledIsFixpoint(w: World, p: Plan, w': World, b: Births)
    requires Valid(w) && Settled(w) && Splits(w, p) && Interrupted(w, p, w', b)
    ensures w' == w && b == NO_BIRTHS
  {
    NothingFreeMeansNoPlan(w, p, w', b);
    FinalObjectsUnchanged(w, w');
    forall g | g in w.rows ensures w'.rows[g] == w.rows[g] {
      if Live(w, g) { FinalPairUnchanged(w, w', g); }
    }
    assert w'.rows == w.rows;
  }

  /** Convergence: after two complete runs, a third changes no object, row or conflict. */
  lemma ThirdRunIsQuiet(w0: World, w1: World, w2: World, w3: World, b1: Births, b2: Births, b3: Births)
    requires Valid(w0)
    requires Run(w0, PlanOf(w0), w1, b1) && Run(w1, PlanOf(w1), w2, b2) && Run(w2, PlanOf(w2), w3, b3)
    ensures Settled(w2) && w3 == w2 && b3 == NO_BIRTHS
  {
    PlanSplits(w0); PlanSplits(w1); PlanSplits(w2);
    PerfectMatching(w0, PlanOf(w0), w1, b1);
    MatchedHasNothingFree(w1);
    RunOfMatchedSettles(w1, PlanOf(w1), w2, b2);
    SettledIsFixpoint(w2, PlanOf(w2), w3, b3);
  }

  // ---- what can break the UNIQUE constraint ----

  /** Only an orphaned row can already hold the Forgejo id of a pair found by a pairing pass. */
  lemma JoinCollision(w0: World, p: Plan, w: World, g: Id)
    requires Valid(w0) && Splits(w0, p) && Interrupted(w0, p, w, NO_BIRTHS) && g in p.join
    requires exists h :: h in w.rows && h != g && w.rows[h].forgejo == p.join[g]
    ensures !w0.pins && Orphaned(w0)
  {
    hide NewConflicts, Framed, BirthsOk, Valid;
    var h :| h in w.rows && h != g && w.rows[h].forgejo == p.join[g];
    assert p.join[g] in FreeForgejo(w0);
    assert !Held(w0, p.join[g]);
    LinksKept(w0, p, w, NO_BIRTHS);
    assert !Live(w0, h);
    assert RowSource(w0, p, w, NO_BIRTHS, h);
  }

  /** The same for a leftover that is being copied to GitHub. */
  lemma CopyCollision(w0: World, p: Plan, w: World, b: Births, f: Id)
    requires Valid(w0) && Splits(w0, p) && Interrupted(w0, p, w, b) && f in p.leftForgejo && f !in b.github.Values
    requires exists h :: h in w.rows && w.rows[h].forgejo == f
    ensures !w0.pins && Orphaned(w0)
  {
    hide NewConflicts, Framed, Valid;
    var h :| h in w.rows && w.rows[h].forgejo == f;
    assert f in FreeForgejo(w0);
    assert !Held(w0, f);
    ForgejoIdsAreUsed(w0, w0, f);
    LinksKept(w0, p, w, b);
    assert !Live(w0, h);
    assert RowSource(w0, p, w, b, h);
  }

  lemma NewForgejoIdIsUnique(w0: World, p: Plan, w: World, b: Births, g: Id, r: Row)
    requires Interrupted(w0, p, w, b) && r.forgejo !in w.forgejoUsed
    ensures UniqueForgejo(w.rows[g := r]) && forall h :: h in w.rows ==> w.rows[h].forgejo != r.forgejo
  {
    hide NewConflicts, Framed, BirthsOk, RowSource, PairProgress;
  }

  lemma LinksKept(w0: World, p: Plan, w: World, b: Births)
    requires Interrupted(w0, p, w, b)
    ensures forall g :: Live(w0, g) ==> g in w.rows && w.rows[g].forgejo == w0.rows[g].forgejo
  {
    hide NewConflicts, Framed, BirthsOk, Valid, RowSource;
    forall g | Live(w0, g) ensures g in w.rows && w.rows[g].forgejo == w0.rows[g].forgejo {
      assert PairProgress(w0, w, g);
    }
  }

  // ---- an update in two requests ----

  /** Forgejo's issue client first sends everything but the labels, then the labels.  A stop in
      between leaves a pair that later runs report as diverged and never finish, if and only if the
      update was to change both the labels and something else; otherwise the next run finishes it. */
  lemma HalfUpdateDivergesIff(t: Triple)
    requires t.github.Issue? && t.forgejo.Issue? && t.forgejo == t.baseline && t.github != t.forgejo
    ensures var half := Halfway(t);
      && half.forgejo == t.github.(labels := t.forgejo.labels) && half.github == t.github && half.baseline == t.baseline
      && (InConflict(half) <==>
            && t.github.labels != t.forgejo.labels
            && (t.github.title != t.forgejo.title || t.github.body != t.forgejo.body
                || t.github.state != t.forgejo.state || t.github.milestone != t.forgejo.milestone))
      && Sync(half) == if InConflict(half) then half else Sync(t)
  {
  }
}
