/** What a run plans after an earlier one stopped, and when it carries on with the plan of that one. */
module CrashPlans {
  import opened Pairing
  import opened Protocol
  import opened Steps
  import opened Passes
  import opened CrashRecovery
  import opened AfterStop

  // ---- the condition ----

  ghost predicate SameContent(w: World, x: Id, y: Id)
  {
    x in w.github && y in w.forgejo && w.github[x].content == w.forgejo[y].content
  }

  ghost predicate GitHubTwins(w: World, x: Id, u: Id)
  {
    x in w.github && u in w.github && w.github[x].content == w.github[u].content
  }

  ghost predicate ForgejoTwins(w: World, y: Id, v: Id)
  {
    y in w.forgejo && v in w.forgejo && w.forgejo[y].content == w.forgejo[v].content
  }

  /** No two objects that are still to be copied, of either forge, have the same content. */
  ghost predicate LeftoversDiffer(w: World)
  {
    var p := PlanOf(w);
    && (forall x, u :: x in p.leftGitHub && u in p.leftGitHub && GitHubTwins(w, x, u) ==> x == u)
    && (forall y, v :: y in p.leftForgejo && v in p.leftForgejo && ForgejoTwins(w, y, v) ==> y == v)
    && (forall x, y :: x in p.leftGitHub && y in p.leftForgejo ==> !SameContent(w, x, y))
  }

  /** x and y are not meant for each other, but have one content, and every other object with it is
      in some pair found by number or tag that contains neither of them. */
  ghost predicate Crossed(w: World, x: Id, y: Id)
  {
    var s := SlotPairs(w);
    && x in RestGitHub(w) && y in RestForgejo(w) && SameContent(w, x, y) && !Joins(s, x, y)
    && (forall u :: u in RestGitHub(w) && GitHubTwins(w, x, u) && u != x ==> u in s && s[u] != y)
    && (forall v :: v in RestForgejo(w) && ForgejoTwins(w, y, v) && v != y ==> exists u :: Joins(s, u, v) && u != x)
  }

  /** Both are still to be copied, although x has the number and title, or the tag, of y, which no
      other object to be copied from Forgejo has. */
  ghost predicate SlotTaken(w: World, x: Id, y: Id)
  {
    var p := PlanOf(w);
    && x in p.leftGitHub && y in p.leftForgejo && x in w.github && y in w.forgejo && SameSlotSignature(w.github[x], w.forgejo[y])
    && (forall v :: v in p.leftForgejo && v in w.forgejo && SameSlot(w.forgejo[v], w.forgejo[y]) ==> v == y)
  }

  /** The exact condition under which crashes do no harm. */
  ghost predicate CrashProof(w: World)
  {
    && LeftoversDiffer(w)
    && (forall x, y :: !Crossed(w, x, y))
    && (forall x, y :: !SlotTaken(w, x, y))
  }

  /** The plan of the world left by a stop carries on with the first plan. */
  ghost predicate Resumes(w: World, w1: World, b1: Births)
  {
    var p, p1 := PlanOf(w), PlanOf(w1);
    && (forall x :: x in p1.join ==> Mates(p, b1, x, p1.join[x]))
    && p1.leftGitHub == p.leftGitHub - b1.forgejo.Values
    && p1.leftForgejo == p.leftForgejo - b1.github.Values
  }

  // ---- stops among the mapping rows and in the first pass ----

  /** The pairs found by content are not affected when some of them are recorded. */
  lemma HashPairsInFirstPass(w: World, w1: World, x: Id, y: Id)
    requires PlanFacts(w, PlanOf(w), NO_BIRTHS) && Freed(w, PlanOf(w), w1, NO_BIRTHS) && NoneLinked(w1, SlotPairs(w))
    ensures Joins(HashPairs(w1), x, y) <==> Joins(HashPairs(w), x, y) && !Linked(w1, x, y)
  {
    hide PlanOf, HashPairs, SlotPairs, FreeGitHub, FreeForgejo, PlanFacts, Freed, Linked;
    FreedWithoutBirths(w, PlanOf(w), w1);
    FreedObjects(w, PlanOf(w), w1, NO_BIRTHS);
    FreeExists(w1);
    PlanContainsPasses(w);
    HashPairIsMatch(w, x, y);
    HashPairIsMatch(w1, x, y);
    PlanFactsInjective(w, NO_BIRTHS);
    forall u | u in FreeGitHub(w) && u !in FreeGitHub(w1) ensures u in HashPairs(w) && Linked(w1, u, HashPairs(w)[u]) {
      assert u in PlanOf(w).join;
    }
    forall u | u in HashPairs(w) { HashPairIsMatch(w, u, HashPairs(w)[u]); }
    forall v | v in FreeForgejo(w) && v !in FreeForgejo(w1)
      ensures exists u :: Joins(HashPairs(w), u, v) && Linked(w1, u, v)
    {
      var u :| Joins(PlanOf(w).join, u, v) && Linked(w1, u, v);
      assert Joins(HashPairs(w), u, v);
    }
  }

  lemma FirstPassPlan(w: World, w1: World)
    requires PlanFacts(w, PlanOf(w), NO_BIRTHS) && Freed(w, PlanOf(w), w1, NO_BIRTHS) && NoneLinked(w1, SlotPairs(w))
    ensures forall x, y :: Joins(HashPairs(w1), x, y) <==> Joins(HashPairs(w), x, y) && !Linked(w1, x, y)
    ensures RestGitHub(w1) == RestGitHub(w) && RestForgejo(w1) == RestForgejo(w) && SlotPairs(w1) == SlotPairs(w)
  {
    hide PlanOf, HashPairs, FreeGitHub, FreeForgejo, PlanFacts, Freed, Linked, Pairs;
    forall x, y { HashPairsInFirstPass(w, w1, x, y); }
    FreedWithoutBirths(w, PlanOf(w), w1);
    FreedObjects(w, PlanOf(w), w1, NO_BIRTHS);
    PlanContainsPasses(w);
    HashPairsAreFree(w);
    forall x ensures x in RestGitHub(w1) <==> x in RestGitHub(w) {
      if x in HashPairs(w) { assert Joins(HashPairs(w), x, HashPairs(w)[x]); }
      if x in HashPairs(w1) { assert Joins(HashPairs(w1), x, HashPairs(w1)[x]); }
    }
    forall y ensures y in RestForgejo(w1) <==> y in RestForgejo(w) {
      RestForgejoInFirstPass(w, w1, y);
    }
    assert Slots(w1.github, RestGitHub(w1)) == Slots(w.github, RestGitHub(w));
    assert Slots(w1.forgejo, RestForgejo(w1)) == Slots(w.forgejo, RestForgejo(w));
  }

  lemma RestForgejoInFirstPass(w: World, w1: World, y: Id)
    requires PlanFacts(w, PlanOf(w), NO_BIRTHS) && Freed(w, PlanOf(w), w1, NO_BIRTHS) && NoneLinked(w1, SlotPairs(w))
    requires forall x, y :: Joins(HashPairs(w1), x, y) <==> Joins(HashPairs(w), x, y) && !Linked(w1, x, y)
    ensures y in RestForgejo(w1) <==> y in RestForgejo(w)
  {
    hide PlanOf, HashPairs, SlotPairs, FreeGitHub, FreeForgejo, PlanFacts, Freed, Linked;
    FreedWithoutBirths(w, PlanOf(w), w1);
    PlanContainsPasses(w);
    HashPairsAreFree(w);
    PlanFactsInjective(w, NO_BIRTHS);
    if y in HashPairs(w).Values {
      var x :| x in HashPairs(w) && HashPairs(w)[x] == y;
      assert Joins(HashPairs(w), x, y) && Joins(PlanOf(w).join, x, y);
      if !Linked(w1, x, y) { assert Joins(HashPairs(w1), x, y); }
    }
    if y in HashPairs(w1).Values {
      var x :| x in HashPairs(w1) && HashPairs(w1)[x] == y;
      assert Joins(HashPairs(w1), x, y);
    }
    if y in FreeForgejo(w) && y !in FreeForgejo(w1) {
      var x :| Joins(PlanOf(w).join, x, y) && Linked(w1, x, y);
      assert Joins(HashPairs(w), x, y);
    }
  }

  /** Nothing changes for the leftovers, and nothing for the condition. */
  lemma FirstPassResumes(w: World, w1: World)
    requires Valid(w) && Interrupted(w, PlanOf(w), w1, NO_BIRTHS) && NoneLinked(w1, SlotPairs(w))
    ensures Resumes(w, w1, NO_BIRTHS) && (CrashProof(w) ==> CrashProof(w1))
  {
    hide PlanOf, HashPairs, SlotPairs, FreeGitHub, FreeForgejo, RestGitHub, RestForgejo, PlanFacts, Freed, Linked, Valid, Interrupted,
      Crossed, SlotTaken, LeftoversDiffer;
    FreedAfterStop(w, w1, NO_BIRTHS);
    FirstPassPlan(w, w1);
    LeftIsRest(w);
    LeftIsRest(w1);
    PlanContainsPasses(w);
    PlanContainsPasses(w1);
    forall x | x in PlanOf(w1).join ensures Mates(PlanOf(w), NO_BIRTHS, x, PlanOf(w1).join[x]) {
      if x in HashPairs(w1) { assert Joins(HashPairs(w1), x, PlanOf(w1).join[x]); }
    }
    FreedObjects(w, PlanOf(w), w1, NO_BIRTHS);
    SameLeftoversDiffer(w, w1);
    if CrashProof(w) {
      forall x, y ensures !Crossed(w1, x, y) { SameRestCrosses(w, w1, x, y); }
    }
  }

  /** The leftovers' objects are the same ones. */
  ghost predicate FewerLeftovers(w: World, w1: World)
  {
    && PlanOf(w1).leftGitHub <= PlanOf(w).leftGitHub && PlanOf(w1).leftForgejo == PlanOf(w).leftForgejo
    && SameObjects(w, w1)
  }

  lemma SameLeftoversDiffer(w: World, w1: World)
    requires FewerLeftovers(w, w1)
    ensures LeftoversDiffer(w) ==> LeftoversDiffer(w1)
    ensures forall x, y :: SlotTaken(w1, x, y) ==> SlotTaken(w, x, y)
  {
    hide PlanOf, FreeGitHub, FreeForgejo;
    PlanSplits(w);
    assert PlanOf(w).leftGitHub <= FreeGitHub(w) && PlanOf(w).leftForgejo <= FreeForgejo(w);
  }

  lemma SameRestCrosses(w: World, w1: World, x: Id, y: Id)
    requires RestGitHub(w1) == RestGitHub(w) && RestForgejo(w1) == RestForgejo(w) && SlotPairs(w1) == SlotPairs(w) && SameObjects(w, w1)
    ensures Crossed(w1, x, y) ==> Crossed(w, x, y)
  {
    hide RestGitHub, RestForgejo, SlotPairs, FreeGitHub, FreeForgejo;
    RestIsFree(w);
  }

  // ---- stops in the second pass ----

  /** Free are those the first pass left and the second has not recorded. */
  lemma FreeInSecondPass(w: World, w1: World)
    requires PlanFacts(w, PlanOf(w), NO_BIRTHS) && Freed(w, PlanOf(w), w1, NO_BIRTHS) && AllLinked(w1, HashPairs(w))
    ensures forall x :: x in FreeGitHub(w1) <==> x in RestGitHub(w) && !(x in SlotPairs(w) && Linked(w1, x, SlotPairs(w)[x]))
    ensures forall y :: y in FreeForgejo(w1) <==> y in RestForgejo(w) && forall x :: Joins(SlotPairs(w), x, y) ==> !Linked(w1, x, y)
  {
    hide PlanOf, HashPairs, SlotPairs, FreeGitHub, FreeForgejo, PlanFacts, Freed, Linked;
    var h, s, p := HashPairs(w), SlotPairs(w), PlanOf(w);
    FreedWithoutBirths(w, p, w1);
    PlanContainsPasses(w);
    HashPairsAreFree(w);
    PlanFactsInjective(w, NO_BIRTHS);
    forall y ensures y in FreeForgejo(w1) <==> y in RestForgejo(w) && forall x :: Joins(s, x, y) ==> !Linked(w1, x, y) {
      if y in h.Values {
        var x :| x in h && h[x] == y;
        assert Joins(p.join, x, y);
      }
      if y in FreeForgejo(w) && y !in FreeForgejo(w1) && y !in h.Values {
        var x :| Joins(p.join, x, y) && Linked(w1, x, y);
        assert x !in h ==> Joins(s, x, y);
      }
      forall x | Joins(s, x, y) ensures Joins(p.join, x, y) {}
    }
  }

  /** A wrong pair found by content comes from a crossing. */
  lemma WrongPairCrosses(w: World, w1: World, x: Id, y: Id)
    requires PlanFacts(w, PlanOf(w), NO_BIRTHS) && Freed(w, PlanOf(w), w1, NO_BIRTHS) && AllLinked(w1, HashPairs(w))
    requires Joins(HashPairs(w1), x, y)
    ensures Joins(SlotPairs(w), x, y) || Crossed(w, x, y)
  {
    hide PlanOf, HashPairs, SlotPairs, FreeGitHub, FreeForgejo, RestGitHub, RestForgejo, PlanFacts, Freed, Linked;
    var s := SlotPairs(w);
    FreeInSecondPass(w, w1);
    FreedObjects(w, PlanOf(w), w1, NO_BIRTHS);
    RestIsFree(w);
    FreeExists(w1);
    HashPairIsMatch(w1, x, y);
    SlotPairsInjective(w);
    forall u | u in RestGitHub(w) && GitHubTwins(w, x, u) && u != x ensures u in s && s[u] != y {
      assert u !in FreeGitHub(w1);
      assert Joins(s, u, s[u]) && Linked(w1, u, s[u]);
    }
    forall v | v in RestForgejo(w) && ForgejoTwins(w, y, v) && v != y ensures exists u :: Joins(s, u, v) && u != x {
      assert v !in FreeForgejo(w1);
      var u :| Joins(s, u, v) && Linked(w1, u, v);
    }
  }

  lemma SlotPairsInjective(w: World)
    ensures forall x, x', y :: Joins(SlotPairs(w), x, y) && Joins(SlotPairs(w), x', y) ==> x == x'
  {
    hide PlanOf;
    PlanSplits(w);
    PlanContainsPasses(w);
  }

  /** If nothing crosses, the first pass now finds only pairs that the second would find. */
  ghost predicate OnlySlotPairs(w: World, w1: World)
  {
    forall x, y :: Joins(HashPairs(w1), x, y) ==> Joins(SlotPairs(w), x, y)
  }

  lemma SlotPairsInSecondPass(w: World, w1: World, x: Id, y: Id)
    requires PlanFacts(w, PlanOf(w), NO_BIRTHS) && Freed(w, PlanOf(w), w1, NO_BIRTHS) && AllLinked(w1, HashPairs(w))
    requires OnlySlotPairs(w, w1)
    ensures Joins(SlotPairs(w1), x, y) <==> Joins(SlotPairs(w), x, y) && x in RestGitHub(w1)
    ensures Joins(SlotPairs(w), x, y) ==> (x in RestGitHub(w1) <==> y in RestForgejo(w1))
  {
    hide PlanOf, HashPairs, SlotPairs, FreeGitHub, FreeForgejo, PlanFacts, Freed, Linked;
    RestInSecondPass(w, w1);
    hide RestGitHub, RestForgejo;
    FreedObjects(w, PlanOf(w), w1, NO_BIRTHS);
    RestIsFree(w);
    SlotPairIsMatch(w, x, y);
    SlotPairIsMatch(w1, x, y);
    forall u | u in RestGitHub(w) && u !in RestGitHub(w1) ensures u in SlotPairs(w) {}
    forall u | u in SlotPairs(w) { SlotPairIsMatch(w, u, SlotPairs(w)[u]); }
    if Joins(SlotPairs(w1), x, y) && !Joins(SlotPairs(w), x, y) {
      SlotPairStays(w, w1, x, y);
    }
  }

  /** What is left over for the second pass, in terms of what was. */
  lemma RestInSecondPass(w: World, w1: World)
    requires PlanFacts(w, PlanOf(w), NO_BIRTHS) && Freed(w, PlanOf(w), w1, NO_BIRTHS) && AllLinked(w1, HashPairs(w))
    requires OnlySlotPairs(w, w1)
    ensures RestGitHub(w1) <= RestGitHub(w) && RestForgejo(w1) <= RestForgejo(w)
    ensures forall x :: x in RestGitHub(w) && x !in RestGitHub(w1) ==> x in SlotPairs(w) && SlotPairs(w)[x] !in RestForgejo(w1)
    ensures forall y :: y in RestForgejo(w) && y !in RestForgejo(w1) ==> exists x :: Joins(SlotPairs(w), x, y) && x !in RestGitHub(w1)
  {
    hide PlanOf, HashPairs, SlotPairs, FreeGitHub, FreeForgejo, PlanFacts, Freed, Linked;
    var s, h1 := SlotPairs(w), HashPairs(w1);
    FreeInSecondPass(w, w1);
    SlotPairsInjective(w);
    HashPairsAreFree(w1);
    forall x | x in RestGitHub(w) && x !in RestGitHub(w1) ensures x in s && s[x] !in RestForgejo(w1) {
      if x in h1 {
        assert Joins(h1, x, h1[x]) && h1[x] in h1.Values;
      } else {
        assert Joins(s, x, s[x]);
      }
    }
    forall y | y in RestForgejo(w) && y !in RestForgejo(w1) ensures exists x :: Joins(s, x, y) && x !in RestGitHub(w1) {
      if y in h1.Values {
        var x :| x in h1 && h1[x] == y;
        assert Joins(h1, x, y);
      } else {
        var x :| Joins(s, x, y) && Linked(w1, x, y);
        assert x in s && s[x] == y;
      }
    }
  }

  /** Fewer objects do not make a slot unique that was not: whole pairs of the pass are missing. */
  lemma SlotPairStays(w: World, w1: World, x: Id, y: Id)
    requires PlanFacts(w, PlanOf(w), NO_BIRTHS) && Freed(w, PlanOf(w), w1, NO_BIRTHS) && AllLinked(w1, HashPairs(w))
    requires OnlySlotPairs(w, w1) && Joins(SlotPairs(w1), x, y)
    ensures Joins(SlotPairs(w), x, y)
  {
    hide PlanOf, HashPairs, SlotPairs, FreeGitHub, FreeForgejo, PlanFacts, Freed, Linked;
    RestInSecondPass(w, w1);
    hide RestGitHub, RestForgejo;
    FreedObjects(w, PlanOf(w), w1, NO_BIRTHS);
    RestIsFree(w);
    SlotPairIsMatch(w, x, y);
    SlotPairIsMatch(w1, x, y);
    forall u | u in RestGitHub(w) && u in w.github && SameSlot(w.github[u], w.github[x]) ensures u == x {
      if u !in RestGitHub(w1) { SlotPairIsMatch(w, u, SlotPairs(w)[u]); }
    }
    forall v | v in RestForgejo(w) && v in w.forgejo && SameSlot(w.forgejo[v], w.forgejo[y]) ensures v == y {
      if v !in RestForgejo(w1) {
        var u :| Joins(SlotPairs(w), u, v) && u !in RestGitHub(w1);
        SlotPairIsMatch(w, u, v);
      }
    }
  }

  lemma LeftoversInSecondPass(w: World, w1: World)
    requires PlanFacts(w, PlanOf(w), NO_BIRTHS) && Freed(w, PlanOf(w), w1, NO_BIRTHS) && AllLinked(w1, HashPairs(w))
    requires OnlySlotPairs(w, w1)
    ensures PlanOf(w1).leftGitHub == PlanOf(w).leftGitHub && PlanOf(w1).leftForgejo == PlanOf(w).leftForgejo
  {
    hide PlanOf, HashPairs, SlotPairs, FreeGitHub, FreeForgejo, PlanFacts, Freed, Linked;
    var s, s1 := SlotPairs(w), SlotPairs(w1);
    RestInSecondPass(w, w1);
    hide RestGitHub, RestForgejo;
    LeftIsRest(w);
    LeftIsRest(w1);
    forall x, y { SlotPairsInSecondPass(w, w1, x, y); }
    forall x ensures x in PlanOf(w1).leftGitHub <==> x in PlanOf(w).leftGitHub {
      if x in s1 { assert Joins(s1, x, s1[x]); }
      if x in s { assert Joins(s, x, s[x]); }
    }
    forall y ensures y in PlanOf(w1).leftForgejo <==> y in PlanOf(w).leftForgejo {
      if y in s1.Values { var x :| x in s1 && s1[x] == y; assert Joins(s1, x, y) && Joins(s, x, y); }
      if y in s.Values { var x :| x in s && s[x] == y; assert Joins(s, x, y); }
    }
  }

  lemma CrossedBefore(w: World, w1: World, x: Id, y: Id)
    requires PlanFacts(w, PlanOf(w), NO_BIRTHS) && Freed(w, PlanOf(w), w1, NO_BIRTHS) && AllLinked(w1, HashPairs(w))
    requires OnlySlotPairs(w, w1) && Crossed(w1, x, y)
    ensures Crossed(w, x, y)
  {
    hide PlanOf, HashPairs, SlotPairs, FreeGitHub, FreeForgejo, RestGitHub, RestForgejo, PlanFacts, Freed, Linked;
    var s, s1 := SlotPairs(w), SlotPairs(w1);
    RestInSecondPass(w, w1);
    FreedObjects(w, PlanOf(w), w1, NO_BIRTHS);
    RestIsFree(w);
    forall x, y { SlotPairsInSecondPass(w, w1, x, y); }
    forall u | u in RestGitHub(w) && GitHubTwins(w, x, u) && u != x ensures u in s && s[u] != y {
      if u in RestGitHub(w1) { assert GitHubTwins(w1, x, u) && Joins(s1, u, s1[u]); }
    }
    forall v | v in RestForgejo(w) && ForgejoTwins(w, y, v) && v != y ensures exists u :: Joins(s, u, v) && u != x {
      if v in RestForgejo(w1) {
        assert ForgejoTwins(w1, y, v);
        var u :| Joins(s1, u, v) && u != x;
        assert Joins(s, u, v);
      }
    }
  }

  lemma SecondPassResumes(w: World, w1: World)
    requires Valid(w) && CrashProof(w) && Interrupted(w, PlanOf(w), w1, NO_BIRTHS) && AllLinked(w1, HashPairs(w))
    ensures Resumes(w, w1, NO_BIRTHS) && CrashProof(w1)
  {
    hide PlanOf, HashPairs, SlotPairs, FreeGitHub, FreeForgejo, RestGitHub, RestForgejo, PlanFacts, Freed, Linked, Valid, Interrupted,
      Crossed, SlotTaken, LeftoversDiffer;
    FreedAfterStop(w, w1, NO_BIRTHS);
    forall x, y | Joins(HashPairs(w1), x, y) ensures Joins(SlotPairs(w), x, y) { WrongPairCrosses(w, w1, x, y); }
    LeftoversInSecondPass(w, w1);
    PlanContainsPasses(w);
    PlanContainsPasses(w1);
    forall x | x in PlanOf(w1).join ensures Mates(PlanOf(w), NO_BIRTHS, x, PlanOf(w1).join[x]) {
      SlotPairsInSecondPass(w, w1, x, PlanOf(w1).join[x]);
      assert Joins(SlotPairs(w), x, PlanOf(w1).join[x]);
    }
    FreedObjects(w, PlanOf(w), w1, NO_BIRTHS);
    SameLeftoversDiffer(w, w1);
    forall x, y ensures !Crossed(w1, x, y) { if Crossed(w1, x, y) { CrossedBefore(w, w1, x, y); } }
  }

  // ---- stops while GitHub's leftovers are copied ----

  ghost predicate AtForgejoCopies(w: World, w1: World, b: Births)
  {
    PlanFacts(w, PlanOf(w), b) && Freed(w, PlanOf(w), w1, b) && AllLinked(w1, PlanOf(w).join) && b.github == map[]
  }

  /** A copy without its row. */
  ghost predicate Pending(w1: World, b: Births, n: Id)
  {
    n in b.forgejo && !Linked(w1, b.forgejo[n], n)
  }

  lemma FreeAtForgejoCopies(w: World, w1: World, b: Births)
    requires AtForgejoCopies(w, w1, b)
    ensures forall x :: x in FreeGitHub(w1) <==> x in PlanOf(w).leftGitHub && forall n :: Joins(b.forgejo, n, x) ==> Pending(w1, b, n)
    ensures forall y :: y in FreeForgejo(w1) <==> y in PlanOf(w).leftForgejo || Pending(w1, b, y)
  {
    hide PlanOf, FreeGitHub, FreeForgejo, Linked;
    var p := PlanOf(w);
    forall x ensures x in FreeGitHub(w1) <==> x in p.leftGitHub && forall n :: Joins(b.forgejo, n, x) ==> Pending(w1, b, n) {
      if x in p.join { assert Mates(p, b, x, p.join[x]); }
      forall n | Joins(b.forgejo, n, x) ensures Mates(p, b, x, n) {}
      if y :| Mates(p, b, x, y) && Linked(w1, x, y) { assert x !in p.join ==> Joins(b.forgejo, y, x); }
    }
    forall y ensures y in FreeForgejo(w1) <==> y in p.leftForgejo || Pending(w1, b, y) {
      if y in p.join.Values {
        var x :| x in p.join && p.join[x] == y;
        assert Mates(p, b, x, y);
      }
      if y in b.forgejo { assert Mates(p, b, b.forgejo[y], y); }
      if x :| Mates(p, b, x, y) && Linked(w1, x, y) { assert y in p.join.Values || Joins(b.forgejo, y, x); }
      assert y in FreeForgejo(w) ==> y in w.forgejoUsed;
    }
  }

  /** Each copy without a row is found by its content, and nothing else. */
  lemma HashPairsAtForgejoCopies(w: World, w1: World, b: Births, x: Id, y: Id)
    requires AtForgejoCopies(w, w1, b) && Framed(w, w1, b) && LeftoversDiffer(w)
    ensures Joins(HashPairs(w1), x, y) <==> Joins(b.forgejo, y, x) && Pending(w1, b, y)
  {
    CopyContents(w, w1, b);
    hide PlanOf, HashPairs, FreeGitHub, FreeForgejo, Linked, Framed;
    FreeAtForgejoCopies(w, w1, b);
    LeftoversExist(w, w1, b);
    hide AtForgejoCopies;
    BirthsInjective(w, b);
    HashPairIsMatch(w1, x, y);
    if Joins(HashPairs(w1), x, y) {
      assert y in PlanOf(w).leftForgejo ==> SameContent(w, x, y);
      assert Pending(w1, b, y) ==> GitHubTwins(w, x, b.forgejo[y]);
    }
    if Joins(b.forgejo, y, x) && Pending(w1, b, y) {
      forall v | v in FreeForgejo(w1) && v in w1.forgejo && w1.forgejo[v].content == w1.forgejo[y].content ensures v == y {
        assert v in PlanOf(w).leftForgejo ==> SameContent(w, x, v);
        assert Pending(w1, b, v) ==> GitHubTwins(w, x, b.forgejo[v]);
      }
      forall u | u in FreeGitHub(w1) && u in w1.github && w1.github[u].content == w1.github[x].content ensures u == x {
        assert GitHubTwins(w, x, u);
      }
    }
  }

  lemma CopyContents(w: World, w1: World, b: Births)
    requires PlanFacts(w, PlanOf(w), b) && Framed(w, w1, b)
    ensures forall n :: n in b.forgejo ==> b.forgejo[n] in w.github && n in w1.forgejo && w1.forgejo[n].content == w.github[b.forgejo[n]].content
    ensures forall n :: n in b.github ==> b.github[n] in w.forgejo && n in w1.github && w1.github[n].content == w.forgejo[b.github[n]].content
  {
    hide PlanOf;
    FreeUnchanged(w, PlanOf(w), w1, b);
  }

  lemma BirthsInjective(w: World, b: Births)
    requires PlanFacts(w, PlanOf(w), b)
    ensures forall n, m, x :: Joins(b.forgejo, n, x) && Joins(b.forgejo, m, x) ==> n == m
    ensures forall n, m, y :: Joins(b.github, n, y) && Joins(b.github, m, y) ==> n == m
    ensures forall n :: n in b.forgejo ==> b.forgejo[n] in PlanOf(w).leftGitHub && n !in w.forgejo && n !in PlanOf(w).leftForgejo
    ensures forall n :: n in b.github ==> b.github[n] in PlanOf(w).leftForgejo && n !in w.github && n !in PlanOf(w).leftGitHub
  {
    hide PlanOf;
    PlanSplits(w);
    FreeExists(w);
    var p := PlanOf(w);
    assert p.leftGitHub <= FreeGitHub(w) && p.leftForgejo <= FreeForgejo(w);
  }

  lemma LeftoversExist(w: World, w1: World, b: Births)
    requires Freed(w, PlanOf(w), w1, b)
    ensures forall x :: x in PlanOf(w).leftGitHub ==> x in w.github && x in w1.github && w1.github[x] == w.github[x]
    ensures forall y :: y in PlanOf(w).leftForgejo ==> y in w.forgejo && y in w1.forgejo && w1.forgejo[y] == w.forgejo[y]
  {
    hide PlanOf, FreeGitHub, FreeForgejo;
    PlanSplits(w);
    assert PlanOf(w).leftGitHub <= FreeGitHub(w) && PlanOf(w).leftForgejo <= FreeForgejo(w);
  }

  lemma RestAtForgejoCopies(w: World, w1: World, b: Births)
    requires AtForgejoCopies(w, w1, b) && Framed(w, w1, b) && LeftoversDiffer(w)
    ensures RestGitHub(w1) == PlanOf(w).leftGitHub - b.forgejo.Values && RestForgejo(w1) == PlanOf(w).leftForgejo
  {
    hide PlanOf, HashPairs, FreeGitHub, FreeForgejo, Linked, Framed, LeftoversDiffer;
    FreeAtForgejoCopies(w, w1, b);
    forall x, y { HashPairsAtForgejoCopies(w, w1, b, x, y); }
    hide Freed;
    BirthsInjective(w, b);
    forall x ensures x in RestGitHub(w1) <==> x in PlanOf(w).leftGitHub - b.forgejo.Values {
      if x in b.forgejo.Values {
        var n :| n in b.forgejo && b.forgejo[n] == x;
        assert Joins(b.forgejo, n, x);
        if x in FreeGitHub(w1) { assert Joins(HashPairs(w1), x, n); }
      }
      if x in HashPairs(w1) { assert Joins(HashPairs(w1), x, HashPairs(w1)[x]); }
    }
    forall y ensures y in RestForgejo(w1) <==> y in PlanOf(w).leftForgejo {
      if Pending(w1, b, y) { assert Joins(HashPairs(w1), b.forgejo[y], y); }
      if y in HashPairs(w1).Values {
        var x :| x in HashPairs(w1) && HashPairs(w1)[x] == y;
        assert Joins(HashPairs(w1), x, y);
      }
    }
  }

  lemma SlotPairIsTaken(w: World, w1: World, b: Births, x: Id)
    requires AtForgejoCopies(w, w1, b) && Framed(w, w1, b) && LeftoversDiffer(w) && x in SlotPairs(w1)
    ensures SlotTaken(w, x, SlotPairs(w1)[x])
  {
    hide PlanOf, HashPairs, SlotPairs, FreeGitHub, FreeForgejo, Linked, Framed, LeftoversDiffer;
    RestAtForgejoCopies(w, w1, b);
    hide RestGitHub, RestForgejo;
    LeftoversExist(w, w1, b);
    SlotPairIsMatch(w1, x, SlotPairs(w1)[x]);
  }

  lemma ForgejoCopiesResume(w: World, w1: World, b: Births)
    requires Valid(w) && CrashProof(w) && Interrupted(w, PlanOf(w), w1, b) && AllLinked(w1, PlanOf(w).join) && b.github == map[]
    ensures Resumes(w, w1, b) && CrashProof(w1)
  {
    hide PlanOf, HashPairs, SlotPairs, FreeGitHub, FreeForgejo, RestGitHub, RestForgejo, PlanFacts, Freed, Linked, Valid, Interrupted,
      SlotTaken, LeftoversDiffer, Framed;
    FreedAfterStop(w, w1, b);
    InterruptedParts(w, PlanOf(w), w1, b);
    RestAtForgejoCopies(w, w1, b);
    forall x | x in SlotPairs(w1) ensures SlotTaken(w, x, SlotPairs(w1)[x]) { SlotPairIsTaken(w, w1, b, x); }
    assert SlotPairs(w1) == map[];
    LeftIsRest(w1);
    PlanContainsPasses(w1);
    forall x | x in PlanOf(w1).join ensures Mates(PlanOf(w), b, x, PlanOf(w1).join[x]) {
      assert Joins(HashPairs(w1), x, PlanOf(w1).join[x]);
      HashPairsAtForgejoCopies(w, w1, b, x, PlanOf(w1).join[x]);
    }
    FreedObjects(w, PlanOf(w), w1, b);
    SameLeftoversDiffer(w, w1);
    forall x, y | Crossed(w1, x, y) ensures x in PlanOf(w).leftGitHub && y in PlanOf(w).leftForgejo && SameContent(w, x, y) {
      CrossedLeftovers(w, w1, b, x, y);
    }
    assert LeftoversDiffer(w);
    NoEqualLeftovers(w);
  }

  lemma NoEqualLeftovers(w: World)
    requires LeftoversDiffer(w)
    ensures forall x, y :: x in PlanOf(w).leftGitHub && y in PlanOf(w).leftForgejo ==> !SameContent(w, x, y)
  {
  }

  lemma CrossedLeftovers(w: World, w1: World, b: Births, x: Id, y: Id)
    requires Freed(w, PlanOf(w), w1, b) && Crossed(w1, x, y)
    requires RestGitHub(w1) <= PlanOf(w).leftGitHub && RestForgejo(w1) <= PlanOf(w).leftForgejo
    ensures x in PlanOf(w).leftGitHub && y in PlanOf(w).leftForgejo && SameContent(w, x, y)
  {
    hide PlanOf, HashPairs, SlotPairs, FreeGitHub, FreeForgejo, RestGitHub, RestForgejo;
    LeftoversExist(w, w1, b);
  }

  // ---- stops while Forgejo's leftovers are copied ----

  ghost predicate AtGitHubCopies(w: World, w1: World, b: Births)
  {
    && PlanFacts(w, PlanOf(w), b) && Freed(w, PlanOf(w), w1, b) && AllLinked(w1, PlanOf(w).join)
    && b.forgejo.Values == PlanOf(w).leftGitHub && (forall n :: n in b.forgejo ==> Linked(w1, b.forgejo[n], n))
  }

  ghost predicate PendingGitHub(w1: World, b: Births, n: Id)
  {
    n in b.github && !Linked(w1, n, b.github[n])
  }

  lemma FreeAtGitHubCopies(w: World, w1: World, b: Births)
    requires AtGitHubCopies(w, w1, b)
    ensures forall x :: x in FreeGitHub(w1) <==> PendingGitHub(w1, b, x)
    ensures forall y :: y in FreeForgejo(w1) <==> y in PlanOf(w).leftForgejo && forall n :: Joins(b.github, n, y) ==> PendingGitHub(w1, b, n)
  {
    hide PlanOf, FreeGitHub, FreeForgejo, Linked;
    var p := PlanOf(w);
    forall x ensures x in FreeGitHub(w1) <==> PendingGitHub(w1, b, x) {
      if x in p.join { assert Mates(p, b, x, p.join[x]); }
      if x in p.leftGitHub {
        var n :| n in b.forgejo && b.forgejo[n] == x;
        assert Mates(p, b, x, n);
      }
      if x in b.github { assert Mates(p, b, x, b.github[x]); }
      if y :| Mates(p, b, x, y) && Linked(w1, x, y) { assert x in p.join || x in p.leftGitHub || Joins(b.github, x, y); }
      assert x in FreeGitHub(w) ==> x in w.githubUsed;
    }
    forall y ensures y in FreeForgejo(w1) <==> y in p.leftForgejo && forall n :: Joins(b.github, n, y) ==> PendingGitHub(w1, b, n) {
      if y in p.join.Values {
        var x :| x in p.join && p.join[x] == y;
        assert Mates(p, b, x, y);
      }
      if y in b.forgejo { assert Mates(p, b, b.forgejo[y], y); }
      forall n | Joins(b.github, n, y) ensures Mates(p, b, n, y) {}
      if x :| Mates(p, b, x, y) && Linked(w1, x, y) { assert y in p.join.Values || y in b.forgejo || Joins(b.github, x, y); }
      assert y in FreeForgejo(w) ==> y in w.forgejoUsed;
    }
  }

  lemma HashPairsAtGitHubCopies(w: World, w1: World, b: Births, x: Id, y: Id)
    requires AtGitHubCopies(w, w1, b) && Framed(w, w1, b) && LeftoversDiffer(w)
    ensures Joins(HashPairs(w1), x, y) <==> Joins(b.github, x, y) && PendingGitHub(w1, b, x)
  {
    hide PlanOf, HashPairs, FreeGitHub, FreeForgejo, Linked, Framed, AtGitHubCopies, LeftoversDiffer;
    HashPairIsMatch(w1, x, y);
    if Joins(HashPairs(w1), x, y) {
      EqualAtGitHubCopies(w, w1, b, x, y);
    } else if Joins(b.github, x, y) && PendingGitHub(w1, b, x) {
      PendingIsAlone(w, w1, b, x, y);
    }
  }

  lemma EqualAtGitHubCopies(w: World, w1: World, b: Births, x: Id, y: Id)
    requires AtGitHubCopies(w, w1, b) && Framed(w, w1, b) && LeftoversDiffer(w)
    requires x in FreeGitHub(w1) && y in FreeForgejo(w1) && SameContent(w1, x, y)
    ensures Joins(b.github, x, y) && PendingGitHub(w1, b, x)
  {
    CopyContents(w, w1, b);
    hide PlanOf, FreeGitHub, FreeForgejo, Linked, Framed;
    FreeAtGitHubCopies(w, w1, b);
    LeftoversExist(w, w1, b);
    hide AtGitHubCopies;
    BirthsInjective(w, b);
    assert ForgejoTwins(w, y, b.github[x]);
  }

  lemma PendingIsAlone(w: World, w1: World, b: Births, x: Id, y: Id)
    requires AtGitHubCopies(w, w1, b) && Framed(w, w1, b) && LeftoversDiffer(w)
    requires Joins(b.github, x, y) && PendingGitHub(w1, b, x)
    ensures x in FreeGitHub(w1) && y in FreeForgejo(w1) && SameContent(w1, x, y)
    ensures forall u :: u in FreeGitHub(w1) && u in w1.github && w1.github[u].content == w1.github[x].content ==> u == x
    ensures forall v :: v in FreeForgejo(w1) && v in w1.forgejo && w1.forgejo[v].content == w1.forgejo[y].content ==> v == y
  {
    CopyContents(w, w1, b);
    hide PlanOf, FreeGitHub, FreeForgejo, Linked, Framed, LeftoversDiffer;
    FreeAtGitHubCopies(w, w1, b);
    LeftoversExist(w, w1, b);
    hide AtGitHubCopies, PlanFacts, Freed, PendingGitHub, Mates;
    BirthsInjective(w, b);
    ForgejoLeftoversDiffer(w);
    PendingExists(w1, b);
    forall u | u in FreeGitHub(w1) && u in w1.github && w1.github[u].content == w1.github[x].content ensures u == x {
      assert ForgejoTwins(w, y, b.github[u]);
      assert Joins(b.github, u, y);
    }
    forall v | v in FreeForgejo(w1) && v in w1.forgejo && w1.forgejo[v].content == w1.forgejo[y].content ensures v == y {
      assert ForgejoTwins(w, y, v);
    }
  }

  lemma PendingExists(w1: World, b: Births)
    ensures forall n :: PendingGitHub(w1, b, n) ==> n in b.github
  {
  }

  lemma ForgejoLeftoversDiffer(w: World)
    requires LeftoversDiffer(w)
    ensures forall y, v :: y in PlanOf(w).leftForgejo && v in PlanOf(w).leftForgejo && ForgejoTwins(w, y, v) ==> y == v
  {
    hide PlanOf;
  }

  lemma RestAtGitHubCopies(w: World, w1: World, b: Births)
    requires AtGitHubCopies(w, w1, b) && Framed(w, w1, b) && LeftoversDiffer(w)
    ensures RestGitHub(w1) == {} && RestForgejo(w1) == PlanOf(w).leftForgejo - b.github.Values
  {
    hide PlanOf, HashPairs, FreeGitHub, FreeForgejo, Linked, Framed, LeftoversDiffer;
    FreeAtGitHubCopies(w, w1, b);
    forall x, y { HashPairsAtGitHubCopies(w, w1, b, x, y); }
    hide Freed;
    BirthsInjective(w, b);
    forall x ensures x !in RestGitHub(w1) {
      if PendingGitHub(w1, b, x) { assert Joins(HashPairs(w1), x, b.github[x]); }
    }
    forall y ensures y in RestForgejo(w1) <==> y in PlanOf(w).leftForgejo - b.github.Values {
      if y in b.github.Values {
        var n :| n in b.github && b.github[n] == y;
        assert Joins(b.github, n, y);
        if y in FreeForgejo(w1) { assert Joins(HashPairs(w1), n, y); }
      }
      if y in HashPairs(w1).Values {
        var x :| x in HashPairs(w1) && HashPairs(w1)[x] == y;
        assert Joins(HashPairs(w1), x, y);
      }
    }
  }

  lemma GitHubCopiesResume(w: World, w1: World, b: Births)
    requires Valid(w) && CrashProof(w) && Interrupted(w, PlanOf(w), w1, b) && AllLinked(w1, PlanOf(w).join)
    requires b.forgejo.Values == PlanOf(w).leftGitHub && forall n :: n in b.forgejo ==> Linked(w1, b.forgejo[n], n)
    ensures Resumes(w, w1, b) && CrashProof(w1)
  {
    hide PlanOf, HashPairs, FreeGitHub, FreeForgejo, PlanFacts, Freed, Linked, Valid, Interrupted, LeftoversDiffer, Framed;
    FreedAfterStop(w, w1, b);
    InterruptedParts(w, PlanOf(w), w1, b);
    RestAtGitHubCopies(w, w1, b);
    HashPairsAreFree(w1);
    hide RestGitHub, RestForgejo, SlotPairs;
    LeftIsRest(w1);
    PlanContainsPasses(w1);
    forall x | x in PlanOf(w1).join ensures Mates(PlanOf(w), b, x, PlanOf(w1).join[x]) {
      assert Joins(HashPairs(w1), x, PlanOf(w1).join[x]);
      HashPairsAtGitHubCopies(w, w1, b, x, PlanOf(w1).join[x]);
    }
    assert SlotPairs(w1) == map[];
    assert PlanOf(w1).leftGitHub == {} && PlanOf(w1).leftForgejo == PlanOf(w).leftForgejo - b.github.Values;
    FewerForgejoLeftoversDiffer(w, w1, b);
  }

  lemma FewerForgejoLeftoversDiffer(w: World, w1: World, b: Births)
    requires PlanOf(w1).leftGitHub == {} && PlanOf(w1).leftForgejo <= PlanOf(w).leftForgejo && Freed(w, PlanOf(w), w1, b)
    ensures LeftoversDiffer(w) ==> LeftoversDiffer(w1)
  {
    hide PlanOf, FreeGitHub, FreeForgejo;
    LeftoversExist(w, w1, b);
    forall y, v | ForgejoTwins(w1, y, v) && y in PlanOf(w).leftForgejo && v in PlanOf(w).leftForgejo ensures ForgejoTwins(w, y, v) {}
  }

  // ---- any stop ----

  /** Wherever a run of a crash-proof world stops: the next one plans what is left of its plan, and the
      world is still crash-proof. */
  lemma StopResumes(w: World, w1: World, b: Births)
    requires Valid(w) && CrashProof(w) && Stopped(w, w1, b)
    ensures Resumes(w, w1, b) && CrashProof(w1)
  {
    hide PlanOf, HashPairs, SlotPairs, Valid, CrashProof, Resumes, Interrupted, Linked, RowsDone;
    PlanContainsPasses(w);
    if InRows(w, w1, b) || InFirstPass(w, w1, b) {
      FirstPassResumes(w, w1);
    } else if InSecondPass(w, w1, b) {
      SecondPassResumes(w, w1);
    } else if CopyingToForgejo(w, w1, b) {
      ForgejoCopiesResume(w, w1, b);
    } else {
      GitHubCopiesResume(w, w1, b);
    }
  }
}
