/** What the exact condition for crash safety comes to in simple cases. */
module CrashCases {
  import opened Pairing
  import opened Objects
  import opened Protocol
  import opened Passes
  import opened CrashPlans
  import opened CrashStates

  /** The unmapped objects of each forge differ in content, and in number or tag. */
  ghost predicate DistinctFree(w: World)
  {
    && DistinctContents(w.github, FreeGitHub(w)) && DistinctContents(w.forgejo, FreeForgejo(w))
    && DistinctSlots(w.github, FreeGitHub(w)) && DistinctSlots(w.forgejo, FreeForgejo(w))
  }

  /** Equal contents that are unique on both sides are paired at once. */
  lemma RestDiffers(w: World, x: Id, y: Id)
    requires DistinctContents(w.github, FreeGitHub(w)) && DistinctContents(w.forgejo, FreeForgejo(w))
    requires x in RestGitHub(w) && y in RestForgejo(w)
    ensures !SameContent(w, x, y)
  {
    hide FreeGitHub, FreeForgejo, HashPairs;
    HashPairIsMatch(w, x, y);
    FreeExists(w);
  }

  lemma DistinctLeftoversDiffer(w: World)
    requires DistinctContents(w.github, FreeGitHub(w)) && DistinctContents(w.forgejo, FreeForgejo(w))
    ensures LeftoversDiffer(w)
  {
    hide PlanOf, FreeGitHub, FreeForgejo, HashPairs, SlotPairs, RestGitHub, RestForgejo;
    LeftIsRest(w);
    RestIsFree(w);
    forall x, y | x in PlanOf(w).leftGitHub && y in PlanOf(w).leftForgejo ensures !SameContent(w, x, y) { RestDiffers(w, x, y); }
  }

  lemma DistinctSlotsAreFree(w: World, x: Id, y: Id)
    requires DistinctSlots(w.github, FreeGitHub(w)) && DistinctSlots(w.forgejo, FreeForgejo(w))
    ensures !SlotTaken(w, x, y)
  {
    hide PlanOf, FreeGitHub, FreeForgejo, HashPairs, SlotPairs, RestGitHub, RestForgejo, DistinctSlots;
    LeftIsRest(w);
    RestIsFree(w);
    SlotPairIsMatch(w, x, y);
    if SlotTaken(w, x, y) {
      DistinctSlotsOnly(w.github, FreeGitHub(w), x);
      DistinctSlotsOnly(w.forgejo, FreeForgejo(w), y);
    }
  }

  lemma DistinctSlotsOnly(objects: map<Id, Object>, ids: set<Id>, x: Id)
    requires DistinctSlots(objects, ids) && x in ids && x in objects
    ensures forall u :: u in ids && u in objects && SameSlot(objects[u], objects[x]) ==> u == x
  {
  }

  /** Objects that differ in content, and in number or tag, are crash-proof. */
  lemma DistinctIsCrashProof(w: World)
    requires DistinctFree(w)
    ensures CrashProof(w)
  {
    hide PlanOf, LeftoversDiffer, SlotTaken, DistinctContents, DistinctSlots, RestGitHub, RestForgejo;
    DistinctLeftoversDiffer(w);
    forall x, y ensures !Crossed(w, x, y) { if x in RestGitHub(w) && y in RestForgejo(w) { RestDiffers(w, x, y); } }
    forall x, y { DistinctSlotsAreFree(w, x, y); }
  }

  /** Numbers are unique, so of issues none takes the slot of another. */
  lemma IssuesAreNotTaken(w: World, x: Id, y: Id)
    requires Valid(w) && forall x :: x in w.github ==> w.github[x].content.Issue?
    ensures !SlotTaken(w, x, y)
  {
    hide PlanOf;
    if x in PlanOf(w).leftGitHub && y in PlanOf(w).leftForgejo && x in w.github && y in w.forgejo { IssuesDiffer(w, x, y); }
  }

  /** If nothing is paired by number or tag, the leftovers differ exactly when all unmapped contents
      of each forge do. */
  lemma LeftoversDifferIff(w: World)
    requires SlotPairs(w) == map[]
    ensures LeftoversDiffer(w) <==> DistinctContents(w.github, FreeGitHub(w)) && DistinctContents(w.forgejo, FreeForgejo(w))
  {
    hide PlanOf, FreeGitHub, FreeForgejo, HashPairs, RestGitHub, RestForgejo, LeftoversDiffer;
    if LeftoversDiffer(w) {
      forall x, u | x in FreeGitHub(w) && u in FreeGitHub(w) && GitHubTwins(w, x, u) ensures x == u { UnmappedTwins(w, x, u); }
      forall y, v | y in FreeForgejo(w) && v in FreeForgejo(w) && ForgejoTwins(w, y, v) ensures y == v { UnmappedForgejoTwins(w, y, v); }
    } else if DistinctContents(w.github, FreeGitHub(w)) && DistinctContents(w.forgejo, FreeForgejo(w)) {
      DistinctLeftoversDiffer(w);
    }
  }

  lemma UnmappedTwins(w: World, x: Id, u: Id)
    requires SlotPairs(w) == map[] && LeftoversDiffer(w) && x in FreeGitHub(w) && u in FreeGitHub(w) && GitHubTwins(w, x, u)
    ensures x == u
  {
    LeftIsRest(w);
    hide PlanOf, FreeGitHub, FreeForgejo, HashPairs;
    if x in HashPairs(w) { HashPairIsMatch(w, x, HashPairs(w)[x]); }
    if u in HashPairs(w) { HashPairIsMatch(w, u, HashPairs(w)[u]); }
  }

  lemma UnmappedForgejoTwins(w: World, y: Id, v: Id)
    requires SlotPairs(w) == map[] && LeftoversDiffer(w) && y in FreeForgejo(w) && v in FreeForgejo(w) && ForgejoTwins(w, y, v)
    ensures y == v
  {
    LeftIsRest(w);
    hide PlanOf, FreeGitHub, FreeForgejo, HashPairs;
    if y in HashPairs(w).Values {
      var x :| x in HashPairs(w) && HashPairs(w)[x] == y;
      HashPairIsMatch(w, x, y);
    }
    if v in HashPairs(w).Values {
      var x :| x in HashPairs(w) && HashPairs(w)[x] == v;
      HashPairIsMatch(w, x, v);
    }
  }

  /** Nothing has a number or tag to be recognized by: the objects are comments. */
  ghost predicate NoSlots(w: World)
  {
    && (forall x :: x in w.github ==> !HasSlot(w.github[x]))
    && (forall y :: y in w.forgejo ==> !HasSlot(w.forgejo[y]))
  }

  lemma NoSlotsNoSlotPairs(w: World)
    requires NoSlots(w)
    ensures SlotPairs(w) == map[]
  {
    assert Slots(w.github, RestGitHub(w)) == map[];
  }

  lemma NoSlotsCross(w: World)
    requires NoSlots(w) && LeftoversDiffer(w)
    ensures CrashProof(w)
  {
    hide PlanOf, RestGitHub, RestForgejo, SlotPairs;
    NoSlotsNoSlotPairs(w);
    LeftIsRest(w);
    forall x, y ensures !SlotTaken(w, x, y) {}
  }

  /** Comments are safe from crashes if and only if the unmapped comments of each forge differ, unless
      an orphaned row stops every run anyway. */
  lemma CommentsAreCrashSafeIff(w: World)
    requires Valid(w) && NoSlots(w) && CanComplete(w)
    ensures CrashSafe(w) <==> DistinctContents(w.github, FreeGitHub(w)) && DistinctContents(w.forgejo, FreeForgejo(w))
  {
    hide PlanOf, Valid, FreeGitHub, FreeForgejo, CrashSafe, LeftoversDiffer, DistinctContents, CanComplete;
    NoSlotsNoSlotPairs(w);
    LeftoversDifferIff(w);
    CrashSafeIff(w);
    if LeftoversDiffer(w) { NoSlotsCross(w); }
  }
}
