/** When exactly crashes do no harm.

    For each way in which a world can fail to be crash-proof there is a stop of a
    run after which the next run does not carry on with its plan. */
module CrashStates {
  import opened Pairing
  import opened Objects
  import opened Protocol
  import opened Steps
  import opened Stops
  import opened Forges
  import opened Convergence
  import opened Passes
  import opened CrashRecovery
  import opened AfterStop
  import opened CrashPlans
  import opened CrashSafety
  import opened RunStates

  /** Wherever a run of this world stops, the next one carries on with its plan. */
  ghost predicate CrashSafe(w: World)
  {
    forall w1, b1 :: Stopped(w, w1, b1) ==> Resumes(w, w1, b1)
  }

  /** Apart from pinned worlds: an orphaned row makes every run stop before it completes. */
  ghost predicate CanComplete(w: World)
  {
    w.pins || !Orphaned(w)
  }

  // ---- two pairs that cross ----

  /** The stop after all pairs by content, and all by number or tag except those of x and y. */
  lemma CrossedIsMispaired(w: World, x: Id, y: Id) returns (w1: World)
    requires Valid(w) && CanComplete(w) && Crossed(w, x, y)
    ensures Stopped(w, w1, NO_BIRTHS) && Joins(PlanOf(w1).join, x, y) && !Mates(PlanOf(w), NO_BIRTHS, x, y)
  {
    hide PlanOf, HashPairs, SlotPairs, FreeGitHub, FreeForgejo, RestGitHub, RestForgejo, PlanFacts, Freed, Valid, Stage, Orphaned, Stopped;
    var h, s := HashPairs(w), SlotPairs(w);
    var joined := h.Keys + set u | u in s && u != x && s[u] != y;
    PlanContainsPasses(w);
    w1 := RecordPairs(w, joined);
    SecondPassStop(w, w1, joined);
    StoppedIsInterrupted(w, w1, NO_BIRTHS);
    FreedAfterStop(w, w1, NO_BIRTHS);
    JoinedAreLinked(w, w1, NO_BIRTHS, joined);
    assert AllLinked(w1, h);
    FreeInSecondPass(w, w1);
    FreedObjects(w, PlanOf(w), w1, NO_BIRTHS);
    RestIsFree(w);
    HashPairsAreFree(w);
    CrossedAreFree(w, w1, x, y, joined);
    CrossedAreAlone(w, w1, x, y, joined);
    HashPairIsMatch(w1, x, y);
    PlanContainsPasses(w1);
    InRestIsNotHashed(w, x);
  }

  lemma InRestIsNotHashed(w: World, x: Id)
    ensures x in RestGitHub(w) ==> x !in HashPairs(w)
  {
  }

  lemma CrossedAreFree(w: World, w1: World, x: Id, y: Id, joined: set<Id>)
    requires Crossed(w, x, y) && OnlyJoined(w, w1, joined)
    requires joined == HashPairs(w).Keys + set u | u in SlotPairs(w) && u != x && SlotPairs(w)[u] != y
    requires forall x :: x in FreeGitHub(w1) <==> x in RestGitHub(w) && !(x in SlotPairs(w) && Linked(w1, x, SlotPairs(w)[x]))
    requires forall y :: y in FreeForgejo(w1) <==> y in RestForgejo(w) && forall x :: Joins(SlotPairs(w), x, y) ==> !Linked(w1, x, y)
    ensures x in FreeGitHub(w1) && y in FreeForgejo(w1)
  {
    hide PlanOf, HashPairs, SlotPairs, FreeGitHub, FreeForgejo, RestGitHub, RestForgejo, Linked;
    PlanContainsPasses(w);
    forall u | u in SlotPairs(w) { InRestIsNotHashed(w, u); }
  }

  lemma CrossedAreAlone(w: World, w1: World, x: Id, y: Id, joined: set<Id>)
    requires Crossed(w, x, y) && SameObjects(w, w1) && RestGitHub(w) <= FreeGitHub(w) && RestForgejo(w) <= FreeForgejo(w)
    requires joined == HashPairs(w).Keys + set u | u in SlotPairs(w) && u != x && SlotPairs(w)[u] != y
    requires forall u :: u in joined && u in SlotPairs(w) ==> Linked(w1, u, SlotPairs(w)[u])
    requires forall x :: x in FreeGitHub(w1) <==> x in RestGitHub(w) && !(x in SlotPairs(w) && Linked(w1, x, SlotPairs(w)[x]))
    requires forall y :: y in FreeForgejo(w1) <==> y in RestForgejo(w) && forall x :: Joins(SlotPairs(w), x, y) ==> !Linked(w1, x, y)
    ensures SameContent(w1, x, y)
    ensures forall u :: u in FreeGitHub(w1) && u in w1.github && w1.github[u].content == w1.github[x].content ==> u == x
    ensures forall v :: v in FreeForgejo(w1) && v in w1.forgejo && w1.forgejo[v].content == w1.forgejo[y].content ==> v == y
  {
    hide PlanOf, HashPairs, SlotPairs, FreeGitHub, FreeForgejo, RestGitHub, RestForgejo, Linked;
    var s := SlotPairs(w);
    forall u | u in FreeGitHub(w1) && u in w1.github && w1.github[u].content == w1.github[x].content ensures u == x {
      assert GitHubTwins(w, x, u);
    }
    forall v | v in RestForgejo(w) && ForgejoTwins(w, y, v) && v != y ensures v !in FreeForgejo(w1) {
      var u :| Joins(s, u, v) && u != x;
      assert u in joined && Linked(w1, u, v);
    }
    forall v | v in FreeForgejo(w1) && v in w1.forgejo && w1.forgejo[v].content == w1.forgejo[y].content ensures v == y {
      assert ForgejoTwins(w, y, v);
    }
  }

  // ---- a slot taken by another leftover ----

  /** The stop after every other leftover of GitHub was copied. */
  lemma TakenSlotIsMispaired(w: World, x: Id, y: Id) returns (w1: World, b1: Births)
    requires Valid(w) && CanComplete(w) && LeftoversDiffer(w) && SlotTaken(w, x, y)
    ensures Stopped(w, w1, b1) && Joins(PlanOf(w1).join, x, y) && !Mates(PlanOf(w), b1, x, y)
  {
    hide PlanOf, HashPairs, SlotPairs, FreeGitHub, FreeForgejo, RestGitHub, RestForgejo, PlanFacts, Freed, Valid, Orphaned, Stopped,
      LeftoversDiffer, Stage, Framed, Interrupted;
    w1, b1 := CopyToForgejo(w, PlanOf(w).leftGitHub - {x});
    CopyingToForgejoStop(w, w1, b1);
    StoppedIsInterrupted(w, w1, b1);
    FreedAfterStop(w, w1, b1);
    InterruptedParts(w, PlanOf(w), w1, b1);
    AllJoined(w, w1, b1);
    RestAtForgejoCopies(w, w1, b1);
    LeftoversExist(w, w1, b1);
    SlotPairIsMatch(w1, x, y);
    PlanContainsPasses(w1);
    LeftoverHasNoMate(w, b1, x, y);
  }

  lemma AllJoined(w: World, w1: World, b1: Births)
    requires Copying(w, w1, b1)
    ensures AllLinked(w1, PlanOf(w).join)
  {
    hide PlanOf, Stage;
    JoinedAreLinked(w, w1, b1, PlanOf(w).join.Keys);
  }

  lemma LeftoverHasNoMate(w: World, b: Births, x: Id, y: Id)
    requires PlanFacts(w, PlanOf(w), b) && x in PlanOf(w).leftGitHub && y in PlanOf(w).leftForgejo
    ensures !Mates(PlanOf(w), b, x, y)
  {
    hide PlanOf;
    PlanSplits(w);
    BirthsInjective(w, b);
  }

  // ---- leftovers with one content ----

  /** The leftovers are as they were, and n is the copy of g, with an address new to both forges. */
  ghost predicate CopyIsNew(w: World, w1: World, g: Id, n: Id)
  {
    && n in w1.forgejo && g in w.github && w1.forgejo[n].content == w.github[g].content
    && (forall x :: x in PlanOf(w).leftGitHub ==>
          x in w.github && x in w1.github && w1.github[x] == w.github[x] && w.github[x].address != w1.forgejo[n].address)
    && (forall y :: y in PlanOf(w).leftForgejo ==> y in w.forgejo && y in w1.forgejo && w1.forgejo[y] == w.forgejo[y])
  }

  ghost predicate GrewBy(w: World, w1: World, onGitHub: nat, onForgejo: nat)
  {
    |w1.github| == |w.github| + onGitHub && |w1.forgejo| == |w.forgejo| + onForgejo
  }

  lemma Grew(w: World, w1: World, onGitHub: nat, onForgejo: nat)
    requires |w1.github| == |w.github| + onGitHub && |w1.forgejo| == |w.forgejo| + onForgejo
    ensures GrewBy(w, w1, onGitHub, onForgejo)
  {
  }

  /** A stop right after the copy n of g was created, with `copied` done before: what is unmapped then. */
  ghost predicate AtPendingCopy(w: World, w1: World, b1: Births, copied: set<Id>, g: Id, n: Id)
  {
    && Stopped(w, w1, b1) && b1.github == map[]
    && FreeGitHub(w1) == PlanOf(w).leftGitHub - copied && FreeForgejo(w1) == PlanOf(w).leftForgejo + {n} && n !in w.forgejo
    && CopyIsNew(w, w1, g, n) && GrewBy(w, w1, 0, |copied| + 1)
  }

  lemma CreateCopy(w: World, w0: World, b0: Births, g: Id) returns (n: Id, o: Object)
    requires Valid(w) && Copying(w, w0, b0) && b0.github == map[] && g in PlanOf(w).leftGitHub && g !in b0.forgejo.Values
    ensures g in w.github && o.content == w.github[g].content && NewAddress(w0, o.address)
    ensures n !in b0.forgejo && n !in w0.forgejoUsed && Valid(w0) && Interrupted(w, PlanOf(w), w0, b0)
    ensures Stopped(w, AddForgejo(w0, n, o), b0.(forgejo := b0.forgejo[n := g]))
  {
    hide PlanOf, Valid, Stopped, Stage, Interrupted, FreshAddress, Framed;
    StageIsInterrupted(w, PlanOf(w), w0, b0, w.rows.Keys, PlanOf(w).join.Keys);
    InterruptedParts(w, PlanOf(w), w0, b0);
    n := NatAbove(w0.forgejoUsed);
    var address := UnusedAddress(w0);
    LeftoverExists(w, g);
    o := Object(address, w.github[g].content);
    BirthIsNew(w, PlanOf(w), w0, b0, n);
    ForgejoBirth(w, PlanOf(w), w0, b0, n, o, g);
    PendingOnForgejoStop(w, w0, b0, n, o, g);
  }

  lemma StopAtCopy(w: World, copied: set<Id>, g: Id) returns (w1: World, b1: Births, n: Id)
    requires Valid(w) && CanComplete(w) && g in PlanOf(w).leftGitHub && copied <= PlanOf(w).leftGitHub - {g}
    ensures AtPendingCopy(w, w1, b1, copied, g, n)
  {
    hide PlanOf, FreeGitHub, FreeForgejo, Valid, Orphaned, Stopped, Copying, Interrupted, NewAddress, CopyIsNew, GrewBy;
    var w0, b0 := CopyToForgejo(w, copied);
    var o;
    n, o := CreateCopy(w, w0, b0, g);
    w1, b1 := AddForgejo(w0, n, o), b0.(forgejo := b0.forgejo[n := g]);
    FreeAtPendingCopy(w, w0, b0, w1, b1, copied, g, n);
    SizesAfterCopies(w, w0, b0);
    OneMoreObject(w0.forgejo, n, o);
    Grew(w, w1, 0, |copied| + 1);
    NewCopyObjects(w, w0, b0, w1, b1, g, n, o);
  }

  lemma NewCopyObjects(w: World, w0: World, b0: Births, w1: World, b1: Births, g: Id, n: Id, o: Object)
    requires Valid(w) && Interrupted(w, PlanOf(w), w0, b0) && NewAddress(w0, o.address) && w1 == AddForgejo(w0, n, o)
    requires Stopped(w, w1, b1) && g in w.github && o.content == w.github[g].content
    ensures CopyIsNew(w, w1, g, n)
  {
    hide PlanOf, Valid, Interrupted, Freed, PlanFacts, Framed, Stopped, NewAddress;
    InterruptedParts(w, PlanOf(w), w0, b0);
    AddressesKept(w, w0, b0, o.address);
    StoppedIsInterrupted(w, w1, b1);
    FreedAfterStop(w, w1, b1);
    LeftoversExist(w, w1, b1);
  }

  lemma FreeAtPendingCopy(w: World, w0: World, b0: Births, w1: World, b1: Births, copied: set<Id>, g: Id, n: Id)
    requires Valid(w) && Copying(w, w0, b0) && b0.github == map[] && b0.forgejo.Values == copied && n !in b0.forgejo && n !in w0.forgejoUsed
    requires Stopped(w, w1, b1) && b1 == b0.(forgejo := b0.forgejo[n := g]) && w1.rows == w0.rows && g !in copied
    requires Valid(w0)
    ensures FreeGitHub(w1) == PlanOf(w).leftGitHub - copied && FreeForgejo(w1) == PlanOf(w).leftForgejo + {n}
  {
    hide PlanOf, FreeGitHub, FreeForgejo, PlanFacts, Freed, Stopped, Stage, Interrupted;
    StoppedIsInterrupted(w, w1, b1);
    FreedAfterStop(w, w1, b1);
    AllJoined(w, w0, b0);
    JoinedAreLinked(w, w0, b0, PlanOf(w).join.Keys);
    assert AtForgejoCopies(w, w1, b1);
    FreeAtForgejoCopies(w, w1, b1);
    assert !Linked(w0, g, n);
    forall x ensures x in FreeGitHub(w1) <==> x in PlanOf(w).leftGitHub - copied {
      if x in copied {
        var m :| m in b0.forgejo && b0.forgejo[m] == x;
        assert Joins(b1.forgejo, m, x) && !Pending(w1, b1, m);
      }
      forall m | Joins(b1.forgejo, m, x) && m != n ensures x in copied { assert b0.forgejo[m] in b0.forgejo.Values; }
    }
    forall y ensures y in FreeForgejo(w1) <==> y in PlanOf(w).leftForgejo + {n} {}
  }

  lemma AddressesKept(w: World, w0: World, b0: Births, address: nat)
    requires Framed(w, w0, b0) && NewAddress(w0, address)
    ensures forall x :: x in w.github ==> w.github[x].address != address
    ensures forall y :: y in w.forgejo ==> w.forgejo[y].address != address
  {
    hide Live, Tied;
    assert forall x :: x in w.github ==> x in w0.github;
    assert forall y :: y in w.forgejo ==> y in w0.forgejo;
  }

  lemma GrownSize(objects: map<Id, Object>, births: map<Id, Id>, objects': map<Id, Object>)
    requires Injective(births) && objects.Keys !! births.Keys && objects'.Keys == objects.Keys + births.Keys
    ensures |objects'| == |objects| + |births.Values|
  {
    InjectiveSize(births);
    assert |objects'.Keys| == |objects.Keys| + |births.Keys|;
  }

  lemma OneMoreObject(objects: map<Id, Object>, n: Id, o: Object)
    requires n !in objects
    ensures |objects[n := o]| == |objects| + 1
  {
    assert objects[n := o].Keys == objects.Keys + {n};
  }

  lemma KeysAreUsed(w: World)
    requires Valid(w)
    ensures w.github.Keys <= w.githubUsed && w.forgejo.Keys <= w.forgejoUsed
  {
  }

  lemma BirthKeys(w: World, w0: World, b0: Births)
    requires Valid(w) && Interrupted(w, PlanOf(w), w0, b0)
    ensures Injective(b0.forgejo) && w.forgejo.Keys !! b0.forgejo.Keys && w0.forgejo.Keys == w.forgejo.Keys + b0.forgejo.Keys
    ensures w0.github.Keys == w.github.Keys + b0.github.Keys && Valid(w0)
  {
    hide PlanOf, Live, Tied, RowSource, PairProgress, NewConflicts, Injective;
  }

  lemma SizesAfterCopies(w: World, w0: World, b0: Births)
    requires Valid(w) && Interrupted(w, PlanOf(w), w0, b0) && b0.github == map[]
    ensures |w0.github| == |w.github| && |w0.forgejo| == |w.forgejo| + |b0.forgejo.Values| && w.forgejo.Keys <= w0.forgejo.Keys
    ensures w0.github.Keys <= w0.githubUsed && w0.forgejo.Keys <= w0.forgejoUsed
  {
    hide PlanOf, Interrupted, Valid, Injective;
    BirthKeys(w, w0, b0);
    KeysAreUsed(w0);
    GrownSize(w.forgejo, b0.forgejo, w0.forgejo);
    assert w0.github.Keys == w.github.Keys;
    assert |w0.github.Keys| == |w.github.Keys|;
  }

  /** With nothing to pair, everything unmapped is copied. */
  lemma NothingPairs(w1: World)
    requires forall x, y :: !Joins(HashPairs(w1), x, y) && !Joins(SlotPairs(w1), x, y)
    ensures PlanOf(w1).leftGitHub == FreeGitHub(w1) && PlanOf(w1).leftForgejo == FreeForgejo(w1)
  {
    hide HashPairs, SlotPairs, FreeGitHub, FreeForgejo;
    assert forall x :: x in HashPairs(w1) ==> Joins(HashPairs(w1), x, HashPairs(w1)[x]);
    assert forall x :: x in SlotPairs(w1) ==> Joins(SlotPairs(w1), x, SlotPairs(w1)[x]);
    assert HashPairs(w1) == map[] && SlotPairs(w1) == map[];
  }

  /** An issue to be copied from GitHub and one from Forgejo differ in number or title. */
  lemma IssuesDiffer(w: World, x: Id, y: Id)
    requires Valid(w) && x in PlanOf(w).leftGitHub && y in PlanOf(w).leftForgejo && x in w.github && y in w.forgejo
    requires w.github[x].content.Issue?
    ensures !SameSlotSignature(w.github[x], w.forgejo[y])
  {
    hide PlanOf, HashPairs, SlotPairs, RestGitHub, RestForgejo;
    LeftIsRest(w);
    RestIsFree(w);
    FreeExists(w);
    SlotPairIsMatch(w, x, y);
  }

  /** Two releases of one content have one tag. */
  lemma SameContentSameSlot(o: Object, o': Object)
    requires o.content == o'.content && o.content.Release?
    ensures SameSlot(o, o')
  {
  }

  /** A slot that is found on both forges is a tag. */
  ghost predicate OnlyTagsMatch(w1: World)
  {
    forall u, v | u in FreeGitHub(w1) && u in w1.github && v in FreeForgejo(w1) && v in w1.forgejo ::
      SameSlotSignature(w1.github[u], w1.forgejo[v]) ==> w1.github[u].content.Release?
  }

  /** Two objects on GitHub that are all there is, and have one content: none is paired. */
  lemma GitHubTwinsBlock(w1: World, x: Id, z: Id, u: Id, v: Id)
    requires FreeGitHub(w1) == {x, z} && x != z && GitHubTwins(w1, x, z) && OnlyTagsMatch(w1)
    ensures !Joins(HashPairs(w1), u, v) && !Joins(SlotPairs(w1), u, v)
  {
    TwinsAreNotHashed(w1, x, z);
    hide HashPairs, SlotPairs, FreeGitHub, FreeForgejo, RestGitHub, RestForgejo, SameSlot, SameSlotSignature;
    HashPairIsMatch(w1, u, v);
    SlotPairIsMatch(w1, u, v);
    RestIsFree(w1);
    if w1.github[x].content.Release? {
      SameContentSameSlot(w1.github[x], w1.github[z]);
      SameContentSameSlot(w1.github[z], w1.github[x]);
    }
  }

  lemma TwinsAreNotHashed(w1: World, x: Id, z: Id)
    requires FreeGitHub(w1) == {x, z} && x != z && GitHubTwins(w1, x, z)
    ensures RestGitHub(w1) == {x, z}
  {
    hide HashPairs, FreeGitHub, FreeForgejo;
    if x in HashPairs(w1) { HashPairIsMatch(w1, x, HashPairs(w1)[x]); }
    if z in HashPairs(w1) { HashPairIsMatch(w1, z, HashPairs(w1)[z]); }
  }

  /** One object on GitHub, and two on Forgejo that have its content: none is paired. */
  lemma ForgejoTwinsBlock(w1: World, x: Id, y: Id, z: Id, u: Id, v: Id)
    requires FreeGitHub(w1) == {x} && y in FreeForgejo(w1) && z in FreeForgejo(w1) && y != z
    requires SameContent(w1, x, y) && SameContent(w1, x, z) && OnlyTagsMatch(w1)
    ensures !Joins(HashPairs(w1), u, v) && !Joins(SlotPairs(w1), u, v)
  {
    NoneIsHashed(w1, x, y, z);
    hide HashPairs, SlotPairs, FreeGitHub, FreeForgejo;
    SlotPairIsMatch(w1, u, v);
    RestIsFree(w1);
    if Joins(SlotPairs(w1), u, v) {
      TagIsShared(w1, x, y, v);
      TagIsShared(w1, x, z, v);
    }
  }

  lemma TagIsShared(w1: World, x: Id, y: Id, v: Id)
    requires SameContent(w1, x, y) && v in w1.forgejo && SameSlotSignature(w1.github[x], w1.forgejo[v]) && w1.github[x].content.Release?
    ensures SameSlot(w1.forgejo[y], w1.forgejo[v])
  {
  }

  lemma NoneIsHashed(w1: World, x: Id, y: Id, z: Id)
    requires FreeGitHub(w1) == {x} && y in FreeForgejo(w1) && z in FreeForgejo(w1) && y != z
    requires SameContent(w1, x, y) && SameContent(w1, x, z)
    ensures HashPairs(w1) == map[] && RestForgejo(w1) == FreeForgejo(w1)
  {
    hide HashPairs, FreeGitHub, FreeForgejo;
    forall u ensures u !in HashPairs(w1) {
      if u in HashPairs(w1) { HashPairIsMatch(w1, u, HashPairs(w1)[u]); }
    }
  }

  lemma OnlyTagsMatchAtCopy(w: World, w1: World, b1: Births, copied: set<Id>, g: Id, n: Id)
    requires Valid(w) && AtPendingCopy(w, w1, b1, copied, g, n)
    ensures OnlyTagsMatch(w1)
  {
    hide PlanOf, FreeGitHub, FreeForgejo, Stopped, Valid;
    forall u, v | u in FreeGitHub(w1) && u in w1.github && v in FreeForgejo(w1) && v in w1.forgejo
        && SameSlotSignature(w1.github[u], w1.forgejo[v])
      ensures w1.github[u].content.Release?
    {
      if v in PlanOf(w).leftForgejo && w.github[u].content.Issue? { IssuesDiffer(w, u, v); }
    }
  }

  /** The run that copies nothing but what was unmapped reaches these sizes. */
  lemma SizesIfNothingPairs(w: World, w1: World, b1: Births, copied: set<Id>, g: Id, n: Id)
    requires AtPendingCopy(w, w1, b1, copied, g, n) && copied <= PlanOf(w).leftGitHub
    requires PlanOf(w1).leftGitHub == FreeGitHub(w1) && PlanOf(w1).leftForgejo == FreeForgejo(w1)
    ensures GitHubSizeAfterRun(w1) == GitHubSizeAfterRun(w) + 1 && ForgejoSizeAfterRun(w1) == ForgejoSizeAfterRun(w) + 1
    ensures !Resumes(w, w1, b1)
  {
    hide PlanOf, FreeGitHub, FreeForgejo, Stopped;
    LeftoverExists(w, n);
    assert PlanOf(w).leftForgejo !! {n};
    assert PlanOf(w).leftGitHub == copied + (PlanOf(w).leftGitHub - copied);
  }

  /** Two leftovers of GitHub, be they issues, releases or comments, with one content: a crash between
      creating the copy of one and writing its row costs one object more on both forges. */
  lemma GitHubTwinsAreDuplicated(w: World, x: Id, z: Id) returns (w1: World, b1: Births)
    requires Valid(w) && CanComplete(w) && x in PlanOf(w).leftGitHub && z in PlanOf(w).leftGitHub && x != z && GitHubTwins(w, x, z)
    ensures Stopped(w, w1, b1) && !Resumes(w, w1, b1)
    ensures GitHubSizeAfterRun(w1) == GitHubSizeAfterRun(w) + 1 && ForgejoSizeAfterRun(w1) == ForgejoSizeAfterRun(w) + 1
  {
    hide PlanOf, FreeGitHub, FreeForgejo, Stopped, Valid, Orphaned, Resumes, GitHubSizeAfterRun, ForgejoSizeAfterRun, HashPairs, SlotPairs,
      OnlyTagsMatch;
    var copied := PlanOf(w).leftGitHub - {x, z};
    var n;
    w1, b1, n := StopAtCopy(w, copied, x);
    OnlyTagsMatchAtCopy(w, w1, b1, copied, x, n);
    assert FreeGitHub(w1) == {x, z};
    forall u, v { GitHubTwinsBlock(w1, x, z, u, v); }
    NothingPairs(w1);
    SizesIfNothingPairs(w, w1, b1, copied, x, n);
  }

  /** The same for a leftover of GitHub and one of Forgejo. */
  lemma EqualLeftoversAreDuplicated(w: World, x: Id, y: Id) returns (w1: World, b1: Births)
    requires Valid(w) && CanComplete(w) && x in PlanOf(w).leftGitHub && y in PlanOf(w).leftForgejo && SameContent(w, x, y)
    ensures Stopped(w, w1, b1) && !Resumes(w, w1, b1)
    ensures GitHubSizeAfterRun(w1) == GitHubSizeAfterRun(w) + 1 && ForgejoSizeAfterRun(w1) == ForgejoSizeAfterRun(w) + 1
  {
    hide PlanOf, FreeGitHub, FreeForgejo, Stopped, Valid, Orphaned, Resumes, GitHubSizeAfterRun, ForgejoSizeAfterRun, HashPairs, SlotPairs,
      OnlyTagsMatch;
    var copied := PlanOf(w).leftGitHub - {x};
    var n;
    w1, b1, n := StopAtCopy(w, copied, x);
    OnlyTagsMatchAtCopy(w, w1, b1, copied, x, n);
    assert FreeGitHub(w1) == {x};
    forall u, v { ForgejoTwinsBlock(w1, x, y, n, u, v); }
    NothingPairs(w1);
    SizesIfNothingPairs(w, w1, b1, copied, x, n);
  }

  // ---- leftovers of Forgejo with one content ----

  ghost predicate GitHubCopyIsNew(w: World, w1: World, y: Id, n: Id)
  {
    && n in w1.github && y in w.forgejo && w1.github[n].content == w.forgejo[y].content
    && (forall v :: v in PlanOf(w).leftForgejo ==>
          v in w.forgejo && v in w1.forgejo && w1.forgejo[v] == w.forgejo[v] && w.forgejo[v].address != w1.github[n].address)
  }

  ghost predicate AtPendingGitHubCopy(w: World, w1: World, b1: Births, y: Id, n: Id)
  {
    && Stopped(w, w1, b1) && b1.forgejo.Values == PlanOf(w).leftGitHub && b1.github == map[n := y]
    && FreeGitHub(w1) == {n} && FreeForgejo(w1) == PlanOf(w).leftForgejo
    && GitHubCopyIsNew(w, w1, y, n) && GrewBy(w, w1, 1, |PlanOf(w).leftGitHub|)
  }

  lemma CreateGitHubCopy(w: World, w0: World, b0: Births, y: Id) returns (n: Id, o: Object)
    requires Valid(w) && Copying(w, w0, b0) && b0.github == map[] && b0.forgejo.Values == PlanOf(w).leftGitHub && y in PlanOf(w).leftForgejo
    ensures y in w.forgejo && o.content == w.forgejo[y].content && NewAddress(w0, o.address)
    ensures n !in b0.github && n !in w0.githubUsed && Valid(w0) && Interrupted(w, PlanOf(w), w0, b0)
    ensures Stopped(w, AddGitHub(w0, n, o), b0.(github := map[n := y]))
  {
    hide PlanOf, Valid, Stopped, Stage, Interrupted, FreshAddress, Framed;
    StageIsInterrupted(w, PlanOf(w), w0, b0, w.rows.Keys, PlanOf(w).join.Keys);
    InterruptedParts(w, PlanOf(w), w0, b0);
    n := NatAbove(w0.githubUsed);
    var address := UnusedAddress(w0);
    LeftoverExists(w, y);
    o := Object(address, w.forgejo[y].content);
    BirthIsNew(w, PlanOf(w), w0, b0, n);
    GitHubBirth(w, PlanOf(w), w0, b0, n, o, y);
    PendingOnGitHubStop(w, w0, b0, n, o, y);
    assert b0.github[n := y] == map[n := y];
  }

  lemma StopAtGitHubCopy(w: World, y: Id) returns (w1: World, b1: Births, n: Id)
    requires Valid(w) && CanComplete(w) && y in PlanOf(w).leftForgejo
    ensures AtPendingGitHubCopy(w, w1, b1, y, n)
  {
    hide PlanOf, FreeGitHub, FreeForgejo, Valid, Orphaned, Stopped, Copying, Interrupted, NewAddress, GitHubCopyIsNew, GrewBy;
    var w0, b0 := CopyToForgejo(w, PlanOf(w).leftGitHub);
    var o;
    n, o := CreateGitHubCopy(w, w0, b0, y);
    w1, b1 := AddGitHub(w0, n, o), b0.(github := map[n := y]);
    FreeAtPendingGitHubCopy(w, w0, b0, w1, b1, y, n);
    SizesAfterCopies(w, w0, b0);
    OneMoreObject(w0.github, n, o);
    Grew(w, w1, 1, |PlanOf(w).leftGitHub|);
    NewGitHubCopyObjects(w, w0, b0, w1, b1, y, n, o);
  }

  lemma NewGitHubCopyObjects(w: World, w0: World, b0: Births, w1: World, b1: Births, y: Id, n: Id, o: Object)
    requires Valid(w) && Interrupted(w, PlanOf(w), w0, b0) && NewAddress(w0, o.address) && w1 == AddGitHub(w0, n, o)
    requires Stopped(w, w1, b1) && y in w.forgejo && o.content == w.forgejo[y].content
    ensures GitHubCopyIsNew(w, w1, y, n)
  {
    hide PlanOf, Valid, Interrupted, Freed, PlanFacts, Framed, Stopped, NewAddress;
    InterruptedParts(w, PlanOf(w), w0, b0);
    AddressesKept(w, w0, b0, o.address);
    StoppedIsInterrupted(w, w1, b1);
    FreedAfterStop(w, w1, b1);
    LeftoversExist(w, w1, b1);
  }

  lemma FreeAtPendingGitHubCopy(w: World, w0: World, b0: Births, w1: World, b1: Births, y: Id, n: Id)
    requires Valid(w) && Valid(w0) && Copying(w, w0, b0) && b0.forgejo.Values == PlanOf(w).leftGitHub && n !in w0.githubUsed
    requires Stopped(w, w1, b1) && b1 == b0.(github := map[n := y]) && w1.rows == w0.rows
    ensures FreeGitHub(w1) == {n} && FreeForgejo(w1) == PlanOf(w).leftForgejo
  {
    hide PlanOf, FreeGitHub, FreeForgejo, PlanFacts, Freed, Stopped, Stage, Interrupted;
    StoppedIsInterrupted(w, w1, b1);
    FreedAfterStop(w, w1, b1);
    AllJoined(w, w0, b0);
    JoinedAreLinked(w, w0, b0, PlanOf(w).join.Keys);
    assert AtGitHubCopies(w, w1, b1);
    FreeAtGitHubCopies(w, w1, b1);
    assert n !in w0.rows;
  }

  lemma OnlyTagsMatchAtGitHubCopy(w: World, w1: World, b1: Births, y: Id, n: Id)
    requires AtPendingGitHubCopy(w, w1, b1, y, n)
    ensures OnlyTagsMatch(w1)
  {
    hide PlanOf, FreeGitHub, FreeForgejo, Stopped;
  }

  lemma ForgejoTwinsAreDuplicated(w: World, y: Id, z: Id) returns (w1: World, b1: Births)
    requires Valid(w) && CanComplete(w) && y in PlanOf(w).leftForgejo && z in PlanOf(w).leftForgejo && y != z && ForgejoTwins(w, y, z)
    ensures Stopped(w, w1, b1) && !Resumes(w, w1, b1)
    ensures GitHubSizeAfterRun(w1) == GitHubSizeAfterRun(w) + 1 && ForgejoSizeAfterRun(w1) == ForgejoSizeAfterRun(w) + 1
  {
    hide PlanOf, FreeGitHub, FreeForgejo, Stopped, Valid, Orphaned, HashPairs, SlotPairs, OnlyTagsMatch;
    var n;
    w1, b1, n := StopAtGitHubCopy(w, y);
    OnlyTagsMatchAtGitHubCopy(w, w1, b1, y, n);
    forall u, v { ForgejoTwinsBlock(w1, n, y, z, u, v); }
    NothingPairs(w1);
  }

  // ---- the exact condition ----

  /** Unless an orphaned row stops every run anyway, a world is safe from crashes if and only if it is
      crash-proof. */
  lemma CrashSafeIff(w: World)
    requires Valid(w) && CanComplete(w)
    ensures CrashSafe(w) <==> CrashProof(w)
  {
    hide PlanOf, Valid, Orphaned, Stopped, Resumes, Crossed, SlotTaken, LeftoversDiffer;
    if CrashProof(w) {
      forall w1, b1 | Stopped(w, w1, b1) ensures Resumes(w, w1, b1) { StopResumes(w, w1, b1); }
    } else if !LeftoversDiffer(w) {
      EqualLeftoversAreUnsafe(w);
    } else if x, y :| SlotTaken(w, x, y) {
      var w1, b1 := TakenSlotIsMispaired(w, x, y);
      WrongJoinDoesNotResume(w, w1, b1, x, y);
    } else {
      var x, y :| Crossed(w, x, y);
      var w1 := CrossedIsMispaired(w, x, y);
      WrongJoinDoesNotResume(w, w1, NO_BIRTHS, x, y);
    }
  }

  lemma WrongJoinDoesNotResume(w: World, w1: World, b1: Births, x: Id, y: Id)
    requires Joins(PlanOf(w1).join, x, y) && !Mates(PlanOf(w), b1, x, y)
    ensures !Resumes(w, w1, b1)
  {
    hide PlanOf;
  }

  lemma EqualLeftoversAreUnsafe(w: World)
    requires Valid(w) && CanComplete(w) && !LeftoversDiffer(w)
    ensures !CrashSafe(w)
  {
    hide PlanOf, Valid, Orphaned, Stopped, Resumes;
    var p := PlanOf(w);
    if x, z :| x in p.leftGitHub && z in p.leftGitHub && GitHubTwins(w, x, z) && x != z {
      var w1, b1 := GitHubTwinsAreDuplicated(w, x, z);
    } else if y, z :| y in p.leftForgejo && z in p.leftForgejo && ForgejoTwins(w, y, z) && y != z {
      var w1, b1 := ForgejoTwinsAreDuplicated(w, y, z);
    } else {
      var x, y :| x in p.leftGitHub && y in p.leftForgejo && SameContent(w, x, y);
      var w1, b1 := EqualLeftoversAreDuplicated(w, x, y);
    }
  }
}
