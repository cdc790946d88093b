/** Where a run stops: every state the stages of a run pass through is one of its stops. */
module Stops {
  import opened Pairing
  import opened Objects
  import opened Protocol
  import opened Steps

  /** The rows name the same pairs; only baselines may differ. */
  ghost predicate SameRowLinks(rows: map<Id, Row>, rows': map<Id, Row>)
  {
    rows'.Keys == rows.Keys && forall g :: g in rows ==> rows'[g].forgejo == rows[g].forgejo
  }

  lemma NoPairIsLinked(w0: World, w: World)
    requires SameRowLinks(w0.rows, w.rows)
    ensures NoneLinked(w, PlanOf(w0).join)
  {
    hide PlanOf;
    PlanSplits(w0);
    var join := PlanOf(w0).join;
    forall x | x in join ensures !Linked(w, x, join[x]) {
      assert join[x] in join.Values;
      assert x in FreeGitHub(w0) && join[x] in FreeForgejo(w0);
    }
  }

  lemma NoSlotPairIsLinked(w0: World, w: World)
    requires SameRowLinks(w0.rows, w.rows)
    ensures NoneLinked(w, SlotPairs(w0))
  {
    NoPairIsLinked(w0, w);
  }

  lemma StoppedIsInterrupted(w0: World, w: World, b: Births)
    requires Stopped(w0, w, b)
    ensures Interrupted(w0, PlanOf(w0), w, b)
  {
  }

  lemma RowsStop(w0: World, w: World)
    requires Interrupted(w0, PlanOf(w0), w, NO_BIRTHS) && SameRowLinks(w0.rows, w.rows)
    ensures Stopped(w0, w, NO_BIRTHS)
  {
    hide PlanOf, Interrupted;
    NoPairIsLinked(w0, w);
  }

  lemma StageRowsDone(w0: World, w: World, b: Births, joined: set<Id>)
    requires Stage(w0, PlanOf(w0), w, b, w0.rows.Keys, joined)
    ensures RowsDone(w0, w)
  {
    hide PlanOf, Interrupted;
  }

  lemma FirstPassStop(w0: World, w: World, joined: set<Id>)
    requires Stage(w0, PlanOf(w0), w, NO_BIRTHS, w0.rows.Keys, joined) && NoneLinked(w, SlotPairs(w0))
    ensures Stopped(w0, w, NO_BIRTHS)
  {
    hide PlanOf, SlotPairs, Interrupted, RowsDone;
    StageRowsDone(w0, w, NO_BIRTHS, joined);
    StageIsInterrupted(w0, PlanOf(w0), w, NO_BIRTHS, w0.rows.Keys, joined);
  }

  /** What has been joined is linked. */
  lemma JoinedAreLinked(w0: World, w: World, b: Births, joined: set<Id>)
    requires Stage(w0, PlanOf(w0), w, b, w0.rows.Keys, joined)
    ensures forall x :: x in joined && x in PlanOf(w0).join ==> Linked(w, x, PlanOf(w0).join[x])
    ensures forall n :: n in b.forgejo ==> Linked(w, b.forgejo[n], n)
    ensures forall n :: n in b.github ==> Linked(w, n, b.github[n])
  {
    hide PlanOf, Interrupted;
  }

  lemma HashPairsAreJoined(w0: World)
    ensures forall x :: x in HashPairs(w0) ==> x in PlanOf(w0).join && PlanOf(w0).join[x] == HashPairs(w0)[x]
  {
    assert SlotPairs(w0).Keys <= RestGitHub(w0);
  }

  lemma SecondPassStop(w0: World, w: World, joined: set<Id>)
    requires Stage(w0, PlanOf(w0), w, NO_BIRTHS, w0.rows.Keys, joined) && HashPairs(w0).Keys <= joined
    ensures Stopped(w0, w, NO_BIRTHS)
  {
    hide PlanOf, HashPairs, SlotPairs, Interrupted, RowsDone, Stage;
    StageRowsDone(w0, w, NO_BIRTHS, joined);
    StageIsInterrupted(w0, PlanOf(w0), w, NO_BIRTHS, w0.rows.Keys, joined);
    JoinedAreLinked(w0, w, NO_BIRTHS, joined);
    HashPairsAreJoined(w0);
  }

  /** Every pair has its row, and every copy made so far. */
  ghost predicate Copying(w0: World, w: World, b: Births)
  {
    Stage(w0, PlanOf(w0), w, b, w0.rows.Keys, PlanOf(w0).join.Keys)
  }

  lemma CopyingToForgejoStop(w0: World, w: World, b: Births)
    requires Copying(w0, w, b) && b.github == map[]
    ensures Stopped(w0, w, b)
  {
    hide PlanOf, Interrupted, RowsDone, Stage;
    var joined := PlanOf(w0).join.Keys;
    StageRowsDone(w0, w, b, joined);
    StageIsInterrupted(w0, PlanOf(w0), w, b, w0.rows.Keys, joined);
    JoinedAreLinked(w0, w, b, joined);
  }

  lemma CopyingToGitHubStop(w0: World, w: World, b: Births)
    requires Copying(w0, w, b) && b.forgejo.Values == PlanOf(w0).leftGitHub
    ensures Stopped(w0, w, b)
  {
    hide PlanOf, Interrupted, RowsDone, Stage;
    var joined := PlanOf(w0).join.Keys;
    StageRowsDone(w0, w, b, joined);
    StageIsInterrupted(w0, PlanOf(w0), w, b, w0.rows.Keys, joined);
    JoinedAreLinked(w0, w, b, joined);
  }

  lemma RowsDoneStill(w0: World, w: World, w': World)
    requires RowsDone(w0, w) && w'.conflicts == w.conflicts
    requires forall h :: Live(w, h) ==> Live(w', h) && View(w', h) == View(w, h)
    ensures RowsDone(w0, w')
  {
  }

  /** A stop after a copy was created and before its row was written. */
  lemma PendingOnForgejoStop(w0: World, w: World, b: Births, n: Id, o: Object, g: Id)
    requires Copying(w0, w, b) && b.github == map[] && n !in b.forgejo
    requires Valid(w) && n !in w.forgejoUsed && FreshAddress(w.forgejo, o.address)
    requires Interrupted(w0, PlanOf(w0), AddForgejo(w, n, o), b.(forgejo := b.forgejo[n := g]))
    ensures Stopped(w0, AddForgejo(w, n, o), b.(forgejo := b.forgejo[n := g]))
  {
    hide PlanOf, Interrupted, RowsDone, Stage, Valid, FreshAddress;
    var joined := PlanOf(w0).join.Keys;
    StageRowsDone(w0, w, b, joined);
    JoinedAreLinked(w0, w, b, joined);
    AddForgejoValid(w, n, o);
    RowsDoneStill(w0, w, AddForgejo(w, n, o));
  }

  lemma PendingOnGitHubStop(w0: World, w: World, b: Births, n: Id, o: Object, f: Id)
    requires Copying(w0, w, b) && b.forgejo.Values == PlanOf(w0).leftGitHub && n !in b.github
    requires Valid(w) && n !in w.githubUsed && FreshAddress(w.github, o.address)
    requires Interrupted(w0, PlanOf(w0), AddGitHub(w, n, o), b.(github := b.github[n := f]))
    ensures Stopped(w0, AddGitHub(w, n, o), b.(github := b.github[n := f]))
  {
    hide PlanOf, Interrupted, RowsDone, Stage, Valid, FreshAddress;
    var joined := PlanOf(w0).join.Keys;
    StageRowsDone(w0, w, b, joined);
    JoinedAreLinked(w0, w, b, joined);
    AddGitHubValid(w, n, o);
    RowsDoneStill(w0, w, AddGitHub(w, n, o));
  }
}
