/** Runs as far as one likes: stops with any choice of what has been recorded and copied. */
module RunStates {
  import opened Pairing
  import opened Objects
  import opened Protocol
  import opened Steps
  import opened Stops
  import opened Forges
  import opened Convergence
  import opened Passes

  /** The run has dealt with the rows in `done`. */
  lemma {:induction false} FinishRows(w: World, done: set<Id>) returns (w1: World)
    requires Valid(w) && done <= w.rows.Keys
    ensures Stage(w, PlanOf(w), w1, NO_BIRTHS, done, {}) && Untouched(w, w1, done) && SameRowLinks(w.rows, w1.rows)
    decreases done
  {
    hide PlanOf, Interrupted, Stage, Untouched, Valid, Sync, Remote, InConflict, ConflictOf, Raises, SameRowLinks;
    var p := PlanOf(w);
    if done == {} {
      w1 := w;
      StageStart(w, p);
      NothingTouched(w);
    } else {
      var g :| g in done;
      var w0 := FinishRows(w, done - {g});
      assert done - {g} + {g} == done;
      if Live(w, g) && !InConflict(View(w, g)) {
        PutPairStage(w, p, w0, NO_BIRTHS, done - {g}, {}, g, Sync(View(w, g)));
        w1 := PutPair(w0, g, Sync(View(w, g)));
        PutPairLinks(w.rows, w0, g, Sync(View(w, g)));
      } else {
        OthersRaise(w, g);
        ConflictStage(w, p, w0, NO_BIRTHS, done - {g}, {}, g);
        w1 := w0.(conflicts := w0.conflicts + {ConflictOf(w, g)});
      }
    }
  }

  lemma NothingTouched(w: World)
    ensures Untouched(w, w, {}) && SameRowLinks(w.rows, w.rows)
  {
  }

  lemma OthersRaise(w: World, g: Id)
    requires g in w.rows && (Live(w, g) ==> InConflict(View(w, g)))
    ensures Raises(w, g)
  {
  }

  lemma PutPairLinks(rows: map<Id, Row>, w: World, g: Id, t: Triple)
    requires Live(w, g) && SameRowLinks(rows, w.rows)
    ensures SameRowLinks(rows, PutPair(w, g, t).rows)
  {
  }

  /** Exactly these pairs are recorded. */
  ghost predicate OnlyJoined(w: World, w1: World, joined: set<Id>)
  {
    forall x :: x in PlanOf(w).join && x !in joined ==> !Linked(w1, x, PlanOf(w).join[x])
  }

  lemma {:induction false} RecordPairs(w: World, joined: set<Id>) returns (w1: World)
    requires Valid(w) && (w.pins || !Orphaned(w)) && joined <= PlanOf(w).join.Keys
    ensures Stage(w, PlanOf(w), w1, NO_BIRTHS, w.rows.Keys, joined) && OnlyJoined(w, w1, joined)
    decreases joined
  {
    hide PlanOf, Interrupted, Stage, Valid, Splits, UniqueForgejo, Orphaned;
    var p := PlanOf(w);
    PlanSplits(w);
    if joined == {} {
      w1 := FinishRows(w, w.rows.Keys);
      NoPairIsLinked(w, w1);
    } else {
      var g :| g in joined;
      var w0 := RecordPairs(w, joined - {g});
      assert joined - {g} + {g} == joined;
      StageIsInterrupted(w, p, w0, NO_BIRTHS, w.rows.Keys, joined - {g});
      PairExists(w, g);
      var row := JoinRow(w, g, p.join[g]);
      JoinIsUnique(w, w0, g, row);
      JoinStage(w, p, w0, NO_BIRTHS, w.rows.Keys, joined - {g}, g);
      w1 := w0.(rows := w0.rows[g := row]);
    }
  }

  lemma PairExists(w: World, g: Id)
    requires g in PlanOf(w).join
    ensures g in w.github && PlanOf(w).join[g] in w.forgejo
  {
    hide PlanOf;
    PlanSplits(w);
    FreeExists(w);
    assert PlanOf(w).join[g] in PlanOf(w).join.Values;
  }

  lemma JoinIsUnique(w: World, w0: World, g: Id, row: Row)
    requires Valid(w) && (w.pins || !Orphaned(w)) && Interrupted(w, PlanOf(w), w0, NO_BIRTHS) && UniqueForgejo(w0.rows)
    requires g in PlanOf(w).join && row.forgejo == PlanOf(w).join[g]
    ensures UniqueForgejo(w0.rows[g := row])
  {
    hide PlanOf, Interrupted, Valid, Orphaned, Splits;
    PlanSplits(w);
    if exists h :: h in w0.rows && h != g && w0.rows[h].forgejo == PlanOf(w).join[g] { JoinCollision(w, PlanOf(w), w0, g); }
  }

  /** One more leftover of GitHub is copied and recorded. */
  lemma CopyOne(w: World, w0: World, b0: Births, g: Id) returns (w1: World, b1: Births)
    requires Valid(w) && Copying(w, w0, b0) && g in PlanOf(w).leftGitHub && g !in b0.forgejo.Values
    ensures Copying(w, w1, b1) && b1.github == b0.github && b1.forgejo.Values == b0.forgejo.Values + {g}
  {
    hide PlanOf, Interrupted, Stage, Valid, Splits, UniqueForgejo, FreshAddress, Framed;
    var p := PlanOf(w);
    PlanSplits(w);
    StageIsInterrupted(w, p, w0, b0, w.rows.Keys, p.join.Keys);
    LeftoverExists(w, g);
    var n := NatAbove(w0.forgejoUsed);
    var address := UnusedAddress(w0);
    var o := Object(address, w.github[g].content);
    var row := Row(n, w.github[g].address, address, w.github[g].content);
    NewForgejoIdIsUnique(w, p, w0, b0, g, row);
    ForgejoCopyStage(w, p, w0, b0, w.rows.Keys, p.join.Keys, n, o, g, row);
    w1, b1 := AddForgejo(w0, n, o).(rows := w0.rows[g := row]), b0.(forgejo := b0.forgejo[n := g]);
    BirthIsNew(w, p, w0, b0, n);
    ValuesExtend(b0.forgejo, n, g);
  }

  lemma BirthIsNew(w: World, p: Plan, w0: World, b0: Births, n: Id)
    requires Interrupted(w, p, w0, b0)
    ensures n !in w0.forgejoUsed ==> n !in b0.forgejo
    ensures n !in w0.githubUsed ==> n !in b0.github
  {
    hide Valid, BirthsOk, NewConflicts, RowSource, PairProgress;
  }

  /** All pairs are recorded, and exactly these leftovers of GitHub copied. */
  lemma {:induction false} CopyToForgejo(w: World, copied: set<Id>) returns (w1: World, b1: Births)
    requires Valid(w) && (w.pins || !Orphaned(w)) && copied <= PlanOf(w).leftGitHub
    ensures Copying(w, w1, b1) && b1.github == map[] && b1.forgejo.Values == copied
    decreases copied
  {
    hide PlanOf, Interrupted, Stage, Valid, Orphaned;
    if copied == {} {
      w1 := RecordPairs(w, PlanOf(w).join.Keys);
      b1 := NO_BIRTHS;
    } else {
      var g :| g in copied;
      var w0, b0 := CopyToForgejo(w, copied - {g});
      w1, b1 := CopyOne(w, w0, b0, g);
      assert copied - {g} + {g} == copied;
    }
  }

  lemma LeftoverExists(w: World, x: Id)
    ensures x in PlanOf(w).leftGitHub ==> x in w.github
    ensures x in PlanOf(w).leftForgejo ==> x in w.forgejo
  {
    hide PlanOf;
    PlanSplits(w);
    FreeExists(w);
  }

  ghost predicate NewAddress(w: World, address: nat)
  {
    FreshAddress(w.github, address) && FreshAddress(w.forgejo, address)
  }

  lemma UnusedAddress(w: World) returns (address: nat)
    ensures NewAddress(w, address)
  {
    address := NatAbove(AddressesOf(w.github) + AddressesOf(w.forgejo));
    assert forall x :: x in w.github ==> w.github[x].address in AddressesOf(w.github);
    assert forall y :: y in w.forgejo ==> w.forgejo[y].address in AddressesOf(w.forgejo);
  }
}
