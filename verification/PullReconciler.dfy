/** The pull request run itself. */
module PullReconciler {
  import opened Pairing
  import opened Objects
  import opened PullRequests
  import opened PullForges
  import opened PullLosses
  import opened PullDisplacements

  class Reconciler {
    const github: PullForge
    const forgejo: PullForge
    const store: PullStore
    const normalize: string -> string   // strips work-in-progress prefixes and case

    constructor (github: PullForge, forgejo: PullForge, store: PullStore, normalize: string -> string)
      requires github.onGitHub && !forgejo.onGitHub
      ensures Sides() && this.github == github && this.forgejo == forgejo && this.store == store && this.normalize == normalize
    {
      this.github, this.forgejo, this.store, this.normalize := github, forgejo, store, normalize;
    }

    predicate Sides()
    {
      github.onGitHub && !forgejo.onGitHub
    }

    /** Some call failed for a reason that ends the run. */
    predicate Trouble()
      reads github, forgejo, store
    {
      github.trouble || forgejo.trouble || store.trouble
    }

    // ---- mapped pairs ----

    /** A mapping row whose two sides are listed: the three-way comparison and its update call.
        When GitHub cannot reopen a pull request, Forgejo takes GitHub's side instead. */
    method ReconcilePair(g: Id, row: PullRow, githubItem: Digest, forgejoItem: Digest, dryRun: bool)
      returns (ok: bool, ghost reply: UpdateReply)
      requires Sides() && g in store.rows && store.rows[g] == row && UniquePulls(store.rows)
      modifies github`pulls, github`trouble, github`stuck, forgejo`pulls, forgejo`trouble, forgejo`stuck, store
      ensures dryRun ==> ok && store.Books() == old(store.Books()) && github.pulls == old(github.pulls) && forgejo.pulls == old(forgejo.pulls)
      ensures SameKnowledge(old(github.pulls), github.pulls) && SameKnowledge(old(forgejo.pulls), forgejo.pulls)
      ensures ok || Trouble() || forgejo.stuck
      ensures ok && !dryRun ==> Handled(Compare(githubItem, forgejoItem, row.baseline), reply)
      ensures ok && !dryRun ==> Copied(old(github.pulls), old(forgejo.pulls), github.pulls, forgejo.pulls, g, row, githubItem, forgejoItem, reply)
      ensures ok && !dryRun ==>
                store.rows == old(store.rows)[g := row.(baseline := BaselineAfter(githubItem, forgejoItem, row.baseline, reply))]
      ensures ok && !dryRun ==> store.conflicts == old(store.conflicts) + PairConflicts(g, row, githubItem, forgejoItem, reply)
      // equal: the common digest becomes the baseline
      ensures ok && !dryRun && githubItem == forgejoItem ==>
                && github.pulls == old(github.pulls) && forgejo.pulls == old(forgejo.pulls)
                && store.rows == old(store.rows)[g := PullRow(row.forgejo, githubItem)] && store.conflicts == old(store.conflicts)
      // only GitHub changed: its digest becomes the baseline, even if Forgejo is locked
      ensures ok && !dryRun && githubItem != forgejoItem && forgejoItem == row.baseline ==>
                && (reply.Updated? || reply.Locked?) && github.pulls == old(github.pulls)
                && forgejo.pulls == (if reply.Updated? then Edited(old(forgejo.pulls), row.forgejo, githubItem) else old(forgejo.pulls))
                && store.rows == old(store.rows)[g := PullRow(row.forgejo, githubItem)]
                && store.conflicts == old(store.conflicts)
                     + if reply.Locked? then {PullConflict(LockedPull, Some(g), Some(row.forgejo), Holds(githubItem), Holds(forgejoItem))} else {}
      // only Forgejo changed: its digest becomes the baseline, unless GitHub cannot reopen
      ensures ok && !dryRun && githubItem == row.baseline && forgejoItem != row.baseline ==>
                && (reply.Updated? || reply.CannotReopen?) && store.conflicts == old(store.conflicts)
                && (reply.Updated? ==>
                      && github.pulls == Edited(old(github.pulls), g, forgejoItem) && forgejo.pulls == old(forgejo.pulls)
                      && store.rows == old(store.rows)[g := PullRow(row.forgejo, forgejoItem)])
                && (reply.CannotReopen? ==>
                      && github.pulls == old(github.pulls) && forgejo.pulls == Edited(old(forgejo.pulls), row.forgejo, githubItem)
                      && store.rows == old(store.rows)[g := PullRow(row.forgejo, githubItem)])
      // both changed: nothing but a conflict
      ensures ok && !dryRun && githubItem != forgejoItem && row.baseline !in {githubItem, forgejoItem} ==>
                && github.pulls == old(github.pulls) && forgejo.pulls == old(forgejo.pulls) && store.rows == old(store.rows)
                && store.conflicts == old(store.conflicts)
                     + {PullConflict(ClashingPull, Some(g), Some(row.forgejo), Holds(githubItem), Holds(forgejoItem))}
    {
      ok, reply := true, Updated;
      if dryRun { return; }
      match Compare(githubItem, forgejoItem, row.baseline) {
        case InSync =>
          if row.baseline != githubItem { ok := SetBaseline(g, row, githubItem); }
          assert row.baseline == githubItem ==> row == row.(baseline := githubItem);
        case ToForgejo =>
          var r := forgejo.Update(row.forgejo, githubItem, false);
          reply := r;
          if r.Locked? {
            ok := store.AddConflict(PullConflict(LockedPull, Some(g), Some(row.forgejo), Holds(githubItem), Holds(forgejoItem)));
            if !ok { return; }
          } else if !r.Updated? {
            return false, r;
          }
          ok := SetBaseline(g, row, githubItem);
        case ToGitHub =>
          var r := github.Update(g, forgejoItem, false);
          reply := r;
          if r.CannotReopen? {
            var r2 := forgejo.Update(row.forgejo, UpdateTo(forgejoItem, githubItem), true);
            if !r2.Updated? { return false, r; }
            ok := SetBaseline(g, row, githubItem);
          } else if !r.Updated? {
            return false, r;
          } else {
            ok := SetBaseline(g, row, forgejoItem);
          }
        case Clash =>
          ok := store.AddConflict(PullConflict(ClashingPull, Some(g), Some(row.forgejo), Holds(githubItem), Holds(forgejoItem)));
          assert row == row.(baseline := row.baseline);
      }
    }

    method SetBaseline(g: Id, row: PullRow, baseline: Digest) returns (ok: bool)
      requires g in store.rows && store.rows[g] == row && UniquePulls(store.rows)
      modifies store
      ensures ok ==> store.Books() == old(store.Books()).(rows := old(store.rows)[g := row.(baseline := baseline)])
      ensures ok || store.trouble
    {
      var err := store.Upsert(g, row.(baseline := baseline));
      match err {
        case None => ok := true;
        case Some(Fault) => ok := false;
        case Some(Unique) => assert false;
      }
    }

    /** One mapping row: a pair still listed on both sides is compared; any other is reported. */
    method ReconcileRow(g: Id, githubListed: Listing, forgejoListed: Listing, dryRun: bool) returns (ok: bool)
      requires Sides() && UniquePulls(store.rows) && g in store.rows
      modifies github`pulls, github`trouble, github`stuck, forgejo`pulls, forgejo`trouble, forgejo`stuck, store
      ensures SameKnowledge(old(github.pulls), github.pulls) && SameKnowledge(old(forgejo.pulls), forgejo.pulls)
      ensures dryRun ==> ok && store.Books() == old(store.Books()) && github.pulls == old(github.pulls) && forgejo.pulls == old(forgejo.pulls)
      ensures ok || Trouble() || forgejo.stuck
      ensures ok ==> OnlyRow(old(store.Books()), store.Books(), g)
      ensures ok && !dryRun ==> RowDone(store.Books(), g, old(store.rows)[g], githubListed, forgejoListed)
      ensures ok && !dryRun ==> var f := old(store.rows)[g].forgejo;
        (g in githubListed && f in forgejoListed)
        || PullConflict(MissingPull, Some(g), Some(f),
             if g in githubListed then Present(githubListed[g].digest, g) else Absent,
             if f in forgejoListed then Present(forgejoListed[f].digest, f) else Absent) in store.conflicts
    {
      ok := true;
      var row := store.rows[g];
      if g in githubListed && row.forgejo in forgejoListed {
        ghost var reply;
        ok, reply := ReconcilePair(g, row, githubListed[g].digest, forgejoListed[row.forgejo].digest, dryRun);
      } else if !dryRun {
        var c := MissingConflict(g, row, githubListed, forgejoListed);
        ok := store.AddConflict(c);
        assert ok ==> c in store.conflicts;
      }
    }

    /** All rows; the pairs still listed on both sides are consumed. */
    method ReconcileMapped(githubListed: Listing, forgejoListed: Listing, dryRun: bool)
      returns (ok: bool, consumedGitHub: set<Id>, consumedForgejo: set<Id>)
      requires Sides() && UniquePulls(store.rows)
      modifies github`pulls, github`trouble, github`stuck, forgejo`pulls, forgejo`trouble, forgejo`stuck, store
      ensures SameKnowledge(old(github.pulls), github.pulls) && SameKnowledge(old(forgejo.pulls), forgejo.pulls)
      ensures dryRun ==> ok && store.Books() == old(store.Books()) && github.pulls == old(github.pulls) && forgejo.pulls == old(forgejo.pulls)
      ensures ok || Trouble() || forgejo.stuck
      ensures ok ==> consumedGitHub == MappedGitHub(old(store.rows), githubListed, forgejoListed)
      ensures ok ==> consumedForgejo == MappedForgejo(old(store.rows), githubListed, forgejoListed)
      ensures ok ==> SameLinks(old(store.Books()), store.Books())
      ensures ok && !dryRun ==> AllRowsDone(store.Books(), old(store.rows), githubListed, forgejoListed)
    {
      hide UniquePulls, RowDone, MappedGitHub, MappedForgejo, OnlyRow, SameLinks;
      SameLinksRefl(store.Books());
      ok, consumedGitHub, consumedForgejo := true, {}, {};
      ghost var b0 := store.Books();
      NothingMapped(b0.rows, githubListed, forgejoListed);
      var todo := store.rows.Keys;
      ghost var done: set<Id> := {};
      while todo != {}
        invariant ok && todo !! done && todo + done == b0.rows.Keys && b0.rows.Keys == store.rows.Keys
        invariant SameKnowledge(old(github.pulls), github.pulls) && SameKnowledge(old(forgejo.pulls), forgejo.pulls)
        invariant dryRun ==> store.Books() == b0 && github.pulls == old(github.pulls) && forgejo.pulls == old(forgejo.pulls)
        invariant SameLinks(b0, store.Books())
        invariant forall g :: g in todo ==> store.rows[g] == b0.rows[g]
        invariant consumedGitHub == MappedGitHub(Only(b0.rows, done), githubListed, forgejoListed)
        invariant consumedForgejo == MappedForgejo(Only(b0.rows, done), githubListed, forgejoListed)
        invariant !dryRun ==> forall g :: g in done ==> RowDone(store.Books(), g, b0.rows[g], githubListed, forgejoListed)
        decreases todo
      {
        var g :| g in todo;
        todo := todo - {g};
        var f := store.rows[g].forgejo;
        SameLinksUnique(b0, store.Books());
        ghost var b := store.Books();
        ok := ReconcileRow(g, githubListed, forgejoListed, dryRun);
        if !ok { return; }
        RowsAfterRow(b0, b, store.Books(), g, todo, done, githubListed, forgejoListed, dryRun);
        MappedStep(b0.rows, done, g, githubListed, forgejoListed);
        if g in githubListed && f in forgejoListed {
          consumedGitHub, consumedForgejo := consumedGitHub + {g}, consumedForgejo + {f};
        }
        done := done + {g};
        SameLinksUnique(b0, store.Books());
      }
      assert Only(b0.rows, done) == b0.rows;
    }

    // ---- pairing ----

    method RecordPair(g: Id, f: Id, row: PullRow, githubItem: Digest, forgejoItem: Digest, tolerant: bool) returns (ok: bool)
      requires row.forgejo == f
      modifies store
      ensures ok ==> store.Books() == Enter(old(store.Books()), g, row, githubItem, forgejoItem)
      ensures ok && !Taken(old(store.rows), g, f) ==> store.Books() == old(store.Books()).(rows := old(store.rows)[g := row])
      ensures ok && Taken(old(store.rows), g, f) ==>
                && store.rows == old(store.rows)
                && store.conflicts == old(store.conflicts) + {PullConflict(PairingClash, Some(g), Some(f), Holds(githubItem), Holds(forgejoItem))}
      ensures ok && !tolerant ==> !Taken(old(store.rows), g, f)
      ensures ok || store.trouble || (!tolerant && Taken(store.rows, g, f))
    {
      var err := store.Upsert(g, row);
      match err {
        case None => ok := true;
        case Some(Fault) => ok := false;
        case Some(Unique) =>
          if !tolerant { return false; }
          ok := store.AddConflict(PullConflict(PairingClash, Some(g), Some(f), Holds(githubItem), Holds(forgejoItem)));
      }
    }

    /** Records the pairs of one pass.  After an equal digest a UNIQUE violation becomes a conflict;
        after an equal number it ends the run, and the baseline is what Forgejo holds. */
    method RecordPairs(pairs: map<Id, Id>, githubListed: Listing, forgejoListed: Listing, byDigest: bool,
                       consumedGitHub: set<Id>, consumedForgejo: set<Id>, dryRun: bool)
      returns (ok: bool, consumedGitHub': set<Id>, consumedForgejo': set<Id>)
      requires pairs.Keys <= githubListed.Keys && pairs.Values <= forgejoListed.Keys
      requires pairs.Keys !! consumedGitHub && consumedGitHub <= githubListed.Keys
      requires !dryRun ==> Booked(store.Books(), consumedGitHub, consumedForgejo)
      modifies store
      ensures dryRun ==> ok && store.Books() == old(store.Books())
      ensures ok ==> consumedGitHub' == consumedGitHub + pairs.Keys && consumedForgejo' == consumedForgejo + pairs.Values
      ensures ok && !dryRun ==> Booked(store.Books(), consumedGitHub', consumedForgejo')
      ensures ok && !dryRun ==> Extends(old(store.Books()), store.Books(), consumedGitHub)
      ensures ok && !dryRun ==> AllEntered(store.Books(), pairs, githubListed, forgejoListed, byDigest)
      ensures ok && !dryRun && byDigest ==> forall g :: g in pairs ==>
                var f, gd, fd := pairs[g], githubListed[g].digest, forgejoListed[pairs[g]].digest;
                || (g in store.rows && store.rows[g] == PullRow(f, gd))
                || PullConflict(PairingClash, Some(g), Some(f), Holds(gd), Holds(fd)) in store.conflicts
      ensures ok && !dryRun && !byDigest ==> forall g :: g in pairs ==>
                g in store.rows && store.rows[g] == PullRow(pairs[g], forgejoListed[pairs[g]].digest)
      ensures ok && !dryRun ==> RowsFromPairs(old(store.rows), store.rows, pairs)
      ensures ok || store.trouble || (!byDigest && exists g :: g in pairs && Taken(store.rows, g, pairs[g]))
    {
      hide Booked, Extends, UniquePulls, Enter, Taken, Entered, RowsFromPairs;
      NoPairRows(store.rows);
      ok, consumedGitHub', consumedForgejo' := true, consumedGitHub, consumedForgejo;
      ExtendsRefl(store.Books(), consumedGitHub);
      var todo := pairs.Keys;
      ghost var done: map<Id, Id> := map[];
      while todo != {}
        invariant ok && todo !! done.Keys && todo + done.Keys == pairs.Keys && forall g :: g in done ==> done[g] == pairs[g]
        invariant consumedGitHub' == consumedGitHub + done.Keys && consumedForgejo' == consumedForgejo + done.Values
        invariant dryRun ==> store.Books() == old(store.Books())
        invariant !dryRun ==> Booked(store.Books(), consumedGitHub', consumedForgejo')
        invariant !dryRun ==> Extends(old(store.Books()), store.Books(), consumedGitHub)
        invariant !dryRun ==> AllEntered(store.Books(), done, githubListed, forgejoListed, byDigest)
        invariant !dryRun ==> RowsFromPairs(old(store.rows), store.rows, done)
        decreases todo
      {
        var g :| g in todo;
        todo := todo - {g};
        var f := pairs[g];
        assert f in pairs.Values;
        var githubItem, forgejoItem := githubListed[g].digest, forgejoListed[f].digest;
        if !dryRun {
          ghost var b := store.Books();
          var row := PullRow(f, if byDigest then githubItem else forgejoItem);
          ok := RecordPair(g, f, row, githubItem, forgejoItem, byDigest);
          if !ok { return; }
          EnterSettles(b, g, row, githubItem, forgejoItem, consumedGitHub', consumedForgejo');
          ExtendsTwice(old(store.Books()), b, store.Books(), consumedGitHub, consumedGitHub');
          OneMoreEntered(b, done, g, f, githubListed, forgejoListed, byDigest);
          OnePairRow(old(store.rows), b, done, g, row, githubItem, forgejoItem);
        }
        ValuesExtend(done, g, f);
        done := done[g := f];
        consumedGitHub', consumedForgejo' := consumedGitHub' + {g}, consumedForgejo' + {f};
      }
      assert done == pairs;
      if !dryRun { EnteredRows(store.Books(), pairs, githubListed, forgejoListed, byDigest); }
    }

    method PairByDigest(githubIds: seq<Id>, forgejoIds: seq<Id>, githubListed: Listing, forgejoListed: Listing,
                        consumedGitHub: set<Id>, consumedForgejo: set<Id>) returns (pairs: map<Id, Id>)
      requires Distinct(githubIds) && forall x :: x in githubIds <==> x in githubListed
      requires Distinct(forgejoIds) && forall x :: x in forgejoIds <==> x in forgejoListed
      ensures pairs == Pairs(Digests(githubListed, consumedGitHub), Digests(forgejoListed, consumedForgejo))
    {
      var gs := Unconsumed(githubIds, consumedGitHub);
      var fs := Unconsumed(forgejoIds, consumedForgejo);
      var inverse;
      pairs, inverse := UniquePairs(gs, fs, Digests(githubListed, consumedGitHub), Digests(forgejoListed, consumedForgejo));
    }

    /** Pairs by number, kept only when normalized titles and both refs agree. */
    method PairByIndex(githubIds: seq<Id>, forgejoIds: seq<Id>, githubListed: Listing, forgejoListed: Listing,
                       consumedGitHub: set<Id>, consumedForgejo: set<Id>) returns (pairs: map<Id, Id>)
      requires Distinct(githubIds) && forall x :: x in githubIds <==> x in githubListed
      requires Distinct(forgejoIds) && forall x :: x in forgejoIds <==> x in forgejoListed
      ensures pairs == IndexPairs(githubListed, forgejoListed, consumedGitHub, consumedForgejo, normalize)
      ensures forall g :: g in pairs ==> g in githubListed && g !in consumedGitHub && pairs[g] in forgejoListed
      ensures forall g :: g in pairs ==> githubListed[g].index == forgejoListed[pairs[g]].index
    {
      hide IndexPairs, Fits, Indexes, Distinct, Pairs;
      var gs := Unconsumed(githubIds, consumedGitHub);
      var fs := Unconsumed(forgejoIds, consumedForgejo);
      IndexIdsAre(githubIds, githubListed, consumedGitHub, gs);
      IndexIdsAre(forgejoIds, forgejoListed, consumedForgejo, fs);
      var all, inverse := UniquePairs(gs, fs, Indexes(githubListed, consumedGitHub), Indexes(forgejoListed, consumedForgejo));
      IndexPairsAre(githubListed, forgejoListed, consumedGitHub, consumedForgejo, all, normalize);
      pairs := map g | g in all && Fits(forgejoListed[all[g]].digest, githubListed[g].digest, true, normalize) :: all[g];
    }

    // ---- leftovers ----

    method Adopt(ids: seq<Id>, listed: Listing, item: Digest, consumed: set<Id>, byTitle: bool) returns (found: Option<Id>)
      requires forall x :: x in ids ==> x in listed
      ensures found == FirstFit(ids, listed, item, consumed, byTitle, normalize)
    {
      for i := 0 to |ids|
        invariant FirstFit(ids, listed, item, consumed, byTitle, normalize)
                  == FirstFit(ids[i..], listed, item, consumed, byTitle, normalize)
      {
        if ids[i] !in consumed && Fits(listed[ids[i]].digest, item, byTitle, normalize) { return Some(ids[i]); }
      }
      found := None;
    }

    /** Creates the Forgejo counterpart, or adopts one, or records why neither is possible. */
    method LandOnForgejo(g: Id, item: PullRequest, forgejoIds: seq<Id>, forgejoListed: Listing, consumedForgejo: set<Id>)
      returns (ok: bool, refused: bool, ghost answer: ForgejoAnswer)
      requires Sides() && forgejo.Knows(forgejoListed) && forall x :: x in forgejoIds ==> x in forgejoListed
      modifies forgejo`pulls, forgejo`trouble, forgejo`log, store
      ensures SameKnowledge(old(forgejo.pulls), forgejo.pulls)
      ensures |forgejo.log| == |old(forgejo.log)| + 1 && old(forgejo.log) <= forgejo.log && Last(forgejo.log).item == item
      ensures ok ==> AnsweredFrom(Last(forgejo.log).reply, forgejoIds, forgejoListed, item.digest, consumedForgejo, answer)
      ensures ok ==> refused == RefusedAs(old(store.Books()), g, answer)
      ensures ok ==> store.Books() == LandGitHub(old(store.Books()), g, item.digest, answer)
      // a row with GitHub's digest as baseline, so that a text that differs on Forgejo is next copied to GitHub
      ensures ok && !refused ==>
                && g in store.rows && store.rows == old(store.rows)[g := store.rows[g]] && store.conflicts == old(store.conflicts)
                && store.rows[g].baseline == item.digest
                && (forall d :: Compare(item.digest, d, store.rows[g].baseline) in {InSync, ToGitHub})
      ensures ok && !refused ==>
                var reply, f := Last(forgejo.log).reply, store.rows[g].forgejo;
                && reply !in {Refused(404), Refused(422)}
                && (if reply.Made? then f == reply.id
                    else f in forgejoIds && f !in consumedForgejo && SameRefs(forgejoListed[f].digest, item.digest))
      // or a conflict that says why not
      ensures ok && refused ==> store.rows == old(store.rows)
      ensures ok && Last(forgejo.log).reply in {Refused(404), Refused(422)} ==>
                && refused && store.conflicts == old(store.conflicts)
                                + {PullConflict(EmptyPull, Some(g), None, Holds(item.digest), Note("uncreateable"))}
      ensures ok && refused && Last(forgejo.log).reply !in {Refused(404), Refused(422)} ==>
                || (exists f, d :: Taken(store.rows, g, f)
                      && store.conflicts == old(store.conflicts) + {PullConflict(PairingClash, Some(g), Some(f), Holds(item.digest), Holds(d))})
                || (Last(forgejo.log).reply == Refused(409)
                    && (forall f :: f in forgejoIds && f !in consumedForgejo ==> !SameRefs(forgejoListed[f].digest, item.digest))
                    && store.conflicts == old(store.conflicts)
                         + {PullConflict(DuplicatePull, Some(g), None, Holds(item.digest), Note("occupied-refs"))})
      ensures || ok || store.trouble
              || (Unexpected(Last(forgejo.log).reply)
                  && forall f :: f in forgejoIds && f !in consumedForgejo ==> !SameRefs(forgejoListed[f].digest, item.digest))
    {
      hide Enter, FirstFit;
      ok, refused, answer := false, false, Uncreateable;
      ghost var i := AdoptionPrefersTitle(forgejoIds, forgejoListed, item.digest, consumedForgejo, normalize);
      var reply := forgejo.Create(item);
      var other: Id, digest: Digest;
      if reply.Made? {
        other, digest := reply.id, reply.pull.digest;
      } else if reply == Refused(404) || reply == Refused(422) {
        ok := store.AddConflict(PullConflict(EmptyPull, Some(g), None, Holds(item.digest), Note("uncreateable")));
        return ok, true, Uncreateable;
      } else {
        var found := Adopt(forgejoIds, forgejoListed, item.digest, consumedForgejo, true);
        if found.None? { found := Adopt(forgejoIds, forgejoListed, item.digest, consumedForgejo, false); }
        if found.None? {
          if reply != Refused(409) { return; }
          ok := store.AddConflict(PullConflict(DuplicatePull, Some(g), None, Holds(item.digest), Note("occupied-refs")));
          return ok, true, OccupiedRefs;
        }
        other, digest := found.value, forgejoListed[found.value].digest;
      }
      answer := Counterpart(other, digest);
      refused := Taken(store.rows, g, other);
      ok := RecordPair(g, other, PullRow(other, item.digest), item.digest, digest, true);
    }

    /** The answer follows from the reply and from what can be adopted. */
    predicate AnsweredFrom(reply: CreateReply, ids: seq<Id>, listed: Listing, item: Digest, consumed: set<Id>, answer: ForgejoAnswer)
      requires forall x :: x in ids ==> x in listed
    {
      AdoptionIsListed(ids, listed, item, consumed, normalize);
      && (reply.Made? ==> reply.id !in listed)
      && ForgejoAnswerTo(reply, Adoption(ids, listed, item, consumed, normalize), listed) == Some(answer)
    }

    ghost predicate AllAnswered(log0: seq<Asked>, log: seq<Asked>, ids: seq<Id>, listed: Listing, consumed: set<Id>, answers: seq<ForgejoAnswer>)
    {
      && |log| == |log0| + |answers| && (forall x :: x in ids ==> x in listed)
      && forall i :: 0 <= i < |answers| ==>
           AnsweredFrom(log[|log0| + i].reply, ids, listed, log[|log0| + i].item.digest, consumed, answers[i])
    }

    lemma NothingAnswered(log: seq<Asked>, ids: seq<Id>, listed: Listing, consumed: set<Id>)
      requires forall x :: x in ids ==> x in listed
      ensures AllAnswered(log, log, ids, listed, consumed, [])
    {
    }

    lemma AnsweredMore(log0: seq<Asked>, log: seq<Asked>, log': seq<Asked>, ids: seq<Id>, listed: Listing, consumed: set<Id>,
                       answers: seq<ForgejoAnswer>, answer: ForgejoAnswer)
      requires AllAnswered(log0, log, ids, listed, consumed, answers)
      requires |log'| == |log| + 1 && log <= log'
      requires AnsweredFrom(Last(log').reply, ids, listed, Last(log').item.digest, consumed, answer)
      ensures AllAnswered(log0, log', ids, listed, consumed, answers + [answer])
    {
      hide AnsweredFrom;
      forall i | 0 <= i < |answers + [answer]|
        ensures AnsweredFrom(log'[|log0| + i].reply, ids, listed, log'[|log0| + i].item.digest, consumed, (answers + [answer])[i])
      {
        if i < |answers| { assert log'[|log0| + i] == log[|log0| + i]; }
      }
    }

    lemma AnswerIsAdopted(reply: CreateReply, ids: seq<Id>, listed: Listing, item: Digest, consumed: set<Id>, answer: ForgejoAnswer)
      requires (forall x :: x in ids ==> x in listed) && AnsweredFrom(reply, ids, listed, item, consumed, answer)
      requires answer.Counterpart? && answer.id in listed
      ensures SameRefs(listed[answer.id].digest, item)
    {
      hide FirstFit;
      AdoptedIsListed(ids, listed, item, consumed, true, normalize);
      AdoptedIsListed(ids, listed, item, consumed, false, normalize);
    }

    lemma RowsAtSecondLoop(b3: Books, b4: Books, c: Loop, log0: seq<Asked>, log: seq<Asked>, ids: seq<Id>, gl: Listing, fl: Listing,
                           cg: set<Id>, cf: set<Id>, rest: seq<Id>, answers: seq<ForgejoAnswer>)
      requires WellFormed(c) && c.items == fl && c.listed == gl && cg <= gl.Keys && Distinct(rest) && forall g :: g in rest ==> g in gl && g !in cg
      requires |rest| == |answers| && c.consumed == cg + RefusedIn(b3, rest, gl, answers)
      requires b4 == LandAllGitHub(b3, rest, gl, answers) && HeldBack(b3.rows, gl, fl, cf)
      requires Requested(log0, log, rest, gl) && AllAnswered(log0, log, ids, fl, cf, answers)
      ensures HeldOrAdopted(b4, c, cf)
    {
      hide LandAllGitHub, RefusedIn, AnsweredFrom, Distinct;
      forall x | x in b4.rows && b4.rows[x].forgejo in fl && b4.rows[x].forgejo !in cf
        ensures x !in c.consumed && (x in gl ==> SameRefs(gl[x].digest, fl[b4.rows[x].forgejo].digest))
      {
        RowsOfLanding(b3, rest, gl, answers, x);
        if !(x in b3.rows && b4.rows[x] == b3.rows[x]) {
          var k: nat :| k < |rest| && rest[k] == x && answers[k].Counterpart? && b4.rows[x].forgejo == answers[k].id;
          assert log[|log0| + k].item == gl[rest[k]];
          AnswerIsAdopted(log[|log0| + k].reply, ids, fl, gl[x].digest, cf, answers[k]);
        }
      }
    }

    /** Creates the GitHub counterpart, or adopts or looks up the one that spans the refs. */
    method LandOnGitHub(ghost c: Loop, ghost i: nat, f: Id, item: PullRequest, githubIds: seq<Id>, githubListed: Listing, consumedGitHub: set<Id>)
      returns (ok: bool, ghost answer: GitHubAnswer)
      requires Sides() && forall x :: x in githubIds ==> x in githubListed
      requires github.Knows(githubListed) && consumedGitHub <= githubListed.Keys
      requires WellFormed(c) && i < |c.leftover| && f == c.leftover[i] && item == c.items[f]
      requires c.order == githubIds && c.listed == githubListed && c.consumed == consumedGitHub && c.normalize == normalize
      modifies github`pulls, github`trouble, github`log, store
      ensures |github.log| == |old(github.log)| + 1 && old(github.log) <= github.log && Last(github.log).item == item
      ensures SameKnowledge(old(github.pulls), github.pulls)
      ensures ok ==> FitsAt(c, i, old(github.pulls), github.pulls, Last(github.log).reply, answer)
      ensures ok ==> store.Books() == LandForgejo(old(store.Books()), consumedGitHub, f, item.digest, answer)
      ensures ok && answer.Created? ==> answer.id !in consumedGitHub
      // at most one row, with the digest of the GitHub pull request as baseline
      ensures ok ==> forall x :: x in store.rows ==>
                || (x in old(store.rows) && store.rows[x] == old(store.rows)[x])
                || (store.rows == old(store.rows)[x := store.rows[x]] && store.rows[x].forgejo == f && x !in consumedGitHub
                    && x in github.pulls && (Last(github.log).reply.Made? ==> x == Last(github.log).reply.id)
                    && store.rows[x].baseline
                         == (if x in githubIds && SameRefs(githubListed[x].digest, item.digest) && !Last(github.log).reply.Made?
                             then githubListed[x].digest else github.pulls[x].digest)
                    && HasTargetsDigest(store.rows[x], x, f, github.pulls, githubListed))
      // or a conflict that names f
      ensures ok && Last(github.log).reply == NoCommits ==>
                && store.rows == old(store.rows)
                && store.conflicts == old(store.conflicts) + {PullConflict(EmptyPull, None, Some(f), Note("no-diff"), Holds(item.digest))}
      ensures ok && store.conflicts != old(store.conflicts) && Last(github.log).reply != NoCommits ==>
                && store.rows == old(store.rows)
                && exists x, d, kind :: kind in {DuplicatePull, PairingClash}
                     && (if kind == DuplicatePull then x in consumedGitHub else Taken(store.rows, x, f))
                     && store.conflicts == old(store.conflicts) + {PullConflict(kind, Some(x), Some(f), Holds(d), Holds(item.digest))}
      ensures ok || github.trouble || store.trouble || Unexpected(Last(github.log).reply)
    {
      hide Enter, FirstFit;
      ok, answer := false, NoDifference;
      ghost var k := FirstFitIsFirst(githubIds, githubListed, item.digest, consumedGitHub, false, normalize);
      var reply := github.Create(item);
      if reply == NoCommits {
        ok := store.AddConflict(PullConflict(EmptyPull, None, Some(f), Note("no-diff"), Holds(item.digest)));
        return ok, NoDifference;
      }
      var other: Id, digest: Digest;
      if reply == AlreadyExists {
        var found := Adopt(githubIds, githubListed, item.digest, consumedGitHub, false);
        if found.Some? {
          other, digest := found.value, githubListed[found.value].digest;
        } else {
          var reached;
          reached, found := github.FindByHead(item.digest.head);
          if !reached || found.None? { return; }
          other, digest := found.value, github.pulls[found.value].digest;
        }
        answer := Existing(other, digest);
        if other in consumedGitHub {
          ok := store.AddConflict(PullConflict(DuplicatePull, Some(other), Some(f), Holds(digest), Holds(item.digest)));
          return;
        }
      } else if reply.Made? {
        other, digest := reply.id, reply.pull.digest;
        answer := Created(other, digest);
      } else {
        return;
      }
      ok := RecordPair(other, f, PullRow(f, digest), digest, item.digest, true);
    }

    /** The first leftover loop: one create request for each GitHub leftover, and its answer is
        what the books say.  All of them end up accounted for. */
    method CopyToForgejo(leftover: seq<Id>, githubListed: Listing, forgejoIds: seq<Id>, forgejoListed: Listing,
                         consumedGitHub: set<Id>, consumedForgejo: set<Id>)
      returns (ok: bool, consumedGitHub': set<Id>, ghost answers: seq<ForgejoAnswer>)
      requires Sides() && Distinct(leftover) && forall x :: x in leftover ==> x in githubListed && x !in consumedGitHub
      requires forall x :: x in forgejoIds ==> x in forgejoListed
      requires Booked(store.Books(), consumedGitHub, consumedForgejo) && consumedGitHub <= githubListed.Keys
      requires forgejo.Knows(forgejoListed)
      modifies forgejo`pulls, forgejo`trouble, forgejo`log, store
      ensures consumedGitHub <= consumedGitHub' <= githubListed.Keys
      ensures ok || store.trouble || (|forgejo.log| > |old(forgejo.log)| && Unexpected(Last(forgejo.log).reply))
      ensures ok ==> |answers| == |leftover| && consumedGitHub' == consumedGitHub + RefusedIn(old(store.Books()), leftover, githubListed, answers)
      ensures ok ==> Requested(old(forgejo.log), forgejo.log, leftover, githubListed) && |answers| == |leftover|
      ensures ok ==> AllAnswered(old(forgejo.log), forgejo.log, forgejoIds, forgejoListed, consumedForgejo, answers)
      ensures ok ==> store.Books() == LandAllGitHub(old(store.Books()), leftover, githubListed, answers)
      ensures ok ==> Booked(store.Books(), consumedGitHub', consumedForgejo) && Extends(old(store.Books()), store.Books(), consumedGitHub)
      ensures ok ==> forall g :: g in leftover ==> GitHubAccounted(store.Books(), g)
      ensures ok ==> forall g :: g in leftover && g !in consumedGitHub' ==>
                g in store.rows && store.rows[g].baseline == githubListed[g].digest
    {
      hide Booked, Extends, GitHubAccounted, LandGitHub, Compare, Taken, SameRefs, AnsweredFrom, AllAnswered, Requested,
           LandAllGitHub, RefusedIn, RefusedAs, Unexpected;
      NothingRequested(forgejo.log, githubListed);
      NothingAnswered(forgejo.log, forgejoIds, forgejoListed, consumedForgejo);
      NothingLanded(store.Books(), githubListed);
      NothingRefused(store.Books(), githubListed);
      ok, consumedGitHub', answers := true, consumedGitHub, [];
      ExtendsRefl(store.Books(), consumedGitHub);
      for i := 0 to |leftover|
        invariant ok && consumedGitHub <= consumedGitHub' <= githubListed.Keys && forgejo.Knows(forgejoListed)
        invariant forall k :: i <= k < |leftover| ==> leftover[k] !in consumedGitHub'
        invariant Requested(old(forgejo.log), forgejo.log, leftover[..i], githubListed) && |forgejo.log| == |old(forgejo.log)| + i
        invariant |answers| == i
        invariant AllAnswered(old(forgejo.log), forgejo.log, forgejoIds, forgejoListed, consumedForgejo, answers)
        invariant store.Books() == LandAllGitHub(old(store.Books()), leftover[..i], githubListed, answers)
        invariant Booked(store.Books(), consumedGitHub', consumedForgejo)
        invariant consumedGitHub' == consumedGitHub + RefusedIn(old(store.Books()), leftover[..i], githubListed, answers)
        invariant Extends(old(store.Books()), store.Books(), consumedGitHub)
        invariant forall k :: 0 <= k < i ==> GitHubAccounted(store.Books(), leftover[k])
        invariant forall k :: 0 <= k < i && leftover[k] !in consumedGitHub' ==>
                    leftover[k] in store.rows && store.rows[leftover[k]].baseline == githubListed[leftover[k]].digest
      {
        var g := leftover[i];
        ghost var b, answer, log, pulls := store.Books(), Uncreateable, forgejo.log, forgejo.pulls;
        var refused;
        ok, refused, answer := LandOnForgejo(g, githubListed[g], forgejoIds, forgejoListed, consumedForgejo);
        if !ok { return; }
        KnowsStill(pulls, forgejo.pulls, forgejoListed);
        LandedGitHub(b, g, githubListed[g].digest, answer, consumedGitHub', consumedForgejo);
        ExtendsKeeps(b, store.Books(), consumedGitHub');
        ExtendsTwice(old(store.Books()), b, store.Books(), consumedGitHub, consumedGitHub');
        if refused {
          ConsumeAccounted(store.Books(), consumedGitHub', consumedForgejo, g);
          consumedGitHub' := consumedGitHub' + {g};
        }
        RequestedMore(old(forgejo.log), log, forgejo.log, leftover[..i], g, githubListed);
        AnsweredMore(old(forgejo.log), log, forgejo.log, forgejoIds, forgejoListed, consumedForgejo, answers, answer);
        LandedMore(old(store.Books()), leftover[..i], g, githubListed, answers, answer);
        RefusedMore(old(store.Books()), leftover[..i], g, githubListed, answers, answer);
        answers := answers + [answer];
        assert leftover[..i] + [g] == leftover[..i + 1];
      }
      assert leftover[..|leftover|] == leftover;
    }

    /** The second leftover loop.  It never marks the GitHub pull request it settles on as consumed, so
        a later leftover can take the row of an earlier one; those apart from all later ones keep theirs.
        The replies are those of the request log, between snapshots of GitHub's pull requests. */
    method CopyToGitHub(leftover: seq<Id>, forgejoListed: Listing, githubIds: seq<Id>, githubListed: Listing,
                        consumedGitHub: set<Id>, consumedForgejo: set<Id>)
      returns (ok: bool, ghost pulls: seq<Listing>, ghost answers: seq<GitHubAnswer>)
      requires Sides() && Distinct(leftover) && forall x :: x in leftover ==> x in forgejoListed
      requires forall x :: x in githubIds ==> x in githubListed
      requires Booked(store.Books(), consumedGitHub, consumedForgejo) && consumedGitHub <= githubListed.Keys
      requires github.Knows(githubListed)
      modifies github`pulls, github`trouble, github`log, store
      ensures ok || github.trouble || store.trouble || (|github.log| > |old(github.log)| && Unexpected(Last(github.log).reply))
      ensures ok ==> Requested(old(github.log), github.log, leftover, forgejoListed)
      ensures ok ==> var c := Loop(leftover, forgejoListed, githubIds, githubListed, consumedGitHub, normalize);
        && FittingRun(c, pulls, RepliesSince(old(github.log), github.log), answers) && pulls[0] == old(github.pulls)
        && |answers| == |leftover| && store.Books() == BooksAfter(c, old(store.Books()), answers, |leftover|)
        && forall i :: 0 <= i < |leftover| && ApartFromLater(c, i) ==> ForgejoAccounted(store.Books(), leftover[i])
      ensures ok ==> Booked(store.Books(), consumedGitHub, consumedForgejo) && Extends(old(store.Books()), store.Books(), consumedGitHub)
      ensures ok ==> |pulls| == |leftover| + 1 && forall x :: x in store.rows ==>
                || (x in old(store.rows) && store.rows[x] == old(store.rows)[x])
                || exists i :: 0 <= i < |leftover| && HasTargetsDigest(store.rows[x], x, leftover[i], pulls[i + 1], githubListed)
    {
      hide Booked, Extends, ForgejoAccounted, LandForgejo, FirstFit, FitsAt, SameRefs, Taken, HasTargetsDigest, Requested,
           LandAllForgejo, ApartFromLater, Unexpected;
      ghost var c := Loop(leftover, forgejoListed, githubIds, githubListed, consumedGitHub, normalize);
      ghost var b0, log0 := store.Books(), github.log;
      NothingRequested(github.log, forgejoListed);
      NothingLandedForgejo(store.Books(), consumedGitHub, forgejoListed);
      ok, pulls, answers := true, [github.pulls], [];
      ExtendsRefl(store.Books(), consumedGitHub);
      for i := 0 to |leftover|
        invariant ok && github.Knows(githubListed)
        invariant Requested(log0, github.log, leftover[..i], forgejoListed) && |github.log| == |log0| + i
        invariant |pulls| == i + 1 && |answers| == i && pulls[0] == old(github.pulls) && pulls[i] == github.pulls
        invariant forall k :: 0 <= k < i ==> FitsAt(c, k, pulls[k], pulls[k + 1], github.log[|log0| + k].reply, answers[k])
        invariant store.Books() == LandAllForgejo(b0, consumedGitHub, leftover[..i], forgejoListed, answers)
        invariant Booked(store.Books(), consumedGitHub, consumedForgejo)
        invariant Extends(b0, store.Books(), consumedGitHub)
        invariant forall x :: x in store.rows ==>
                    || (x in b0.rows && store.rows[x] == b0.rows[x])
                    || exists k :: 0 <= k < i && HasTargetsDigest(store.rows[x], x, leftover[k], pulls[k + 1], githubListed)
      {
        var f := leftover[i];
        ghost var b, answer, log := store.Books(), NoDifference, github.log;
        ok, answer := LandOnGitHub(c, i, f, forgejoListed[f], githubIds, githubListed, consumedGitHub);
        if !ok { return; }
        EnteredDigest(b0.rows, b.rows, store.rows, leftover, i, pulls, github.pulls, githubListed);
        LandedForgejo(b, f, forgejoListed[f].digest, answer, consumedGitHub, consumedForgejo);
        ExtendsTwice(b0, b, store.Books(), consumedGitHub, consumedGitHub);
        RequestedMore(log0, log, github.log, leftover[..i], f, forgejoListed);
        LandedMoreForgejo(b0, consumedGitHub, leftover[..i], f, forgejoListed, answers, answer);
        KnowsStill(pulls[i], github.pulls, githubListed);
        forall k: nat | k < i ensures FitsAt(c, k, pulls[k], pulls[k + 1], github.log[|log0| + k].reply, answers[k]) {
          assert github.log[|log0| + k] == log[|log0| + k];
        }
        pulls, answers := pulls + [github.pulls], answers + [answer];
        assert leftover[..i] + [f] == leftover[..i + 1];
      }
      assert leftover[..|leftover|] == leftover && answers[..|answers|] == answers;
      forall i | 0 <= i < |leftover| && ApartFromLater(c, i) ensures ForgejoAccounted(store.Books(), leftover[i]) {
        ApartIsAccounted(c, b0, pulls, RepliesSince(log0, github.log), answers, i);
      }
    }

    /** Both leftover loops, over what is not consumed. */
    method CopyLeftovers(githubIds: seq<Id>, githubListed: Listing, forgejoIds: seq<Id>, forgejoListed: Listing,
                         consumedGitHub: set<Id>, consumedForgejo: set<Id>)
      returns (ok: bool, consumed: set<Id>, ghost forGitHub: seq<Id>, ghost forForgejo: seq<Id>, ghost loop: Books)
      requires Sides() && Distinct(githubIds) && Distinct(forgejoIds)
      requires (forall x :: x in githubIds <==> x in githubListed) && (forall x :: x in forgejoIds <==> x in forgejoListed)
      requires Booked(store.Books(), consumedGitHub, consumedForgejo) && consumedGitHub <= githubListed.Keys
      requires github.Knows(githubListed) && forgejo.Knows(forgejoListed)
      requires HeldBack(store.rows, githubListed, forgejoListed, consumedForgejo)
      modifies github`pulls, github`trouble, github`log, forgejo`pulls, forgejo`trouble, forgejo`log, store
      ensures ok || Trouble() || EndedBy(old(forgejo.log), forgejo.log) || EndedBy(old(github.log), github.log)
      ensures ok ==> Distinct(forForgejo) && forall g :: g in forForgejo <==> g in githubListed && g !in consumedGitHub
      ensures ok ==> Distinct(forGitHub) && forall f :: f in forGitHub <==> f in forgejoListed && f !in consumedForgejo
      ensures ok ==> Requested(old(forgejo.log), forgejo.log, forForgejo, githubListed)
      ensures ok ==> Requested(old(github.log), github.log, forGitHub, forgejoListed)
      ensures ok ==> ConsumedOrNamed(store.Books(), consumedGitHub, consumed) && consumed <= githubListed.Keys
      ensures ok ==> Extends(old(store.Books()), store.Books(), consumedGitHub) && UniquePulls(store.rows)
      ensures ok ==> forall g :: g in githubListed ==> GitHubAccounted(store.Books(), g)
      ensures ok ==> var c := Loop(forGitHub, forgejoListed, githubIds, githubListed, consumed, normalize);
        WellFormed(c) && forall f :: f in forgejoListed && !Endangered(c, f) ==> ForgejoAccounted(store.Books(), f)
      ensures ok ==> var c := Loop(forGitHub, forgejoListed, githubIds, githubListed, consumed, normalize);
        && |old(github.log)| <= |github.log|
        && InSecondLoop(c, loop, store.Books(), old(github.pulls), RepliesSince(old(github.log), github.log))
        && (HeadsAgree(c, loop, old(github.pulls)) ==> Consistent(c, loop, old(github.pulls)))
    {
      hide Booked, Extends, GitHubAccounted, ForgejoAccounted, UniquePulls, LandAllForgejo, LandAllGitHub, Distinct, FittingRun,
           ApartFromLater, Endangered, Unexpected, RefusedIn, SameKnowledge, KnowsListing, Requested, AllAnswered, BooksAfter,
           RepliesSince, ConsumedOrNamed, HeldBack, HeadsAgree, Consistent, InSecondLoop;
      forGitHub, forForgejo, loop := [], [], store.Books();
      ghost var b3 := store.Books();
      var rest := Unconsumed(githubIds, consumedGitHub);
      ghost var forgejoAnswers, pulls, githubAnswers;
      ok, consumed, forgejoAnswers := CopyToForgejo(rest, githubListed, forgejoIds, forgejoListed, consumedGitHub, consumedForgejo);
      if !ok { return; }
      ghost var b4 := store.Books();
      loop := b4;
      var restForgejo := Unconsumed(forgejoIds, consumedForgejo);
      ghost var c := Loop(restForgejo, forgejoListed, githubIds, githubListed, consumed, normalize);
      RowsAtSecondLoop(b3, b4, c, old(forgejo.log), forgejo.log, forgejoIds, githubListed, forgejoListed, consumedGitHub, consumedForgejo,
                       rest, forgejoAnswers);
      BookedAreUnique(b4, consumed, consumedForgejo);
      ConsistentIfHeadsAgree(c, b4, github.pulls, consumedForgejo);
      ok, pulls, githubAnswers := CopyToGitHub(restForgejo, forgejoListed, githubIds, githubListed, consumed, consumedForgejo);
      if !ok { return; }
      ghost var b5 := store.Books();
      RequestsGrow(old(github.log), github.log, restForgejo, forgejoListed);
      SecondLoopIs(c, b4, b5, pulls, RepliesSince(old(github.log), github.log), githubAnswers);
      forGitHub, forForgejo := restForgejo, rest;
      ExtendsTwice(b3, b4, b5, consumedGitHub, consumed);
      RefusedAreConsumed(b3, b4, b5, githubListed, consumedGitHub, consumed, rest, forgejoAnswers);
      AllAccounted(b4, b5, githubListed, consumedGitHub, consumed, consumedForgejo, rest);
      NotEndangeredIsAccounted(Loop(restForgejo, forgejoListed, githubIds, githubListed, consumed, normalize), b5, consumed, consumedForgejo,
                               forgejoListed);
    }

    // ---- the run ----

    /** A dry run writes nothing.  A run that succeeds keeps every mapped pair, enters the pairs of
        both passes, and asks the other forge for each leftover exactly once.  It leaves the mapping
        injective both ways, every listed GitHub pull request in a row or named by a conflict, and
        every listed Forgejo one too, except perhaps those that a later leftover is not apart from.
        The second loop runs from `loop` and `start`, where `LostIff` says exactly who can be lost. */
    method Reconcile(dryRun: bool)
      returns (ok: bool, ghost forGitHub: seq<Id>, ghost forForgejo: seq<Id>, ghost consumed: set<Id>, ghost loop: Books, ghost start: Listing)
      requires Sides() && UniquePulls(store.rows) && !Trouble() && !forgejo.stuck
      modifies github, forgejo, store
      ensures dryRun ==> store.Books() == old(store.Books()) && github.pulls == old(github.pulls) && forgejo.pulls == old(forgejo.pulls)
      ensures dryRun ==> github.log == old(github.log) && forgejo.log == old(forgejo.log)
      ensures ok || Trouble() || forgejo.stuck || NumberClash(store.rows, github.listed, forgejo.listed)
              || EndedBy(old(forgejo.log), forgejo.log) || EndedBy(old(github.log), github.log)
      ensures ok && !dryRun ==> UniquePulls(store.rows)
      ensures ok && !dryRun ==> old(store.rows).Keys <= store.rows.Keys && old(store.conflicts) <= store.conflicts
      ensures ok && !dryRun ==> MappedKept(old(store.rows), store.Books(), github.listed, forgejo.listed)
      ensures ok && !dryRun ==> PairsEntered(store.Books(), old(store.rows), github.listed, forgejo.listed, normalize)
      ensures ok && !dryRun ==> AreLeftovers(forGitHub, forForgejo, old(store.rows), github.listed, forgejo.listed, normalize)
      ensures ok && !dryRun ==> Requested(old(forgejo.log), forgejo.log, forForgejo, github.listed)
      ensures ok && !dryRun ==> Requested(old(github.log), github.log, forGitHub, forgejo.listed)
      ensures ok && !dryRun ==> AreConsumed(consumed, store.Books(), old(store.rows), github.listed, forgejo.listed, normalize)
      ensures ok && !dryRun ==> forall g :: g in github.listed ==> GitHubAccounted(store.Books(), g)
      ensures ok && !dryRun ==> var c := Loop(forGitHub, forgejo.listed, github.order, github.listed, consumed, normalize);
        WellFormed(c) && forall f :: f in forgejo.listed && !Endangered(c, f) ==> ForgejoAccounted(store.Books(), f)
      ensures ok && !dryRun ==> var c := Loop(forGitHub, forgejo.listed, github.order, github.listed, consumed, normalize);
        && |old(github.log)| <= |github.log|
        && InSecondLoop(c, loop, store.Books(), start, RepliesSince(old(github.log), github.log))
        && (HeadsAgree(c, loop, start) ==> Consistent(c, loop, start))
    {
      hide Booked, Extends, GitHubAccounted, ForgejoAccounted, UniquePulls, RowDone, AllEntered, MappedGitHub, MappedForgejo,
           SameLinks, MappedKept, PairsEntered, AreLeftovers, IndexPairs, DigestPairs, LandAllForgejo, LandAllGitHub, AnsweredFrom,
           Distinct, Pairs, Digests, NumberClash, SecondPairs, Taken, ForgejoFixed, FittingRun, ApartFromLater, Endangered, AreConsumed,
           Unexpected, RefusedIn, SameKnowledge, KnowsListing, Requested, AllAnswered, BooksAfter, RepliesSince, AllRowsDone,
           RowsFromPairs, HeldBack, HeadsAgree, Consistent, InSecondLoop;
      forGitHub, forForgejo, consumed, loop, start := [], [], {}, store.Books(), map[];
      var githubIds, forgejoIds;
      ok, githubIds := github.List();
      if !ok { return; }
      ok, forgejoIds := forgejo.List();
      if !ok { return; }
      var gl, fl := github.listed, forgejo.listed;
      ghost var b0 := store.Books();
      var cg, cf;
      ok, cg, cf := ReconcileMapped(gl, fl, dryRun);
      if !ok { return; }
      ghost var b1, cg1, cf1 := store.Books(), cg, cf;
      MappedIsBooked(b0, b1, gl, fl);
      var pairs := PairByDigest(githubIds, forgejoIds, gl, fl, cg, cf);
      ghost var byDigest := pairs;
      DigestPairsAre(b0.rows, gl, fl, pairs);
      ok, cg, cf := RecordPairs(pairs, gl, fl, true, cg, cf, dryRun);
      if !ok { return; }
      ghost var b2, cg2, cf2 := store.Books(), cg, cf;
      pairs := PairByIndex(githubIds, forgejoIds, gl, fl, cg, cf);
      ghost var byIndex := pairs;
      ValuesListed(pairs, fl);
      ok, cg, cf := RecordPairs(pairs, gl, fl, false, cg, cf, dryRun);
      if !ok {
        ClashOfNumbers(store.rows, gl, fl, pairs, store.trouble);
        return;
      }
      if dryRun { return; }
      ghost var b3, cg3 := store.Books(), cg;
      KnowsStill(old(github.pulls), github.pulls, gl);
      KnowsStill(old(forgejo.pulls), forgejo.pulls, fl);
      HeldAfterMapped(b0, b1, gl, fl);
      HeldAfterPairs(b1.rows, b2.rows, byDigest, gl, fl, cf1, cf2);
      HeldAfterPairs(b2.rows, b3.rows, byIndex, gl, fl, cf2, cf);
      start := github.pulls;
      var all;
      ok, all, forGitHub, forForgejo, loop := CopyLeftovers(githubIds, gl, forgejoIds, fl, cg, cf);
      if !ok { return; }
      consumed := all;
      LeftoversAre(b0.rows, gl, fl, byDigest, byIndex, forForgejo, forGitHub, normalize);
      ExtendsAll(b1, b2, b3, store.Books(), cg1, cg2, cg3);
      RunKeepsPairs(b0, b1, b2, b3, store.Books(), gl, fl, byDigest, byIndex, normalize);
      ConsumedAre(b0.rows, store.Books(), gl, fl, byDigest, byIndex, cg3, consumed, normalize);
    }
  }

  /** The row of a pull request on GitHub for f: the baseline is its own digest, as listed or as found. */
  ghost predicate HasTargetsDigest(row: PullRow, x: Id, f: Id, pulls: Listing, listed: Listing)
  {
    && row.forgejo == f && x in pulls
    && (row.baseline == pulls[x].digest || (x in listed && row.baseline == listed[x].digest))
  }

  lemma EnteredDigest(rows0: map<Id, PullRow>, rows: map<Id, PullRow>, rows': map<Id, PullRow>, leftover: seq<Id>, i: nat,
                      pulls: seq<Listing>, pulls': Listing, listed: Listing)
    requires |pulls| == i + 1 <= |leftover|
    requires forall x :: x in rows ==>
               || (x in rows0 && rows[x] == rows0[x])
               || exists k :: 0 <= k < i && HasTargetsDigest(rows[x], x, leftover[k], pulls[k + 1], listed)
    requires forall x :: x in rows' ==> (x in rows && rows'[x] == rows[x]) || HasTargetsDigest(rows'[x], x, leftover[i], pulls', listed)
    ensures forall x :: x in rows' ==>
              || (x in rows0 && rows'[x] == rows0[x])
              || exists k :: 0 <= k < i + 1 && HasTargetsDigest(rows'[x], x, leftover[k], (pulls + [pulls'])[k + 1], listed)
  {
    hide HasTargetsDigest;
    forall x | x in rows' && !(x in rows0 && rows'[x] == rows0[x])
      ensures exists k :: 0 <= k < i + 1 && HasTargetsDigest(rows'[x], x, leftover[k], (pulls + [pulls'])[k + 1], listed)
    {
      if x in rows && rows'[x] == rows[x] {
        var k :| 0 <= k < i && HasTargetsDigest(rows[x], x, leftover[k], pulls[k + 1], listed);
        assert (pulls + [pulls'])[k + 1] == pulls[k + 1];
      } else {
        assert (pulls + [pulls'])[i + 1] == pulls';
      }
    }
  }

  /** A reply that the reconciler has no answer to. */
  predicate Unexpected(reply: CreateReply)
  {
    reply.Failed? || (reply.Refused? && reply.status !in {404, 409, 422})
  }

  /** The last create request of the run got such a reply. */
  predicate EndedBy(log: seq<Asked>, log': seq<Asked>)
  {
    |log'| > |log| && Unexpected(log'[|log'| - 1].reply)
  }

  /** A leftover that some later one is not apart from. */
  ghost predicate Endangered(c: Loop, f: Id)
    requires WellFormed(c)
  {
    exists i :: 0 <= i < |c.leftover| && c.leftover[i] == f && !ApartFromLater(c, i)
  }

  lemma NotEndangeredIsAccounted(c: Loop, b: Books, cg: set<Id>, cf: set<Id>, fl: Listing)
    requires WellFormed(c) && Booked(b, cg, cf)
    requires forall i :: 0 <= i < |c.leftover| && ApartFromLater(c, i) ==> ForgejoAccounted(b, c.leftover[i])
    requires forall f :: f in fl && f !in cf ==> f in c.leftover
    ensures forall f :: f in fl && !Endangered(c, f) ==> ForgejoAccounted(b, f)
  {
    hide ApartFromLater;
    forall f | f in fl && !Endangered(c, f) ensures ForgejoAccounted(b, f) {
      if f in cf {
        assert ForgejoFixed(b, cg, f);
      } else {
        var i :| 0 <= i < |c.leftover| && c.leftover[i] == f;
      }
    }
  }

  /** The answer left a conflict instead of a row. */
  predicate RefusedAs(b: Books, g: Id, answer: ForgejoAnswer)
  {
    !answer.Counterpart? || Taken(b.rows, g, answer.id)
  }

  /** The GitHub leftovers whose answer left a conflict. */
  function RefusedIn(b: Books, ids: seq<Id>, items: Listing, answers: seq<ForgejoAnswer>): set<Id>
    requires |ids| == |answers| && forall x :: x in ids ==> x in items
  {
    if ids == [] then {}
    else
      var n := |ids| - 1;
      RefusedIn(b, ids[..n], items, answers[..n])
      + (if RefusedAs(LandAllGitHub(b, ids[..n], items, answers[..n]), ids[n], answers[n]) then {ids[n]} else {})
  }

  lemma NothingRefused(b: Books, items: Listing)
    ensures RefusedIn(b, [], items, []) == {}
  {
  }

  lemma RefusedMore(b: Books, ids: seq<Id>, x: Id, items: Listing, answers: seq<ForgejoAnswer>, answer: ForgejoAnswer)
    requires |ids| == |answers| && x in items && forall y :: y in ids ==> y in items
    ensures RefusedIn(b, ids + [x], items, answers + [answer])
            == RefusedIn(b, ids, items, answers) + (if RefusedAs(LandAllGitHub(b, ids, items, answers), x, answer) then {x} else {})
  {
    assert (ids + [x])[..|ids|] == ids && (answers + [answer])[..|ids|] == answers;
  }

  lemma {:induction false} RefusedAreNamed(b: Books, ids: seq<Id>, items: Listing, answers: seq<ForgejoAnswer>)
    requires |ids| == |answers| && forall x :: x in ids ==> x in items
    ensures forall g :: g in RefusedIn(b, ids, items, answers) ==> g in ids && NamesGitHub(LandAllGitHub(b, ids, items, answers), g)
  {
    if ids != [] {
      var n := |ids| - 1;
      RefusedAreNamed(b, ids[..n], items, answers[..n]);
      var b1, b2 := LandAllGitHub(b, ids[..n], items, answers[..n]), LandAllGitHub(b, ids, items, answers);
      LandingNames(b1, ids[n], items[ids[n]].digest, answers[n]);
      assert b2 == LandGitHub(b1, ids[n], items[ids[n]].digest, answers[n]);
      forall g: Id | NamesGitHub(b1, g) ensures NamesGitHub(b2, g) {
        var x :| x in b1.conflicts && x.github == Some(g);
        assert x in b2.conflicts;
      }
    }
  }

  lemma LandingNames(b: Books, g: Id, item: Digest, answer: ForgejoAnswer)
    ensures b.conflicts <= LandGitHub(b, g, item, answer).conflicts
    ensures RefusedAs(b, g, answer) ==> NamesGitHub(LandGitHub(b, g, item, answer), g)
  {
    match answer {
      case Counterpart(f, d) => NoteExtends(b, PullConflict(PairingClash, Some(g), Some(f), Holds(item), Holds(d)), {});
      case Uncreateable => NoteExtends(b, PullConflict(EmptyPull, Some(g), None, Holds(item), Note("uncreateable")), {});
      case OccupiedRefs => NoteExtends(b, PullConflict(DuplicatePull, Some(g), None, Holds(item), Note("occupied-refs")), {});
    }
  }

  /** What counts as consumed in the second loop: mapped or paired, or refused and therefore named. */
  ghost predicate AreConsumed(consumed: set<Id>, b: Books, rows: map<Id, PullRow>, gl: Listing, fl: Listing, normalize: string -> string)
  {
    var paired := MappedGitHub(rows, gl, fl) + DigestPairs(rows, gl, fl).Keys + SecondPairs(rows, gl, fl, normalize).Keys;
    ConsumedOrNamed(b, paired, consumed) && consumed <= gl.Keys
  }

  ghost predicate ConsumedOrNamed(b: Books, paired: set<Id>, consumed: set<Id>)
  {
    paired <= consumed && forall g :: g in consumed - paired ==> NamesGitHub(b, g)
  }

  lemma RefusedAreConsumed(b3: Books, b4: Books, b5: Books, gl: Listing, cg3: set<Id>, cg4: set<Id>, rest: seq<Id>, answers: seq<ForgejoAnswer>)
    requires |rest| == |answers| && forall x :: x in rest ==> x in gl
    requires cg4 == cg3 + RefusedIn(b3, rest, gl, answers) && b4 == LandAllGitHub(b3, rest, gl, answers)
    requires Extends(b4, b5, cg4)
    ensures ConsumedOrNamed(b5, cg3, cg4)
  {
    hide RefusedIn, LandAllGitHub;
    RefusedAreNamed(b3, rest, gl, answers);
    forall g | g in cg4 - cg3 ensures NamesGitHub(b5, g) {
      var x :| x in b4.conflicts && x.github == Some(g);
      assert x in b5.conflicts;
    }
  }

  lemma ConsumedAre(rows: map<Id, PullRow>, b: Books, gl: Listing, fl: Listing, first: map<Id, Id>, second: map<Id, Id>,
                    paired: set<Id>, consumed: set<Id>, normalize: string -> string)
    requires first == DigestPairs(rows, gl, fl)
    requires second == IndexPairs(gl, fl, MappedGitHub(rows, gl, fl) + first.Keys, MappedForgejo(rows, gl, fl) + first.Values, normalize)
    requires paired == MappedGitHub(rows, gl, fl) + first.Keys + second.Keys && consumed <= gl.Keys && ConsumedOrNamed(b, paired, consumed)
    ensures AreConsumed(consumed, b, rows, gl, fl, normalize)
  {
    hide MappedGitHub, MappedForgejo, DigestPairs, IndexPairs, ConsumedOrNamed;
  }

  /** Two listed pull requests with one number, of which the Forgejo one is in another row. */
  ghost predicate NumberClash(rows: map<Id, PullRow>, gl: Listing, fl: Listing)
  {
    exists g, f :: g in gl && f in fl && gl[g].index == fl[f].index && Taken(rows, g, f)
  }

  ghost predicate SameLinks(b: Books, b': Books)
  {
    && b'.rows.Keys == b.rows.Keys && b.conflicts <= b'.conflicts
    && forall g :: g in b.rows ==> b'.rows[g].forgejo == b.rows[g].forgejo
  }

  lemma SameLinksRefl(b: Books)
    ensures SameLinks(b, b)
  {
  }

  lemma SameLinksUnique(b: Books, b': Books)
    requires SameLinks(b, b') && UniquePulls(b.rows)
    ensures UniquePulls(b'.rows) && b'.rows.Keys == b.rows.Keys
  {
  }

  function MissingConflict(g: Id, row: PullRow, gl: Listing, fl: Listing): PullConflict
  {
    PullConflict(MissingPull, Some(g), Some(row.forgejo),
      if g in gl then Present(gl[g].digest, g) else Absent,
      if row.forgejo in fl then Present(fl[row.forgejo].digest, row.forgejo) else Absent)
  }

  /** The conflicts a compared pair leaves. */
  function PairConflicts(g: Id, row: PullRow, githubItem: Digest, forgejoItem: Digest, reply: UpdateReply): set<PullConflict>
  {
    match Compare(githubItem, forgejoItem, row.baseline)
    case ToForgejo =>
      if reply.Locked? then {PullConflict(LockedPull, Some(g), Some(row.forgejo), Holds(githubItem), Holds(forgejoItem))} else {}
    case Clash => {PullConflict(ClashingPull, Some(g), Some(row.forgejo), Holds(githubItem), Holds(forgejoItem))}
    case _ => {}
  }

  /** A mapping row has been dealt with: compared if both sides are listed, else reported. */
  ghost predicate RowDone(b: Books, g: Id, row: PullRow, gl: Listing, fl: Listing)
  {
    if g in gl && row.forgejo in fl then
      exists reply: UpdateReply ::
        && Handled(Compare(gl[g].digest, fl[row.forgejo].digest, row.baseline), reply)
        && g in b.rows && b.rows[g] == row.(baseline := BaselineAfter(gl[g].digest, fl[row.forgejo].digest, row.baseline, reply))
        && PairConflicts(g, row, gl[g].digest, fl[row.forgejo].digest, reply) <= b.conflicts
    else MissingConflict(g, row, gl, fl) in b.conflicts
  }

  /** At most the baseline of this row changed, and conflicts were added. */
  ghost predicate OnlyRow(b: Books, b': Books, g: Id)
  {
    && g in b.rows && g in b'.rows && b'.rows[g].forgejo == b.rows[g].forgejo
    && b'.rows == b.rows[g := b'.rows[g]] && b.conflicts <= b'.conflicts
  }

  lemma RowsAfterRow(b0: Books, b: Books, b': Books, g: Id, todo: set<Id>, done: set<Id>, gl: Listing, fl: Listing, dryRun: bool)
    requires OnlyRow(b, b', g) && SameLinks(b0, b) && g !in todo && g !in done && done + todo + {g} == b0.rows.Keys
    requires forall h :: h in todo + {g} ==> b.rows[h] == b0.rows[h]
    requires !dryRun ==> RowDone(b', g, b0.rows[g], gl, fl) && forall h :: h in done ==> RowDone(b, h, b0.rows[h], gl, fl)
    ensures SameLinks(b0, b') && forall h :: h in todo ==> b'.rows[h] == b0.rows[h]
    ensures !dryRun ==> forall h :: h in done + {g} ==> RowDone(b', h, b0.rows[h], gl, fl)
  {
    hide RowDone;
    if !dryRun {
      forall h | h in done ensures RowDone(b', h, b0.rows[h], gl, fl) { StillDone(b, b', h, b0.rows[h], gl, fl); }
    }
  }

  ghost predicate AllRowsDone(b: Books, rows: map<Id, PullRow>, gl: Listing, fl: Listing)
  {
    forall g :: g in rows ==> RowDone(b, g, rows[g], gl, fl)
  }

  lemma StillDone(b: Books, b': Books, g: Id, row: PullRow, gl: Listing, fl: Listing)
    requires RowDone(b, g, row, gl, fl) && b.conflicts <= b'.conflicts && (g in b.rows ==> g in b'.rows && b'.rows[g] == b.rows[g])
    ensures RowDone(b', g, row, gl, fl)
  {
    if g in gl && row.forgejo in fl {
      var reply: UpdateReply :| Handled(Compare(gl[g].digest, fl[row.forgejo].digest, row.baseline), reply) && g in b.rows
        && b.rows[g] == row.(baseline := BaselineAfter(gl[g].digest, fl[row.forgejo].digest, row.baseline, reply))
        && PairConflicts(g, row, gl[g].digest, fl[row.forgejo].digest, reply) <= b.conflicts;
      assert PairConflicts(g, row, gl[g].digest, fl[row.forgejo].digest, reply) <= b'.conflicts;
    }
  }

  /** The pull requests of rows that are listed on both sides. */
  ghost function MappedGitHub(rows: map<Id, PullRow>, gl: Listing, fl: Listing): set<Id>
  {
    set g | g in rows && g in gl && rows[g].forgejo in fl
  }

  ghost function MappedForgejo(rows: map<Id, PullRow>, gl: Listing, fl: Listing): set<Id>
  {
    set g | g in rows && g in gl && rows[g].forgejo in fl :: rows[g].forgejo
  }

  ghost function Only(rows: map<Id, PullRow>, ids: set<Id>): map<Id, PullRow>
  {
    map g | g in rows && g in ids :: rows[g]
  }

  lemma NothingMapped(rows: map<Id, PullRow>, gl: Listing, fl: Listing)
    ensures MappedGitHub(Only(rows, {}), gl, fl) == {} && MappedForgejo(Only(rows, {}), gl, fl) == {}
  {
  }

  lemma MappedStep(rows: map<Id, PullRow>, done: set<Id>, g: Id, gl: Listing, fl: Listing)
    requires g in rows && g !in done
    ensures var both := g in gl && rows[g].forgejo in fl;
      && MappedGitHub(Only(rows, done + {g}), gl, fl) == MappedGitHub(Only(rows, done), gl, fl) + (if both then {g} else {})
      && MappedForgejo(Only(rows, done + {g}), gl, fl) == MappedForgejo(Only(rows, done), gl, fl) + (if both then {rows[g].forgejo} else {})
  {
  }

  lemma MappedIsBooked(b0: Books, b1: Books, gl: Listing, fl: Listing)
    requires SameLinks(b0, b1) && UniquePulls(b0.rows)
    ensures Booked(b1, MappedGitHub(b0.rows, gl, fl), MappedForgejo(b0.rows, gl, fl))
    ensures MappedGitHub(b0.rows, gl, fl) <= gl.Keys
  {
    var cg, cf := MappedGitHub(b0.rows, gl, fl), MappedForgejo(b0.rows, gl, fl);
    forall f | f in cf ensures ForgejoFixed(b1, cg, f) {
      var x :| x in b0.rows && x in gl && b0.rows[x].forgejo in fl && b0.rows[x].forgejo == f;
      assert x in cg && x in b1.rows && b1.rows[x].forgejo == f;
    }
  }

  // ---- the pairs of both passes ----

  ghost predicate AllEntered(b: Books, pairs: map<Id, Id>, gl: Listing, fl: Listing, byDigest: bool)
  {
    forall g :: g in pairs && g in gl && pairs[g] in fl ==> Entered(b, g, pairs[g], gl[g].digest, fl[pairs[g]].digest, byDigest)
  }

  lemma EnteredRows(b: Books, pairs: map<Id, Id>, gl: Listing, fl: Listing, byDigest: bool)
    requires AllEntered(b, pairs, gl, fl, byDigest) && pairs.Keys <= gl.Keys && pairs.Values <= fl.Keys
    ensures forall g :: g in pairs ==>
              var f, gd, fd := pairs[g], gl[g].digest, fl[pairs[g]].digest;
              || (g in b.rows && b.rows[g] == PullRow(f, if byDigest then gd else fd))
              || (byDigest && PullConflict(PairingClash, Some(g), Some(f), Holds(gd), Holds(fd)) in b.conflicts)
  {
    forall g | g in pairs ensures Entered(b, g, pairs[g], gl[g].digest, fl[pairs[g]].digest, byDigest) { assert pairs[g] in pairs.Values; }
  }

  lemma OneMoreEntered(b: Books, done: map<Id, Id>, g: Id, f: Id, gl: Listing, fl: Listing, byDigest: bool)
    requires AllEntered(b, done, gl, fl, byDigest) && g !in done && g in gl && f in fl
    requires byDigest || !Taken(b.rows, g, f)
    ensures var row := PullRow(f, if byDigest then gl[g].digest else fl[f].digest);
      AllEntered(Enter(b, g, row, gl[g].digest, fl[f].digest), done[g := f], gl, fl, byDigest)
  {
    hide Enter, Entered;
    var row := PullRow(f, if byDigest then gl[g].digest else fl[f].digest);
    EnterEnters(b, g, f, gl[g].digest, fl[f].digest, byDigest);
    forall h | h in done && h in gl && done[h] in fl
      ensures Entered(Enter(b, g, row, gl[g].digest, fl[f].digest), h, done[h], gl[h].digest, fl[done[h]].digest, byDigest)
    {
      EnterKeepsOthers(b, g, row, gl[g].digest, fl[f].digest, h, done[h], gl[h].digest, fl[done[h]].digest, byDigest);
    }
  }

  lemma StillEntered(b: Books, b': Books, pairs: map<Id, Id>, gl: Listing, fl: Listing, byDigest: bool, fixed: set<Id>)
    requires AllEntered(b, pairs, gl, fl, byDigest) && Extends(b, b', fixed) && pairs.Keys <= fixed
    ensures AllEntered(b', pairs, gl, fl, byDigest)
  {
  }

  ghost function DigestPairs(rows: map<Id, PullRow>, gl: Listing, fl: Listing): map<Id, Id>
  {
    Pairs(Digests(gl, MappedGitHub(rows, gl, fl)), Digests(fl, MappedForgejo(rows, gl, fl)))
  }

  /** Pairs by number whose normalized titles and refs agree. */
  ghost function IndexPairs(gl: Listing, fl: Listing, cg: set<Id>, cf: set<Id>, normalize: string -> string): map<Id, Id>
  {
    var all := Pairs(Indexes(gl, cg), Indexes(fl, cf));
    map g | g in all && g in gl && all[g] in fl && Fits(fl[all[g]].digest, gl[g].digest, true, normalize) :: all[g]
  }

  lemma IndexPairsAre(gl: Listing, fl: Listing, cg: set<Id>, cf: set<Id>, all: map<Id, Id>, normalize: string -> string)
    requires all == Pairs(Indexes(gl, cg), Indexes(fl, cf))
    ensures forall g :: g in all ==> g in gl && g !in cg && all[g] in fl && gl[g].index == fl[all[g]].index
    ensures IndexPairs(gl, fl, cg, cf, normalize)
            == map g | g in all && g in gl && all[g] in fl && Fits(fl[all[g]].digest, gl[g].digest, true, normalize) :: all[g]
  {
    forall g | g in all ensures g in gl && g !in cg && all[g] in fl && gl[g].index == fl[all[g]].index {
      assert Matches(Indexes(gl, cg), Indexes(fl, cf), g, all[g]);
    }
  }

  /** The first pass pairs unconsumed pull requests whose digests are equal, if no other has that digest. */
  lemma DigestPairIff(gl: Listing, fl: Listing, cg: set<Id>, cf: set<Id>, g: Id, f: Id)
    ensures var pairs := Pairs(Digests(gl, cg), Digests(fl, cf));
      g in pairs && pairs[g] == f <==>
        && g in gl && g !in cg && f in fl && f !in cf && gl[g].digest == fl[f].digest
        && (forall u | u in gl && u !in cg :: gl[u].digest == gl[g].digest ==> u == g)
        && (forall v | v in fl && v !in cf :: fl[v].digest == fl[f].digest ==> v == f)
  {
    var gs, fs := Digests(gl, cg), Digests(fl, cf);
    assert Matches(gs, fs, g, f) <==> g in Pairs(gs, fs) && Pairs(gs, fs)[g] == f;
    hide Pairs;
    assert forall u :: u in gs <==> u in gl && u !in cg;
    assert forall v :: v in fs <==> v in fl && v !in cf;
  }

  /** The second pass pairs those with one number, if no other has it, and only if the normalized titles
      and both refs agree. */
  lemma IndexPairIff(gl: Listing, fl: Listing, cg: set<Id>, cf: set<Id>, normalize: string -> string, g: Id, f: Id)
    ensures var pairs := IndexPairs(gl, fl, cg, cf, normalize);
      g in pairs && pairs[g] == f <==>
        && g in gl && g !in cg && f in fl && f !in cf && gl[g].index == fl[f].index
        && (forall u | u in gl && u !in cg :: gl[u].index == gl[g].index ==> u == g)
        && (forall v | v in fl && v !in cf :: fl[v].index == fl[f].index ==> v == f)
        && normalize(gl[g].digest.title) == normalize(fl[f].digest.title)
        && gl[g].digest.head == fl[f].digest.head && gl[g].digest.base == fl[f].digest.base
  {
    var gs, fs := Indexes(gl, cg), Indexes(fl, cf);
    assert Matches(gs, fs, g, f) <==> g in Pairs(gs, fs) && Pairs(gs, fs)[g] == f;
    IndexPairsAre(gl, fl, cg, cf, Pairs(gs, fs), normalize);
    hide Pairs, IndexPairs;
    assert forall u :: u in gs <==> u in gl && u !in cg;
    assert forall v :: v in fs <==> v in fl && v !in cf;
  }

  lemma IndexIdsAre(ids: seq<Id>, listed: Listing, consumed: set<Id>, rest: seq<Id>)
    requires forall x :: x in ids <==> x in listed
    requires forall x :: x in rest <==> x in ids && x !in consumed
    ensures forall x :: x in rest <==> x in Indexes(listed, consumed)
  {
  }

  ghost function SecondPairs(rows: map<Id, PullRow>, gl: Listing, fl: Listing, normalize: string -> string): map<Id, Id>
  {
    var first := DigestPairs(rows, gl, fl);
    IndexPairs(gl, fl, MappedGitHub(rows, gl, fl) + first.Keys, MappedForgejo(rows, gl, fl) + first.Values, normalize)
  }

  /** Rows listed on both sides keep their partner. */
  ghost predicate MappedKept(rows: map<Id, PullRow>, b: Books, gl: Listing, fl: Listing)
  {
    forall g :: g in MappedGitHub(rows, gl, fl) ==> RowDone(b, g, rows[g], gl, fl)
  }

  ghost predicate PairsEntered(b: Books, rows: map<Id, PullRow>, gl: Listing, fl: Listing, normalize: string -> string)
  {
    && AllEntered(b, DigestPairs(rows, gl, fl), gl, fl, true)
    && AllEntered(b, SecondPairs(rows, gl, fl, normalize), gl, fl, false)
  }

  /** What neither has a row nor was paired, on each side. */
  ghost predicate AreLeftovers(forGitHub: seq<Id>, forForgejo: seq<Id>, rows: map<Id, PullRow>, gl: Listing, fl: Listing,
                               normalize: string -> string)
  {
    var first, second := DigestPairs(rows, gl, fl), SecondPairs(rows, gl, fl, normalize);
    && Distinct(forGitHub) && Distinct(forForgejo)
    && (forall g :: g in forForgejo <==> g in gl && g !in MappedGitHub(rows, gl, fl) && g !in first && g !in second)
    && (forall f :: f in forGitHub <==> f in fl && f !in MappedForgejo(rows, gl, fl) && f !in first.Values && f !in second.Values)
  }

  lemma DigestPairsAre(rows: map<Id, PullRow>, gl: Listing, fl: Listing, pairs: map<Id, Id>)
    requires pairs == Pairs(Digests(gl, MappedGitHub(rows, gl, fl)), Digests(fl, MappedForgejo(rows, gl, fl)))
    ensures pairs == DigestPairs(rows, gl, fl)
    ensures pairs.Keys <= gl.Keys && pairs.Values <= fl.Keys && pairs.Keys !! MappedGitHub(rows, gl, fl)
  {
    hide MappedGitHub, MappedForgejo;
  }

  lemma LeftoversAre(rows: map<Id, PullRow>, gl: Listing, fl: Listing, first: map<Id, Id>, second: map<Id, Id>,
                     rest: seq<Id>, restForgejo: seq<Id>, normalize: string -> string)
    requires first == DigestPairs(rows, gl, fl)
    requires second == IndexPairs(gl, fl, MappedGitHub(rows, gl, fl) + first.Keys, MappedForgejo(rows, gl, fl) + first.Values, normalize)
    requires Distinct(rest) && Distinct(restForgejo)
    requires forall g :: g in rest <==> g in gl && g !in MappedGitHub(rows, gl, fl) + first.Keys + second.Keys
    requires forall f :: f in restForgejo <==> f in fl && f !in MappedForgejo(rows, gl, fl) + first.Values + second.Values
    ensures AreLeftovers(restForgejo, rest, rows, gl, fl, normalize)
  {
    hide MappedGitHub, MappedForgejo, DigestPairs, IndexPairs, Distinct;
  }

  lemma RunKeepsPairs(b0: Books, b1: Books, b2: Books, b3: Books, b5: Books, gl: Listing, fl: Listing,
                      first: map<Id, Id>, second: map<Id, Id>, normalize: string -> string)
    requires SameLinks(b0, b1) && AllRowsDone(b1, b0.rows, gl, fl) && first == DigestPairs(b0.rows, gl, fl)
    requires second == IndexPairs(gl, fl, MappedGitHub(b0.rows, gl, fl) + first.Keys, MappedForgejo(b0.rows, gl, fl) + first.Values, normalize)
    requires AllEntered(b2, first, gl, fl, true) && AllEntered(b3, second, gl, fl, false)
    requires Extends(b1, b5, MappedGitHub(b0.rows, gl, fl))
    requires Extends(b2, b5, MappedGitHub(b0.rows, gl, fl) + first.Keys)
    requires Extends(b3, b5, MappedGitHub(b0.rows, gl, fl) + first.Keys + second.Keys)
    ensures MappedKept(b0.rows, b5, gl, fl) && PairsEntered(b5, b0.rows, gl, fl, normalize)
    ensures b0.rows.Keys <= b5.rows.Keys && b0.conflicts <= b5.conflicts
  {
    hide DigestPairs, IndexPairs, AllEntered, RowDone;
    StillEntered(b2, b5, first, gl, fl, true, MappedGitHub(b0.rows, gl, fl) + first.Keys);
    StillEntered(b3, b5, second, gl, fl, false, MappedGitHub(b0.rows, gl, fl) + first.Keys + second.Keys);
    forall g | g in MappedGitHub(b0.rows, gl, fl) ensures RowDone(b5, g, b0.rows[g], gl, fl) {
      StillDone(b1, b5, g, b0.rows[g], gl, fl);
    }
  }

  lemma ClashOfNumbers(rows: map<Id, PullRow>, gl: Listing, fl: Listing, pairs: map<Id, Id>, trouble: bool)
    requires trouble || exists g :: g in pairs && Taken(rows, g, pairs[g])
    requires forall g :: g in pairs ==> g in gl && pairs[g] in fl && gl[g].index == fl[pairs[g]].index
    ensures trouble || NumberClash(rows, gl, fl)
  {
  }

  // ---- requests ----

  function Last(log: seq<Asked>): Asked
    requires log != []
  {
    log[|log| - 1]
  }

  /** One create request for each of these, in order. */
  ghost predicate Requested(log: seq<Asked>, log': seq<Asked>, ids: seq<Id>, items: Listing)
  {
    && |log'| == |log| + |ids| && log <= log'
    && forall i :: 0 <= i < |ids| ==> ids[i] in items && log'[|log| + i].item == items[ids[i]]
  }

  function RepliesSince(log: seq<Asked>, log': seq<Asked>): seq<CreateReply>
    requires |log| <= |log'|
  {
    seq(|log'| - |log|, k requires 0 <= k < |log'| - |log| => log'[|log| + k].reply)
  }

  lemma NothingRequested(log: seq<Asked>, items: Listing)
    ensures Requested(log, log, [], items)
  {
  }

  lemma RequestedMore(log0: seq<Asked>, log: seq<Asked>, log': seq<Asked>, ids: seq<Id>, x: Id, items: Listing)
    requires Requested(log0, log, ids, items) && |log'| == |log| + 1 && log <= log' && x in items && Last(log').item == items[x]
    ensures Requested(log0, log', ids + [x], items)
  {
    forall i | 0 <= i < |ids + [x]| ensures (ids + [x])[i] in items && log'[|log0| + i].item == items[(ids + [x])[i]] {
      if i < |ids| { assert log'[|log0| + i] == log[|log0| + i]; }
    }
  }

  lemma NothingLanded(b: Books, items: Listing)
    ensures LandAllGitHub(b, [], items, []) == b
  {
  }

  lemma LandedMore(b: Books, ids: seq<Id>, x: Id, items: Listing, answers: seq<ForgejoAnswer>, answer: ForgejoAnswer)
    requires |ids| == |answers| && x in items && forall y :: y in ids ==> y in items
    ensures LandAllGitHub(b, ids + [x], items, answers + [answer])
            == LandGitHub(LandAllGitHub(b, ids, items, answers), x, items[x].digest, answer)
  {
    assert (ids + [x])[..|ids|] == ids && (answers + [answer])[..|ids|] == answers;
  }

  lemma NothingLandedForgejo(b: Books, consumedGitHub: set<Id>, items: Listing)
    ensures LandAllForgejo(b, consumedGitHub, [], items, []) == b
  {
  }

  lemma LandedMoreForgejo(b: Books, consumedGitHub: set<Id>, ids: seq<Id>, x: Id, items: Listing, answers: seq<GitHubAnswer>, answer: GitHubAnswer)
    requires |ids| == |answers| && x in items && forall y :: y in ids ==> y in items
    ensures LandAllForgejo(b, consumedGitHub, ids + [x], items, answers + [answer])
            == LandForgejo(LandAllForgejo(b, consumedGitHub, ids, items, answers), consumedGitHub, x, items[x].digest, answer)
  {
    assert (ids + [x])[..|ids|] == ids && (answers + [answer])[..|ids|] == answers;
  }

  lemma AdoptionIsListed(ids: seq<Id>, listed: Listing, item: Digest, consumed: set<Id>, normalize: string -> string)
    requires forall x :: x in ids ==> x in listed
    ensures var found := Adoption(ids, listed, item, consumed, normalize); found.Some? ==> found.value in listed
  {
    AdoptedIsListed(ids, listed, item, consumed, true, normalize);
    AdoptedIsListed(ids, listed, item, consumed, false, normalize);
  }

  lemma ExtendsRefl(b: Books, fixed: set<Id>)
    ensures Extends(b, b, fixed)
  {
  }

  lemma ExtendsTwice(b0: Books, b1: Books, b2: Books, fixed: set<Id>, fixed': set<Id>)
    requires Extends(b0, b1, fixed) && Extends(b1, b2, fixed') && fixed <= fixed'
    ensures Extends(b0, b2, fixed)
  {
  }

  lemma ExtendsAll(b1: Books, b2: Books, b3: Books, b4: Books, cg1: set<Id>, cg2: set<Id>, cg3: set<Id>)
    requires Extends(b1, b2, cg1) && Extends(b2, b3, cg2) && Extends(b3, b4, cg3) && cg1 <= cg2 <= cg3
    ensures Extends(b1, b4, cg1) && Extends(b2, b4, cg2)
  {
    hide Extends;
    ExtendsTwice(b2, b3, b4, cg2, cg3);
    ExtendsTwice(b1, b2, b4, cg1, cg2);
  }

  lemma EnterSettles(b: Books, g: Id, row: PullRow, githubItem: Digest, forgejoItem: Digest, cg: set<Id>, cf: set<Id>)
    requires Booked(b, cg, cf) && g !in cg
    ensures var b' := Enter(b, g, row, githubItem, forgejoItem);
      Booked(b', cg + {g}, cf + {row.forgejo}) && Extends(b, b', cg)
  {
    hide Extends, Enter, GitHubAccounted;
    var b' := Enter(b, g, row, githubItem, forgejoItem);
    EnterExtends(b, g, row, githubItem, forgejoItem, cg);
    ExtendsKeeps(b, b', cg);
    forall f | f in cf + {row.forgejo} ensures ForgejoFixed(b', cg + {g}, f) {
      FixedByMore(b', cg, g, f);
      if f !in cf && !NamesForgejo(b', f) { assert g in cg + {g} && b'.rows[g].forgejo == f; }
    }
  }

  lemma FixedByMore(b: Books, cg: set<Id>, g: Id, f: Id)
    ensures ForgejoFixed(b, cg, f) ==> ForgejoFixed(b, cg + {g}, f)
  {
    if ForgejoFixed(b, cg, f) && !NamesForgejo(b, f) {
      var x :| x in cg && x in b.rows && b.rows[x].forgejo == f;
      assert x in cg + {g};
    }
  }

  function Digests(listed: Listing, consumed: set<Id>): map<Id, Signature<Digest>>
  {
    map x | x in listed && x !in consumed :: Signature(listed[x].digest, "")
  }

  function Indexes(listed: Listing, consumed: set<Id>): map<Id, Signature<nat>>
  {
    map x | x in listed && x !in consumed :: Signature(listed[x].index, "")
  }

  lemma ConsumeAccounted(b: Books, cg: set<Id>, cf: set<Id>, g: Id)
    requires Booked(b, cg, cf) && GitHubAccounted(b, g)
    ensures Booked(b, cg + {g}, cf)
  {
    hide GitHubAccounted, ForgejoFixed;
    forall f | f in cf ensures ForgejoFixed(b, cg + {g}, f) { FixedByMore(b, cg, g, f); }
  }

  // ---- which rows hold leftovers back ----

  /** Each row is an old one, or that of a pair. */
  ghost predicate RowsFromPairs(rows: map<Id, PullRow>, rows': map<Id, PullRow>, pairs: map<Id, Id>)
  {
    forall x :: x in rows' ==> (x in rows && rows'[x] == rows[x]) || (x in pairs && rows'[x].forgejo == pairs[x])
  }

  lemma NoPairRows(rows: map<Id, PullRow>)
    ensures RowsFromPairs(rows, rows, map[])
  {
  }

  lemma OnePairRow(rows: map<Id, PullRow>, b: Books, done: map<Id, Id>, g: Id, row: PullRow, githubItem: Digest, forgejoItem: Digest)
    requires RowsFromPairs(rows, b.rows, done) && g !in done
    ensures RowsFromPairs(rows, Enter(b, g, row, githubItem, forgejoItem).rows, done[g := row.forgejo])
  {
  }

  /** Rows of Forgejo pull requests that are listed and not consumed belong to GitHub ones that are not listed. */
  ghost predicate HeldBack(rows: map<Id, PullRow>, gl: Listing, fl: Listing, cf: set<Id>)
  {
    forall x :: x in rows && rows[x].forgejo in fl && rows[x].forgejo !in cf ==> x !in gl
  }

  lemma HeldAfterMapped(b0: Books, b1: Books, gl: Listing, fl: Listing)
    requires SameLinks(b0, b1)
    ensures HeldBack(b1.rows, gl, fl, MappedForgejo(b0.rows, gl, fl))
  {
  }

  lemma HeldAfterPairs(rows: map<Id, PullRow>, rows': map<Id, PullRow>, pairs: map<Id, Id>, gl: Listing, fl: Listing, cf: set<Id>, cf': set<Id>)
    requires HeldBack(rows, gl, fl, cf) && RowsFromPairs(rows, rows', pairs) && cf' == cf + pairs.Values
    ensures HeldBack(rows', gl, fl, cf')
  {
  }

  /** After the first loop such a row may also be that of a GitHub pull request that adopted it: listed,
      with the same refs, and not consumed. */
  ghost predicate HeldOrAdopted(b: Books, c: Loop, cf: set<Id>)
    requires WellFormed(c)
  {
    forall x :: x in b.rows && b.rows[x].forgejo in c.items && b.rows[x].forgejo !in cf ==>
      x !in c.consumed && (x in c.listed ==> SameRefs(c.listed[x].digest, c.items[b.rows[x].forgejo].digest))
  }

  /** A row after the first loop: an old one, or that of a leftover with the Forgejo one it was answered. */
  lemma {:induction false} RowsOfLanding(b: Books, ids: seq<Id>, items: Listing, answers: seq<ForgejoAnswer>, x: Id)
    requires |ids| == |answers| && (forall y :: y in ids ==> y in items) && Distinct(ids)
    ensures var b' := LandAllGitHub(b, ids, items, answers);
      x in b'.rows ==>
        || (x in b.rows && b'.rows[x] == b.rows[x])
        || (x !in RefusedIn(b, ids, items, answers)
            && exists k: nat :: k < |ids| && ids[k] == x && answers[k].Counterpart? && b'.rows[x].forgejo == answers[k].id)
    ensures forall g :: g in RefusedIn(b, ids, items, answers) ==> g in ids
  {
    if ids != [] {
      var n := |ids| - 1;
      RowsOfLanding(b, ids[..n], items, answers[..n], x);
      assert ids[n] !in ids[..n];
      var b1 := LandAllGitHub(b, ids[..n], items, answers[..n]);
      assert LandAllGitHub(b, ids, items, answers) == LandGitHub(b1, ids[n], items[ids[n]].digest, answers[n]);
      if k: nat :| k < n && ids[..n][k] == x && answers[..n][k].Counterpart? && x in b1.rows && b1.rows[x].forgejo == answers[..n][k].id {
        assert ids[k] == x && answers[k] == answers[..n][k];
      }
    }
  }

  lemma ConsistentIfHeadsAgree(c: Loop, b: Books, start: Listing, cf: set<Id>)
    requires WellFormed(c) && KnowsListing(start, c.listed) && UniquePulls(b.rows) && HeldOrAdopted(b, c, cf)
    requires forall f :: f in c.leftover ==> f in c.items && f !in cf
    ensures HeadsAgree(c, b, start) ==> Consistent(c, b, start)
  {
  }

  /** Rows of pull requests that are no longer listed link equal head refs. */
  ghost predicate HeadsAgree(c: Loop, b: Books, start: Listing)
    requires WellFormed(c)
  {
    forall m: nat, x :: m < |c.leftover| && RowOf(b, c.leftover[m], x) && x in start && x !in c.listed ==> start[x].digest.head == Item(c, m).head
  }

  /** The books are what some answers to these replies lead to. */
  ghost predicate InSecondLoop(c: Loop, b: Books, b': Books, start: Listing, replies: seq<CreateReply>)
    requires WellFormed(c)
  {
    exists pulls, answers :: FittingRun(c, pulls, replies, answers) && pulls[0] == start && b' == BooksAfter(c, b, answers, |c.leftover|)
  }

  lemma BookedAreUnique(b: Books, cg: set<Id>, cf: set<Id>)
    requires Booked(b, cg, cf)
    ensures UniquePulls(b.rows)
  {
  }

  lemma RequestsGrow(log: seq<Asked>, log': seq<Asked>, ids: seq<Id>, items: Listing)
    requires Requested(log, log', ids, items)
    ensures |log| <= |log'|
  {
  }

  lemma SecondLoopIs(c: Loop, b: Books, b': Books, pulls: seq<Listing>, replies: seq<CreateReply>, answers: seq<GitHubAnswer>)
    requires WellFormed(c) && FittingRun(c, pulls, replies, answers) && b' == BooksAfter(c, b, answers, |c.leftover|)
    ensures InSecondLoop(c, b, b', pulls[0], replies)
  {
    hide FittingRun, BooksAfter;
  }

  lemma ValuesListed(pairs: map<Id, Id>, fl: Listing)
    requires forall g :: g in pairs ==> pairs[g] in fl
    ensures pairs.Values <= fl.Keys
  {
  }

  lemma KnowsStill(pulls: Listing, pulls': Listing, listed: Listing)
    requires SameKnowledge(pulls, pulls') && KnowsListing(pulls, listed)
    ensures KnowsListing(pulls', listed)
  {
  }

  lemma AllAccounted(b4: Books, b5: Books, gl: Listing, cg3: set<Id>, cg4: set<Id>, cf: set<Id>, rest: seq<Id>)
    requires Booked(b5, cg4, cf) && Extends(b4, b5, cg4) && cg3 <= cg4
    requires forall g :: g in gl && g !in cg3 ==> g in rest
    requires forall g :: g in rest ==> GitHubAccounted(b4, g)
    ensures UniquePulls(b5.rows) && forall g :: g in gl ==> GitHubAccounted(b5, g)
  {
    hide GitHubAccounted, Extends;
    ExtendsKeeps(b4, b5, cg4);
  }
}
