/** The reconciler of issues, releases and comments, as it changes the forges and the table. */
module Reconciler {
  import opened Pairing
  import opened Objects
  import opened Protocol
  import opened Steps
  import opened Stops
  import opened Forges
  import opened Convergence
  import opened Passes

  /** Copying GitHub's content over a stale Forgejo object. */
  lemma ForgejoUpdateIsPutPair(w: World, g: Id)
    requires Valid(w) && Live(w, g)
    requires var t := View(w, g); t.github != t.forgejo && t.forgejo == t.baseline
    ensures PutPair(w, g, Remote(View(w, g)))
            == w.(forgejo := UpdateAt(w.forgejo, w.rows[g].forgejoAddress, w.github[g].content))
    ensures PutPair(w, g, Halfway(View(w, g)))
            == w.(forgejo := HalfUpdateAt(w.forgejo, w.rows[g].forgejoAddress, w.github[g].content))
    ensures PutPair(w, g, Sync(View(w, g)))
            == PutPair(w, g, Remote(View(w, g))).(rows := w.rows[g := w.rows[g].(baseline := w.github[g].content)])
  {
    var t := View(w, g);
    UpdateAtOne(w.forgejo, w.rows[g].forgejo, t.github);
    HalfUpdateAtOne(w.forgejo, w.rows[g].forgejo, t.github);
    assert w.github[g := w.github[g].(content := t.github)] == w.github;
    assert w.rows[g := w.rows[g].(baseline := t.baseline)] == w.rows;
  }

  /** Copying Forgejo's content over a stale GitHub object. */
  lemma GitHubUpdateIsPutPair(w: World, g: Id)
    requires Valid(w) && Live(w, g)
    requires var t := View(w, g); t.github != t.forgejo && t.forgejo != t.baseline && t.github == t.baseline
    ensures PutPair(w, g, Remote(View(w, g)))
            == w.(github := UpdateAt(w.github, w.rows[g].githubAddress, w.forgejo[w.rows[g].forgejo].content))
    ensures PutPair(w, g, Sync(View(w, g)))
            == PutPair(w, g, Remote(View(w, g))).(rows := w.rows[g := w.rows[g].(baseline := w.forgejo[w.rows[g].forgejo].content)])
  {
    var t, f := View(w, g), w.rows[g].forgejo;
    UpdateAtOne(w.github, g, t.forgejo);
    assert w.forgejo[f := w.forgejo[f].(content := t.forgejo)] == w.forgejo;
    assert w.rows[g := w.rows[g].(baseline := t.baseline)] == w.rows;
  }

  /** Both sides agree: at most the row is written. */
  lemma AgreementIsPutPair(w: World, g: Id)
    requires Live(w, g) && View(w, g).github == View(w, g).forgejo
    ensures PutPair(w, g, Sync(View(w, g))) == w.(rows := w.rows[g := w.rows[g].(baseline := w.github[g].content)])
    ensures w.rows[g].baseline == w.github[g].content ==> PutPair(w, g, Sync(View(w, g))) == w
  {
    var t, f := View(w, g), w.rows[g].forgejo;
    assert w.github[g := w.github[g].(content := t.github)] == w.github;
    assert w.forgejo[f := w.forgejo[f].(content := t.forgejo)] == w.forgejo;
  }

  /** What is known of a row the run has not reached. */
  lemma UntouchedRow(w0: World, p: Plan, w: World, b: Births, done: set<Id>, joined: set<Id>, g: Id)
    requires Stage(w0, p, w, b, done, joined) && Untouched(w0, w, done) && Live(w0, g) && g !in done
    ensures Interrupted(w0, p, w, b) && Valid(w) && UniqueForgejo(w.rows) && Live(w, g)
    ensures w.rows[g] == w0.rows[g] && View(w, g) == View(w0, g)
  {
    hide RowSource, NewConflicts, BirthsOk, Framed;
    assert PairProgress(w0, w, g);
  }

  lemma UntouchedStart(w0: World)
    ensures Untouched(w0, w0, {})
  {
  }

  /** Listed objects that the rows in `done` mark as mapped. */
  ghost function ConsumedGitHub(w: World, done: set<Id>): set<Id>
  {
    set g | g in done && g in w.github && g in w.rows && (w.pins || Live(w, g))
  }

  ghost function ConsumedForgejo(w: World, done: set<Id>): set<Id>
  {
    set g | g in done && g in w.rows && w.rows[g].forgejo in w.forgejo && (w.pins || Live(w, g)) :: w.rows[g].forgejo
  }

  lemma NothingConsumed(w: World)
    ensures ConsumedGitHub(w, {}) == {} && ConsumedForgejo(w, {}) == {}
  {
  }

  lemma ConsumedStep(w: World, done: set<Id>, g: Id)
    requires g in w.rows && g !in done
    ensures ConsumedGitHub(w, done + {g})
            == ConsumedGitHub(w, done) + if g in w.github && (w.pins || Live(w, g)) then {g} else {}
    ensures ConsumedForgejo(w, done + {g})
            == ConsumedForgejo(w, done) + if w.rows[g].forgejo in w.forgejo && (w.pins || Live(w, g)) then {w.rows[g].forgejo} else {}
  {
  }

  ghost predicate AllFinal(w: World)
  {
    forall g :: Live(w, g) ==> View(w, g) == Sync(View(w, g))
  }

  lemma ConsumedIsNotFree(w: World)
    ensures forall g :: g in w.github ==> (g in ConsumedGitHub(w, w.rows.Keys) <==> g !in FreeGitHub(w))
    ensures forall f :: f in w.forgejo ==> (f in ConsumedForgejo(w, w.rows.Keys) <==> f !in FreeForgejo(w))
  {
    forall f | f in w.forgejo ensures f in ConsumedForgejo(w, w.rows.Keys) <==> Held(w, f) {}
  }

  lemma MissingConflict(w: World, g: Id)
    requires g in w.rows && !Live(w, g)
    ensures Raises(w, g) && ConflictOf(w, g) == Missing(g, w.rows[g].forgejo,
              if g in w.github then Some(w.github[g].content) else None,
              if w.rows[g].forgejo in w.forgejo then Some(w.forgejo[w.rows[g].forgejo].content) else None)
  {
  }

  /** The pairs one pass found: part of the plan, and equal in content unless Forgejo's is adopted. */
  ghost predicate PairsOfPlan(w: World, p: Plan, pairs: map<Id, Id>, adopt: bool)
  {
    forall g :: g in pairs ==>
      && g in p.join && p.join[g] == pairs[g] && g in w.github && pairs[g] in w.forgejo
      && (adopt || w.github[g].content == w.forgejo[pairs[g]].content)
  }

  lemma FinalPair(t: Triple)
    ensures t == Sync(t) <==> InConflict(t) || t.github == t.forgejo == t.baseline
  {
  }

  /** Only rows of these GitHub ids were written. */
  ghost predicate RowsOutside(rows: map<Id, Row>, rows': map<Id, Row>, ids: set<Id>)
  {
    rows.Keys <= rows'.Keys && forall g :: g in rows' && g !in ids ==> g in rows && rows'[g] == rows[g]
  }

  lemma OtherPairsStayUnlinked(w: World, w': World, ids: set<Id>, others: map<Id, Id>)
    requires RowsOutside(w.rows, w'.rows, ids) && others.Keys !! ids && NoneLinked(w, others)
    ensures NoneLinked(w', others)
  {
    hide RowsOutside;
    forall x | x in others ensures !Linked(w', x, others[x]) {
      if x in w'.rows { RowOutside(w.rows, w'.rows, ids, x); }
    }
  }

  lemma NoRowsWritten(rows: map<Id, Row>, ids: set<Id>)
    ensures RowsOutside(rows, rows, ids)
  {
  }

  lemma OneRowWritten(rows: map<Id, Row>, rows': map<Id, Row>, ids: set<Id>, g: Id, r: Row)
    requires RowsOutside(rows, rows', ids) && g in ids
    ensures RowsOutside(rows, rows'[g := r], ids)
  {
  }

  lemma RowOutside(rows: map<Id, Row>, rows': map<Id, Row>, ids: set<Id>, x: Id)
    requires RowsOutside(rows, rows', ids) && x in rows' && x !in ids
    ensures x in rows && rows'[x] == rows[x]
  {
  }

  function Elements(ids: seq<Id>): set<Id>
  {
    set x | x in ids
  }

  lemma EmptyElements(ids: seq<Id>)
    ensures Elements(ids) == {} ==> ids == []
  {
    if ids != [] { assert ids[0] in Elements(ids); }
  }

  /** The ids whose object has a number or tag to be recognized by. */
  method WithSlot(ids: seq<Id>, objects: map<Id, Object>) returns (rest: seq<Id>)
    requires Distinct(ids)
    ensures Distinct(rest) && forall x :: x in rest <==> x in ids && x in objects && HasSlot(objects[x])
  {
    rest := [];
    for i := 0 to |ids|
      invariant Distinct(rest) && forall x :: x in rest <==> x in ids[..i] && x in objects && HasSlot(objects[x])
    {
      assert ids[i] !in ids[..i];
      if ids[i] in objects && HasSlot(objects[ids[i]]) { rest := rest + [ids[i]]; }
    }
    assert ids[..|ids|] == ids;
  }

  /** How the two pairing passes make up the plan. */
  lemma PassesFollowPlan(w: World)
    ensures HashPairs(w) == Pairs(Contents(w.github, FreeGitHub(w)), Contents(w.forgejo, FreeForgejo(w)))
    ensures SlotPairs(w) == Pairs(Slots(w.github, RestGitHub(w)), Slots(w.forgejo, RestForgejo(w)))
    ensures RestGitHub(w) == FreeGitHub(w) - HashPairs(w).Keys && RestForgejo(w) == FreeForgejo(w) - HashPairs(w).Values
    ensures PlanOf(w).join.Keys == HashPairs(w).Keys + SlotPairs(w).Keys
    ensures PlanOf(w).leftGitHub == RestGitHub(w) - SlotPairs(w).Keys
    ensures PlanOf(w).leftForgejo == RestForgejo(w) - SlotPairs(w).Values
    ensures FreeGitHub(w) <= w.github.Keys && FreeForgejo(w) <= w.forgejo.Keys
  {
  }

  lemma PassesArePartOfPlan(w: World)
    ensures PairsOfPlan(w, PlanOf(w), HashPairs(w), false)
    ensures PairsOfPlan(w, PlanOf(w), SlotPairs(w), true)
    ensures FreeGitHub(w) == {} ==> HashPairs(w) == map[] && SlotPairs(w) == map[]
  {
    assert SlotPairs(w).Keys <= RestGitHub(w);
  }

  lemma SettledParts(w: World)
    ensures Settled(w) ==> AllFinal(w) && FreeGitHub(w) == {} && FreeForgejo(w) == {}
  {
  }

  lemma ValidWhenInterrupted(w0: World, p: Plan, w: World, b: Births)
    requires Interrupted(w0, p, w, b)
    ensures Valid(w)
  {
  }

  lemma StopAtStart(w0: World)
    requires Valid(w0)
    ensures Stopped(w0, w0, NO_BIRTHS)
  {
    hide Interrupted, Stopped;
    StageStart(w0, PlanOf(w0));
    StageIsInterrupted(w0, PlanOf(w0), w0, NO_BIRTHS, {}, {});
    RowsStop(w0, w0);
  }

  lemma NoOrphansIfComplete(w0: World, w: World, b: Births)
    requires Valid(w0) && Run(w0, PlanOf(w0), w, b)
    ensures w0.pins || !Orphaned(w0)
  {
    hide Run, PlanOf, Orphaned, Splits;
    PlanSplits(w0);
    CompletedRunHadNoOrphans(w0, PlanOf(w0), w, b);
  }

  /** Every stop is valid, and there is only one if nothing was left to do. */
  lemma AtAnyStop(w0: World, w: World, b: Births)
    requires Valid(w0) && Stopped(w0, w, b)
    ensures Valid(w) && (Settled(w0) ==> w == w0)
  {
    hide Interrupted, Valid, Settled, PlanOf, Stopped;
    StoppedIsInterrupted(w0, w, b);
    ValidWhenInterrupted(w0, PlanOf(w0), w, b);
    PlanSplits(w0);
    if Settled(w0) { SettledIsFixpoint(w0, PlanOf(w0), w, b); }
  }

  /** What the first pass is given, and what it must leave. */
  lemma ContentPass(w: World, githubRest: seq<Id>, forgejoRest: seq<Id>)
    requires Elements(githubRest) == FreeGitHub(w) && Elements(forgejoRest) == FreeForgejo(w)
    ensures forall x :: x in githubRest <==> x in Contents(w.github, Elements(githubRest))
    ensures forall x :: x in forgejoRest <==> x in Contents(w.forgejo, Elements(forgejoRest))
    ensures HashPairs(w) == Pairs(Contents(w.github, Elements(githubRest)), Contents(w.forgejo, Elements(forgejoRest)))
    ensures forall s: seq<Id> :: (forall x :: x in s <==> x in githubRest && x !in HashPairs(w).Keys) ==> Elements(s) == RestGitHub(w)
    ensures forall s: seq<Id> :: (forall x :: x in s <==> x in forgejoRest && x !in HashPairs(w).Values) ==> Elements(s) == RestForgejo(w)
  {
    assert forall x :: x in githubRest <==> x in FreeGitHub(w);
    assert forall x :: x in forgejoRest <==> x in FreeForgejo(w);
  }

  /** The same for the second pass. */
  lemma SlotPass(w: World, githubRest: seq<Id>, forgejoRest: seq<Id>)
    requires Elements(githubRest) == RestGitHub(w) && Elements(forgejoRest) == RestForgejo(w)
    ensures forall x :: x in githubRest && x in w.github && HasSlot(w.github[x]) <==> x in Slots(w.github, Elements(githubRest))
    ensures forall x :: x in forgejoRest && x in w.forgejo && HasSlot(w.forgejo[x]) <==> x in Slots(w.forgejo, Elements(forgejoRest))
    ensures SlotPairs(w) == Pairs(Slots(w.github, Elements(githubRest)), Slots(w.forgejo, Elements(forgejoRest)))
    ensures PlanOf(w).join.Keys == HashPairs(w).Keys + SlotPairs(w).Keys
    ensures forall s: seq<Id> :: (forall x :: x in s <==> x in githubRest && x !in SlotPairs(w).Keys) ==> Elements(s) == PlanOf(w).leftGitHub
    ensures forall s: seq<Id> :: (forall x :: x in s <==> x in forgejoRest && x !in SlotPairs(w).Values) ==> Elements(s) == PlanOf(w).leftForgejo
  {
    hide Pairs, FreeGitHub, FreeForgejo, HashPairs;
    assert PlanOf(w).join.Keys == HashPairs(w).Keys + SlotPairs(w).Keys;
    assert forall x :: x in githubRest <==> x in RestGitHub(w);
    assert forall x :: x in forgejoRest <==> x in RestForgejo(w);
  }

  ghost predicate SameRow(rows: map<Id, Row>, rows': map<Id, Row>, x: Id)
  {
    x in rows && x in rows' && rows'[x] == rows[x]
  }

  /** Each row is as before or that of a pair. */
  ghost predicate OnlyPairRows(w: World, pairs: map<Id, Id>, rows: map<Id, Row>, rows': map<Id, Row>)
  {
    forall x :: x in rows' ==> SameRow(rows, rows', x) || (x in pairs && PairRow(w, rows', x, pairs[x]))
  }

  ghost predicate AllPairRows(w: World, pairs: map<Id, Id>, ids: set<Id>, rows: map<Id, Row>)
  {
    forall x :: x in ids && x in pairs ==> PairRow(w, rows, x, pairs[x])
  }

  lemma NoPairRows(w: World, pairs: map<Id, Id>, rows: map<Id, Row>)
    ensures OnlyPairRows(w, pairs, rows, rows) && AllPairRows(w, pairs, {}, rows)
  {
  }

  lemma OnePairRow(w: World, pairs: map<Id, Id>, ids: set<Id>, rows: map<Id, Row>, rows': map<Id, Row>, g: Id, r: Row)
    requires OnlyPairRows(w, pairs, rows, rows') && AllPairRows(w, pairs, ids, rows')
    requires g in pairs && PairRow(w, rows'[g := r], g, pairs[g])
    ensures OnlyPairRows(w, pairs, rows, rows'[g := r]) && AllPairRows(w, pairs, ids + {g}, rows'[g := r])
  {
    forall x | x in rows'[g := r] ensures SameRow(rows, rows'[g := r], x) || (x in pairs && PairRow(w, rows'[g := r], x, pairs[x])) {
      if x != g && !SameRow(rows, rows', x) { assert PairRow(w, rows', x, pairs[x]); }
    }
    forall x | x in ids + {g} && x in pairs ensures PairRow(w, rows'[g := r], x, pairs[x]) {
      if x != g { assert PairRow(w, rows', x, pairs[x]); }
    }
  }

  /** The rows of a pass, object by object. */
  lemma ContentRows(w: World, rows: map<Id, Row>, rows': map<Id, Row>)
    requires OnlyPairRows(w, HashPairs(w), rows, rows')
    ensures forall x :: x in rows' ==> SameRow(rows, rows', x) || exists y :: ByContent(w, x, y) && PairRow(w, rows', x, y)
    ensures AllPairRows(w, HashPairs(w), HashPairs(w).Keys, rows') ==> forall x, y :: ByContent(w, x, y) ==> PairRow(w, rows', x, y)
  {
    hide HashPairs, ByContent, PairRow;
    forall x | x in rows' && !SameRow(rows, rows', x) ensures exists y :: ByContent(w, x, y) && PairRow(w, rows', x, y) {
      HashPairIsMatch(w, x, HashPairs(w)[x]);
    }
    forall x, y | ByContent(w, x, y) ensures x in HashPairs(w) && HashPairs(w)[x] == y { HashPairIsMatch(w, x, y); }
  }

  lemma SlotRows(w: World, rows: map<Id, Row>, rows': map<Id, Row>)
    requires OnlyPairRows(w, SlotPairs(w), rows, rows')
    ensures forall x :: x in rows' ==>
              SameRow(rows, rows', x) || exists y :: (ByNumber(w, x, y) || ByTag(w, x, y)) && PairRow(w, rows', x, y)
    ensures AllPairRows(w, SlotPairs(w), SlotPairs(w).Keys, rows') ==>
              forall x, y :: ByNumber(w, x, y) || ByTag(w, x, y) ==> PairRow(w, rows', x, y)
  {
    hide SlotPairs, ByNumber, ByTag, PairRow;
    forall x | x in rows' && !SameRow(rows, rows', x)
      ensures exists y :: (ByNumber(w, x, y) || ByTag(w, x, y)) && PairRow(w, rows', x, y)
    {
      SlotPairIff(w, x, SlotPairs(w)[x]);
    }
    forall x, y | ByNumber(w, x, y) || ByTag(w, x, y) ensures x in SlotPairs(w) && SlotPairs(w)[x] == y { SlotPairIff(w, x, y); }
  }

  lemma PassesAreSeparate(w: World)
    ensures SlotPairs(w).Keys !! HashPairs(w).Keys
  {
    assert SlotPairs(w).Keys <= RestGitHub(w);
  }

  class Reconciler {
    const pins: bool
    const github: Forge
    const forgejo: Forge
    const store: Store
    const net: Network

    constructor (pins: bool, github: Forge, forgejo: Forge, store: Store, net: Network)
      ensures this.pins == pins && this.github == github && this.forgejo == forgejo
      ensures this.store == store && this.net == net
    {
      this.pins, this.github, this.forgejo, this.store, this.net := pins, github, forgejo, store, net;
    }

    ghost function Snapshot(): World
      reads this, github, forgejo, store
    {
      World(pins, github.objects, forgejo.objects, store.rows, store.conflicts, github.used, forgejo.used)
    }

    ghost predicate Ready()
    {
      github != forgejo && !github.stepwise
    }

    ghost function Writes(): nat
      reads this, github, forgejo, store
    {
      github.writes + forgejo.writes + store.writes
    }

    /** The three-way comparison of one mapped pair that exists on both forges. */
    method ReconcilePair(g: Id, mapping: Row, githubContent: Content, forgejoContent: Content,
                         ghost w0: World, ghost p: Plan, ghost done: set<Id>)
      returns (err: Option<Error>)
      requires Ready() && Valid(w0) && Live(w0, g) && g !in done
      requires mapping == w0.rows[g] && View(w0, g) == Triple(githubContent, forgejoContent, mapping.baseline)
      requires Stage(w0, p, Snapshot(), NO_BIRTHS, done, {}) && Untouched(w0, Snapshot(), done)
      modifies github, forgejo, store, net
      ensures Interrupted(w0, p, Snapshot(), NO_BIRTHS) && SameRowLinks(old(store.rows), store.rows)
      ensures err.None? ==> Stage(w0, p, Snapshot(), NO_BIRTHS, done + {g}, {}) && Untouched(w0, Snapshot(), done + {g})
      ensures err != Some(Unique) && (err == Some(Fault) ==> net.remaining == 0)
      ensures View(w0, g) == Sync(View(w0, g)) ==> Writes() == old(Writes())
    {
      hide Interrupted, Stage, Untouched, Valid, Remote, Sync, PutPair;
      ghost var w, t := Snapshot(), View(w0, g);
      err := None;
      FinalPair(t);
      UntouchedRow(w0, p, w, NO_BIRTHS, done, {}, g);
      if githubContent == forgejoContent {
        AgreementIsPutPair(w, g);
        PutPairStage(w0, p, w, NO_BIRTHS, done, {}, g, Sync(t));
        if mapping.baseline != githubContent {
          err := store.UpsertMapping(net, g, mapping.(baseline := githubContent));
        }
      } else if forgejoContent == mapping.baseline {
        ForgejoUpdateIsPutPair(w, g);
        PutPairStage(w0, p, w, NO_BIRTHS, done, {}, g, Halfway(t));
        PutPairStage(w0, p, w, NO_BIRTHS, done, {}, g, Remote(t));
        PutPairStage(w0, p, w, NO_BIRTHS, done, {}, g, Sync(t));
        var ok := forgejo.Update(net, mapping.forgejoAddress, githubContent);
        if !ok { return Some(Fault); }
        err := store.UpsertMapping(net, g, mapping.(baseline := githubContent));
      } else if githubContent == mapping.baseline {
        GitHubUpdateIsPutPair(w, g);
        PutPairStage(w0, p, w, NO_BIRTHS, done, {}, g, Remote(t));
        PutPairStage(w0, p, w, NO_BIRTHS, done, {}, g, Sync(t));
        var ok := github.Update(net, mapping.githubAddress, forgejoContent);
        if !ok { return Some(Fault); }
        err := store.UpsertMapping(net, g, mapping.(baseline := forgejoContent));
      } else {
        ConflictStage(w0, p, w, NO_BIRTHS, done, {}, g);
        StageIsInterrupted(w0, p, w.(conflicts := w.conflicts + {ConflictOf(w0, g)}), NO_BIRTHS, done + {g}, {});
        var ok := store.AddConflict(net, Diverged(g, mapping.forgejo, githubContent, forgejoContent));
        err := if ok then None else Some(Fault);
      }
    }

    /** One mapping row; also reports which of its objects the run must treat as mapped. */
    method ReconcileRow(g: Id, mapping: Row, githubById: map<Id, Object>, forgejoById: map<Id, Object>, dryRun: bool,
                        ghost w0: World, ghost p: Plan, ghost done: set<Id>)
      returns (err: Option<Error>, consumeGitHub: bool, consumeForgejo: bool)
      requires Ready() && Valid(w0) && g in w0.rows && g !in done && pins == w0.pins
      requires mapping == w0.rows[g] && githubById == w0.github && forgejoById == w0.forgejo
      requires !dryRun ==> Stage(w0, p, Snapshot(), NO_BIRTHS, done, {}) && Untouched(w0, Snapshot(), done)
      modifies github, forgejo, store, net
      ensures consumeGitHub <==> g in w0.github && (w0.pins || Live(w0, g))
      ensures consumeForgejo <==> mapping.forgejo in w0.forgejo && (w0.pins || Live(w0, g))
      ensures dryRun ==> Snapshot() == old(Snapshot()) && Writes() == old(Writes()) && err.None?
      ensures !dryRun ==> Interrupted(w0, p, Snapshot(), NO_BIRTHS) && SameRowLinks(old(store.rows), store.rows)
      ensures !dryRun && err.None? ==> Stage(w0, p, Snapshot(), NO_BIRTHS, done + {g}, {}) && Untouched(w0, Snapshot(), done + {g})
      ensures err != Some(Unique) && (err == Some(Fault) ==> net.remaining == 0)
      ensures AllFinal(w0) ==> Writes() == old(Writes())
    {
      hide Interrupted, Stage, Untouched, Valid, Remote, Sync, PutPair, ConflictOf, Raises;
      err, consumeGitHub, consumeForgejo := None, false, false;
      if g !in githubById || mapping.forgejo !in forgejoById {
        if pins {
          consumeGitHub, consumeForgejo := g in githubById, mapping.forgejo in forgejoById;
        }
        if !dryRun {
          ghost var w := Snapshot();
          MissingConflict(w0, g);
          ConflictStage(w0, p, w, NO_BIRTHS, done, {}, g);
          StageIsInterrupted(w0, p, w, NO_BIRTHS, done, {});
          StageIsInterrupted(w0, p, w.(conflicts := w.conflicts + {ConflictOf(w0, g)}), NO_BIRTHS, done + {g}, {});
          var ok := store.AddConflict(net, Missing(g, mapping.forgejo,
            if g in githubById then Some(githubById[g].content) else None,
            if mapping.forgejo in forgejoById then Some(forgejoById[mapping.forgejo].content) else None));
          if !ok { err := Some(Fault); }
        }
      } else {
        consumeGitHub, consumeForgejo := true, true;
        if !dryRun {
          err := ReconcilePair(g, mapping, githubById[g].content, forgejoById[mapping.forgejo].content, w0, p, done);
        }
      }
    }

    /** The loop over the mapping rows; it also decides which listed objects count as mapped. */
    method ReconcileMapped(ids: seq<Id>, mappings: map<Id, Row>,
                           githubById: map<Id, Object>, forgejoById: map<Id, Object>, dryRun: bool,
                           ghost w0: World, ghost p: Plan)
      returns (err: Option<Error>, consumedGitHub: set<Id>, consumedForgejo: set<Id>)
      requires Ready() && Valid(w0) && Snapshot() == w0
      requires mappings == w0.rows && githubById == w0.github && forgejoById == w0.forgejo
      requires Distinct(ids) && forall g :: g in ids <==> g in mappings
      modifies github, forgejo, store, net
      ensures dryRun ==> Snapshot() == w0 && Writes() == old(Writes()) && err.None?
      ensures !dryRun ==> Interrupted(w0, p, Snapshot(), NO_BIRTHS) && SameRowLinks(w0.rows, store.rows)
      ensures !dryRun && err.None? ==> Stage(w0, p, Snapshot(), NO_BIRTHS, w0.rows.Keys, {})
      ensures err.None? ==> forall g :: g in w0.github ==> (g in consumedGitHub <==> g !in FreeGitHub(w0))
      ensures err.None? ==> forall f :: f in w0.forgejo ==> (f in consumedForgejo <==> f !in FreeForgejo(w0))
      ensures err != Some(Unique) && (err == Some(Fault) ==> net.remaining == 0)
      ensures AllFinal(w0) ==> Writes() == old(Writes())
    {
      hide Interrupted, Stage, Untouched, Valid, AllFinal, Live, FreeGitHub, FreeForgejo, ConsumedGitHub, ConsumedForgejo;
      StageStart(w0, p);
      UntouchedStart(w0);
      NothingConsumed(w0);
      err, consumedGitHub, consumedForgejo := None, {}, {};
      ghost var done: set<Id> := {};
      for i := 0 to |ids|
        invariant err.None? && done == set j | 0 <= j < i :: ids[j]
        invariant dryRun ==> Snapshot() == w0 && Writes() == old(Writes())
        invariant !dryRun ==> Stage(w0, p, Snapshot(), NO_BIRTHS, done, {}) && Untouched(w0, Snapshot(), done)
        invariant SameRowLinks(w0.rows, store.rows)
        invariant consumedGitHub == ConsumedGitHub(w0, done) && consumedForgejo == ConsumedForgejo(w0, done)
        invariant AllFinal(w0) ==> Writes() == old(Writes())
      {
        var g := ids[i];
        var consumeGitHub, consumeForgejo;
        err, consumeGitHub, consumeForgejo := ReconcileRow(g, mappings[g], githubById, forgejoById, dryRun, w0, p, done);
        if err.Some? { return; }
        if consumeGitHub { consumedGitHub := consumedGitHub + {g}; }
        if consumeForgejo { consumedForgejo := consumedForgejo + {mappings[g].forgejo}; }
        ConsumedStep(w0, done, g);
        done := done + {g};
      }
      assert done == w0.rows.Keys;
      ConsumedIsNotFree(w0);
      if !dryRun { StageIsInterrupted(w0, p, Snapshot(), NO_BIRTHS, done, {}); }
    }

    /** The pairs of one pairing pass get their rows, in any order.  The second pass (`adopt`)
        takes Forgejo's content as baseline. */
    method RecordPairs(pairs: map<Id, Id>, adopt: bool,
                       githubById: map<Id, Object>, forgejoById: map<Id, Object>, dryRun: bool,
                       ghost w0: World, ghost p: Plan, ghost done: set<Id>, ghost joined: set<Id>)
      returns (err: Option<Error>)
      requires Ready() && Valid(w0) && Splits(w0, p) && githubById == w0.github && forgejoById == w0.forgejo
      requires dryRun || Stage(w0, p, Snapshot(), NO_BIRTHS, done, joined)
      requires PairsOfPlan(w0, p, pairs, adopt)
      modifies store, net
      ensures dryRun ==> Snapshot() == old(Snapshot()) && Writes() == old(Writes()) && err.None?
      ensures !dryRun ==> Stage(w0, p, Snapshot(), NO_BIRTHS, done, joined) && RowsOutside(old(store.rows), store.rows, pairs.Keys)
      ensures !dryRun ==> OnlyPairRows(w0, pairs, old(store.rows), store.rows)
      ensures !dryRun && err.None? ==> Stage(w0, p, Snapshot(), NO_BIRTHS, done, joined + pairs.Keys)
      ensures !dryRun && err.None? ==> AllPairRows(w0, pairs, pairs.Keys, store.rows)
      ensures err == Some(Unique) ==> !w0.pins && Orphaned(w0)
      ensures err == Some(Fault) ==> net.remaining == 0
      ensures pairs == map[] ==> Writes() == old(Writes())
    {
      hide Interrupted, Stage, Valid, Splits, Orphaned, RowsOutside, OnlyPairRows, AllPairRows;
      err := None;
      NoRowsWritten(store.rows, pairs.Keys);
      NoPairRows(w0, pairs, store.rows);
      var todo := pairs.Keys;
      assert joined + (pairs.Keys - todo) == joined && pairs.Keys - todo == {};
      while todo != {}
        invariant todo <= pairs.Keys && err.None?
        invariant dryRun ==> Snapshot() == old(Snapshot()) && Writes() == old(Writes())
        invariant !dryRun ==> Stage(w0, p, Snapshot(), NO_BIRTHS, done, joined + (pairs.Keys - todo))
        invariant !dryRun ==> Stage(w0, p, Snapshot(), NO_BIRTHS, done, joined) && RowsOutside(old(store.rows), store.rows, pairs.Keys)
        invariant !dryRun ==> OnlyPairRows(w0, pairs, old(store.rows), store.rows) && AllPairRows(w0, pairs, pairs.Keys - todo, store.rows)
        invariant todo == pairs.Keys ==> Writes() == old(Writes())
        decreases todo
      {
        var g :| g in todo;
        if !dryRun {
          ghost var w, sofar := Snapshot(), joined + (pairs.Keys - todo);
          StageIsInterrupted(w0, p, w, NO_BIRTHS, done, sofar);
          var githubObject, forgejoObject := githubById[g], forgejoById[pairs[g]];
          var mapping := Row(pairs[g], githubObject.address, forgejoObject.address, githubObject.content);
          if adopt { mapping := mapping.(baseline := forgejoObject.content); }
          assert mapping == JoinRow(w0, g, p.join[g]);
          OneRowWritten(old(store.rows), w.rows, pairs.Keys, g, mapping);
          OnePairRow(w0, pairs, pairs.Keys - todo, old(store.rows), w.rows, g, mapping);
          err := store.UpsertMapping(net, g, mapping);
          if err == Some(Unique) {
            JoinCollision(w0, p, w, g);
            return;
          }
          if UniqueForgejo(w.rows[g := mapping]) {
            JoinStage(w0, p, w, NO_BIRTHS, done, sofar, g);
            StageForFewer(w0, p, w.(rows := w.rows[g := mapping]), NO_BIRTHS, done, joined, sofar + {g});
          }
          if err.Some? { return; }
          assert sofar + {g} == joined + (pairs.Keys - (todo - {g})) && pairs.Keys - todo + {g} == pairs.Keys - (todo - {g});
        }
        todo := todo - {g};
      }
      assert joined + (pairs.Keys - todo) == joined + pairs.Keys && pairs.Keys - todo == pairs.Keys;
    }

    /** Each leftover GitHub object is created on Forgejo, then mapped. */
    method CopyToForgejo(ids: seq<Id>, githubById: map<Id, Object>, dryRun: bool, ghost w0: World)
      returns (err: Option<Error>, ghost b: Births)
      requires Ready() && Valid(w0) && githubById == w0.github
      requires dryRun || Copying(w0, Snapshot(), NO_BIRTHS)
      requires Distinct(ids) && forall g :: g in ids <==> g in PlanOf(w0).leftGitHub
      requires PlanOf(w0).leftGitHub <= w0.github.Keys
      modifies forgejo, store, net
      ensures dryRun ==> Snapshot() == old(Snapshot()) && Writes() == old(Writes()) && err.None?
      ensures !dryRun ==> Stopped(w0, Snapshot(), b)
      ensures !dryRun && err.None? ==> Copying(w0, Snapshot(), b)
      ensures b.github == map[] && (!dryRun && err.None? ==> b.forgejo.Values == PlanOf(w0).leftGitHub)
      ensures err != Some(Unique) && (err == Some(Fault) ==> net.remaining == 0)
      ensures ids == [] ==> Writes() == old(Writes())
    {
      hide Interrupted, Stage, Valid, Splits, PlanOf, Stopped;
      ghost var p := PlanOf(w0);
      PlanSplits(w0);
      err, b := None, NO_BIRTHS;
      if !dryRun { CopyingToForgejoStop(w0, Snapshot(), b); }
      for i := 0 to |ids|
        invariant err.None?
        invariant dryRun ==> Snapshot() == old(Snapshot()) && Writes() == old(Writes())
        invariant !dryRun ==> Copying(w0, Snapshot(), b) && Stopped(w0, Snapshot(), b)
        invariant b.github == map[]
        invariant !dryRun ==> b.forgejo.Values == set j | 0 <= j < i :: ids[j]
        invariant i == 0 ==> Writes() == old(Writes())
      {
        if !dryRun {
          var g := ids[i];
          ghost var w := Snapshot();
          assert g !in b.forgejo.Values;
          StageIsInterrupted(w0, p, w, b, w0.rows.Keys, p.join.Keys);
          ValidWhenInterrupted(w0, p, w, b);
          var ok, id, created := forgejo.Create(net, githubById[g].content);
          ghost var b' := b.(forgejo := b.forgejo[id := g]);
          ForgejoBirth(w0, p, w, b, id, created, g);
          var mapping := Row(id, githubById[g].address, created.address, githubById[g].content);
          NewForgejoIdIsUnique(w0, p, w, b, g, mapping);
          ForgejoCopyInterrupted(w0, p, w, b, id, created, g, mapping);
          ForgejoCopyStage(w0, p, w, b, w0.rows.Keys, p.join.Keys, id, created, g, mapping);
          PendingOnForgejoStop(w0, w, b, id, created, g);
          CopyingToForgejoStop(w0, AddForgejo(w, id, created).(rows := w.rows[g := mapping]), b');
          ValuesExtend(b.forgejo, id, g);
          if !ok {
            b := if Snapshot() == w then b else b';
            return Some(Fault), b;
          }
          err := store.UpsertMapping(net, g, mapping);
          b := b';
          if err.Some? { return; }
        }
      }
    }

    /** Each leftover Forgejo object is created on GitHub, then mapped. */
    method CopyToGitHub(ids: seq<Id>, forgejoById: map<Id, Object>, dryRun: bool, ghost w0: World, ghost b0: Births)
      returns (err: Option<Error>, ghost b: Births)
      requires Ready() && Valid(w0) && forgejoById == w0.forgejo && b0.github == map[]
      requires dryRun || (Copying(w0, Snapshot(), b0) && b0.forgejo.Values == PlanOf(w0).leftGitHub)
      requires Distinct(ids) && forall f :: f in ids <==> f in PlanOf(w0).leftForgejo
      requires PlanOf(w0).leftForgejo <= w0.forgejo.Keys
      modifies github, store, net
      ensures dryRun ==> Snapshot() == old(Snapshot()) && Writes() == old(Writes()) && err.None?
      ensures !dryRun ==> Stopped(w0, Snapshot(), b)
      ensures !dryRun && err.None? ==> Copying(w0, Snapshot(), b)
      ensures !dryRun && err.None? ==> b.forgejo == b0.forgejo && b.github.Values == PlanOf(w0).leftForgejo
      ensures err == Some(Unique) ==> !w0.pins && Orphaned(w0)
      ensures err == Some(Fault) ==> net.remaining == 0
      ensures ids == [] ==> Writes() == old(Writes())
    {
      hide Interrupted, Stage, Valid, Splits, Orphaned, PlanOf, Stopped;
      ghost var p := PlanOf(w0);
      PlanSplits(w0);
      err, b := None, b0;
      if !dryRun { CopyingToGitHubStop(w0, Snapshot(), b); }
      for i := 0 to |ids|
        invariant err.None?
        invariant dryRun ==> Snapshot() == old(Snapshot()) && Writes() == old(Writes())
        invariant !dryRun ==> Copying(w0, Snapshot(), b) && Stopped(w0, Snapshot(), b)
        invariant !dryRun ==> b.forgejo == b0.forgejo && b.github.Values == set j | 0 <= j < i :: ids[j]
        invariant i == 0 ==> Writes() == old(Writes())
      {
        if !dryRun {
          var f := ids[i];
          ghost var w := Snapshot();
          assert f !in b.github.Values;
          StageIsInterrupted(w0, p, w, b, w0.rows.Keys, p.join.Keys);
          ValidWhenInterrupted(w0, p, w, b);
          var ok, id, created := github.Create(net, forgejoById[f].content);
          ghost var b' := b.(github := b.github[id := f]);
          GitHubBirth(w0, p, w, b, id, created, f);
          PendingOnGitHubStop(w0, w, b, id, created, f);
          ValuesExtend(b.github, id, f);
          var mapping := Row(f, created.address, forgejoById[f].address, forgejoById[f].content);
          if !ok {
            b := if Snapshot() == w then b else b';
            return Some(Fault), b;
          }
          err := store.UpsertMapping(net, id, mapping);
          if err == Some(Unique) {
            CopyCollision(w0, p, w, b, f);
            b := b';
            return;
          }
          if UniqueForgejo(w.rows[id := mapping]) {
            GitHubCopyInterrupted(w0, p, w, b, id, created, f, mapping);
            GitHubCopyStage(w0, p, w, b, w0.rows.Keys, p.join.Keys, id, created, f, mapping);
            CopyingToGitHubStop(w0, AddGitHub(w, id, created).(rows := w.rows[id := mapping]), b');
          }
          b := b';
          if err.Some? { return; }
        }
      }
    }

    /** First pass: equal content that is unique on both sides. */
    method PairByContent(githubRest: seq<Id>, forgejoRest: seq<Id>,
                         githubById: map<Id, Object>, forgejoById: map<Id, Object>, dryRun: bool, ghost w0: World)
      returns (err: Option<Error>, githubLeft: seq<Id>, forgejoLeft: seq<Id>)
      requires Ready() && Valid(w0) && githubById == w0.github && forgejoById == w0.forgejo
      requires dryRun || (Stage(w0, PlanOf(w0), Snapshot(), NO_BIRTHS, w0.rows.Keys, {}) && NoneLinked(Snapshot(), SlotPairs(w0)))
      requires Distinct(githubRest) && Elements(githubRest) == FreeGitHub(w0)
      requires Distinct(forgejoRest) && Elements(forgejoRest) == FreeForgejo(w0)
      modifies store, net
      ensures dryRun ==> Snapshot() == old(Snapshot()) && Writes() == old(Writes()) && err.None?
      ensures !dryRun ==> Stopped(w0, Snapshot(), NO_BIRTHS)
      ensures !dryRun && err.None? ==> Stage(w0, PlanOf(w0), Snapshot(), NO_BIRTHS, w0.rows.Keys, HashPairs(w0).Keys)
      ensures !dryRun ==> forall x :: x in store.rows ==>
                SameRow(old(store.rows), store.rows, x) || exists y :: ByContent(w0, x, y) && PairRow(w0, store.rows, x, y)
      ensures !dryRun && err.None? ==> forall x, y :: ByContent(w0, x, y) ==> PairRow(w0, store.rows, x, y)
      ensures err == Some(Unique) ==> !w0.pins && Orphaned(w0)
      ensures err == Some(Fault) ==> net.remaining == 0
      ensures err.None? ==> Distinct(githubLeft) && Elements(githubLeft) == RestGitHub(w0)
      ensures err.None? ==> Distinct(forgejoLeft) && Elements(forgejoLeft) == RestForgejo(w0)
      ensures FreeGitHub(w0) == {} ==> Writes() == old(Writes())
    {
      hide Interrupted, Stage, Valid, Orphaned, Pairs, HashPairs, SlotPairs, PlanOf, RestGitHub, RestForgejo,
           FreeGitHub, FreeForgejo, PairsOfPlan, Splits, Elements, Contents, Stopped, RowsOutside, NoneLinked,
           OnlyPairRows, AllPairRows, ByContent, PairRow, SameRow;
      ghost var w := Snapshot();
      PlanSplits(w0);
      PassesArePartOfPlan(w0);
      ContentPass(w0, githubRest, forgejoRest);
      githubLeft, forgejoLeft := githubRest, forgejoRest;
      var pairs, pairsByForgejo := UniquePairs(githubRest, forgejoRest,
        Contents(githubById, Elements(githubRest)), Contents(forgejoById, Elements(forgejoRest)));
      err := RecordPairs(pairs, false, githubById, forgejoById, dryRun, w0, PlanOf(w0), w0.rows.Keys, {});
      if !dryRun {
        PassesAreSeparate(w0);
        OtherPairsStayUnlinked(w, Snapshot(), pairs.Keys, SlotPairs(w0));
        FirstPassStop(w0, Snapshot(), {});
        ContentRows(w0, w.rows, store.rows);
      }
      if err.Some? { return; }
      assert {} + pairs.Keys == HashPairs(w0).Keys;
      githubLeft := Unconsumed(githubLeft, pairs.Keys);
      forgejoLeft := Unconsumed(forgejoLeft, pairs.Values);
    }

    /** Second pass: equal number and title, or equal tag, unique on both sides. */
    method PairBySlot(githubRest: seq<Id>, forgejoRest: seq<Id>,
                      githubById: map<Id, Object>, forgejoById: map<Id, Object>, dryRun: bool, ghost w0: World)
      returns (err: Option<Error>, githubLeft: seq<Id>, forgejoLeft: seq<Id>)
      requires Ready() && Valid(w0) && githubById == w0.github && forgejoById == w0.forgejo
      requires dryRun || Stage(w0, PlanOf(w0), Snapshot(), NO_BIRTHS, w0.rows.Keys, HashPairs(w0).Keys)
      requires Distinct(githubRest) && Elements(githubRest) == RestGitHub(w0)
      requires Distinct(forgejoRest) && Elements(forgejoRest) == RestForgejo(w0)
      modifies store, net
      ensures dryRun ==> Snapshot() == old(Snapshot()) && Writes() == old(Writes()) && err.None?
      ensures !dryRun ==> Stopped(w0, Snapshot(), NO_BIRTHS)
      ensures !dryRun && err.None? ==> Copying(w0, Snapshot(), NO_BIRTHS)
      ensures !dryRun ==> forall x :: x in store.rows ==>
                || SameRow(old(store.rows), store.rows, x)
                || exists y :: (ByNumber(w0, x, y) || ByTag(w0, x, y)) && PairRow(w0, store.rows, x, y)
      ensures !dryRun && err.None? ==> forall x, y :: ByNumber(w0, x, y) || ByTag(w0, x, y) ==> PairRow(w0, store.rows, x, y)
      ensures err == Some(Unique) ==> !w0.pins && Orphaned(w0)
      ensures err == Some(Fault) ==> net.remaining == 0
      ensures err.None? ==> Distinct(githubLeft) && Elements(githubLeft) == PlanOf(w0).leftGitHub
      ensures err.None? ==> Distinct(forgejoLeft) && Elements(forgejoLeft) == PlanOf(w0).leftForgejo
      ensures FreeGitHub(w0) == {} ==> Writes() == old(Writes())
    {
      hide Interrupted, Stage, Valid, Orphaned, Pairs, HashPairs, SlotPairs, PlanOf, RestGitHub, RestForgejo,
           FreeGitHub, FreeForgejo, PairsOfPlan, Splits, Elements, Slots, Stopped, RowsOutside,
           OnlyPairRows, AllPairRows, ByNumber, ByTag, PairRow, SameRow;
      ghost var rows := store.rows;
      PlanSplits(w0);
      PassesArePartOfPlan(w0);
      SlotPass(w0, githubRest, forgejoRest);
      githubLeft, forgejoLeft := githubRest, forgejoRest;
      var githubSlots := WithSlot(githubRest, githubById);
      var forgejoSlots := WithSlot(forgejoRest, forgejoById);
      var pairs, pairsByForgejo := UniquePairs(githubSlots, forgejoSlots,
        Slots(githubById, Elements(githubRest)), Slots(forgejoById, Elements(forgejoRest)));
      err := RecordPairs(pairs, true, githubById, forgejoById, dryRun, w0, PlanOf(w0), w0.rows.Keys, HashPairs(w0).Keys);
      if !dryRun {
        SecondPassStop(w0, Snapshot(), HashPairs(w0).Keys);
        SlotRows(w0, rows, store.rows);
      }
      if err.Some? { return; }
      githubLeft := Unconsumed(githubLeft, pairs.Keys);
      forgejoLeft := Unconsumed(forgejoLeft, pairs.Values);
    }

    /** Everything after the mapping loop: two pairing passes, then the copies in both directions. */
    method ReconcileUnmapped(githubIds: seq<Id>, forgejoIds: seq<Id>,
                             githubById: map<Id, Object>, forgejoById: map<Id, Object>,
                             consumedGitHub: set<Id>, consumedForgejo: set<Id>, dryRun: bool, ghost w0: World)
      returns (err: Option<Error>, ghost b: Births)
      requires Ready() && Valid(w0) && githubById == w0.github && forgejoById == w0.forgejo
      requires dryRun || (Stage(w0, PlanOf(w0), Snapshot(), NO_BIRTHS, w0.rows.Keys, {}) && NoneLinked(Snapshot(), SlotPairs(w0)))
      requires Distinct(githubIds) && forall g :: g in githubIds <==> g in w0.github
      requires Distinct(forgejoIds) && forall f :: f in forgejoIds <==> f in w0.forgejo
      requires forall g :: g in w0.github ==> (g in consumedGitHub <==> g !in FreeGitHub(w0))
      requires forall f :: f in w0.forgejo ==> (f in consumedForgejo <==> f !in FreeForgejo(w0))
      modifies github, forgejo, store, net
      ensures dryRun ==> Snapshot() == old(Snapshot()) && Writes() == old(Writes()) && err.None?
      ensures !dryRun ==> Stopped(w0, Snapshot(), b)
      ensures !dryRun && err.None? ==> Run(w0, PlanOf(w0), Snapshot(), b)
      ensures err == Some(Unique) ==> !w0.pins && Orphaned(w0)
      ensures err == Some(Fault) ==> net.remaining == 0
      ensures FreeGitHub(w0) == {} && FreeForgejo(w0) == {} ==> Writes() == old(Writes())
    {
      hide Interrupted, Stage, Valid, Run, Orphaned, HashPairs, SlotPairs, PlanOf, RestGitHub, RestForgejo,
           FreeGitHub, FreeForgejo, Stopped, NoneLinked;
      PassesFollowPlan(w0);
      b := NO_BIRTHS;
      var githubRest := Unconsumed(githubIds, consumedGitHub);
      var forgejoRest := Unconsumed(forgejoIds, consumedForgejo);
      assert Elements(githubRest) == FreeGitHub(w0) && Elements(forgejoRest) == FreeForgejo(w0);
      err, githubRest, forgejoRest := PairByContent(githubRest, forgejoRest, githubById, forgejoById, dryRun, w0);
      if err.Some? { return; }
      err, githubRest, forgejoRest := PairBySlot(githubRest, forgejoRest, githubById, forgejoById, dryRun, w0);
      if err.Some? { return; }
      EmptyElements(githubRest);
      EmptyElements(forgejoRest);
      err, b := CopyToForgejo(githubRest, githubById, dryRun, w0);
      if err.Some? { return; }
      err, b := CopyToGitHub(forgejoRest, forgejoById, dryRun, w0, b);
      if err.None? && !dryRun { StageEnd(w0, PlanOf(w0), Snapshot(), b); }
    }

    /** One reconciliation of a repository's issues or releases, or of one comment thread.

        It stops at the first call that fails, in one of the states in which a run can stop. */
    method Reconcile(dryRun: bool) returns (err: Option<Error>, ghost b: Births)
      requires Ready() && Valid(Snapshot())
      modifies github, forgejo, store, net
      ensures Valid(Snapshot())
      ensures dryRun ==> Snapshot() == old(Snapshot()) && Writes() == old(Writes())
      ensures !dryRun ==> Stopped(old(Snapshot()), Snapshot(), b)
      ensures !dryRun && err.None? ==> Run(old(Snapshot()), PlanOf(old(Snapshot())), Snapshot(), b)
      ensures err == Some(Unique) ==> !pins && Orphaned(old(Snapshot()))
      ensures err == Some(Fault) ==> net.remaining == 0
      ensures !dryRun && err.None? ==> pins || !Orphaned(old(Snapshot()))
      ensures !dryRun && (pins || !Orphaned(old(Snapshot()))) && net.remaining > 0 ==> err.None?
      ensures Settled(old(Snapshot())) ==> Snapshot() == old(Snapshot()) && Writes() == old(Writes())
    {
      hide Interrupted, Stage, Valid, Run, Orphaned, Settled, Untouched, PlanOf, FreeGitHub, FreeForgejo, AllFinal, Stopped,
           SlotPairs, NoneLinked, SameRowLinks, Live, Distinct;
      ghost var w0 := Snapshot();
      b := NO_BIRTHS;
      SettledParts(w0);
      StopAtStart(w0);
      var ok, githubIds := github.List(net);
      if !ok { return Some(Fault), b; }
      var forgejoIds;
      ok, forgejoIds := forgejo.List(net);
      if !ok { return Some(Fault), b; }
      var mappingIds;
      ok, mappingIds := store.ListMappings(net);
      if !ok { return Some(Fault), b; }
      var githubById, forgejoById, mappings := github.objects, forgejo.objects, store.rows;
      var consumedGitHub, consumedForgejo;
      err, consumedGitHub, consumedForgejo :=
        ReconcileMapped(mappingIds, mappings, githubById, forgejoById, dryRun, w0, PlanOf(w0));
      if !dryRun {
        RowsStop(w0, Snapshot());
        NoSlotPairIsLinked(w0, Snapshot());
      }
      if err.None? {
        err, b := ReconcileUnmapped(githubIds, forgejoIds, githubById, forgejoById,
                                    consumedGitHub, consumedForgejo, dryRun, w0);
      }
      if !dryRun {
        AtAnyStop(w0, Snapshot(), b);
        match err { case None => case Some(Fault) => case Some(Unique) => }
        if err.None? { NoOrphansIfComplete(w0, Snapshot(), b); }
      }
    }
  }
}
