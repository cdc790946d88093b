/** How each single step of a run moves the world, and what it keeps. */
module Steps {
  import opened Pairing
  import opened Objects
  import opened Protocol

  /** A run that has finished the rows in `done` and the join pairs in `joined`, and given every
      object it created a row. */
  ghost predicate Stage(w0: World, p: Plan, w: World, b: Births, done: set<Id>, joined: set<Id>)
  {
    && Interrupted(w0, p, w, b)
    && (forall g :: g in done && Live(w0, g) ==> Live(w, g) && View(w, g) == Sync(View(w0, g)))
    && (forall g :: g in done && g in w0.rows && Raises(w0, g) ==> ConflictOf(w0, g) in w.conflicts)
    && (forall g :: g in joined && g in p.join ==> g in w.rows && w.rows[g].forgejo == p.join[g])
    && (forall n :: n in b.forgejo ==> b.forgejo[n] in w.rows && w.rows[b.forgejo[n]].forgejo == n)
    && (forall n :: n in b.github ==> n in w.rows && w.rows[n].forgejo == b.github[n])
  }

  lemma StageStart(w0: World, p: Plan)
    requires Valid(w0)
    ensures Stage(w0, p, w0, NO_BIRTHS, {}, {})
  {
  }

  lemma StageEnd(w0: World, p: Plan, w: World, b: Births)
    requires Stage(w0, p, w, b, w0.rows.Keys, p.join.Keys)
    requires b.forgejo.Values == p.leftGitHub && b.github.Values == p.leftForgejo
    ensures Run(w0, p, w, b)
  {
  }

  lemma StageIsInterrupted(w0: World, p: Plan, w: World, b: Births, done: set<Id>, joined: set<Id>)
    requires Stage(w0, p, w, b, done, joined)
    ensures Interrupted(w0, p, w, b) && UniqueForgejo(w.rows)
  {
  }

  lemma StageForFewer(w0: World, p: Plan, w: World, b: Births, done: set<Id>, joined: set<Id>, more: set<Id>)
    requires Stage(w0, p, w, b, done, more) && joined <= more
    ensures Stage(w0, p, w, b, done, joined)
  {
    hide Interrupted;
  }

  // ---- live pairs ----

  /** The world in which pair g shows the contents and baseline of t. */
  function PutPair(w: World, g: Id, t: Triple): World
    requires Live(w, g)
  {
    var r := w.rows[g];
    w.(github := w.github[g := w.github[g].(content := t.github)],
       forgejo := w.forgejo[r.forgejo := w.forgejo[r.forgejo].(content := t.forgejo)],
       rows := w.rows[g := r.(baseline := t.baseline)])
  }

  lemma PutPairViews(w: World, g: Id, t: Triple, h: Id)
    requires Valid(w) && Live(w, g)
    ensures Valid(PutPair(w, g, t))
    ensures Live(PutPair(w, g, t), h) <==> Live(w, h)
    ensures Live(w, h) ==> View(PutPair(w, g, t), h) == if h == g then t else View(w, h)
  {
  }

  lemma PutPairFramed(w0: World, w: World, b: Births, g: Id, t: Triple)
    requires Framed(w0, w, b) && Live(w0, g) && Live(w, g) && w.rows[g].forgejo == w0.rows[g].forgejo
    requires g !in b.github && w.rows[g].forgejo !in b.forgejo
    ensures Framed(w0, PutPair(w, g, t), b)
  {
    assert Tied(w0, w.rows[g].forgejo);
  }

  /** The live pairs outside `done` look as they did at the start. */
  ghost predicate Untouched(w0: World, w: World, done: set<Id>)
  {
    forall g :: Live(w0, g) && g !in done ==> Live(w, g) && View(w, g) == View(w0, g)
  }

  ghost predicate InOrbit(t0: Triple, t: Triple)
  {
    t == t0 || t == Halfway(t0) || t == Remote(t0) || t == Sync(t0)
  }

  lemma PutPairSources(w0: World, p: Plan, w: World, b: Births, g: Id, t: Triple, h: Id)
    requires Live(w, g) && h != g && h in w.rows && RowSource(w0, p, w, b, h)
    ensures RowSource(w0, p, PutPair(w, g, t), b, h)
  {
  }

  lemma LiveStaysLive(w0: World, p: Plan, w: World, b: Births, g: Id)
    requires Interrupted(w0, p, w, b) && Live(w0, g)
    ensures Valid(w) && PairProgress(w0, w, g)
  {
  }

  lemma LiveIsNotBorn(w0: World, p: Plan, w: World, b: Births, g: Id)
    requires Valid(w0) && Interrupted(w0, p, w, b) && Live(w0, g)
    ensures Live(w, g) && w.rows[g].forgejo == w0.rows[g].forgejo
    ensures g !in b.github && w.rows[g].forgejo !in b.forgejo
  {
    assert PairProgress(w0, w, g);
  }

  /** Moving a live pair along its three-way comparison is a step of the run. */
  lemma PutPairInterrupted(w0: World, p: Plan, w: World, b: Births, g: Id, t: Triple)
    requires Valid(w0) && Interrupted(w0, p, w, b) && Live(w0, g) && InOrbit(View(w0, g), t)
    ensures Live(w, g) && Interrupted(w0, p, PutPair(w, g, t), b)
  {
    hide RowSource, Framed, Sync, Remote, NewConflicts, Valid, BirthsOk;
    LiveIsNotBorn(w0, p, w, b, g);
    PutPairFramed(w0, w, b, g, t);
    var w' := PutPair(w, g, t);
    forall h | Live(w0, h) ensures PairProgress(w0, w', h) {
      assert PairProgress(w0, w, h);
      PutPairViews(w, g, t, h);
    }
    forall h | h in w'.rows && !Live(w0, h) ensures RowSource(w0, p, w', b, h) {
      PutPairSources(w0, p, w, b, g, t, h);
    }
    PutPairViews(w, g, t, g);
  }

  lemma PutPairStage(w0: World, p: Plan, w: World, b: Births, done: set<Id>, joined: set<Id>, g: Id, t: Triple)
    requires Valid(w0) && Stage(w0, p, w, b, done, joined) && Untouched(w0, w, done)
    requires Live(w0, g) && g !in done && InOrbit(View(w0, g), t)
    ensures Live(w, g) && Interrupted(w0, p, PutPair(w, g, t), b)
    ensures t == Sync(View(w0, g)) && !InConflict(View(w0, g)) ==>
              Stage(w0, p, PutPair(w, g, t), b, done + {g}, joined) && Untouched(w0, PutPair(w, g, t), done + {g})
  {
    hide Interrupted, Sync, Remote, Valid;
    PutPairInterrupted(w0, p, w, b, g, t);
    LiveStaysLive(w0, p, w, b, g);
    forall h | Live(w0, h) ensures h != g ==> Live(PutPair(w, g, t), h) && View(PutPair(w, g, t), h) == View(w, h) {
      LiveStaysLive(w0, p, w, b, h);
      PutPairViews(w, g, t, h);
    }
    PutPairViews(w, g, t, g);
  }

  lemma ConflictsAreSeparate(w0: World, p: Plan, w: World, w': World, b: Births)
    requires w' == w.(conflicts := w'.conflicts)
    ensures Valid(w) ==> Valid(w')
    ensures Framed(w0, w, b) ==> Framed(w0, w', b)
    ensures forall g :: g in w.rows && RowSource(w0, p, w, b, g) ==> RowSource(w0, p, w', b, g)
    ensures forall g :: Live(w0, g) && PairProgress(w0, w, g) ==> PairProgress(w0, w', g)
    ensures forall g :: Live(w, g) <==> Live(w', g)
    ensures forall g :: Live(w, g) ==> View(w', g) == View(w, g)
  {
  }

  lemma ConflictInterrupted(w0: World, p: Plan, w: World, b: Births, c: Conflict)
    requires Interrupted(w0, p, w, b) && c in NewConflicts(w0)
    ensures Interrupted(w0, p, w.(conflicts := w.conflicts + {c}), b)
  {
    hide NewConflicts, RowSource, PairProgress, Framed, Valid, BirthsOk;
    ConflictsAreSeparate(w0, p, w, w.(conflicts := w.conflicts + {c}), b);
  }

  /** Recording the conflict of a row finishes that row. */
  lemma ConflictStage(w0: World, p: Plan, w: World, b: Births, done: set<Id>, joined: set<Id>, g: Id)
    requires Stage(w0, p, w, b, done, joined) && Untouched(w0, w, done)
    requires g in w0.rows && g !in done && Raises(w0, g)
    ensures var w' := w.(conflicts := w.conflicts + {ConflictOf(w0, g)});
            Stage(w0, p, w', b, done + {g}, joined) && Untouched(w0, w', done + {g})
  {
    hide Interrupted;
    var w' := w.(conflicts := w.conflicts + {ConflictOf(w0, g)});
    assert ConflictOf(w0, g) in NewConflicts(w0);
    ConflictInterrupted(w0, p, w, b, ConflictOf(w0, g));
  }

  // ---- pairing and copying ----

  lemma PutRowSources(w0: World, p: Plan, w: World, b: Births, g: Id, r: Row, h: Id)
    requires h != g && h in w.rows && RowSource(w0, p, w, b, h)
    ensures RowSource(w0, p, w.(rows := w.rows[g := r]), b, h)
  {
  }

  /** Writing the row of an unmapped or newly created GitHub object is a step of the run. */
  lemma PutRowInterrupted(w0: World, p: Plan, w: World, b: Births, g: Id, r: Row)
    requires Interrupted(w0, p, w, b) && !Live(w0, g)
    requires var w' := w.(rows := w.rows[g := r]); Valid(w') && RowSource(w0, p, w', b, g)
    ensures Interrupted(w0, p, w.(rows := w.rows[g := r]), b)
  {
    hide RowSource, Sync, Remote, NewConflicts, BirthsOk, Valid;
    var w' := w.(rows := w.rows[g := r]);
    assert Framed(w0, w', b);
    forall h | Live(w0, h) ensures PairProgress(w0, w', h) {
      assert PairProgress(w0, w, h);
    }
    forall h | h in w'.rows && !Live(w0, h) ensures RowSource(w0, p, w', b, h) {
      if h != g { PutRowSources(w0, p, w, b, g, r, h); }
    }
  }

  lemma PutRowViews(w: World, g: Id, r: Row, h: Id)
    requires h != g
    ensures var w' := w.(rows := w.rows[g := r]);
            (Live(w', h) <==> Live(w, h)) && (Live(w, h) ==> View(w', h) == View(w, h))
  {
  }

  lemma PutRowStage(w0: World, p: Plan, w: World, b: Births, done: set<Id>, joined: set<Id>, g: Id, r: Row)
    requires Stage(w0, p, w, b, done, joined) && !Live(w0, g)
    requires var w' := w.(rows := w.rows[g := r]); Valid(w') && RowSource(w0, p, w', b, g)
    requires forall n :: n in b.forgejo && b.forgejo[n] == g ==> r.forgejo == n
    requires g in b.github ==> r.forgejo == b.github[g]
    requires g in p.join ==> r.forgejo == p.join[g]
    ensures Stage(w0, p, w.(rows := w.rows[g := r]), b, done, joined + {g})
  {
    hide Interrupted, RowSource, Sync, Remote, NewConflicts, Valid;
    PutRowInterrupted(w0, p, w, b, g, r);
    forall h | h in done && Live(w0, h) ensures
      var w' := w.(rows := w.rows[g := r]); Live(w', h) && View(w', h) == Sync(View(w0, h))
    {
      PutRowViews(w, g, r, h);
    }
  }

  lemma InterruptedParts(w0: World, p: Plan, w: World, b: Births)
    requires Interrupted(w0, p, w, b)
    ensures Valid(w) && BirthsOk(w0, p, b) && Framed(w0, w, b)
  {
  }

  lemma BornInPlan(w0: World, p: Plan, b: Births)
    requires BirthsOk(w0, p, b)
    ensures forall n :: n in b.github ==> n !in w0.githubUsed && b.github[n] in p.leftForgejo
    ensures forall n :: n in b.forgejo ==> n !in w0.forgejoUsed && b.forgejo[n] in p.leftGitHub
  {
    assert forall n :: n in b.github ==> b.github[n] in b.github.Values;
    assert forall n :: n in b.forgejo ==> b.forgejo[n] in b.forgejo.Values;
  }

  lemma ValidWithRow(w: World, g: Id, r: Row)
    requires Valid(w) && g in w.githubUsed && r.forgejo in w.forgejoUsed
    requires g in w.github ==> w.github[g].address == r.githubAddress
    requires r.forgejo in w.forgejo ==> w.forgejo[r.forgejo].address == r.forgejoAddress
    requires UniqueForgejo(w.rows[g := r])
    ensures Valid(w.(rows := w.rows[g := r]))
  {
  }

  /** Recording a pair found by either pairing pass. */
  lemma JoinStage(w0: World, p: Plan, w: World, b: Births, done: set<Id>, joined: set<Id>, g: Id)
    requires Valid(w0) && Splits(w0, p) && Stage(w0, p, w, b, done, joined)
    requires g in p.join && g in w0.github && p.join[g] in w0.forgejo
    requires UniqueForgejo(w.rows[g := JoinRow(w0, g, p.join[g])])
    ensures Stage(w0, p, w.(rows := w.rows[g := JoinRow(w0, g, p.join[g])]), b, done, joined + {g})
  {
    hide Interrupted, Sync, Remote, NewConflicts, InConflict;
    var r := JoinRow(w0, g, p.join[g]);
    assert g in FreeGitHub(w0);
    InterruptedParts(w0, p, w, b);
    BornInPlan(w0, p, b);
    ValidWithRow(w, g, r);
    PutRowStage(w0, p, w, b, done, joined, g, r);
  }

  // ---- copies ----

  function AddForgejo(w: World, n: Id, o: Object): World
  {
    w.(forgejo := w.forgejo[n := o], forgejoUsed := w.forgejoUsed + {n})
  }

  function AddGitHub(w: World, n: Id, o: Object): World
  {
    w.(github := w.github[n := o], githubUsed := w.githubUsed + {n})
  }

  ghost predicate FreshAddress(objects: map<Id, Object>, a: nat)
  {
    forall x :: x in objects ==> objects[x].address != a
  }

  lemma AddForgejoValid(w: World, n: Id, o: Object)
    requires Valid(w) && n !in w.forgejoUsed && FreshAddress(w.forgejo, o.address)
    ensures Valid(AddForgejo(w, n, o)) && n !in w.forgejo
    ensures forall h :: Live(w, h) ==> Live(AddForgejo(w, n, o), h) && View(AddForgejo(w, n, o), h) == View(w, h)
  {
  }

  lemma AddForgejoFramed(w0: World, w: World, b: Births, n: Id, o: Object, g: Id)
    requires Framed(w0, w, b) && n !in w.forgejo && g in w0.github && o.content == w0.github[g].content
    ensures Framed(w0, AddForgejo(w, n, o), b.(forgejo := b.forgejo[n := g]))
  {
    hide Live, Tied;
  }

  lemma AddForgejoSources(w0: World, p: Plan, w: World, b: Births, n: Id, o: Object, g: Id, h: Id)
    requires n !in b.forgejo && n !in w.forgejo && h in w.rows && RowSource(w0, p, w, b, h)
    ensures RowSource(w0, p, AddForgejo(w, n, o), b.(forgejo := b.forgejo[n := g]), h)
  {
  }

  lemma BirthsOkForgejo(w0: World, p: Plan, b: Births, n: Id, g: Id)
    requires BirthsOk(w0, p, b) && n !in b.forgejo && n !in w0.forgejoUsed && g in p.leftGitHub && g !in b.forgejo.Values
    ensures BirthsOk(w0, p, b.(forgejo := b.forgejo[n := g]))
    ensures b.forgejo[n := g].Values == b.forgejo.Values + {g}
  {
    assert forall x :: x in b.forgejo ==> b.forgejo[x] in b.forgejo.Values;
    ValuesExtend(b.forgejo, n, g);
  }

  /** Creating the Forgejo copy of a leftover is a step of the run. */
  lemma ForgejoBirth(w0: World, p: Plan, w: World, b: Births, n: Id, o: Object, g: Id)
    requires Interrupted(w0, p, w, b) && n !in w.forgejoUsed && FreshAddress(w.forgejo, o.address)
    requires g in w0.github && g in p.leftGitHub && g !in b.forgejo.Values && o.content == w0.github[g].content
    ensures Interrupted(w0, p, AddForgejo(w, n, o), b.(forgejo := b.forgejo[n := g]))
  {
    hide RowSource, NewConflicts, BirthsOk, Valid, Sync, Remote;
    InterruptedParts(w0, p, w, b);
    AddForgejoValid(w, n, o);
    assert n !in b.forgejo && n !in w0.forgejoUsed;
    BirthsOkForgejo(w0, p, b, n, g);
    AddForgejoFramed(w0, w, b, n, o, g);
    forall h | h in w.rows && !Live(w0, h)
      ensures RowSource(w0, p, AddForgejo(w, n, o), b.(forgejo := b.forgejo[n := g]), h)
    {
      AddForgejoSources(w0, p, w, b, n, o, g, h);
    }
  }

  ghost predicate ForgejoCopy(w0: World, p: Plan, w: World, b: Births, n: Id, o: Object, g: Id, r: Row)
  {
    && n !in w.forgejoUsed && FreshAddress(w.forgejo, o.address)
    && g in w0.github && g in p.leftGitHub && g !in b.forgejo.Values && o.content == w0.github[g].content
    && r == Row(n, w0.github[g].address, o.address, w0.github[g].content)
    && UniqueForgejo(w.rows[g := r])
  }

  lemma ForgejoCopyInterrupted(w0: World, p: Plan, w: World, b: Births, n: Id, o: Object, g: Id, r: Row)
    requires Valid(w0) && Splits(w0, p) && Interrupted(w0, p, w, b) && ForgejoCopy(w0, p, w, b, n, o, g, r)
    ensures Interrupted(w0, p, AddForgejo(w, n, o).(rows := w.rows[g := r]), b.(forgejo := b.forgejo[n := g]))
    ensures !Live(w0, g) && g !in p.join && g !in b.github && n !in b.forgejo
  {
    hide Interrupted, Valid, NewConflicts, UniqueForgejo, FreshAddress;
    assert g in FreeGitHub(w0);
    InterruptedParts(w0, p, w, b);
    BornInPlan(w0, p, b);
    AddForgejoValid(w, n, o);
    ForgejoBirth(w0, p, w, b, n, o, g);
    var w1, b1 := AddForgejo(w, n, o), b.(forgejo := b.forgejo[n := g]);
    assert g in w.github && w.github[g].address == w0.github[g].address;
    GitHubIdsAreUsed(w0, w, b, g);
    ValidWithRow(w1, g, r);
    PutRowInterrupted(w0, p, w1, b1, g, r);
  }

  lemma GitHubIdsAreUsed(w0: World, w: World, b: Births, g: Id)
    requires Valid(w0) && Valid(w) && g in w0.github && (forall n :: n in b.github ==> n !in w0.githubUsed)
    requires w.githubUsed == w0.githubUsed + b.github.Keys
    ensures g in w.githubUsed && g !in b.github
  {
  }

  /** A leftover copied to Forgejo and recorded. */
  lemma ForgejoCopyStage(w0: World, p: Plan, w: World, b: Births, done: set<Id>, joined: set<Id>, n: Id, o: Object, g: Id, r: Row)
    requires Valid(w0) && Splits(w0, p) && Stage(w0, p, w, b, done, joined) && ForgejoCopy(w0, p, w, b, n, o, g, r)
    ensures Stage(w0, p, AddForgejo(w, n, o).(rows := w.rows[g := r]), b.(forgejo := b.forgejo[n := g]), done, joined)
  {
    hide Interrupted, Valid, Sync, Remote, NewConflicts, InConflict, Splits, UniqueForgejo, FreshAddress, Framed, BirthsOk, Raises, ConflictOf;
    ForgejoCopyInterrupted(w0, p, w, b, n, o, g, r);
    InterruptedParts(w0, p, w, b);
    AddForgejoValid(w, n, o);
    var w2 := AddForgejo(w, n, o).(rows := w.rows[g := r]);
    forall h | h in done && Live(w0, h) ensures Live(w2, h) && View(w2, h) == Sync(View(w0, h)) {
      PutRowViews(AddForgejo(w, n, o), g, r, h);
    }
    forall m | m in b.forgejo ensures b.forgejo[m] != g { assert b.forgejo[m] in b.forgejo.Values; }
  }

  lemma AddGitHubValid(w: World, n: Id, o: Object)
    requires Valid(w) && n !in w.githubUsed && FreshAddress(w.github, o.address)
    ensures Valid(AddGitHub(w, n, o)) && n !in w.github && n !in w.rows
    ensures forall h :: Live(w, h) ==> Live(AddGitHub(w, n, o), h) && View(AddGitHub(w, n, o), h) == View(w, h)
  {
  }

  lemma AddGitHubFramed(w0: World, w: World, b: Births, n: Id, o: Object, f: Id)
    requires Framed(w0, w, b) && n !in w.github && f in w0.forgejo && o.content == w0.forgejo[f].content
    ensures Framed(w0, AddGitHub(w, n, o), b.(github := b.github[n := f]))
  {
    hide Live, Tied;
  }

  lemma AddGitHubSources(w0: World, p: Plan, w: World, b: Births, n: Id, o: Object, f: Id, h: Id)
    requires n !in b.github && n !in w.github && n !in w.rows && h in w.rows && RowSource(w0, p, w, b, h)
    ensures RowSource(w0, p, AddGitHub(w, n, o), b.(github := b.github[n := f]), h)
  {
  }

  lemma BirthsOkGitHub(w0: World, p: Plan, b: Births, n: Id, f: Id)
    requires BirthsOk(w0, p, b) && n !in b.github && n !in w0.githubUsed && f in p.leftForgejo && f !in b.github.Values
    ensures BirthsOk(w0, p, b.(github := b.github[n := f]))
    ensures b.github[n := f].Values == b.github.Values + {f}
  {
    assert forall x :: x in b.github ==> b.github[x] in b.github.Values;
    ValuesExtend(b.github, n, f);
  }

  /** Creating the GitHub copy of a leftover is a step of the run. */
  lemma GitHubBirth(w0: World, p: Plan, w: World, b: Births, n: Id, o: Object, f: Id)
    requires Interrupted(w0, p, w, b) && n !in w.githubUsed && FreshAddress(w.github, o.address)
    requires f in w0.forgejo && f in p.leftForgejo && f !in b.github.Values && o.content == w0.forgejo[f].content
    ensures Interrupted(w0, p, AddGitHub(w, n, o), b.(github := b.github[n := f]))
    ensures !Live(w0, n) && n !in b.github && n !in w0.githubUsed
  {
    hide RowSource, NewConflicts, BirthsOk, Valid, Sync, Remote;
    InterruptedParts(w0, p, w, b);
    AddGitHubValid(w, n, o);
    assert n !in b.github && n !in w0.githubUsed;
    BirthsOkGitHub(w0, p, b, n, f);
    AddGitHubFramed(w0, w, b, n, o, f);
    forall h | h in w.rows && !Live(w0, h)
      ensures RowSource(w0, p, AddGitHub(w, n, o), b.(github := b.github[n := f]), h)
    {
      AddGitHubSources(w0, p, w, b, n, o, f, h);
    }
  }

  ghost predicate GitHubCopy(w0: World, p: Plan, w: World, b: Births, n: Id, o: Object, f: Id, r: Row)
  {
    && n !in w.githubUsed && FreshAddress(w.github, o.address)
    && f in w0.forgejo && f in p.leftForgejo && f !in b.github.Values && o.content == w0.forgejo[f].content
    && r == Row(f, o.address, w0.forgejo[f].address, w0.forgejo[f].content)
    && UniqueForgejo(w.rows[n := r])
  }

  lemma ForgejoIdsAreUsed(w0: World, w: World, f: Id)
    requires Valid(w0) && f in w0.forgejo && w0.forgejoUsed <= w.forgejoUsed
    ensures f in w.forgejoUsed
  {
  }

  lemma GitHubCopyInterrupted(w0: World, p: Plan, w: World, b: Births, n: Id, o: Object, f: Id, r: Row)
    requires Valid(w0) && Splits(w0, p) && Interrupted(w0, p, w, b) && GitHubCopy(w0, p, w, b, n, o, f, r)
    ensures Interrupted(w0, p, AddGitHub(w, n, o).(rows := w.rows[n := r]), b.(github := b.github[n := f]))
    ensures !Live(w0, n) && n !in b.github && n !in w0.githubUsed
  {
    hide Interrupted, Valid, NewConflicts, UniqueForgejo, FreshAddress;
    InterruptedParts(w0, p, w, b);
    AddGitHubValid(w, n, o);
    GitHubBirth(w0, p, w, b, n, o, f);
    var w1, b1 := AddGitHub(w, n, o), b.(github := b.github[n := f]);
    assert f in w.forgejo && w.forgejo[f].address == w0.forgejo[f].address;
    ForgejoIdsAreUsed(w0, w, f);
    ValidWithRow(w1, n, r);
    PutRowInterrupted(w0, p, w1, b1, n, r);
  }

  /** A leftover copied to GitHub and recorded. */
  lemma GitHubCopyStage(w0: World, p: Plan, w: World, b: Births, done: set<Id>, joined: set<Id>, n: Id, o: Object, f: Id, r: Row)
    requires Valid(w0) && Splits(w0, p) && Stage(w0, p, w, b, done, joined) && GitHubCopy(w0, p, w, b, n, o, f, r)
    ensures Stage(w0, p, AddGitHub(w, n, o).(rows := w.rows[n := r]), b.(github := b.github[n := f]), done, joined)
  {
    hide Interrupted, Valid, Sync, Remote, NewConflicts, InConflict, Splits, UniqueForgejo, FreshAddress, Framed, BirthsOk, Raises, ConflictOf,
      RowSource, PairProgress;
    GitHubCopyInterrupted(w0, p, w, b, n, o, f, r);
    InterruptedParts(w0, p, w, b);
    AddGitHubValid(w, n, o);
    var w2 := AddGitHub(w, n, o).(rows := w.rows[n := r]);
    forall h | h in done && Live(w0, h) ensures Live(w2, h) && View(w2, h) == Sync(View(w0, h)) {
      PutRowViews(AddGitHub(w, n, o), n, r, h);
    }
    forall g | g in w.rows ensures g != n {}
  }
}
