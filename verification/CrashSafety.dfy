/** Crash safety of the reconciler: a run that follows any number of crashed ones
    completes the work of the first, and creates nothing a second time. */
module CrashSafety {
  import opened Pairing
  import opened Protocol
  import opened Steps
  import opened Stops
  import opened Convergence
  import opened CrashRecovery
  import opened CrashPlans

  /** Each run starts in the world in which the one before it stopped. */
  ghost predicate Crashes(worlds: seq<World>, births: seq<Births>)
  {
    && |worlds| == |births| + 1
    && (forall i :: 0 <= i < |births| ==> Stopped(worlds[i], worlds[i + 1], births[i]))
  }

  function AllTogether(births: seq<Births>): Births
  {
    if births == [] then NO_BIRTHS
    else Together(AllTogether(births[..|births| - 1]), births[|births| - 1])
  }

  lemma PlanContinuesItself(w: World)
    ensures Continues(w, PlanOf(w), NO_BIRTHS, w, PlanOf(w))
  {
    hide PlanOf;
    PlanSplits(w);
    assert PlanOf(w).leftGitHub <= FreeGitHub(w) && PlanOf(w).leftForgejo <= FreeForgejo(w);
  }

  lemma BothBirths(w: World, p: Plan, w1: World, b1: Births, w2: World, b2: Births)
    requires Recovering(w, p, w1, b1) && Continues(w, p, b1, w1, PlanOf(w1)) && Interrupted(w1, PlanOf(w1), w2, b2)
    ensures BothCompose(w, p, b1, w1, b2)
    ensures Together(b1, b2).github.Values == b1.github.Values + b2.github.Values
    ensures Together(b1, b2).forgejo.Values == b1.forgejo.Values + b2.forgejo.Values
  {
    hide PlanOf, Recovering, Interrupted, Continues, BirthsOk, BothCompose, Grown, Framed, Valid;
    RecoveringParts(w, p, w1, b1);
    InterruptedParts(w1, PlanOf(w1), w2, b2);
    BirthsTogether(w, p, b1, w1, PlanOf(w1), b2);
    ComposedValues(w, p, b1, w1, b2);
  }

  /** A plan that carries on with one that continues p continues p. */
  lemma ContinuesStill(w: World, p: Plan, w1: World, b1: Births, w2: World, b2: Births)
    requires Recovering(w, p, w1, b1) && Continues(w, p, b1, w1, PlanOf(w1))
    requires Interrupted(w1, PlanOf(w1), w2, b2) && Resumes(w1, w2, b2)
    ensures Continues(w, p, Together(b1, b2), w2, PlanOf(w2))
  {
    hide PlanOf, Recovering, Interrupted, Splits, BothCompose, Mates, Together;
    PlanSplits(w2);
    BothBirths(w, p, w1, b1, w2, b2);
    forall x | x in PlanOf(w2).join ensures Mates(p, Together(b1, b2), x, PlanOf(w2).join[x]) {
      ComposedMates(w, p, w1, b1, PlanOf(w1), b2, x, PlanOf(w2).join[x]);
    }
  }

  lemma ComposedMates(w: World, p: Plan, w1: World, b1: Births, p1: Plan, b2: Births, x: Id, y: Id)
    requires Continues(w, p, b1, w1, p1) && BothCompose(w, p, b1, w1, b2) && Mates(p1, b2, x, y)
    ensures Mates(p, Together(b1, b2), x, y)
  {
    hide BothCompose, Splits;
    MatesStable(w, p, b1, w1, b2, x, y);
  }

  lemma ComposedValues(w: World, p: Plan, b1: Births, w1: World, b2: Births)
    requires BothCompose(w, p, b1, w1, b2)
    ensures Together(b1, b2).github.Values == b1.github.Values + b2.github.Values
    ensures Together(b1, b2).forgejo.Values == b1.forgejo.Values + b2.forgejo.Values
  {
  }

  /** Any number of crashes leaves a crash-proof world recovering from the first plan, with that plan
      still to be carried on, and still crash-proof. */
  lemma {:induction false} CrashesRecover(worlds: seq<World>, births: seq<Births>)
    requires Crashes(worlds, births) && Valid(worlds[0]) && CrashProof(worlds[0])
    ensures Recovering(worlds[0], PlanOf(worlds[0]), worlds[|births|], AllTogether(births))
    ensures Continues(worlds[0], PlanOf(worlds[0]), AllTogether(births), worlds[|births|], PlanOf(worlds[|births|]))
    ensures CrashProof(worlds[|births|])
    decreases |births|
  {
    hide Recovering, Stopped, PlanOf, CrashProof, Valid, Together, Continues, Resumes, Interrupted;
    var w := worlds[0];
    if births == [] {
      RecoveringStarts(w, PlanOf(w));
      PlanContinuesItself(w);
    } else {
      var n := |births| - 1;
      var w1, w2, b1 := worlds[n], worlds[n + 1], AllTogether(births[..n]);
      CrashesRecover(worlds[..n + 1], births[..n]);
      RecoveringParts(w, PlanOf(w), w1, b1);
      assert Stopped(w1, w2, births[n]);
      StoppedIsInterrupted(w1, w2, births[n]);
      StopResumes(w1, w2, births[n]);
      CrashStep(w, PlanOf(w), w1, b1, w2, births[n]);
      ContinuesStill(w, PlanOf(w), w1, b1, w2, births[n]);
    }
  }

  /** Any number of crashes, and the next plan is what is left of the first: it joins only mates, and
      copies exactly the leftovers that have no copy. */
  lemma CrashesResume(worlds: seq<World>, births: seq<Births>)
    requires Crashes(worlds, births) && Valid(worlds[0]) && CrashProof(worlds[0])
    ensures Resumes(worlds[0], worlds[|births|], AllTogether(births))
  {
    hide Recovering, CrashProof, Valid, PlanOf, Crashes;
    CrashesRecover(worlds, births);
  }

  /** The complete run copies exactly the leftovers that have no copy yet. */
  lemma LeftoversCopied(w: World, p: Plan, w1: World, b1: Births, w2: World, b2: Births)
    requires Recovering(w, p, w1, b1) && Continues(w, p, b1, w1, PlanOf(w1)) && Run(w1, PlanOf(w1), w2, b2)
    ensures var b := Together(b1, b2);
      Recovering(w, p, w2, b) && b.forgejo.Values == p.leftGitHub && b.github.Values == p.leftForgejo
  {
    hide PlanOf, Recovering, Valid, Interrupted, Injective, BirthsCompose, Grown, Splits;
    CrashStep(w, p, w1, b1, w2, b2);
    RecoveringParts(w, p, w1, b1);
    BothBirths(w, p, w1, b1, w2, b2);
    BirthsInPlan(w, p, b1);
  }

  lemma BirthsInPlan(w: World, p: Plan, b: Births)
    requires BirthsOk(w, p, b)
    ensures b.github.Values <= p.leftForgejo && b.forgejo.Values <= p.leftGitHub
  {
  }

  lemma {:induction false} InjectiveSize(m: map<Id, Id>)
    requires Injective(m)
    ensures |m.Keys| == |m.Values|
    decreases |m|
  {
    if m != map[] {
      var x :| x in m;
      var rest := m - {x};
      InjectiveSize(rest);
      assert m == rest[x := m[x]];
      ValuesExtend(rest, x, m[x]);
      assert m[x] !in rest.Values;
      assert m.Keys == rest.Keys + {x} && m.Values == rest.Values + {m[x]};
    }
  }

  /** How many objects there are once every leftover has its copy. */
  lemma SizesWhenCopied(w: World, p: Plan, w': World, b: Births)
    requires Valid(w) && BirthsOk(w, p, b) && b.forgejo.Values == p.leftGitHub && b.github.Values == p.leftForgejo
    requires w'.github.Keys == w.github.Keys + b.github.Keys && w'.forgejo.Keys == w.forgejo.Keys + b.forgejo.Keys
    ensures |w'.github| == |w.github| + |p.leftForgejo| && |w'.forgejo| == |w.forgejo| + |p.leftGitHub|
  {
    InjectiveSize(b.github);
    InjectiveSize(b.forgejo);
    assert w.github.Keys !! b.github.Keys && w.forgejo.Keys !! b.forgejo.Keys;
    assert |w'.github.Keys| == |w.github.Keys| + |b.github.Keys|;
    assert |w'.forgejo.Keys| == |w.forgejo.Keys| + |b.forgejo.Keys|;
  }

  /** Crash safety of a crash-proof world.  However many runs crash, and wherever they stop, once one
      completes: every object has exactly one counterpart, each leftover of the first world was
      copied exactly once over all the runs together, and each forge holds as many objects as after
      a run that was never interrupted. */
  lemma CrashesCreateNoDuplicates(worlds: seq<World>, births: seq<Births>, w': World, b': Births, u: World, bu: Births)
    requires Crashes(worlds, births) && Valid(worlds[0]) && CrashProof(worlds[0])
    requires Run(worlds[|births|], PlanOf(worlds[|births|]), w', b')
    requires Run(worlds[0], PlanOf(worlds[0]), u, bu)
    ensures Matched(w') && UniqueForgejo(w'.rows)
    ensures var b, p := Together(AllTogether(births), b'), PlanOf(worlds[0]);
      && Injective(b.github) && Injective(b.forgejo)
      && b.forgejo.Values == p.leftGitHub && b.github.Values == p.leftForgejo
      && w'.github.Keys == worlds[0].github.Keys + b.github.Keys
      && w'.forgejo.Keys == worlds[0].forgejo.Keys + b.forgejo.Keys
    ensures |w'.github| == |u.github| && |w'.forgejo| == |u.forgejo|
  {
    hide Recovering, Run, PlanOf, CrashProof, Valid, Together, Continues, Stopped, Matched, UniqueForgejo, Injective;
    var w, wk, bk := worlds[0], worlds[|births|], AllTogether(births);
    var p := PlanOf(w);
    CrashesRecover(worlds, births);
    LeftoversCopied(w, p, wk, bk, w', b');
    RecoveringSizes(w, p, w', Together(bk, b'));
    PlanSplits(wk);
    RecoveringParts(w, p, wk, bk);
    PerfectMatching(wk, PlanOf(wk), w', b');
    UninterruptedSizes(w, p, u, bu);
  }

  lemma RecoveringSizes(w: World, p: Plan, w': World, b: Births)
    requires Valid(w) && Recovering(w, p, w', b)
    requires b.forgejo.Values == p.leftGitHub && b.github.Values == p.leftForgejo
    ensures Injective(b.github) && Injective(b.forgejo)
    ensures w'.github.Keys == w.github.Keys + b.github.Keys && w'.forgejo.Keys == w.forgejo.Keys + b.forgejo.Keys
    ensures |w'.github| == |w.github| + |p.leftForgejo| && |w'.forgejo| == |w.forgejo| + |p.leftGitHub|
  {
    hide LinksFollowPlan, UnlinkedUnchanged, Valid;
    SizesWhenCopied(w, p, w', b);
  }

  /** What a complete run makes of the sizes. */
  lemma UninterruptedSizes(w: World, p: Plan, u: World, bu: Births)
    requires Valid(w) && Run(w, p, u, bu)
    ensures |u.github| == |w.github| + |p.leftForgejo| && |u.forgejo| == |w.forgejo| + |p.leftGitHub|
  {
    hide Valid, NewConflicts;
    SizesWhenCopied(w, p, u, bu);
  }

  /** How many objects GitHub and Forgejo hold once a run completes. */
  ghost function GitHubSizeAfterRun(w: World): nat
  {
    |w.github| + |PlanOf(w).leftForgejo|
  }

  ghost function ForgejoSizeAfterRun(w: World): nat
  {
    |w.forgejo| + |PlanOf(w).leftGitHub|
  }

  /** Any complete run reaches these sizes. */
  lemma RunReachesSizes(w: World, u: World, bu: Births)
    requires Valid(w) && Run(w, PlanOf(w), u, bu)
    ensures |u.github| == GitHubSizeAfterRun(w) && |u.forgejo| == ForgejoSizeAfterRun(w)
  {
    hide PlanOf, Valid, Run;
    UninterruptedSizes(w, PlanOf(w), u, bu);
  }
}
