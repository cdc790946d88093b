/** Two worlds of migrated issues.

    In the first, two issues on GitHub have one text, and one of them has the text
    of a third one's counterpart.  All three pair by number, so nothing has to be
    copied; but once the row of the second is written, the first looks like the only
    counterpart of the third.  In the second world a twin that pairs by number does
    no harm. */
module CrashExample {
  import opened Objects
  import opened Protocol
  import opened Steps
  import opened Stops
  import opened Convergence
  import opened Passes
  import opened CrashPlans
  import opened CrashSafety
  import opened CrashStates

  function Text(body: string): Content
  {
    Issue("title", body, "open", multiset{}, "")
  }

  const THREE := World(false,
    map[1 := Object(1, Text("c")), 2 := Object(2, Text("c")), 3 := Object(3, Text("d"))],
    map[1 := Object(1, Text("a")), 2 := Object(2, Text("b")), 3 := Object(3, Text("c"))],
    map[], {}, {1, 2, 3}, {1, 2, 3})

  /** The run stopped after the row of the second issue. */
  const CRASHED := THREE.(rows := map[2 := Row(2, 2, 2, Text("b"))])

  lemma FreeIssues()
    ensures FreeGitHub(THREE) == {1, 2, 3} && FreeForgejo(THREE) == {1, 2, 3}
    ensures FreeGitHub(CRASHED) == {1, 3} && FreeForgejo(CRASHED) == {1, 3}
  {
    assert Held(CRASHED, 2) by { assert CRASHED.rows[2].forgejo == 2; }
  }

  lemma NoneByContent()
    ensures HashPairs(THREE) == map[] && RestGitHub(THREE) == {1, 2, 3} && RestForgejo(THREE) == {1, 2, 3}
  {
    hide FreeGitHub, FreeForgejo, HashPairs, SlotPairs, RestGitHub, RestForgejo, PlanOf;
    FreeIssues();
    HashPairsAreFree(THREE);
    forall x ensures x !in HashPairs(THREE) {
      if x in HashPairs(THREE) { HashPairIsMatch(THREE, x, HashPairs(THREE)[x]); }
    }
    LeftIsRest(THREE);
    assert HashPairs(THREE) == map[];
  }

  lemma AllByNumber()
    ensures SlotPairs(THREE) == map[1 := 1, 2 := 2, 3 := 3]
  {
    hide FreeGitHub, FreeForgejo, HashPairs, SlotPairs, RestGitHub, RestForgejo, PlanOf;
    NoneByContent();
    HashPairsAreFree(THREE);
    SlotPairIsMatch(THREE, 1, 1);
    SlotPairIsMatch(THREE, 2, 2);
    SlotPairIsMatch(THREE, 3, 3);
  }

  lemma ThreePlan()
    ensures PlanOf(THREE) == Plan(map[1 := 1, 2 := 2, 3 := 3], {}, {})
  {
    hide FreeGitHub, FreeForgejo, HashPairs, SlotPairs, RestGitHub, RestForgejo, PlanOf;
    NoneByContent();
    AllByNumber();
    PlanParts(THREE);
    var s := SlotPairs(THREE);
    assert s[1] in s.Values && s[2] in s.Values && s[3] in s.Values;
  }

  lemma PlanParts(w: World)
    ensures PlanOf(w) == Plan(HashPairs(w) + SlotPairs(w), RestGitHub(w) - SlotPairs(w).Keys, RestForgejo(w) - SlotPairs(w).Values)
  {
  }

  lemma CrashedPlan()
    ensures PlanOf(CRASHED) == Plan(map[1 := 3], {3}, {1})
  {
    hide FreeGitHub, FreeForgejo, HashPairs, SlotPairs, RestGitHub, RestForgejo, PlanOf;
    FreeIssues();
    HashPairsAreFree(CRASHED);
    HashPairIsMatch(CRASHED, 1, 3);
    if 3 in HashPairs(CRASHED) { HashPairIsMatch(CRASHED, 3, HashPairs(CRASHED)[3]); }
    LeftIsRest(CRASHED);
    assert HashPairs(CRASHED) == map[1 := 3];
    assert RestGitHub(CRASHED) == {3};
    assert HashPairs(CRASHED).Values == {3};
    assert RestForgejo(CRASHED) == {1};
    if 3 in SlotPairs(CRASHED) { SlotPairIsMatch(CRASHED, 3, SlotPairs(CRASHED)[3]); }
    assert SlotPairs(CRASHED) == map[];
    PlanParts(CRASHED);
  }

  lemma SecondRowWritten()
    ensures Stage(THREE, PlanOf(THREE), CRASHED, NO_BIRTHS, THREE.rows.Keys, {2})
  {
    hide PlanOf, Interrupted, Stage, Valid, Splits;
    var p := PlanOf(THREE);
    ThreePlan();
    ThreeIsValid();
    PlanSplits(THREE);
    StageStart(THREE, p);
    assert THREE.rows.Keys == {} && {} + {2} == {2};
    var row := JoinRow(THREE, 2, 2);
    assert THREE.(rows := THREE.rows[2 := row]) == CRASHED;
    JoinStage(THREE, p, THREE, NO_BIRTHS, {}, {}, 2);
  }

  lemma ThreeIsValid()
    ensures Valid(THREE) && Valid(CRASHED) && !Orphaned(THREE)
  {
  }

  /** Every rerun pairs the first issue with the third one's counterpart, and both forges end with
      four issues instead of three. */
  lemma NumberPairsAreNotSafe(w': World, b': Births, u: World, bu: Births)
    requires Run(CRASHED, PlanOf(CRASHED), w', b') && Run(THREE, PlanOf(THREE), u, bu)
    ensures Stopped(THREE, CRASHED, NO_BIRTHS) && Crossed(THREE, 1, 3)
    ensures 1 in w'.rows && w'.rows[1].forgejo == 3
    ensures |u.github| == 3 && |u.forgejo| == 3 && |w'.github| == 4 && |w'.forgejo| == 4
  {
    hide PlanOf, HashPairs, Stage, Stopped, Valid, Run, Crossed;
    NoneByContent();
    SecondRowWritten();
    SecondPassStop(THREE, CRASHED, {2});
    ThreeIsValid();
    RunRecords(CRASHED, PlanOf(CRASHED), w', b');
    RunReachesSizes(THREE, u, bu);
    RunReachesSizes(CRASHED, w', b');
    PlanSizes();
    TheyCross();
    CrashedPlan();
  }

  lemma RunRecords(w: World, p: Plan, w': World, b': Births)
    requires Run(w, p, w', b')
    ensures forall g :: g in p.join ==> g in w'.rows && w'.rows[g].forgejo == p.join[g]
  {
  }

  lemma PlanSizes()
    ensures GitHubSizeAfterRun(THREE) == 3 && ForgejoSizeAfterRun(THREE) == 3
    ensures GitHubSizeAfterRun(CRASHED) == 4 && ForgejoSizeAfterRun(CRASHED) == 4
  {
    hide PlanOf;
    ThreePlan();
    CrashedPlan();
    assert THREE.github.Keys == {1, 2, 3} && THREE.forgejo.Keys == {1, 2, 3};
  }

  lemma TheyCross()
    ensures Crossed(THREE, 1, 3)
  {
    hide SlotPairs, RestGitHub, RestForgejo;
    NoneByContent();
    AllByNumber();
  }

  // ---- a twin that pairs ----

  const TWINS := World(false,
    map[1 := Object(1, Text("c")), 2 := Object(2, Text("c"))],
    map[2 := Object(2, Text("d"))],
    map[], {}, {1, 2}, {2})

  lemma TwinsAreValid()
    ensures Valid(TWINS) && !Orphaned(TWINS)
  {
  }

  lemma TwinsAreFree()
    ensures FreeGitHub(TWINS) == {1, 2} && FreeForgejo(TWINS) == {2}
  {
  }

  lemma TwinsDifferFromTheOther()
    ensures HashPairs(TWINS) == map[] && RestGitHub(TWINS) == {1, 2} && RestForgejo(TWINS) == {2}
  {
    hide FreeGitHub, FreeForgejo, HashPairs, SlotPairs, RestGitHub, RestForgejo, PlanOf;
    TwinsAreFree();
    forall x ensures x !in HashPairs(TWINS) {
      if x in HashPairs(TWINS) { HashPairIsMatch(TWINS, x, HashPairs(TWINS)[x]); }
    }
    LeftIsRest(TWINS);
    assert HashPairs(TWINS) == map[];
  }

  lemma TwinsPlan()
    ensures SlotPairs(TWINS) == map[2 := 2] && PlanOf(TWINS) == Plan(map[2 := 2], {1}, {})
  {
    hide FreeGitHub, FreeForgejo, HashPairs, SlotPairs, RestGitHub, RestForgejo, PlanOf;
    TwinsDifferFromTheOther();
    SlotPairIsMatch(TWINS, 2, 2);
    if 1 in SlotPairs(TWINS) { SlotPairIsMatch(TWINS, 1, SlotPairs(TWINS)[1]); }
    HashPairsAreFree(TWINS);
    assert SlotPairs(TWINS) == map[2 := 2];
    assert SlotPairs(TWINS).Values == {2};
    PlanParts(TWINS);
  }

  /** The first issue has to be copied and shares its content with an unmapped one, which however is
      recorded before any copy is made. */
  lemma PairedTwinIsSafe()
    ensures CrashSafe(TWINS)
  {
    hide PlanOf, HashPairs, SlotPairs, RestGitHub, RestForgejo, CrashSafe, Valid, Orphaned;
    TwinsAreValid();
    TwinsDifferFromTheOther();
    TwinsPlan();
    CrashSafeIff(TWINS);
  }
}
