/** When a single run is already enough. */
module FirstRun {
  import opened Pairing
  import opened Protocol
  import opened Steps
  import opened Convergence
  import opened Passes
  import opened CrashRecovery

  ghost predicate SlotPairsAgree(w: World)
  {
    forall g :: g in SlotPairs(w) && g in w.github && SlotPairs(w)[g] in w.forgejo ==>
      w.github[g].content == w.forgejo[SlotPairs(w)[g]].content
  }

  /** A pair found by either pass is unmapped and untouched by the run that records it. */
  lemma JoinedIsUntouched(w: World, p: Plan, w': World, b: Births, g: Id)
    requires Splits(w, p) && Framed(w, w', b) && g in p.join
    ensures g in w.github && p.join[g] in w.forgejo && !Live(w, g) && !Tied(w, p.join[g])
    ensures w'.github[g] == w.github[g] && w'.forgejo[p.join[g]] == w.forgejo[p.join[g]]
  {
    assert p.join[g] in p.join.Values;
    assert g in FreeGitHub(w) && p.join[g] in FreeForgejo(w);
  }

  lemma JoinedView(w: World, p: Plan, w': World, b: Births, g: Id)
    requires Splits(w, p) && Framed(w, w', b) && g in p.join && g in w.github && p.join[g] in w.forgejo
    requires g in w'.rows && w'.rows[g] == JoinRow(w, g, p.join[g])
    ensures Live(w', g)
    ensures View(w', g) == Triple(w.github[g].content, w.forgejo[p.join[g]].content, w.forgejo[p.join[g]].content)
  {
    hide Splits;
    JoinedIsUntouched(w, p, w', b, g);
  }

  /** The plan joins g either by content or by slot. */
  lemma JoinedBy(w: World, g: Id)
    requires g in PlanOf(w).join && g in w.github && PlanOf(w).join[g] in w.forgejo
    ensures (g in SlotPairs(w) && PlanOf(w).join[g] == SlotPairs(w)[g])
            || w.github[g].content == w.forgejo[PlanOf(w).join[g]].content
  {
    if g !in SlotPairs(w) {
      assert Matches(Contents(w.github, FreeGitHub(w)), Contents(w.forgejo, FreeForgejo(w)), g, HashPairs(w)[g]);
    }
  }

  lemma ForgejoCopyView(w: World, w': World, b: Births, g: Id)
    requires Framed(w, w', b) && g in w'.rows && !Live(w, g) && IsForgejoBirthRow(w, w', b, g, w'.rows[g])
    ensures Live(w', g) && View(w', g) == Triple(w.github[g].content, w.github[g].content, w.github[g].content)
  {
  }

  lemma GitHubCopyView(w: World, w': World, b: Births, g: Id)
    requires Framed(w, w', b) && g in w'.rows && IsGitHubBirthRow(w, w', b, g, w'.rows[g]) && !Tied(w, b.github[g])
    ensures Live(w', g)
    ensures var c := w.forgejo[b.github[g]].content; View(w', g) == Triple(c, c, c)
  {
  }

  lemma InterruptedFresh(w: World, p: Plan, w': World, b: Births)
    requires Interrupted(w, p, w', b)
    ensures b.github.Keys !! w.githubUsed && b.forgejo.Keys !! w.forgejoUsed
  {
  }

  /** A new row of a complete run: final, unless its members were paired by slot and differ. */
  lemma NewRowView(w: World, w': World, b: Births, g: Id)
    requires Valid(w) && Interrupted(w, PlanOf(w), w', b) && SlotPairsAgree(w)
    requires g in w'.rows && !Live(w, g)
    ensures if g in w.rows && w'.rows[g] == w.rows[g] then !Live(w', g)
            else Live(w', g) && View(w', g).github == View(w', g).forgejo == View(w', g).baseline
  {
    hide PlanOf, Framed, BirthsOk, NewConflicts, Valid, IsForgejoBirthRow, IsGitHubBirthRow, JoinRow, Splits, PairProgress,
      SlotPairs, HashPairs;
    var p := PlanOf(w);
    PlanSplits(w);
    InterruptedParts(w, p, w', b);
    InterruptedFresh(w, p, w', b);
    assert RowSource(w, p, w', b, g);
    if g in w.rows && w'.rows[g] == w.rows[g] {
      KeptRowStaysDead(w, w', b, g);
    } else if IsForgejoBirthRow(w, w', b, g, w'.rows[g]) {
      ForgejoCopyView(w, w', b, g);
    } else if IsGitHubBirthRow(w, w', b, g, w'.rows[g]) {
      CopiedAreFree(w, p, b);
      GitHubRowLinksCopy(w, w', b, g, w'.rows[g]);
      GitHubCopyView(w, w', b, g);
    } else {
      JoinedView(w, p, w', b, g);
      JoinedBy(w, g);
    }
  }

  /** A row that stays dead reports what it reported before. */
  lemma DeadRowSameConflict(w: World, w': World, b: Births, g: Id)
    requires Valid(w) && Framed(w, w', b) && b.github.Keys !! w.githubUsed && b.forgejo.Keys !! w.forgejoUsed
    requires g in w.rows && !Live(w, g) && g in w'.rows && w'.rows[g] == w.rows[g]
    ensures !Live(w', g) && Raises(w, g) && ConflictOf(w', g) == ConflictOf(w, g)
  {
    KeptRowStaysDead(w, w', b, g);
    assert forall h :: Live(w, h) ==> w.rows[h].forgejo != w.rows[g].forgejo;
  }

  lemma ConflictsRecorded(w: World, w': World, b: Births, g: Id)
    requires Valid(w) && Run(w, PlanOf(w), w', b) && SlotPairsAgree(w)
    requires g in w'.rows && Raises(w', g)
    ensures ConflictOf(w', g) in w'.conflicts
  {
    hide PlanOf, Interrupted, Valid, SlotPairsAgree, Framed;
    if Live(w, g) {
      LivePairIsSynced(w, PlanOf(w), w', b, g);
    } else {
      NewRowView(w, w', b, g);
      InterruptedParts(w, PlanOf(w), w', b);
      InterruptedFresh(w, PlanOf(w), w', b);
      if g in w.rows && w'.rows[g] == w.rows[g] { DeadRowSameConflict(w, w', b, g); }
    }
    assert g in w.rows && Raises(w, g) && ConflictOf(w', g) == ConflictOf(w, g);
    assert ConflictOf(w, g) in NewConflicts(w);
  }

  lemma AgreedSlotsSettle(w: World, w': World, b: Births)
    requires Valid(w) && Run(w, PlanOf(w), w', b) && SlotPairsAgree(w)
    ensures Settled(w')
  {
    hide PlanOf, Interrupted, Valid, SlotPairsAgree, Run, Finished, ConflictOf, Raises;
    PlanSplits(w);
    PerfectMatching(w, PlanOf(w), w', b);
    MatchedHasNothingFree(w');
    RunParts(w, PlanOf(w), w', b);
    forall g | Live(w', g) ensures View(w', g) == Sync(View(w', g)) {
      if Live(w, g) { LivePairIsSynced(w, PlanOf(w), w', b, g); } else { NewRowView(w, w', b, g); }
    }
    forall g | g in w'.rows && Raises(w', g) ensures ConflictOf(w', g) in w'.conflicts {
      ConflictsRecorded(w, w', b, g);
    }
  }

  lemma RunParts(w: World, p: Plan, w': World, b: Births)
    requires Run(w, p, w', b)
    ensures Interrupted(w, p, w', b) && Finished(w, p, w', b)
  {
  }

  /** A recorded pair has the row of its pass. */
  lemma JoinedRow(w: World, p: Plan, w': World, b: Births, g: Id)
    requires Valid(w) && Splits(w, p) && Run(w, p, w', b) && g in p.join && g in w.github && p.join[g] in w.forgejo
    ensures g in w'.rows && w'.rows[g] == JoinRow(w, g, p.join[g])
  {
    hide Splits, NewConflicts;
    JoinedIsUntouched(w, p, w', b, g);
    assert RowSource(w, p, w', b, g);
  }

  lemma SettledSlotsAgree(w: World, w': World, b: Births)
    requires Valid(w) && Run(w, PlanOf(w), w', b) && Settled(w')
    ensures SlotPairsAgree(w)
  {
    hide PlanOf, Interrupted, Valid, HashPairs, SlotPairs, Splits, JoinRow;
    PlanSplits(w);
    InterruptedParts(w, PlanOf(w), w', b);
    PlanContainsPasses(w);
    forall g | g in SlotPairs(w) && g in w.github && SlotPairs(w)[g] in w.forgejo
      ensures w.github[g].content == w.forgejo[SlotPairs(w)[g]].content
    {
      JoinedRow(w, PlanOf(w), w', b, g);
      JoinedView(w, PlanOf(w), w', b, g);
    }
  }

  /** One complete run settles everything exactly when the objects it pairs by number or tag
      have equal contents; otherwise the next run still has their contents to copy. */
  lemma OneRunSettlesIff(w: World, w': World, b: Births)
    requires Valid(w) && Run(w, PlanOf(w), w', b)
    ensures Settled(w') <==> SlotPairsAgree(w)
  {
    hide Settled, SlotPairsAgree, Run, PlanOf, Valid;
    if Settled(w') { SettledSlotsAgree(w, w', b); }
    if SlotPairsAgree(w) { AgreedSlotsSettle(w, w', b); }
  }

  // ---- losing the mapping table ----

  /** Every object is in a live row, and mapped objects have equal contents. */
  ghost predicate InAgreement(w: World)
  {
    && Matched(w)
    && forall g :: g in w.rows ==> Live(w, g) && w.github[g].content == w.forgejo[w.rows[g].forgejo].content
  }

  function Links(w: World): map<Id, Id>
  {
    map g | g in w.rows :: w.rows[g].forgejo
  }

  function TableLost(w: World): World
  {
    w.(rows := map[])
  }

  lemma EverythingIsFree(w: World)
    ensures FreeGitHub(TableLost(w)) == w.github.Keys && FreeForgejo(TableLost(w)) == w.forgejo.Keys
  {
    assert forall f :: !Held(TableLost(w), f);
  }

  lemma LostLinksAreHashPairs(w: World)
    requires Valid(w) && InAgreement(w)
    requires DistinctContents(w.github, w.github.Keys) && DistinctContents(w.forgejo, w.forgejo.Keys)
    ensures HashPairs(TableLost(w)) == Links(w)
  {
    hide HashPairs, FreeGitHub, FreeForgejo;
    var lost := TableLost(w);
    EverythingIsFree(w);
    HashPairsAreFree(lost);
    forall g | g in w.rows ensures g in HashPairs(lost) && HashPairs(lost)[g] == w.rows[g].forgejo {
      EqualContentIsHashPair(lost, g, w.rows[g].forgejo);
    }
    assert HashPairs(lost).Keys == Links(w).Keys;
  }

  /** Losing the table loses nothing: if the contents of each forge differ, the next run pairs the
      same objects again and copies none. */
  lemma LostTableIsRecovered(w: World)
    requires Valid(w) && InAgreement(w)
    requires DistinctContents(w.github, w.github.Keys) && DistinctContents(w.forgejo, w.forgejo.Keys)
    ensures PlanOf(TableLost(w)) == Plan(Links(w), {}, {})
  {
    hide HashPairs, FreeGitHub, FreeForgejo;
    var lost := TableLost(w);
    EverythingIsFree(w);
    LostLinksAreHashPairs(w);
    LinksReachAll(w);
    assert RestGitHub(lost) == {} && RestForgejo(lost) == {};
    HashPairsAreFree(lost);
    assert SlotPairs(lost) == map[];
  }

  lemma LinksReachAll(w: World)
    requires InAgreement(w)
    ensures Links(w).Keys == w.github.Keys && Links(w).Values == w.forgejo.Keys
  {
    forall f | f in w.forgejo ensures f in Links(w).Values {
      var g :| g in w.rows && w.rows[g].forgejo == f;
      assert Links(w)[g] == f;
    }
  }
}
