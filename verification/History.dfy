/** No lost edit, over whole histories of user edits and runs. */
module History {
  import opened Pairing
  import opened Objects
  import opened Protocol
  import opened Steps

  /** What happens between two moments: users change the forges, or a run works on both.
      A run may stop anywhere; it re-reads nothing, so edits fall between runs. */
  datatype Event = Edits | Reconciliation(births: Births)

  /** Users may change, delete and create objects at will; a forge never reuses an id. */
  ghost predicate Edited(w: World, w': World)
  {
    && Valid(w') && w'.pins == w.pins && w'.rows == w.rows && w'.conflicts == w.conflicts
    && w.githubUsed <= w'.githubUsed && w.forgejoUsed <= w'.forgejoUsed
    && (w'.github.Keys - w.github.Keys) !! w.githubUsed && (w'.forgejo.Keys - w.forgejo.Keys) !! w.forgejoUsed
  }

  ghost predicate Follows(w: World, e: Event, w': World)
  {
    match e
    case Edits => Edited(w, w')
    case Reconciliation(b) => Interrupted(w, PlanOf(w), w', b)
  }

  /** Starts with an empty mapping table. */
  ghost predicate IsHistory(worlds: seq<World>, events: seq<Event>)
  {
    && |worlds| == |events| + 1 && Valid(worlds[0]) && worlds[0].rows == map[]
    && forall i :: 0 <= i < |events| ==> Follows(worlds[i], events[i], worlds[i + 1])
  }

  ghost predicate HeldByBoth(w: World, g: Id, f: Id, c: Content)
  {
    g in w.github && f in w.forgejo && w.github[g].content == c && w.forgejo[f].content == c
  }

  /** The Forgejo content recorded when g and f were paired by number or tag. */
  ghost predicate RecordedAtPairing(w: World, g: Id, f: Id, c: Content)
  {
    g in SlotPairs(w) && SlotPairs(w)[g] == f && f in w.forgejo && w.forgejo[f].content == c
  }

  ghost predicate Agreed(worlds: seq<World>, i: nat, g: Id, f: Id, c: Content)
  {
    exists j :: 0 <= j <= i < |worlds| && (HeldByBoth(worlds[j], g, f, c) || RecordedAtPairing(worlds[j], g, f, c))
  }

  /** Every baseline a run leaves was there before, is now held by both sides, or was just recorded. */
  ghost predicate BaselineFrom(w: World, w': World, g: Id)
    requires g in w'.rows
  {
    var r := w'.rows[g];
    || (g in w.rows && w.rows[g].forgejo == r.forgejo && w.rows[g].baseline == r.baseline)
    || HeldByBoth(w', g, r.forgejo, r.baseline)
    || HeldByBoth(w, g, r.forgejo, r.baseline)
    || RecordedAtPairing(w, g, r.forgejo, r.baseline)
  }

  lemma LiveBaseline(w: World, w': World, g: Id)
    requires Live(w, g) && PairProgress(w, w', g)
    ensures g in w'.rows && BaselineFrom(w, w', g)
  {
  }

  lemma JoinBaseline(w: World, w': World, g: Id)
    requires g in PlanOf(w).join && g in w.github && PlanOf(w).join[g] in w.forgejo
    requires g in w'.rows && w'.rows[g] == JoinRow(w, g, PlanOf(w).join[g])
    ensures BaselineFrom(w, w', g)
  {
    if g !in SlotPairs(w) {
      assert Matches(Contents(w.github, FreeGitHub(w)), Contents(w.forgejo, FreeForgejo(w)), g, HashPairs(w)[g]);
    }
  }

  /** A row for a copy: both sides hold the recorded content. */
  lemma CopyBaseline(w: World, w': World, b: Births, g: Id)
    requires Framed(w, w', b) && g in w'.rows && !Live(w, g)
    requires IsForgejoBirthRow(w, w', b, g, w'.rows[g])
             || (IsGitHubBirthRow(w, w', b, g, w'.rows[g]) && !Tied(w, w'.rows[g].forgejo))
    ensures HeldByBoth(w', g, w'.rows[g].forgejo, w'.rows[g].baseline)
  {
  }

  /** What a run copies to GitHub is unmapped. */
  lemma CopiedIsNotTied(w: World, p: Plan, w': World, b: Births, g: Id)
    requires Splits(w, p) && BirthsOk(w, p, b) && g in w'.rows && IsGitHubBirthRow(w, w', b, g, w'.rows[g])
    ensures !Tied(w, w'.rows[g].forgejo)
  {
    assert b.github[g] in b.github.Values;
    assert b.github[g] in FreeForgejo(w);
  }

  lemma RunBaseline(w: World, w': World, b: Births, g: Id)
    requires Interrupted(w, PlanOf(w), w', b) && g in w'.rows
    ensures BaselineFrom(w, w', g)
  {
    hide PlanOf, Framed, BirthsOk, NewConflicts, Valid, IsForgejoBirthRow, IsGitHubBirthRow, JoinRow, Splits, PairProgress;
    InterruptedParts(w, PlanOf(w), w', b);
    if Live(w, g) {
      LiveBaseline(w, w', g);
    } else if IsForgejoBirthRow(w, w', b, g, w'.rows[g]) {
      CopyBaseline(w, w', b, g);
    } else if IsGitHubBirthRow(w, w', b, g, w'.rows[g]) {
      PlanSplits(w);
      CopiedIsNotTied(w, PlanOf(w), w', b, g);
      CopyBaseline(w, w', b, g);
    } else {
      assert RowSource(w, PlanOf(w), w', b, g);
      if !(g in w.rows && w'.rows[g] == w.rows[g]) { JoinBaseline(w, w', g); }
    }
  }

  /** Baselines are agreed: held by both sides once, or recorded when the two were paired. */
  lemma {:induction false} BaselinesAreAgreed(worlds: seq<World>, events: seq<Event>, i: nat, g: Id)
    requires IsHistory(worlds, events) && i < |worlds| && g in worlds[i].rows
    ensures Agreed(worlds, i, g, worlds[i].rows[g].forgejo, worlds[i].rows[g].baseline)
  {
    hide Interrupted, PlanOf, HeldByBoth, RecordedAtPairing, Valid;
    if i > 0 {
      assert Follows(worlds[i - 1], events[i - 1], worlds[i]);
      if events[i - 1].Edits? {
        BaselinesAreAgreed(worlds, events, i - 1, g);
      } else {
        RunBaseline(worlds[i - 1], worlds[i], events[i - 1].births, g);
        if g in worlds[i - 1].rows { BaselinesAreAgreed(worlds, events, i - 1, g); }
      }
    }
  }

  /** Only a content equal to the baseline is ever overwritten, and by the partner's; on Forgejo a run may
      stop before the labels have followed. */
  lemma OverwrittenIsBaseline(w: World, p: Plan, w': World, b: Births, g: Id)
    requires Interrupted(w, p, w', b) && Live(w, g)
    ensures Live(w', g) && w'.rows[g].forgejo == w.rows[g].forgejo
    ensures View(w', g).github != View(w, g).github ==>
              View(w, g).github == w.rows[g].baseline && View(w', g).github == View(w, g).forgejo == View(w', g).forgejo
    ensures View(w', g).forgejo != View(w, g).forgejo ==>
              View(w, g).forgejo == w.rows[g].baseline && View(w', g).github == View(w, g).github
              && View(w', g).forgejo in {View(w, g).github, WithoutLabels(View(w, g).github, View(w, g).forgejo)}
  {
    hide Framed, RowSource, BirthsOk, NewConflicts, Valid;
    assert PairProgress(w, w', g);
  }

  lemma UnmappedIsNotWritten(w: World, p: Plan, w': World, b: Births)
    requires Interrupted(w, p, w', b)
    ensures forall g :: g in w.github && !Live(w, g) ==> g in w'.github && w'.github[g] == w.github[g]
    ensures forall f :: f in w.forgejo && !Tied(w, f) ==> f in w'.forgejo && w'.forgejo[f] == w.forgejo[f]
  {
    hide RowSource, BirthsOk, NewConflicts, Valid, PairProgress;
  }

  /** What pair g may lose at moment i: a content once agreed on, to its partner's content. */
  ghost predicate OnlyAgreedIsOverwritten(worlds: seq<World>, i: nat, g: Id)
    requires i + 1 < |worlds| && Live(worlds[i], g)
  {
    var f, t, w' := worlds[i].rows[g].forgejo, View(worlds[i], g), worlds[i + 1];
    && Live(w', g) && w'.rows[g].forgejo == f
    && (View(w', g).github == t.github || (View(w', g).github == t.forgejo && Agreed(worlds, i, g, f, t.github)))
    && (View(w', g).forgejo == t.forgejo
        || (View(w', g).forgejo in {t.github, WithoutLabels(t.github, t.forgejo)} && Agreed(worlds, i, g, f, t.forgejo)))
  }

  /** No lost edit.  In any history, a run replaces only the content of a mapped object, only by its
      partner's content (on Forgejo perhaps with the labels still missing), and only if the replaced content was once held by both of them or is the
      Forgejo content recorded when they were paired by number or tag. */
  lemma NoEditIsLost(worlds: seq<World>, events: seq<Event>, i: nat)
    requires IsHistory(worlds, events) && i < |events| && events[i].Reconciliation?
    ensures forall g :: g in worlds[i].github && !Live(worlds[i], g) ==>
              g in worlds[i + 1].github && worlds[i + 1].github[g] == worlds[i].github[g]
    ensures forall f :: f in worlds[i].forgejo && !Tied(worlds[i], f) ==>
              f in worlds[i + 1].forgejo && worlds[i + 1].forgejo[f] == worlds[i].forgejo[f]
    ensures forall g :: Live(worlds[i], g) ==> OnlyAgreedIsOverwritten(worlds, i, g)
  {
    hide Interrupted, PlanOf, Agreed, Valid;
    assert Follows(worlds[i], events[i], worlds[i + 1]);
    UnmappedIsNotWritten(worlds[i], PlanOf(worlds[i]), worlds[i + 1], events[i].births);
    forall g | Live(worlds[i], g) ensures OnlyAgreedIsOverwritten(worlds, i, g) {
      OverwrittenIsBaseline(worlds[i], PlanOf(worlds[i]), worlds[i + 1], events[i].births, g);
      BaselinesAreAgreed(worlds, events, i, g);
    }
  }

  /** When both sides left the baseline for different contents, a complete run keeps both and
      the conflict is on record. */
  lemma BothChangesKept(w: World, w': World, b: Births, g: Id)
    requires Run(w, PlanOf(w), w', b) && Live(w, g) && InConflict(View(w, g))
    ensures Live(w', g) && View(w', g) == View(w, g)
    ensures Diverged(g, w.rows[g].forgejo, View(w, g).github, View(w, g).forgejo) in w'.conflicts
  {
    hide PlanOf, Interrupted, Valid;
    assert View(w', g) == Sync(View(w, g));
    assert Raises(w, g) && ConflictOf(w, g) in NewConflicts(w);
  }

  /** Two edits made on both sides since they last agreed are both kept, and the conflict is on
      record, whatever happened before. */
  lemma BothFreshEditsKept(worlds: seq<World>, events: seq<Event>, i: nat, g: Id)
    requires IsHistory(worlds, events) && i < |events| && events[i].Reconciliation?
    requires Run(worlds[i], PlanOf(worlds[i]), worlds[i + 1], events[i].births) && Live(worlds[i], g)
    requires var f, t := worlds[i].rows[g].forgejo, View(worlds[i], g);
      t.github != t.forgejo && !Agreed(worlds, i, g, f, t.github) && !Agreed(worlds, i, g, f, t.forgejo)
    ensures Live(worlds[i + 1], g) && View(worlds[i + 1], g) == View(worlds[i], g)
    ensures var t := View(worlds[i], g); Diverged(g, worlds[i].rows[g].forgejo, t.github, t.forgejo) in worlds[i + 1].conflicts
  {
    hide Run, PlanOf, Agreed, Valid;
    BaselinesAreAgreed(worlds, events, i, g);
    BothChangesKept(worlds[i], worlds[i + 1], events[i].births, g);
  }
}
