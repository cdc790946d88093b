/** What one complete run of the protocol leaves, object by object. */
module Outcomes {
  import opened Pairing
  import opened Objects
  import opened Protocol
  import opened Steps
  import opened Convergence
  import opened Passes
  import opened FirstRun
  import opened History

  // ---- mapped pairs ----

  /** The three-way comparison: the side that left the baseline wins; two that left it for different
      contents are kept as they are, and the conflict is on record. */
  lemma PairOutcome(w: World, p: Plan, w': World, b: Births, g: Id)
    requires Run(w, p, w', b) && Live(w, g)
    ensures Live(w', g) && w'.rows[g] == w.rows[g].(baseline := w'.rows[g].baseline)
    ensures var f := w.rows[g].forgejo;
            var c, d, last := w.github[g].content, w.forgejo[f].content, w.rows[g].baseline;
      && (c == d || d == last ==> w'.github[g].content == c && w'.forgejo[f].content == c && w'.rows[g].baseline == c)
      && (c != d && c == last ==> w'.github[g].content == d && w'.forgejo[f].content == d && w'.rows[g].baseline == d)
      && (c != d && c != last && d != last ==>
            && w'.github[g].content == c && w'.forgejo[f].content == d && w'.rows[g].baseline == last
            && Diverged(g, f, c, d) in w'.conflicts)
  {
    hide Interrupted, Valid;
    LivePairIsSynced(w, p, w', b, g);
    SameLinkAfterRun(w, p, w', b, g);
    if InConflict(View(w, g)) { assert Raises(w, g) && ConflictOf(w, g) in NewConflicts(w); }
  }

  lemma SameLinkAfterRun(w: World, p: Plan, w': World, b: Births, g: Id)
    requires Run(w, p, w', b) && Live(w, g)
    ensures SameLink(w, w', g)
  {
    assert PairProgress(w, w', g);
  }

  /** What a run adds to the conflicts: the mapped objects whose partner is missing, or whose pair
      changed on both sides, and nothing else. */
  lemma ConflictOutcome(w: World, p: Plan, w': World, b: Births, c: Conflict)
    requires Run(w, p, w', b)
    ensures c in w'.conflicts <==>
              || c in w.conflicts
              || (c.Missing? && c.github in w.rows && c.forgejo == w.rows[c.github].forgejo
                  && (c.github !in w.github || c.forgejo !in w.forgejo)
                  && c.githubState == (if c.github in w.github then Some(w.github[c.github].content) else None)
                  && c.forgejoState == (if c.forgejo in w.forgejo then Some(w.forgejo[c.forgejo].content) else None))
              || (c.Diverged? && c.github in w.rows && c.forgejo == w.rows[c.github].forgejo
                  && c.github in w.github && c.githubContent == w.github[c.github].content
                  && c.forgejo in w.forgejo && c.forgejoContent == w.forgejo[c.forgejo].content
                  && c.githubContent != c.forgejoContent
                  && w.rows[c.github].baseline !in {c.githubContent, c.forgejoContent})
  {
    hide Run;
    ConflictsAfterRun(w, p, w', b);
    NewConflictIff(w, c);
    if c.github in w.rows { RaisedConflictIs(w, c); }
  }

  lemma NewConflictIff(w: World, c: Conflict)
    ensures c in NewConflicts(w) <==> c.github in w.rows && Raises(w, c.github) && ConflictOf(w, c.github) == c
  {
    if c in NewConflicts(w) { var g :| g in w.rows && Raises(w, g) && ConflictOf(w, g) == c; }
  }

  lemma RaisedConflictIs(w: World, c: Conflict)
    requires c.github in w.rows
    ensures var f := w.rows[c.github].forgejo;
      Raises(w, c.github) && ConflictOf(w, c.github) == c <==>
        if Live(w, c.github) then c == Diverged(c.github, f, View(w, c.github).github, View(w, c.github).forgejo) && InConflict(View(w, c.github))
        else c == Missing(c.github, f, if c.github in w.github then Some(w.github[c.github].content) else None,
                          if f in w.forgejo then Some(w.forgejo[f].content) else None)
  {
  }

  lemma ConflictsAfterRun(w: World, p: Plan, w': World, b: Births)
    requires Run(w, p, w', b)
    ensures w'.conflicts == w.conflicts + NewConflicts(w)
  {
    hide PairProgress, RowSource, BirthsOk, Framed, Valid, NewConflicts;
  }

  // ---- unmapped objects ----

  /** A pair of either pass is mapped with Forgejo's content as baseline, and neither object is written. */
  lemma JoinOutcome(w: World, w': World, b: Births, x: Id, y: Id)
    requires Valid(w) && Run(w, PlanOf(w), w', b) && (ByContent(w, x, y) || ByNumber(w, x, y) || ByTag(w, x, y))
    ensures PairRow(w, w'.rows, x, y) && w'.github[x] == w.github[x] && w'.forgejo[y] == w.forgejo[y]
  {
    hide PlanOf, Framed, NewConflicts, Valid, Splits, PairProgress, ByContent, ByNumber, ByTag, SlotPairs, HashPairs;
    HashPairIsMatch(w, x, y);
    SlotPairIff(w, x, y);
    PlanContainsPasses(w);
    PlanSplits(w);
    RunParts(w, PlanOf(w), w', b);
    JoinedIsUntouched(w, PlanOf(w), w', b, x);
    JoinedRow(w, PlanOf(w), w', b, x);
  }

  /** An unmapped object of GitHub that neither pass pairs has a copy on Forgejo, new and mapped to it. */
  lemma ForgejoCopyOutcome(w: World, w': World, b: Births, x: Id) returns (n: Id)
    requires Valid(w) && Run(w, PlanOf(w), w', b) && x in FreeGitHub(w)
    requires forall y :: !ByContent(w, x, y) && !ByNumber(w, x, y) && !ByTag(w, x, y)
    ensures x in w.github && n !in w.forgejoUsed && n in w'.forgejo && w'.forgejo[n].content == w.github[x].content
    ensures x in w'.rows && w'.rows[x] == Row(n, w.github[x].address, w'.forgejo[n].address, w.github[x].content)
  {
    hide PlanOf, NewConflicts, Valid, PairProgress, ByContent, ByNumber, ByTag, SlotPairs, HashPairs, Splits, FreeGitHub, RestGitHub;
    LeftIsRest(w);
    if x in HashPairs(w) { HashPairIsMatch(w, x, HashPairs(w)[x]); }
    if x in SlotPairs(w) { SlotPairIff(w, x, SlotPairs(w)[x]); }
    FreeExists(w);
    n := ForgejoCopyHasRow(w, PlanOf(w), w', b, x);
  }

  lemma BornOnForgejo(w: World, p: Plan, w': World, b: Births, n: Id)
    requires Interrupted(w, p, w', b) && n in b.forgejo
    ensures n !in w.forgejoUsed && n in w'.forgejo && b.forgejo[n] in w.github
    ensures w'.forgejo[n].content == w.github[b.forgejo[n]].content
  {
    hide RowSource, PairProgress, NewConflicts, Valid;
  }

  lemma ForgejoCopyHasRow(w: World, p: Plan, w': World, b: Births, x: Id) returns (n: Id)
    requires Valid(w) && Run(w, p, w', b) && x in p.leftGitHub && x in w.github
    ensures n in b.forgejo && n !in w.forgejoUsed && n in w'.forgejo && w'.forgejo[n].content == w.github[x].content
    ensures x in w'.rows && w'.rows[x] == Row(n, w.github[x].address, w'.forgejo[n].address, w.github[x].content)
  {
    hide NewConflicts, PairProgress, Framed;
    n :| n in b.forgejo && b.forgejo[n] == x;
    BornOnForgejo(w, p, w', b, n);
    if Live(w, x) {
      LivePairIsSynced(w, p, w', b, x);
      ForgejoIdsAreUsed(w, w, n);
    }
    assert RowSource(w, p, w', b, x);
  }

  /** The same in the other direction. */
  lemma GitHubCopyOutcome(w: World, w': World, b: Births, y: Id) returns (n: Id)
    requires Valid(w) && Run(w, PlanOf(w), w', b) && y in FreeForgejo(w)
    requires forall x :: !ByContent(w, x, y) && !ByNumber(w, x, y) && !ByTag(w, x, y)
    ensures y in w.forgejo && n !in w.githubUsed && n in w'.github && w'.github[n].content == w.forgejo[y].content
    ensures n in w'.rows && w'.rows[n] == Row(y, w'.github[n].address, w.forgejo[y].address, w.forgejo[y].content)
  {
    hide PlanOf, NewConflicts, Valid, PairProgress, ByContent, ByNumber, ByTag, SlotPairs, HashPairs, Splits, FreeForgejo, RestForgejo;
    LeftIsRest(w);
    if y in HashPairs(w).Values {
      var x :| x in HashPairs(w) && HashPairs(w)[x] == y;
      HashPairIsMatch(w, x, y);
    }
    if y in SlotPairs(w).Values {
      var x :| x in SlotPairs(w) && SlotPairs(w)[x] == y;
      SlotPairIff(w, x, y);
    }
    FreeExists(w);
    n := GitHubCopyHasRow(w, PlanOf(w), w', b, y);
  }

  lemma BornOnGitHub(w: World, p: Plan, w': World, b: Births, n: Id)
    requires Interrupted(w, p, w', b) && n in b.github
    ensures n !in w.githubUsed && n in w'.github && b.github[n] in w.forgejo
    ensures w'.github[n].content == w.forgejo[b.github[n]].content
  {
    hide RowSource, PairProgress, NewConflicts, Valid;
  }

  lemma GitHubCopyHasRow(w: World, p: Plan, w': World, b: Births, y: Id) returns (n: Id)
    requires Valid(w) && Run(w, p, w', b) && y in p.leftForgejo && y in w.forgejo
    ensures n in b.github && n !in w.githubUsed && n in w'.github && w'.github[n].content == w.forgejo[y].content
    ensures n in w'.rows && w'.rows[n] == Row(y, w'.github[n].address, w.forgejo[y].address, w.forgejo[y].content)
  {
    hide NewConflicts, PairProgress, Framed;
    n :| n in b.github && b.github[n] == y;
    BornOnGitHub(w, p, w', b, n);
    assert n !in w.github && n !in w.rows;
    assert RowSource(w, p, w', b, n);
  }

  // ---- the next edit ----

  /** After a run that found a pair without conflict, an edit of one side alone reaches the other with
      the next run: it is never a conflict, and never undone. */
  lemma EditIsCopied(w: World, w1: World, b1: Births, w2: World, w3: World, b3: Births, g: Id)
    requires Run(w, PlanOf(w), w1, b1) && Live(w, g)
    requires w.github[g].content == w.forgejo[w.rows[g].forgejo].content
             || w.rows[g].baseline in {w.github[g].content, w.forgejo[w.rows[g].forgejo].content}
    requires Edited(w1, w2) && Live(w1, g) && Live(w2, g) && Run(w2, PlanOf(w2), w3, b3)
    ensures var f := w.rows[g].forgejo;
      && f in w1.forgejo && f in w2.forgejo && f in w3.forgejo && g in w3.github
      && (w2.forgejo[f] == w1.forgejo[f] ==> w3.github[g].content == w3.forgejo[f].content == w2.github[g].content)
      && (w2.github[g] == w1.github[g] ==> w3.github[g].content == w3.forgejo[f].content == w2.forgejo[f].content)
  {
    hide Run, PlanOf, Valid;
    PairOutcome(w, PlanOf(w), w1, b1, g);
    PairOutcome(w2, PlanOf(w2), w3, b3, g);
  }
}
