/** What runs do to the text of a mapped pull request pair.

    An update moves title, body and state, and nothing else; it may be refused.
    This is why pull requests, unlike issues, can lose an edit and may never
    come to rest. */
module PullHistory {
  import opened Pairing
  import opened PullRequests
  import opened PullForges

  /** Both sides of a mapped pair and the baseline in its row. */
  datatype Pair = Pair(github: Digest, forgejo: Digest, baseline: Digest)

  /** What an update can change, and what it cannot. */
  datatype Text = Text(title: string, body: string, state: string)

  datatype Flags = Flags(head: string, base: string, draft: bool, merged: bool)

  function TextOf(d: Digest): Text
  {
    Text(d.title, d.body, d.state)
  }

  function FlagsOf(d: Digest): Flags
  {
    Flags(d.head, d.base, d.draft, d.merged)
  }

  function Direct(p: Pair): Direction
  {
    Compare(p.github, p.forgejo, p.baseline)
  }

  function After(p: Pair, reply: UpdateReply): Pair
  {
    var baseline := BaselineAfter(p.github, p.forgejo, p.baseline, reply);
    match Direct(p)
    case InSync => p.(baseline := baseline)
    case Clash => p.(baseline := baseline)
    case ToForgejo => Pair(p.github, if reply.Updated? then UpdateTo(p.forgejo, p.github) else p.forgejo, baseline)
    case ToGitHub =>
      if reply.CannotReopen? then Pair(p.github, UpdateTo(p.forgejo, p.github), baseline)
      else Pair(UpdateTo(p.github, p.forgejo), p.forgejo, baseline)
  }

  /** What `ReconcilePair` says about the two forges and the row, for one pair. */
  lemma CopiedIsAfter(github: Listing, forgejo: Listing, github': Listing, forgejo': Listing, g: Id, row: PullRow, reply: UpdateReply)
    requires g in github && row.forgejo in forgejo
    requires Copied(github, forgejo, github', forgejo', g, row, github[g].digest, forgejo[row.forgejo].digest, reply)
    ensures g in github' && row.forgejo in forgejo'
    ensures var p := Pair(github[g].digest, forgejo[row.forgejo].digest, row.baseline);
      Pair(github'[g].digest, forgejo'[row.forgejo].digest, BaselineAfter(p.github, p.forgejo, p.baseline, reply)) == After(p, reply)
  {
  }

  // ---- the next edit ----

  /** After a run over two equal sides, an edit of one side alone is copied to the other by the next
      run, whatever the baseline was before; it is never a clash. */
  lemma EditAfterSyncIsCopied(p: Pair, first: UpdateReply, q: Pair)
    requires p.github == p.forgejo && q.baseline == After(p, first).baseline && q.github != q.forgejo
    ensures After(p, first) == Pair(p.github, p.github, p.github)
    ensures q.forgejo == p.forgejo ==>
              Direct(q) == ToForgejo && After(q, Updated).github == q.github && TextOf(After(q, Updated).forgejo) == TextOf(q.github)
    ensures q.github == p.github ==>
              Direct(q) == ToGitHub && After(q, Updated).forgejo == q.forgejo && TextOf(After(q, Updated).github) == TextOf(q.forgejo)
  {
  }

  /** The same after an accepted update, if head, base, draft and merged flag agree. */
  lemma EditAfterUpdateIsCopied(p: Pair, q: Pair)
    requires (Direct(p).ToForgejo? || Direct(p).ToGitHub?) && FlagsOf(p.github) == FlagsOf(p.forgejo)
    requires q.baseline == After(p, Updated).baseline && q.github != q.forgejo
    ensures After(p, Updated).github == After(p, Updated).forgejo == After(p, Updated).baseline
    ensures q.forgejo == After(p, Updated).forgejo ==> Direct(q) == ToForgejo && TextOf(After(q, Updated).forgejo) == TextOf(q.github)
    ensures q.github == After(p, Updated).github ==> Direct(q) == ToGitHub && TextOf(After(q, Updated).github) == TextOf(q.forgejo)
  {
  }

  /** A row entered for a leftover has GitHub's digest as baseline.  The first comparison of its pair, if
      nobody edits GitHub's side, never overwrites Forgejo's text, unless GitHub cannot reopen. */
  lemma AdoptedTextSurvives(github: Digest, forgejo: Digest, reply: UpdateReply)
    requires Handled(Direct(Pair(github, forgejo, github)), reply)
    ensures Direct(Pair(github, forgejo, github)) == if github == forgejo then InSync else ToGitHub
    ensures !reply.CannotReopen? ==>
              && After(Pair(github, forgejo, github), reply).forgejo == forgejo
              && TextOf(After(Pair(github, forgejo, github), reply).github) == TextOf(forgejo)
  {
  }

  // ---- two runs without an edit in between ----

  /** The second run overwrites a title, body or state if and only if the first wanted to copy
      GitHub's text to Forgejo, Forgejo refused because the pull request is locked, and the texts differ. */
  lemma NextRunOverwritesIff(p: Pair, first: UpdateReply, second: UpdateReply)
    requires Handled(Direct(p), first) && Handled(Direct(After(p, first)), second)
    ensures var p1 := After(p, first);
            var p2 := After(p1, second);
      TextOf(p2.github) != TextOf(p1.github) || TextOf(p2.forgejo) != TextOf(p1.forgejo)
      <==> Direct(p).ToForgejo? && first.Locked? && TextOf(p.github) != TextOf(p.forgejo)
  {
  }

  /** The same for two successive comparisons of a pair, as they leave the forges and the row. */
  lemma TwoRunsOverwriteIff(github: Listing, forgejo: Listing, github1: Listing, forgejo1: Listing, github2: Listing, forgejo2: Listing,
                            g: Id, row: PullRow, first: UpdateReply, second: UpdateReply)
    requires g in github && row.forgejo in forgejo && g in github1 && row.forgejo in forgejo1
    requires var gd, fd := github[g].digest, forgejo[row.forgejo].digest;
      && Handled(Compare(gd, fd, row.baseline), first)
      && Copied(github, forgejo, github1, forgejo1, g, row, gd, fd, first)
    requires var row1 := row.(baseline := BaselineAfter(github[g].digest, forgejo[row.forgejo].digest, row.baseline, first));
      && Handled(Compare(github1[g].digest, forgejo1[row.forgejo].digest, row1.baseline), second)
      && Copied(github1, forgejo1, github2, forgejo2, g, row1, github1[g].digest, forgejo1[row.forgejo].digest, second)
    ensures g in github2 && row.forgejo in forgejo2
    ensures TextOf(github2[g].digest) != TextOf(github1[g].digest) || TextOf(forgejo2[row.forgejo].digest) != TextOf(forgejo1[row.forgejo].digest)
            <==> Compare(github[g].digest, forgejo[row.forgejo].digest, row.baseline).ToForgejo? && first.Locked?
                 && TextOf(github[g].digest) != TextOf(forgejo[row.forgejo].digest)
  {
    hide Copied;
    CopiedIsAfter(github, forgejo, github1, forgejo1, g, row, first);
    var row1 := row.(baseline := BaselineAfter(github[g].digest, forgejo[row.forgejo].digest, row.baseline, first));
    CopiedIsAfter(github1, forgejo1, github2, forgejo2, g, row1, second);
    NextRunOverwritesIff(Pair(github[g].digest, forgejo[row.forgejo].digest, row.baseline), first, second);
  }

  // ---- whole histories ----

  datatype Event = Edits | Runs(reply: UpdateReply)

  /** Users edit either side at will between runs. */
  ghost predicate Happens(p: Pair, e: Event, p': Pair)
  {
    match e
    case Edits => p'.baseline == p.baseline
    case Runs(reply) => Handled(Direct(p), reply) && p' == After(p, reply)
  }

  ghost predicate IsHistory(pairs: seq<Pair>, events: seq<Event>)
  {
    |pairs| == |events| + 1 && forall i :: 0 <= i < |events| ==> Happens(pairs[i], events[i], pairs[i + 1])
  }

  /** Both sides had this text at the same moment, or the first baseline has it. */
  ghost predicate Agreed(pairs: seq<Pair>, i: nat, t: Text)
  {
    (|pairs| > 0 && TextOf(pairs[0].baseline) == t)
    || exists j :: 0 <= j <= i < |pairs| && TextOf(pairs[j].github) == t && TextOf(pairs[j].forgejo) == t
  }

  /** GitHub had this text when Forgejo refused to take it. */
  ghost predicate RefusedBefore(pairs: seq<Pair>, events: seq<Event>, i: nat, t: Text)
  {
    exists j :: 0 <= j < i <= |events| < |pairs| && events[j] == Runs(Locked) && Direct(pairs[j]).ToForgejo? && TextOf(pairs[j].github) == t
  }

  /** Between two runs nobody touches the baseline. */
  lemma {:induction false} BaselineStays(pairs: seq<Pair>, events: seq<Event>, i: nat, j: nat)
    requires IsHistory(pairs, events) && i <= j < |pairs| && forall k :: i <= k < j ==> events[k].Edits?
    ensures pairs[j].baseline == pairs[i].baseline
    decreases j
  {
    if i < j {
      BaselineStays(pairs, events, i, j - 1);
      assert Happens(pairs[j - 1], events[j - 1], pairs[j]);
    }
  }

  /** In any history, whatever the baseline was: after a run over two equal sides and any edits of one
      side alone, the next run copies that side to the other, and it is never a clash. */
  lemma OneSidedEditIsCopied(pairs: seq<Pair>, events: seq<Event>, i: nat, j: nat)
    requires IsHistory(pairs, events) && i < j < |events| && events[i].Runs? && events[j].Runs?
    requires (forall k :: i < k < j ==> events[k].Edits?) && pairs[i].github == pairs[i].forgejo
    ensures pairs[j].forgejo == pairs[i].forgejo && pairs[j].github != pairs[i].github ==>
              && Direct(pairs[j]) == ToForgejo && pairs[j + 1].github == pairs[j].github
              && (events[j].reply.Updated? ==> TextOf(pairs[j + 1].forgejo) == TextOf(pairs[j].github))
    ensures pairs[j].github == pairs[i].github && pairs[j].forgejo != pairs[i].forgejo ==>
              && Direct(pairs[j]) == ToGitHub
              && (events[j].reply.Updated? ==>
                    pairs[j + 1].forgejo == pairs[j].forgejo && TextOf(pairs[j + 1].github) == TextOf(pairs[j].forgejo))
  {
    assert Happens(pairs[i], events[i], pairs[i + 1]) && Happens(pairs[j], events[j], pairs[j + 1]);
    BaselineStays(pairs, events, i + 1, j);
    if pairs[j].github != pairs[j].forgejo { EditAfterSyncIsCopied(pairs[i], events[i].reply, pairs[j]); }
  }

  /** A baseline written by a run: both sides have its text now, or Forgejo refused it. */
  lemma BaselineOfRun(p: Pair, reply: UpdateReply)
    requires Handled(Direct(p), reply)
    ensures var p1 := After(p, reply);
      || p1.baseline == p.baseline
      || TextOf(p1.github) == TextOf(p1.forgejo) == TextOf(p1.baseline)
      || (Direct(p).ToForgejo? && reply.Locked? && TextOf(p1.baseline) == TextOf(p.github))
  {
  }

  lemma {:induction false} BaselineText(pairs: seq<Pair>, events: seq<Event>, i: nat)
    requires IsHistory(pairs, events) && i < |pairs|
    ensures Agreed(pairs, i, TextOf(pairs[i].baseline)) || RefusedBefore(pairs, events, i, TextOf(pairs[i].baseline))
  {
    if i > 0 {
      BaselineText(pairs, events, i - 1);
      assert Happens(pairs[i - 1], events[i - 1], pairs[i]);
      if events[i - 1].Runs? { BaselineOfRun(pairs[i - 1], events[i - 1].reply); }
    }
  }

  lemma OverwrittenText(p: Pair, reply: UpdateReply)
    requires Handled(Direct(p), reply)
    ensures var p1 := After(p, reply);
      && (TextOf(p1.github) != TextOf(p.github) ==> p.github == p.baseline && TextOf(p1.github) == TextOf(p.forgejo))
      && (TextOf(p1.forgejo) != TextOf(p.forgejo) ==>
            (p.forgejo == p.baseline || reply.CannotReopen?) && TextOf(p1.forgejo) == TextOf(p.github))
  {
  }

  /** All the ways in which a run loses a text that was never agreed on: GitHub loses one that
      Forgejo had refused before, and Forgejo loses one that GitHub could not reopen for, or that
      equals a text it had refused.  Otherwise no edit is lost, in any history. */
  lemma OnlyRefusalsLoseEdits(pairs: seq<Pair>, events: seq<Event>, i: nat)
    requires IsHistory(pairs, events) && i < |events| && events[i].Runs?
    ensures var lost := TextOf(pairs[i].github);
      TextOf(pairs[i + 1].github) != lost ==>
        TextOf(pairs[i + 1].github) == TextOf(pairs[i].forgejo) && (Agreed(pairs, i, lost) || RefusedBefore(pairs, events, i, lost))
    ensures var lost := TextOf(pairs[i].forgejo);
      TextOf(pairs[i + 1].forgejo) != lost ==>
        && TextOf(pairs[i + 1].forgejo) == TextOf(pairs[i].github)
        && (Agreed(pairs, i, lost) || RefusedBefore(pairs, events, i, lost) || events[i].reply.CannotReopen?)
  {
    BaselineText(pairs, events, i);
    assert Happens(pairs[i], events[i], pairs[i + 1]);
    OverwrittenText(pairs[i], events[i].reply);
  }

  /** Without refusals every history keeps what was never agreed on. */
  lemma NoRefusalNoLoss(pairs: seq<Pair>, events: seq<Event>, i: nat)
    requires IsHistory(pairs, events) && i < |events| && events[i].Runs?
    requires forall j :: 0 <= j <= i && events[j].Runs? ==> events[j].reply.Updated?
    ensures TextOf(pairs[i + 1].github) == TextOf(pairs[i].github) || Agreed(pairs, i, TextOf(pairs[i].github))
    ensures TextOf(pairs[i + 1].forgejo) == TextOf(pairs[i].forgejo) || Agreed(pairs, i, TextOf(pairs[i].forgejo))
  {
    OnlyRefusalsLoseEdits(pairs, events, i);
  }

  // ---- coming to rest ----

  /** After an accepted update the pair is in sync if and only if what an update cannot change agrees. */
  lemma UpdateSettlesIff(p: Pair)
    requires Direct(p).ToForgejo? || Direct(p).ToGitHub?
    ensures Direct(After(p, Updated)).InSync? <==> FlagsOf(p.github) == FlagsOf(p.forgejo)
  {
  }

  /** The pair after n runs whose updates are all accepted. */
  function AfterRuns(p: Pair, n: nat): Pair
  {
    if n == 0 then p else After(AfterRuns(p, n - 1), Updated)
  }

  /** Otherwise every later run updates it again, in the other direction than the run before. */
  lemma {:induction false} NeverAtRest(p: Pair, n: nat)
    requires (Direct(p).ToForgejo? || Direct(p).ToGitHub?) && FlagsOf(p.github) != FlagsOf(p.forgejo)
    ensures Direct(AfterRuns(p, n)) == if (n % 2 == 0) == Direct(p).ToForgejo? then ToForgejo else ToGitHub
    ensures FlagsOf(AfterRuns(p, n).github) == FlagsOf(p.github) && FlagsOf(AfterRuns(p, n).forgejo) == FlagsOf(p.forgejo)
  {
    if n > 0 { NeverAtRest(p, n - 1); }
  }
}
