/** Runs of the second leftover loop that lose a given pull request. */
module PullStories {
  import opened Pairing
  import opened Objects
  import opened PullRequests
  import opened PullForges
  import opened PullLosses
  import opened PullDisplacements
  import Forges

  /** Some leftovers settle on the GitHub pull requests that `script` names for them, all others turn out
      to hold no difference.  `maker` creates its target; the others are told that one exists.  Others
      open `early` pull requests before the first reply, `late` also has the created one. */
  datatype Story = Story(script: map<nat, Id>, maker: Option<nat>, start: Listing, early: Listing, late: Listing)

  function SnapshotOf(s: Story, t: nat): Listing
  {
    if t == 0 then s.start else if s.maker.Some? && t > s.maker.value then s.late else s.early
  }

  ghost function AnswerOf(c: Loop, s: Story, t: nat): GitHubAnswer
    requires WellFormed(c) && t < |c.leftover|
  {
    if t !in s.script || s.script[t] !in s.late then NoDifference
    else if s.maker == Some(t) then Created(s.script[t], s.late[s.script[t]].digest)
    else if Fit(c, t) == Some(s.script[t]) && s.script[t] in c.listed then Existing(s.script[t], c.listed[s.script[t]].digest)
    else Existing(s.script[t], s.late[s.script[t]].digest)
  }

  function ReplyOf(s: Story, t: nat): CreateReply
  {
    if t !in s.script || s.script[t] !in s.late then NoCommits
    else if s.maker == Some(t) then Made(s.script[t], s.late[s.script[t]])
    else AlreadyExists
  }

  ghost function Snapshots(c: Loop, s: Story): seq<Listing>
  {
    seq(|c.leftover| + 1, t requires 0 <= t => SnapshotOf(s, t))
  }

  ghost function Answers(c: Loop, s: Story): seq<GitHubAnswer>
    requires WellFormed(c)
  {
    seq(|c.leftover|, t requires 0 <= t < |c.leftover| => AnswerOf(c, s, t))
  }

  ghost function Replies(c: Loop, s: Story): seq<CreateReply>
  {
    seq(|c.leftover|, t requires 0 <= t => ReplyOf(s, t))
  }

  ghost predicate Extended(pulls: Listing, pulls': Listing)
  {
    forall x :: x in pulls ==> x in pulls' && pulls'[x] == pulls[x]
  }

  /** The story can happen on GitHub. */
  ghost predicate Happens(c: Loop, b: Books, s: Story)
    requires WellFormed(c)
  {
    && KnowsListing(s.start, c.listed) && Extended(s.start, s.early) && Extended(s.early, s.late)
    && (forall x :: x in s.late && x !in s.start ==> x !in b.rows)
    && (s.maker.None? ==> s.late == s.early)
    && (forall t: nat :: t in s.script ==> t < |c.leftover| && HappensAt(c, s, t))
    && (forall t: nat :: s.maker == Some(t) ==> t in s.script)
  }

  ghost predicate HappensAt(c: Loop, s: Story, t: nat)
    requires WellFormed(c) && t < |c.leftover| && t in s.script
  {
    var x := s.script[t];
    && x !in c.consumed && x in s.late
    && if s.maker == Some(t) then x !in s.early && SameRefs(s.late[x].digest, Item(c, t))
       else
         && Spans(s.early, Item(c, t))
         && (Fit(c, t) == Some(x)
             || (Fit(c, t).None? && x in SnapshotOf(s, t + 1) && s.late[x].digest.head == Item(c, t).head))
  }

  lemma StoryFitsAt(c: Loop, b: Books, s: Story, t: nat)
    requires WellFormed(c) && Happens(c, b, s) && t < |c.leftover|
    ensures FitsAt(c, t, SnapshotOf(s, t), SnapshotOf(s, t + 1), ReplyOf(s, t), AnswerOf(c, s, t))
  {
    hide FirstFit, Spans;
    AdoptedIsListed(c.order, c.listed, Item(c, t), c.consumed, false, c.normalize);
    if t in s.script {
      assert HappensAt(c, s, t);
      if s.maker != Some(t) { SpansStill(s.early, SnapshotOf(s, t + 1), Item(c, t)); }
    }
  }

  lemma SpansStill(pulls: Listing, pulls': Listing, item: Digest)
    requires Spans(pulls, item) && Extended(pulls, pulls')
    ensures Spans(pulls', item)
  {
    var x :| x in pulls && SameRefs(pulls[x].digest, item);
    assert SameRefs(pulls'[x].digest, item);
  }

  lemma StoryIsRun(c: Loop, b: Books, s: Story)
    requires WellFormed(c) && Happens(c, b, s)
    ensures FittingRun(c, Snapshots(c, s), Replies(c, s), Answers(c, s)) && NewIds(b, Snapshots(c, s)) && Snapshots(c, s)[0] == s.start
  {
    hide FitsAt, HappensAt;
    forall t: nat | t < |c.leftover|
      ensures FitsAt(c, t, Snapshots(c, s)[t], Snapshots(c, s)[t + 1], Replies(c, s)[t], Answers(c, s)[t])
    {
      StoryFitsAt(c, b, s, t);
    }
  }

  // ---- the books along a story ----

  /** The rows if every turn of the script succeeds. */
  ghost function RowsAt(c: Loop, b: Books, s: Story, t: nat): map<Id, PullRow>
    requires WellFormed(c) && t <= |c.leftover|
  {
    if t == 0 then b.rows
    else
      var rows, answer := RowsAt(c, b, s, t - 1), AnswerOf(c, s, t - 1);
      if answer.NoDifference? then rows else rows[answer.id := PullRow(c.leftover[t - 1], answer.digest)]
  }

  /** Where the m-th leftover is: in the row in which it started, if nobody took that, or in the row of
      its own target, if nobody took that later. */
  ghost predicate WhereIs(c: Loop, b: Books, s: Story, m: nat, t: nat, y: Id)
    requires WellFormed(c) && m < |c.leftover|
  {
    || (RowOf(b, c.leftover[m], y) && forall a: nat :: a in s.script && a < t ==> s.script[a] != y)
    || (m < t && m in s.script && s.script[m] == y && forall a: nat :: a in s.script && m < a < t ==> s.script[a] != y)
  }

  lemma ScriptedAnswer(c: Loop, b: Books, s: Story, a: nat)
    requires WellFormed(c) && Happens(c, b, s) && a < |c.leftover|
    ensures if a in s.script then !AnswerOf(c, s, a).NoDifference? && AnswerOf(c, s, a).id == s.script[a] else AnswerOf(c, s, a).NoDifference?
  {
    hide Fit;
    if a in s.script { assert HappensAt(c, s, a); }
  }

  lemma {:induction false} StoryRows(c: Loop, b: Books, s: Story, m: nat, t: nat, y: Id)
    requires WellFormed(c) && Happens(c, b, s) && m < |c.leftover| && t <= |c.leftover|
    requires y in RowsAt(c, b, s, t) && RowsAt(c, b, s, t)[y].forgejo == c.leftover[m]
    ensures WhereIs(c, b, s, m, t, y)
    decreases t
  {
    hide Happens, AnswerOf;
    if t > 0 {
      var a := t - 1;
      ScriptedAnswer(c, b, s, a);
      if a in s.script && s.script[a] == y {
        assert c.leftover[a] == c.leftover[m];
      } else {
        StoryRows(c, b, s, m, t - 1, y);
      }
    }
  }

  /** Nobody in the script is held back by another row when its turn comes. */
  ghost predicate Free(c: Loop, b: Books, s: Story)
    requires WellFormed(c)
  {
    forall a: nat, y: Id :: a in s.script && a < |c.leftover| && RowOf(b, c.leftover[a], y) && y != s.script[a] ==>
      exists k: nat :: k in s.script && k < a && s.script[k] == y
  }

  lemma TurnIsFree(c: Loop, b: Books, s: Story, a: nat)
    requires WellFormed(c) && Happens(c, b, s) && Free(c, b, s) && a in s.script && a < |c.leftover|
    ensures !Taken(RowsAt(c, b, s, a), s.script[a], c.leftover[a])
  {
    hide RowsAt, Happens;
    var rows := RowsAt(c, b, s, a);
    if x :| x in rows && x != s.script[a] && rows[x].forgejo == c.leftover[a] {
      StoryRows(c, b, s, a, a, x);
      assert RowOf(b, c.leftover[a], x);
    }
  }

  /** The books follow the script, and no conflict names anyone in it. */
  ghost predicate Follows(c: Loop, b: Books, s: Story, b': Books, t: nat)
    requires WellFormed(c) && t <= |c.leftover|
  {
    && b'.rows == RowsAt(c, b, s, t)
    && forall x, a: nat :: x in b'.conflicts && x !in b.conflicts && a in s.script && a < |c.leftover| ==> x.forgejo != Some(c.leftover[a])
  }

  lemma {:induction false} StoryBooks(c: Loop, b: Books, s: Story, t: nat)
    requires WellFormed(c) && Happens(c, b, s) && Free(c, b, s) && t <= |c.leftover|
    ensures Follows(c, b, s, BooksAfter(c, b, Answers(c, s), t), t)
    decreases t
  {
    hide BooksAfter, Happens, Free, Taken;
    if t == 0 {
      BooksStart(c, b, Answers(c, s));
    } else {
      StoryBooks(c, b, s, t - 1);
      BooksStep(c, b, Answers(c, s), t - 1);
      StoryTurn(c, b, s, BooksAfter(c, b, Answers(c, s), t - 1), t - 1);
    }
  }

  lemma StoryTurn(c: Loop, b: Books, s: Story, b1: Books, k: nat)
    requires WellFormed(c) && Happens(c, b, s) && Free(c, b, s) && k < |c.leftover| && Follows(c, b, s, b1, k)
    ensures Follows(c, b, s, LandForgejo(b1, c.consumed, c.leftover[k], Item(c, k), AnswerOf(c, s, k)), k + 1)
  {
    hide LandForgejo, AnswerOf, Taken, Happens, Free;
    ScriptedAnswer(c, b, s, k);
    if k in s.script {
      TurnIsFree(c, b, s, k);
      TargetIsFree(c, b, s, k);
      FreeLanding(b1, c.consumed, c.leftover[k], Item(c, k), AnswerOf(c, s, k));
    } else {
      NoLanding(b1, c.consumed, c.leftover[k], Item(c, k));
      forall a: nat | a in s.script && a < |c.leftover| ensures c.leftover[a] != c.leftover[k] {}
    }
  }

  lemma TargetIsFree(c: Loop, b: Books, s: Story, k: nat)
    requires WellFormed(c) && Happens(c, b, s) && k in s.script
    ensures s.script[k] !in c.consumed
  {
    hide Fit;
    assert HappensAt(c, s, k);
  }

  lemma FreeLanding(b: Books, consumed: set<Id>, f: Id, item: Digest, answer: GitHubAnswer)
    requires !answer.NoDifference? && answer.id !in consumed && !Taken(b.rows, answer.id, f)
    ensures LandForgejo(b, consumed, f, item, answer) == b.(rows := b.rows[answer.id := PullRow(f, answer.digest)])
  {
    hide Taken;
  }

  lemma NoLanding(b: Books, consumed: set<Id>, f: Id, item: Digest)
    ensures LandForgejo(b, consumed, f, item, NoDifference).rows == b.rows
    ensures forall x :: x in LandForgejo(b, consumed, f, item, NoDifference).conflicts && x !in b.conflicts ==> x.forgejo == Some(f)
  {
  }

  /** In the end i is nowhere, if somebody took its row after its turn. */
  lemma StoryLoses(c: Loop, b: Books, s: Story, i: nat, j: nat)
    requires WellFormed(c) && Happens(c, b, s) && Free(c, b, s) && i < j < |c.leftover| && i in s.script && j in s.script
    requires s.script[i] == s.script[j] && !NamesForgejo(b, c.leftover[i])
    ensures CanBeLost(c, b, s.start, i)
  {
    hide Happens, Free, FittingRun, BooksAfter, RowsAt, NewIds;
    var n := |c.leftover|;
    var b' := BooksAfter(c, b, Answers(c, s), n);
    StoryIsRun(c, b, s);
    StoryBooks(c, b, s, n);
    NowhereInTheEnd(c, b, s, i, j);
    assert Loses(c, b, s.start, i, Snapshots(c, s), Replies(c, s), Answers(c, s));
  }

  lemma NowhereInTheEnd(c: Loop, b: Books, s: Story, i: nat, j: nat)
    requires WellFormed(c) && Happens(c, b, s) && Free(c, b, s) && i < j < |c.leftover| && i in s.script && j in s.script
    requires s.script[i] == s.script[j]
    ensures forall y :: y in RowsAt(c, b, s, |c.leftover|) ==> RowsAt(c, b, s, |c.leftover|)[y].forgejo != c.leftover[i]
  {
    hide Happens, RowsAt;
    var n := |c.leftover|;
    forall y | y in RowsAt(c, b, s, n) ensures RowsAt(c, b, s, n)[y].forgejo != c.leftover[i] {
      if RowsAt(c, b, s, n)[y].forgejo == c.leftover[i] {
        StoryRows(c, b, s, i, n, y);
      }
    }
  }

  // ---- a story for every price ----

  /** Others may open pull requests for all refs of the leftovers, under new ids. */
  lemma {:induction false} SpanAll(c: Loop, b: Books, start: Listing, n: nat) returns (early: Listing)
    requires WellFormed(c) && n <= |c.leftover|
    ensures Extended(start, early) && (forall x :: x in early && x !in start ==> x !in b.rows)
    ensures forall t: nat :: t < n ==> Spans(early, Item(c, t))
  {
    if n == 0 {
      early := start;
    } else {
      var before := SpanAll(c, b, start, n - 1);
      var x := Forges.NatAbove(before.Keys + b.rows.Keys);
      assert x !in before.Keys + b.rows.Keys;
      early := before[x := c.items[c.leftover[n - 1]]];
      assert SameRefs(early[x].digest, Item(c, n - 1));
      forall t: nat | t < n - 1 ensures Spans(early, Item(c, t)) { SpansStill(before, early, Item(c, t)); }
    }
  }

  /** The row that holds the m-th leftover back, and an earlier wild leftover to take it. */
  ghost predicate Helps(c: Loop, b: Books, start: Listing, i: nat, m: nat, g: Option<Id>, help: map<nat, Id>)
    requires WellFormed(c) && i < |c.leftover| && m < |c.leftover|
  {
    && (forall k: nat :: k in help ==> k in WildBefore(c, b, i) && help[k] in start && RowOf(b, c.leftover[m], help[k]) && g != Some(help[k]))
    && (forall y: Id :: RowOf(b, c.leftover[m], y) && g != Some(y) ==> exists k: nat :: k in help && help[k] == y)
  }

  lemma OneHelps(c: Loop, b: Books, start: Listing, i: nat, m: nat, g: Option<Id>, n: nat, some: set<nat>) returns (help: map<nat, Id>)
    requires WellFormed(c) && Consistent(c, b, start) && i < |c.leftover| && m < |c.leftover|
    requires Costs(c, b, start, m, g, n) && n <= |some| && some <= WildBefore(c, b, i)
    ensures Helps(c, b, start, i, m, g, help) && help.Keys <= some && |help.Keys| == n
  {
    hide WildBefore, Fit;
    if n == 0 {
      help := map[];
    } else {
      var y: Id :| RowOf(b, c.leftover[m], y) && g != Some(y) && y in start;
      assert some != {};
      var k :| k in some;
      help := map[k := y];
      assert help.Keys == {k};
      assert k in help && help[k] == y;
    }
  }

  lemma RemainingHelpers(all: set<nat>, used: set<nat>, n: nat, m: nat)
    requires used <= all && |used| == n && n + m <= |all|
    ensures m <= |all - used|
  {
    assert all == used + (all - used);
  }

  lemma WriteStory(c: Loop, b: Books, start: Listing, i: nat, j: nat, g: Option<Id>, first: map<nat, Id>, second: map<nat, Id>) returns (s: Story)
    requires WellFormed(c) && i < j < |c.leftover|
    ensures s.start == start && IsStory(c, b, s, i, j, g, first, second)
  {
    hide Spans;
    var early := SpanAll(c, b, start, |c.leftover|);
    var id := Forges.NatAbove(early.Keys + b.rows.Keys);
    assert id !in early.Keys + b.rows.Keys;
    var x := if g.Some? then g.value else id;
    var late := if g.Some? then early else early[id := c.items[c.leftover[i]]];
    s := Story((first + second)[i := x][j := x], if g.Some? then None else Some(i), start, early, late);
  }

  lemma SameTarget(c: Loop, b: Books, s: Story, i: nat, j: nat, g: Option<Id>, first: map<nat, Id>, second: map<nat, Id>)
    requires WellFormed(c) && i < |c.leftover| && j < |c.leftover| && IsStory(c, b, s, i, j, g, first, second)
    ensures i in s.script && j in s.script && s.script[i] == s.script[j]
    ensures forall t: nat :: t in s.script ==> t == i || t == j || t in first || t in second
    ensures forall y: Id :: g == Some(y) ==> s.script[i] == y
  {
    hide Spans;
  }

  lemma ScriptOfHelpers(c: Loop, b: Books, s: Story, i: nat, j: nat, g: Option<Id>, first: map<nat, Id>, second: map<nat, Id>)
    requires WellFormed(c) && i < |c.leftover| && j < |c.leftover| && IsStory(c, b, s, i, j, g, first, second) && first.Keys !! second.Keys
    requires i < j && forall k :: (k in first || k in second) ==> k < i
    ensures forall k: nat :: k in first ==> k in s.script && s.script[k] == first[k]
    ensures forall k: nat :: k in second ==> k in s.script && s.script[k] == second[k]
  {
    hide Spans;
  }

  /** With the price paid there is a story in which i is lost to j. */
  lemma LosesToIsLost(c: Loop, b: Books, start: Listing, i: nat, j: nat)
    requires WellFormed(c) && Consistent(c, b, start) && i < j < |c.leftover| && LosesTo(c, b, start, i, j)
    requires !NamesForgejo(b, c.leftover[i])
    ensures CanBeLost(c, b, start, i)
  {
    hide WildBefore, Fit, Shares, Costs, Consistent, Happens, Free, CanBeLost, Helps, IsStory, NamesForgejo;
    var g, n: nat, m: nat :| Shares(c, start, i, j, g) && Costs(c, b, start, i, g, n) && Costs(c, b, start, j, g, m)
      && n + m <= |WildBefore(c, b, i)|;
    var first := OneHelps(c, b, start, i, i, g, n, WildBefore(c, b, i));
    RemainingHelpers(WildBefore(c, b, i), first.Keys, n, m);
    var second := OneHelps(c, b, start, i, j, g, m, WildBefore(c, b, i) - first.Keys);
    var s := WriteStory(c, b, start, i, j, g, first, second);
    StoryHappens(c, b, s, i, j, g, first, second);
    StoryIsFree(c, b, s, i, j, g, first, second);
    SameTarget(c, b, s, i, j, g, first, second);
    StoryLoses(c, b, s, i, j);
  }

  ghost predicate IsStory(c: Loop, b: Books, s: Story, i: nat, j: nat, g: Option<Id>, first: map<nat, Id>, second: map<nat, Id>)
    requires WellFormed(c) && i < |c.leftover| && j < |c.leftover|
  {
    && i in s.script && j in s.script && s.script[i] == s.script[j] && s.script == (first + second)[i := s.script[i]][j := s.script[i]]
    && Extended(s.start, s.early) && (forall y :: y in s.early && y !in s.start ==> y !in b.rows)
    && (forall t: nat :: t < |c.leftover| ==> Spans(s.early, Item(c, t)))
    && match g
       case Some(x) => s.script[i] == x && s.maker.None? && s.late == s.early
       case None =>
         && s.maker == Some(i) && s.script[i] !in s.early && s.script[i] !in b.rows
         && s.late == s.early[s.script[i] := c.items[c.leftover[i]]]
  }

  lemma HelperHappens(c: Loop, b: Books, s: Story, i: nat, m: nat, g: Option<Id>, help: map<nat, Id>, k: nat)
    requires WellFormed(c) && Consistent(c, b, s.start) && i < |c.leftover| && m < |c.leftover| && Helps(c, b, s.start, i, m, g, help)
    requires Item(c, i).head == Item(c, m).head && k in help && k in s.script && s.script[k] == help[k]
    requires Extended(s.start, s.early) && Extended(s.early, s.late) && forall t: nat :: t < |c.leftover| ==> Spans(s.early, Item(c, t))
    requires s.maker.Some? ==> s.maker.value == i
    ensures k < i && HappensAt(c, s, k) && InNoRow(b, c.leftover[k])
  {
    hide Fit, Spans;
    assert RowOf(b, c.leftover[m], help[k]);
    assert help[k] in s.start && help[k] in s.early && help[k] in s.late;
  }

  lemma MainHappens(c: Loop, b: Books, s: Story, i: nat, j: nat, g: Option<Id>, first: map<nat, Id>, second: map<nat, Id>)
    requires WellFormed(c) && Consistent(c, b, s.start) && i < j < |c.leftover| && Shares(c, s.start, i, j, g)
    requires IsStory(c, b, s, i, j, g, first, second)
    ensures HappensAt(c, s, i) && HappensAt(c, s, j) && Extended(s.early, s.late)
    ensures forall x :: x in s.late && x !in s.start ==> x !in b.rows
  {
    hide FirstFit, Spans;
    AdoptedIsListed(c.order, c.listed, Item(c, i), c.consumed, false, c.normalize);
    AdoptedIsListed(c.order, c.listed, Item(c, j), c.consumed, false, c.normalize);
    assert forall x :: x in c.consumed ==> x in c.listed && x in s.start && x in s.early;
  }

  lemma StoryHappens(c: Loop, b: Books, s: Story, i: nat, j: nat, g: Option<Id>, first: map<nat, Id>, second: map<nat, Id>)
    requires WellFormed(c) && Consistent(c, b, s.start) && i < j < |c.leftover| && Shares(c, s.start, i, j, g)
    requires IsStory(c, b, s, i, j, g, first, second) && first.Keys !! second.Keys
    requires Helps(c, b, s.start, i, i, g, first) && Helps(c, b, s.start, i, j, g, second)
    ensures Happens(c, b, s)
  {
    hide Fit, Spans, HappensAt, Helps, Extended;
    MainHappens(c, b, s, i, j, g, first, second);
    StartIsKnown(c, b, s.start);
    SharedHead(c, s.start, i, j, g);
    hide Consistent, Shares;
    HelpersAreBefore(c, b, s.start, i, i, g, first);
    HelpersAreBefore(c, b, s.start, i, j, g, second);
    forall t: nat | t in s.script ensures t < |c.leftover| && HappensAt(c, s, t) {
      if t != i && t != j {
        if t in first { HelperHappens(c, b, s, i, i, g, first, t); } else { HelperHappens(c, b, s, i, j, g, second, t); }
      }
    }
  }

  lemma StartIsKnown(c: Loop, b: Books, start: Listing)
    requires WellFormed(c) && Consistent(c, b, start)
    ensures KnowsListing(start, c.listed)
  {
  }

  lemma SharedHead(c: Loop, start: Listing, i: nat, j: nat, g: Option<Id>)
    requires WellFormed(c) && i < |c.leftover| && j < |c.leftover| && Shares(c, start, i, j, g)
    ensures Item(c, i).head == Item(c, j).head
  {
  }

  lemma HelpersAreBefore(c: Loop, b: Books, start: Listing, i: nat, m: nat, g: Option<Id>, help: map<nat, Id>)
    requires WellFormed(c) && i < |c.leftover| && m < |c.leftover| && Helps(c, b, start, i, m, g, help)
    ensures forall k :: k in help ==> k < i && InNoRow(b, c.leftover[k])
  {
    hide Fit;
  }

  /** Its helper takes the row that holds the m-th leftover back. */
  lemma HelperTakes(c: Loop, b: Books, start: Listing, s: Story, i: nat, m: nat, g: Option<Id>, help: map<nat, Id>, y: Id)
    requires WellFormed(c) && i < |c.leftover| && m < |c.leftover| && Helps(c, b, start, i, m, g, help)
    requires forall k: nat :: k in help ==> k < i && k in s.script && s.script[k] == help[k]
    requires RowOf(b, c.leftover[m], y) && g != Some(y)
    ensures exists k: nat :: k in s.script && k < i && s.script[k] == y
  {
    hide WildBefore;
    var k: nat :| k in help && help[k] == y;
    assert k in s.script;
  }

  lemma StoryIsFree(c: Loop, b: Books, s: Story, i: nat, j: nat, g: Option<Id>, first: map<nat, Id>, second: map<nat, Id>)
    requires WellFormed(c) && i < j < |c.leftover| && IsStory(c, b, s, i, j, g, first, second) && first.Keys !! second.Keys
    requires Helps(c, b, s.start, i, i, g, first) && Helps(c, b, s.start, i, j, g, second)
    ensures Free(c, b, s)
  {
    hide Fit, WildBefore, Helps, IsStory;
    HelpersAreBefore(c, b, s.start, i, i, g, first);
    HelpersAreBefore(c, b, s.start, i, j, g, second);
    SameTarget(c, b, s, i, j, g, first, second);
    ScriptOfHelpers(c, b, s, i, j, g, first, second);
    forall a: nat, y: Id | a in s.script && a < |c.leftover| && RowOf(b, c.leftover[a], y) && y != s.script[a]
      ensures exists k: nat :: k in s.script && k < a && s.script[k] == y
    {
      if a == i {
        HelperTakes(c, b, s.start, s, i, i, g, first, y);
      } else if a == j {
        HelperTakes(c, b, s.start, s, i, j, g, second, y);
      }
    }
  }

  // ---- the exact condition ----

  /** A Forgejo leftover that no conflict names when the loop starts can be lost if and only if it loses
      to a later one: there is a pull request on which both can settle, one that GitHub has or one that
      the first creates, and for each of the two that is in another row there is an earlier leftover,
      in no row and without listed counterpart, to take that row away. */
  lemma LostIff(c: Loop, b: Books, start: Listing, i: nat)
    requires WellFormed(c) && Consistent(c, b, start) && i < |c.leftover| && !NamesForgejo(b, c.leftover[i])
    ensures CanBeLost(c, b, start, i) <==> exists j: nat :: i < j < |c.leftover| && LosesTo(c, b, start, i, j)
  {
    hide Loses, LosesTo, Consistent, NamesForgejo;
    if j: nat :| i < j < |c.leftover| && LosesTo(c, b, start, i, j) {
      LosesToIsLost(c, b, start, i, j);
    } else if pulls, replies, answers :| Loses(c, b, start, i, pulls, replies, answers) {
      var k := LostLoses(c, b, start, pulls, replies, answers, i);
    }
  }

  /** For leftovers in no row the condition is that they are not apart. */
  lemma UnmappedLosesIff(c: Loop, b: Books, start: Listing, i: nat, j: nat)
    requires WellFormed(c) && Consistent(c, b, start) && i < j < |c.leftover| && InNoRow(b, c.leftover[i]) && InNoRow(b, c.leftover[j])
    ensures LosesTo(c, b, start, i, j) <==> !Apart(c, i, j)
  {
    hide FirstFit, WildBefore;
    AdoptedIsListed(c.order, c.listed, Item(c, i), c.consumed, false, c.normalize);
    AdoptedIsListed(c.order, c.listed, Item(c, j), c.consumed, false, c.normalize);
    if !Apart(c, i, j) {
      var g := if Fit(c, i).Some? then Fit(c, i) else Fit(c, j);
      assert Shares(c, start, i, j, g);
      assert Costs(c, b, start, i, g, 0) && Costs(c, b, start, j, g, 0);
    }
  }

  /** With no leftover in a row, none that no conflict names can be lost exactly when each of them
      and any later one with its head ref have different listed counterparts. */
  lemma NoneLostIff(c: Loop, b: Books, start: Listing)
    requires WellFormed(c) && Consistent(c, b, start) && forall f :: f in c.leftover ==> InNoRow(b, f)
    ensures (forall i :: 0 <= i < |c.leftover| && !NamesForgejo(b, c.leftover[i]) ==> !CanBeLost(c, b, start, i))
            <==> (forall i :: 0 <= i < |c.leftover| && !NamesForgejo(b, c.leftover[i]) ==> ApartFromLater(c, i))
  {
    hide CanBeLost, LosesTo, Apart, NamesForgejo, Consistent, InNoRow;
    forall i | 0 <= i < |c.leftover| && !NamesForgejo(b, c.leftover[i])
      ensures CanBeLost(c, b, start, i) <==> !ApartFromLater(c, i)
    {
      LostIff(c, b, start, i);
      forall j: nat | i < j < |c.leftover| { UnmappedLosesIff(c, b, start, i, j); }
    }
  }
}
