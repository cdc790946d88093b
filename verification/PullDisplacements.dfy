/** When exactly the second leftover loop of a pull request run loses a Forgejo pull request.

    A leftover settles on a GitHub pull request and gets its row.  It is lost if a
    later one settles on the same: nothing marks it as consumed.  A leftover may be
    in a row already when the loop starts, when a leftover of GitHub adopted it or
    when its partner is no longer listed; such a row holds it back from another one,
    unless an earlier leftover takes that row first. */
module PullDisplacements {
  import opened Pairing
  import opened Objects
  import opened PullRequests
  import opened PullForges
  import opened PullLosses
  import Forges

  ghost predicate InNoRow(b: Books, f: Id)
  {
    forall g :: g in b.rows ==> b.rows[g].forgejo != f
  }

  ghost predicate RowOf(b: Books, f: Id, x: Id)
  {
    x in b.rows && b.rows[x].forgejo == f
  }

  /** What holds of the books when the loop starts: rows are unique by both ids, and the partner of a
      leftover is not consumed and has its head ref, and its base ref too if it is listed. */
  ghost predicate Consistent(c: Loop, b: Books, start: Listing)
    requires WellFormed(c)
  {
    && KnowsListing(start, c.listed) && UniquePulls(b.rows)
    && forall m: nat, x :: m < |c.leftover| && RowOf(b, c.leftover[m], x) ==>
         && x !in c.consumed && (x in start ==> start[x].digest.head == Item(c, m).head)
         && (x in c.listed ==> SameRefs(c.listed[x].digest, Item(c, m)))
  }

  /** On what the m-th leftover can settle, of the pull requests that GitHub has at the start. */
  ghost predicate CanTarget(c: Loop, start: Listing, m: nat, x: Id)
    requires WellFormed(c) && m < |c.leftover|
  {
    x !in c.consumed && (Fit(c, m) == Some(x) || (Fit(c, m).None? && x in start && start[x].digest.head == Item(c, m).head))
  }

  /** Both can settle on g, where `None` stands for a pull request that the earlier one creates. */
  ghost predicate Shares(c: Loop, start: Listing, i: nat, j: nat, g: Option<Id>)
    requires WellFormed(c) && i < |c.leftover| && j < |c.leftover|
  {
    && Item(c, i).head == Item(c, j).head
    && match g
       case Some(x) => CanTarget(c, start, i, x) && CanTarget(c, start, j, x)
       case None => Fit(c, j).None?
  }

  /** A leftover in no row, with no listed counterpart: it can settle on any pull request of its head ref. */
  ghost predicate Wild(c: Loop, b: Books, k: nat, head: string)
    requires WellFormed(c)
  {
    k < |c.leftover| && InNoRow(b, c.leftover[k]) && Fit(c, k).None? && Item(c, k).head == head
  }

  ghost function WildBefore(c: Loop, b: Books, i: nat): set<nat>
    requires WellFormed(c) && i < |c.leftover|
  {
    set k: nat | k < i && Wild(c, b, k, Item(c, i).head)
  }

  /** How many earlier leftovers it takes to free the m-th one from a row other than g's. */
  ghost predicate Costs(c: Loop, b: Books, start: Listing, m: nat, g: Option<Id>, n: nat)
    requires WellFormed(c) && m < |c.leftover|
  {
    || (n == 0 && forall x: Id :: RowOf(b, c.leftover[m], x) ==> g == Some(x))
    || (n == 1 && exists x: Id :: RowOf(b, c.leftover[m], x) && g != Some(x) && x in start)
  }

  /** There is a pull request on which first i and then j can settle, and enough earlier leftovers to
      free both of them for it. */
  ghost predicate LosesTo(c: Loop, b: Books, start: Listing, i: nat, j: nat)
    requires WellFormed(c) && i < |c.leftover| && j < |c.leftover|
  {
    exists g, n: nat, m: nat ::
      Shares(c, start, i, j, g) && Costs(c, b, start, i, g, n) && Costs(c, b, start, j, g, m) && n + m <= |WildBefore(c, b, i)|
  }

  /** GitHub never gives an id twice. */
  ghost predicate NewIds(b: Books, pulls: seq<Listing>)
  {
    |pulls| > 0 && forall k, x :: 0 <= k < |pulls| && x in pulls[k] && x !in pulls[0] ==> x !in b.rows
  }

  ghost predicate Loses(c: Loop, b: Books, start: Listing, i: nat, pulls: seq<Listing>, replies: seq<CreateReply>, answers: seq<GitHubAnswer>)
    requires WellFormed(c) && i < |c.leftover|
  {
    && FittingRun(c, pulls, replies, answers) && NewIds(b, pulls) && pulls[0] == start
    && !ForgejoAccounted(BooksAfter(c, b, answers, |c.leftover|), c.leftover[i])
  }

  /** Some fitting run loses the i-th leftover. */
  ghost predicate CanBeLost(c: Loop, b: Books, start: Listing, i: nat)
    requires WellFormed(c) && i < |c.leftover|
  {
    exists pulls, replies, answers :: Loses(c, b, start, i, pulls, replies, answers)
  }

  // ---- turns ----

  /** At its turn the k-th leftover gets the row of x. */
  ghost predicate Took(c: Loop, b: Books, answers: seq<GitHubAnswer>, k: nat, x: Id)
    requires WellFormed(c) && k < |c.leftover| == |answers|
  {
    x in Target(answers[k]) && x !in c.consumed && !Taken(BooksAfter(c, b, answers, k).rows, x, c.leftover[k])
  }

  lemma LandingRows(b: Books, consumed: set<Id>, f: Id, item: Digest, answer: GitHubAnswer)
    requires answer.Created? ==> answer.id !in consumed
    ensures var b' := LandForgejo(b, consumed, f, item, answer);
      if exists x :: x in Target(answer) && x !in consumed && !Taken(b.rows, x, f)
      then b'.rows == b.rows[answer.id := PullRow(f, answer.digest)]
      else b'.rows == b.rows
  {
  }

  lemma TurnRows(c: Loop, b: Books, answers: seq<GitHubAnswer>, k: nat)
    requires WellFormed(c) && k < |c.leftover| == |answers| && (answers[k].Created? ==> answers[k].id !in c.consumed)
    ensures forall f, y :: RowOf(BooksAfter(c, b, answers, k + 1), f, y) ==>
              RowOf(BooksAfter(c, b, answers, k), f, y) || (f == c.leftover[k] && Took(c, b, answers, k, y))
    ensures forall f, y :: RowOf(BooksAfter(c, b, answers, k), f, y) && !RowOf(BooksAfter(c, b, answers, k + 1), f, y) ==>
              Took(c, b, answers, k, y)
    ensures forall y :: Took(c, b, answers, k, y) ==> RowOf(BooksAfter(c, b, answers, k + 1), c.leftover[k], y)
  {
    hide BooksAfter, LandForgejo, Taken;
    BooksStep(c, b, answers, k);
    LandingRows(BooksAfter(c, b, answers, k), c.consumed, c.leftover[k], Item(c, k), answers[k]);
  }

  ghost predicate CreatedAreNew(c: Loop, answers: seq<GitHubAnswer>)
  {
    |c.leftover| == |answers| && forall k :: 0 <= k < |answers| && answers[k].Created? ==> answers[k].id !in c.consumed
  }

  lemma CreatedAreNotConsumed(c: Loop, pulls: seq<Listing>, replies: seq<CreateReply>, answers: seq<GitHubAnswer>)
    requires WellFormed(c) && FittingRun(c, pulls, replies, answers)
    ensures CreatedAreNew(c, answers)
  {
    hide FirstFit;
    forall k | 0 <= k < |answers| && answers[k].Created? ensures answers[k].id !in c.consumed {
      assert FitsAt(c, k, pulls[k], pulls[k + 1], replies[k], answers[k]);
      assert answers[k].id in Target(answers[k]);
      TargetHasHead(c, pulls, replies, answers, k, answers[k].id);
    }
  }

  /** Before its own turn a leftover is in no row but the one it started in. */
  lemma {:induction false} RowsBeforeTurn(c: Loop, b: Books, answers: seq<GitHubAnswer>, m: nat, t: nat, y: Id)
    requires WellFormed(c) && CreatedAreNew(c, answers) && t <= m < |c.leftover|
    requires RowOf(BooksAfter(c, b, answers, t), c.leftover[m], y)
    ensures RowOf(b, c.leftover[m], y)
    decreases t
  {
    hide BooksAfter, Taken;
    if t == 0 {
      BooksStart(c, b, answers);
    } else {
      TurnRows(c, b, answers, t - 1);
      RowsBeforeTurn(c, b, answers, m, t - 1, y);
    }
  }

  lemma BooksStart(c: Loop, b: Books, answers: seq<GitHubAnswer>)
    requires WellFormed(c) && |c.leftover| == |answers|
    ensures BooksAfter(c, b, answers, 0) == b
  {
  }

  /** A row changes hands only at the turn of the leftover that gets it. */
  lemma {:induction false} RowGone(c: Loop, b: Books, answers: seq<GitHubAnswer>, f: Id, y: Id, t0: nat, t: nat) returns (k: nat)
    requires WellFormed(c) && CreatedAreNew(c, answers) && t0 <= t <= |c.leftover|
    requires RowOf(BooksAfter(c, b, answers, t0), f, y) && !RowOf(BooksAfter(c, b, answers, t), f, y)
    ensures t0 <= k < t && Took(c, b, answers, k, y)
    decreases t
  {
    hide BooksAfter, Taken;
    TurnRows(c, b, answers, t - 1);
    if RowOf(BooksAfter(c, b, answers, t - 1), f, y) {
      k := t - 1;
    } else {
      k := RowGone(c, b, answers, f, y, t0, t - 1);
    }
  }

  lemma {:induction false} ConflictsStay(c: Loop, b: Books, answers: seq<GitHubAnswer>, t0: nat, t: nat)
    requires WellFormed(c) && |c.leftover| == |answers| && t0 <= t <= |c.leftover|
    ensures BooksAfter(c, b, answers, t0).conflicts <= BooksAfter(c, b, answers, t).conflicts
    decreases t
  {
    if t0 < t {
      ConflictsStay(c, b, answers, t0, t - 1);
      BooksStep(c, b, answers, t - 1);
    }
  }

  /** A leftover that is lost got a row at its turn, and a later one took it. */
  lemma LostIsTaken(c: Loop, b: Books, answers: seq<GitHubAnswer>, i: nat) returns (g: Id, j: nat)
    requires WellFormed(c) && CreatedAreNew(c, answers) && i < |c.leftover|
    requires !ForgejoAccounted(BooksAfter(c, b, answers, |c.leftover|), c.leftover[i])
    ensures i < j < |c.leftover| && Took(c, b, answers, i, g) && Took(c, b, answers, j, g)
  {
    hide BooksAfter, Taken, LandForgejo;
    var n, f := |c.leftover|, c.leftover[i];
    BooksStep(c, b, answers, i);
    TurnPlaces(BooksAfter(c, b, answers, i), c.consumed, f, Item(c, i), answers[i]);
    ConflictsStay(c, b, answers, i + 1, n);
    g :| g in Target(answers[i]) && RowOf(BooksAfter(c, b, answers, i + 1), f, g);
    assert !RowOf(BooksAfter(c, b, answers, n), f, g);
    j := RowGone(c, b, answers, f, g, i + 1, n);
    RowAfterTurn(c, b, answers, i, g);
  }

  lemma RowAfterTurn(c: Loop, b: Books, answers: seq<GitHubAnswer>, i: nat, g: Id)
    requires WellFormed(c) && CreatedAreNew(c, answers) && i < |c.leftover| && g in Target(answers[i])
    requires RowOf(BooksAfter(c, b, answers, i + 1), c.leftover[i], g) && !NamesForgejo(BooksAfter(c, b, answers, i + 1), c.leftover[i])
    ensures Took(c, b, answers, i, g)
  {
    hide BooksAfter;
    BooksStep(c, b, answers, i);
    var b1 := BooksAfter(c, b, answers, i);
    NamedOrTook(b1, c.consumed, c.leftover[i], Item(c, i), answers[i], g);
  }

  lemma NamedOrTook(b: Books, consumed: set<Id>, f: Id, item: Digest, answer: GitHubAnswer, g: Id)
    requires g in Target(answer) && (answer.Created? ==> answer.id !in consumed)
    ensures NamesForgejo(LandForgejo(b, consumed, f, item, answer), f) || (g !in consumed && !Taken(b.rows, g, f))
  {
    if answer.Existing? && g in consumed {
      NoteExtends(b, PullConflict(DuplicatePull, Some(g), Some(f), Holds(answer.digest), Holds(item)), {});
    } else if Taken(b.rows, g, f) {
      NoteExtends(b, PullConflict(PairingClash, Some(g), Some(f), Holds(answer.digest), Holds(item)), {});
    }
  }

  // ---- what a leftover that is lost needs ----

  /** A fitting run with new ids, from consistent books. */
  ghost predicate ConsistentRun(c: Loop, b: Books, start: Listing, pulls: seq<Listing>, replies: seq<CreateReply>, answers: seq<GitHubAnswer>)
    requires WellFormed(c)
  {
    FittingRun(c, pulls, replies, answers) && NewIds(b, pulls) && pulls[0] == start && Consistent(c, b, start)
  }

  lemma RunParts(c: Loop, b: Books, start: Listing, pulls: seq<Listing>, replies: seq<CreateReply>, answers: seq<GitHubAnswer>)
    requires WellFormed(c) && ConsistentRun(c, b, start, pulls, replies, answers)
    ensures |replies| == |answers| == |c.leftover| && |pulls| == |c.leftover| + 1 && CreatedAreNew(c, answers)
    ensures FittingRun(c, pulls, replies, answers) && Consistent(c, b, start)
  {
    FittingLengths(c, pulls, replies, answers);
    CreatedAreNotConsumed(c, pulls, replies, answers);
  }

  /** What was there at the start, or in a row, can be taken only by those that can target it. */
  lemma TookOld(c: Loop, b: Books, start: Listing, pulls: seq<Listing>, replies: seq<CreateReply>, answers: seq<GitHubAnswer>, k: nat, x: Id)
    requires WellFormed(c) && ConsistentRun(c, b, start, pulls, replies, answers) && k < |c.leftover| == |answers|
    requires Took(c, b, answers, k, x) && (x in start || x in b.rows)
    ensures x in start && CanTarget(c, start, k, x)
  {
    hide Fit, BooksAfter, Taken, Consistent;
    RunParts(c, b, start, pulls, replies, answers);
    TargetHasHead(c, pulls, replies, answers, k, x);
    hide FittingRun;
    KnowledgeGrows(c, pulls, replies, answers, 0, k);
    KnowledgeGrows(c, pulls, replies, answers, 0, k + 1);
    assert pulls[k + 1] == pulls[k + 1] && x in pulls[k + 1];
  }

  /** A pull request that is new can be taken later only through a lookup. */
  lemma TookNew(c: Loop, b: Books, start: Listing, pulls: seq<Listing>, replies: seq<CreateReply>, answers: seq<GitHubAnswer>,
                i: nat, k: nat, x: Id)
    requires WellFormed(c) && ConsistentRun(c, b, start, pulls, replies, answers) && i < k < |c.leftover| == |answers|
    requires Took(c, b, answers, i, x) && Took(c, b, answers, k, x)
    ensures Item(c, i).head == Item(c, k).head
    ensures x !in start ==> Fit(c, k).None?
    ensures Fit(c, k).Some? ==> Fit(c, k) == Some(x)
  {
    hide Fit, BooksAfter, Taken;
    RunParts(c, b, start, pulls, replies, answers);
    TargetHasHead(c, pulls, replies, answers, i, x);
    TargetHasHead(c, pulls, replies, answers, k, x);
    hide FittingRun;
    KnowledgeGrows(c, pulls, replies, answers, i + 1, k);
    KnowledgeGrows(c, pulls, replies, answers, i + 1, k + 1);
  }

  /** A fit depends on the refs alone. */
  lemma {:induction false} FitByRefs(ids: seq<Id>, listed: Listing, item: Digest, item': Digest, consumed: set<Id>, normalize: string -> string)
    requires (forall x :: x in ids ==> x in listed) && SameRefs(item, item')
    ensures FirstFit(ids, listed, item, consumed, false, normalize) == FirstFit(ids, listed, item', consumed, false, normalize)
  {
    if ids != [] { FitByRefs(ids[1..], listed, item, item', consumed, normalize); }
  }

  /** Who takes the row of a leftover that does not fit it is wild or was freed itself. */
  lemma TakerHasNoFit(c: Loop, b: Books, start: Listing, k: nat, m: nat, y: Id)
    requires WellFormed(c) && Consistent(c, b, start) && k < |c.leftover| && m < |c.leftover|
    requires RowOf(b, c.leftover[m], y) && Fit(c, m) != Some(y) && y in start && CanTarget(c, start, k, y)
    ensures Fit(c, k).None? && Item(c, k).head == Item(c, m).head
  {
    if Fit(c, k).Some? {
      AdoptedIsListed(c.order, c.listed, Item(c, k), c.consumed, false, c.normalize);
      FitByRefs(c.order, c.listed, Item(c, k), Item(c, m), c.consumed, c.normalize);
    }
  }

  /** Not in the row any more in which it started. */
  ghost predicate Displaced(c: Loop, b: Books, answers: seq<GitHubAnswer>, m: nat, y: Id, t: nat)
    requires WellFormed(c) && t <= m < |c.leftover| == |answers|
  {
    RowOf(b, c.leftover[m], y) && Fit(c, m) != Some(y) && !RowOf(BooksAfter(c, b, answers, t), c.leftover[m], y)
  }

  /** Each displaced leftover goes back to a wild one of its own, which began to displace the others. */
  ghost predicate Origins(c: Loop, b: Books, answers: seq<GitHubAnswer>, t: nat, o: map<nat, nat>)
    requires WellFormed(c) && t <= |c.leftover| == |answers|
  {
    && (forall m: nat, y :: t <= m < |c.leftover| && Displaced(c, b, answers, m, y, t) ==>
          m in o && o[m] < t && Wild(c, b, o[m], Item(c, m).head))
    && (forall m: nat, m': nat :: m in o && m' in o && o[m] == o[m'] ==> m == m')
    && (forall m: nat :: m in o ==> t <= m && o[m] < t)
  }

  lemma {:induction false} OriginsExist(c: Loop, b: Books, start: Listing, pulls: seq<Listing>, replies: seq<CreateReply>,
                                        answers: seq<GitHubAnswer>, t: nat) returns (o: map<nat, nat>)
    requires WellFormed(c) && ConsistentRun(c, b, start, pulls, replies, answers) && t <= |c.leftover| == |answers|
    ensures Origins(c, b, answers, t, o)
    decreases t
  {
    hide ConsistentRun, BooksAfter, Taken, Fit, Wild, Consistent;
    RunParts(c, b, start, pulls, replies, answers);
    if t == 0 {
      BooksStart(c, b, answers);
      o := map[];
    } else {
      var k := t - 1;
      var before := OriginsExist(c, b, start, pulls, replies, answers, k);
      var rest := map m: nat | m in before && m != k :: before[m];
      if m, y :| t <= m < |c.leftover| && Displaced(c, b, answers, m, y, t) && !Displaced(c, b, answers, m, y, k) {
        var r := OriginOfTaker(c, b, start, pulls, replies, answers, k, before, m, y);
        o := rest[m := r];
        forall m': nat, y' | t <= m' < |c.leftover| && Displaced(c, b, answers, m', y', t) && m' != m
          ensures Displaced(c, b, answers, m', y', k)
        {
          OnlyOneIsDisplaced(c, b, start, answers, k, m, y, m', y');
        }
      } else {
        o := rest;
      }
    }
  }

  lemma OnlyOneIsDisplaced(c: Loop, b: Books, start: Listing, answers: seq<GitHubAnswer>, k: nat, m: nat, y: Id, m': nat, y': Id)
    requires WellFormed(c) && CreatedAreNew(c, answers) && k < m < |c.leftover| && k < m' < |c.leftover| && m != m'
    requires Displaced(c, b, answers, m, y, k + 1) && !Displaced(c, b, answers, m, y, k) && Displaced(c, b, answers, m', y', k + 1)
    ensures Displaced(c, b, answers, m', y', k)
  {
    hide BooksAfter, Taken, Fit;
    TurnRows(c, b, answers, k);
    assert c.leftover[m] != c.leftover[m'];
  }

  /** The one who displaces another is wild, or displaced and thus has an origin to hand on. */
  lemma OriginOfTaker(c: Loop, b: Books, start: Listing, pulls: seq<Listing>, replies: seq<CreateReply>, answers: seq<GitHubAnswer>,
                      k: nat, o: map<nat, nat>, m: nat, y: Id) returns (r: nat)
    requires WellFormed(c) && ConsistentRun(c, b, start, pulls, replies, answers) && k < m < |c.leftover| == |answers|
    requires Origins(c, b, answers, k, o)
    requires Displaced(c, b, answers, m, y, k + 1) && !Displaced(c, b, answers, m, y, k)
    ensures r <= k && Wild(c, b, r, Item(c, m).head)
    ensures r == k || (k in o && r == o[k])
  {
    hide ConsistentRun, BooksAfter, Fit, CanTarget;
    RunParts(c, b, start, pulls, replies, answers);
    TurnRows(c, b, answers, k);
    assert Took(c, b, answers, k, y);
    TookOld(c, b, start, pulls, replies, answers, k, y);
    TakerHasNoFit(c, b, start, k, m, y);
    if InNoRow(b, c.leftover[k]) {
      r := k;
    } else {
      var z :| z in b.rows && b.rows[z].forgejo == c.leftover[k];
      assert c.leftover[k] != c.leftover[m];
      assert Displaced(c, b, answers, k, z, k);
      r := o[k];
    }
  }

  /** Who can have made room for a leftover after the i-th one had its turn: a wild leftover after i, or
      one before i other than the one that made room for i, or someone whom i displaced. */
  ghost predicate Freed(c: Loop, b: Books, answers: seq<GitHubAnswer>, i: nat, spent: Option<nat>, m: nat)
    requires WellFormed(c) && i < m < |c.leftover| == |answers|
  {
    || (exists k: nat :: i < k < |c.leftover| && Wild(c, b, k, Item(c, m).head))
    || (exists r: nat :: r < i && Wild(c, b, r, Item(c, m).head) && spent != Some(r))
    || (exists p: nat, z :: i < p < |c.leftover| && RowOf(b, c.leftover[p], z) && Took(c, b, answers, i, z) && (p == m || Fit(c, p).None?)
                            && Item(c, p).head == Item(c, m).head)
  }

  lemma {:induction false} DisplacedLater(c: Loop, b: Books, start: Listing, pulls: seq<Listing>, replies: seq<CreateReply>,
                                          answers: seq<GitHubAnswer>, i: nat, o: map<nat, nat>, spent: Option<nat>, m: nat, y: Id, t: nat)
    requires WellFormed(c) && ConsistentRun(c, b, start, pulls, replies, answers) && i < t <= m < |c.leftover| == |answers|
    requires Origins(c, b, answers, i, o) && spent == (if i in o then Some(o[i]) else None)
    requires Displaced(c, b, answers, m, y, t)
    ensures Freed(c, b, answers, i, spent, m)
    decreases t
  {
    hide ConsistentRun, BooksAfter, Fit, CanTarget, Wild, Taken, Origins;
    if Displaced(c, b, answers, m, y, t - 1) {
      if t - 1 == i {
        OriginIsNotSpent(c, b, answers, i, o, m, y);
      } else {
        DisplacedLater(c, b, start, pulls, replies, answers, i, o, spent, m, y, t - 1);
      }
    } else {
      DisplacedNow(c, b, start, pulls, replies, answers, t - 1, m, y);
      if t - 1 == i {
        assert Took(c, b, answers, i, y);
      } else if !InNoRow(b, c.leftover[t - 1]) {
        var z :| z in b.rows && b.rows[z].forgejo == c.leftover[t - 1];
        assert Displaced(c, b, answers, t - 1, z, t - 1);
        DisplacedLater(c, b, start, pulls, replies, answers, i, o, spent, t - 1, z, t - 1);
        FreedAlike(c, b, answers, i, spent, t - 1, m);
      }
    }
  }

  lemma OriginIsNotSpent(c: Loop, b: Books, answers: seq<GitHubAnswer>, i: nat, o: map<nat, nat>, m: nat, y: Id)
    requires WellFormed(c) && i < m < |c.leftover| == |answers| && Origins(c, b, answers, i, o) && Displaced(c, b, answers, m, y, i)
    ensures Freed(c, b, answers, i, if i in o then Some(o[i]) else None, m)
  {
    hide BooksAfter, Fit, Wild;
    var r := o[m];
    assert r < i && Wild(c, b, r, Item(c, m).head);
  }

  /** The one who displaces another at its turn has no fit, and no other row. */
  lemma DisplacedNow(c: Loop, b: Books, start: Listing, pulls: seq<Listing>, replies: seq<CreateReply>, answers: seq<GitHubAnswer>,
                     k: nat, m: nat, y: Id)
    requires WellFormed(c) && ConsistentRun(c, b, start, pulls, replies, answers) && k < m < |c.leftover| == |answers|
    requires Displaced(c, b, answers, m, y, k + 1) && !Displaced(c, b, answers, m, y, k)
    ensures Took(c, b, answers, k, y) && Fit(c, k).None? && Item(c, k).head == Item(c, m).head
    ensures InNoRow(b, c.leftover[k]) ==> Wild(c, b, k, Item(c, m).head)
    ensures forall z :: RowOf(b, c.leftover[k], z) ==> Displaced(c, b, answers, k, z, k)
  {
    hide ConsistentRun, BooksAfter, Fit, CanTarget;
    RunParts(c, b, start, pulls, replies, answers);
    TurnRows(c, b, answers, k);
    TookOld(c, b, start, pulls, replies, answers, k, y);
    TakerHasNoFit(c, b, start, k, m, y);
    assert c.leftover[k] != c.leftover[m];
  }

  lemma FreedAlike(c: Loop, b: Books, answers: seq<GitHubAnswer>, i: nat, spent: Option<nat>, k: nat, m: nat)
    requires WellFormed(c) && i < k < |c.leftover| == |answers| && i < m < |c.leftover|
    requires Freed(c, b, answers, i, spent, k) && Fit(c, k).None? && Item(c, k).head == Item(c, m).head
    ensures Freed(c, b, answers, i, spent, m)
  {
    hide Fit, Wild, Took;
  }

  lemma WildCount(c: Loop, b: Books, i: nat, some: set<nat>)
    requires WellFormed(c) && i < |c.leftover| && forall r :: r in some ==> r < i && Wild(c, b, r, Item(c, i).head)
    ensures |some| <= |WildBefore(c, b, i)|
  {
    hide Wild;
    assert some <= WildBefore(c, b, i);
    SubsetSize(some, WildBefore(c, b, i));
  }

  lemma SubsetSize(a: set<nat>, b: set<nat>)
    requires a <= b
    ensures |a| <= |b|
  {
    assert b == a + (b - a);
  }

  // ---- the price of the i-th leftover, and of a later one ----

  /** i and a later leftover that is free for g, with `spent` for i. */
  lemma LosesToFree(c: Loop, b: Books, start: Listing, i: nat, j: nat, g: Option<Id>, n: nat, spent: set<nat>)
    requires WellFormed(c) && i < j < |c.leftover| && Shares(c, start, i, j, g) && Costs(c, b, start, i, g, n) && Costs(c, b, start, j, g, 0)
    requires n == |spent| && forall r :: r in spent ==> r < i && Wild(c, b, r, Item(c, i).head)
    ensures LosesTo(c, b, start, i, j)
  {
    hide Shares, Costs;
    WildCount(c, b, i, spent);
  }

  lemma LosesToFreed(c: Loop, b: Books, start: Listing, i: nat, j: nat, g: Option<Id>, n: nat, spent: set<nat>, r: nat)
    requires WellFormed(c) && i < j < |c.leftover| && Shares(c, start, i, j, g) && Costs(c, b, start, i, g, n) && Costs(c, b, start, j, g, 1)
    requires n == |spent| && forall r :: r in spent ==> r < i && Wild(c, b, r, Item(c, i).head)
    requires r < i && Wild(c, b, r, Item(c, i).head) && r !in spent
    ensures LosesTo(c, b, start, i, j)
  {
    hide Shares, Costs, Wild;
    assert |spent + {r}| == n + 1;
    WildCount(c, b, i, spent + {r});
  }

  /** Whoever can have freed j leaves some later leftover to which i loses. */
  lemma FreedLoses(c: Loop, b: Books, start: Listing, pulls: seq<Listing>, replies: seq<CreateReply>, answers: seq<GitHubAnswer>,
                   i: nat, j: nat, g: Option<Id>, taken: Id, n: nat, spent: set<nat>, root: Option<nat>, home: Id) returns (k: nat)
    requires WellFormed(c) && ConsistentRun(c, b, start, pulls, replies, answers) && i < j < |c.leftover| == |answers|
    requires Shares(c, start, i, j, g) && Costs(c, b, start, i, g, n) && n == |spent| && n <= 1
    requires forall r :: r in spent ==> r < i && Wild(c, b, r, Item(c, i).head) && root == Some(r)
    requires RowOf(b, c.leftover[j], home) && home in start && g != Some(home) && Freed(c, b, answers, i, root, j)
    requires Took(c, b, answers, i, taken) && taken != home && (taken in start ==> g == Some(taken) || taken !in b.rows)
    requires g.Some? ==> g.value in start && g.value !in c.consumed && start[g.value].digest.head == Item(c, i).head
    ensures i < k < |c.leftover| && LosesTo(c, b, start, i, k)
  {
    hide ConsistentRun, BooksAfter, Fit, Taken, WildBefore;
    assert Item(c, i).head == Item(c, j).head;
    if q: nat :| i < q < |c.leftover| && Wild(c, b, q, Item(c, j).head) {
      k := q;
      LosesToFree(c, b, start, i, k, g, n, spent);
    } else if r: nat :| r < i && Wild(c, b, r, Item(c, j).head) && root != Some(r) {
      k := j;
      LosesToFreed(c, b, start, i, j, g, n, spent, r);
    } else {
      var p: nat, z :| i < p < |c.leftover| && RowOf(b, c.leftover[p], z) && Took(c, b, answers, i, z) && (p == j || Fit(c, p).None?)
        && Item(c, p).head == Item(c, j).head;
      k := p;
      OneTarget(c, b, answers, i, taken, z);
      TookOld(c, b, start, pulls, replies, answers, i, z);
      RowIsOne(c, b, start, pulls, replies, answers, p, z, j, home);
      LosesToFree(c, b, start, i, p, g, n, spent);
    }
  }

  lemma OneTarget(c: Loop, b: Books, answers: seq<GitHubAnswer>, i: nat, x: Id, z: Id)
    requires WellFormed(c) && i < |c.leftover| == |answers| && Took(c, b, answers, i, x) && Took(c, b, answers, i, z)
    ensures x == z
  {
    hide Taken, BooksAfter;
  }

  lemma RowIsOne(c: Loop, b: Books, start: Listing, pulls: seq<Listing>, replies: seq<CreateReply>, answers: seq<GitHubAnswer>,
                 p: nat, z: Id, j: nat, home: Id)
    requires WellFormed(c) && ConsistentRun(c, b, start, pulls, replies, answers) && p < |c.leftover| && j < |c.leftover|
    requires RowOf(b, c.leftover[p], z) && RowOf(b, c.leftover[j], home)
    ensures p == j ==> z == home
    ensures forall x :: RowOf(b, c.leftover[p], x) ==> x == z
    ensures z in start ==> start[z].digest.head == Item(c, p).head
  {
    hide FittingRun, Fit;
  }

  /** A leftover that took x at its turn, and what this cost. */
  lemma HomeAtTurn(c: Loop, b: Books, start: Listing, pulls: seq<Listing>, replies: seq<CreateReply>, answers: seq<GitHubAnswer>,
                   m: nat, x: Id, home: Id)
    requires WellFormed(c) && ConsistentRun(c, b, start, pulls, replies, answers) && m < |c.leftover| == |answers|
    requires Took(c, b, answers, m, x) && RowOf(b, c.leftover[m], home) && home != x
    ensures home in start && home !in c.consumed && start[home].digest.head == Item(c, m).head
    ensures Fit(c, m) != Some(home) ==> Displaced(c, b, answers, m, home, m)
    ensures !RowOf(BooksAfter(c, b, answers, m), c.leftover[m], home)
  {
    hide ConsistentRun, BooksAfter, Fit, CanTarget;
    RunParts(c, b, start, pulls, replies, answers);
    BooksStart(c, b, answers);
    var k := RowGone(c, b, answers, c.leftover[m], home, 0, m);
    TookOld(c, b, start, pulls, replies, answers, k, home);
  }

  /** The later leftover j took what i had taken: for the target g that both share, someone freed it. */
  lemma LaterTaker(c: Loop, b: Books, start: Listing, pulls: seq<Listing>, replies: seq<CreateReply>, answers: seq<GitHubAnswer>,
                   i: nat, j: nat, taken: Id, g: Option<Id>, n: nat, spent: set<nat>, o: map<nat, nat>) returns (k: nat)
    requires WellFormed(c) && ConsistentRun(c, b, start, pulls, replies, answers) && i < j < |c.leftover| == |answers|
    requires Origins(c, b, answers, i, o) && Took(c, b, answers, i, taken) && Took(c, b, answers, j, taken)
    requires Shares(c, start, i, j, g) && Costs(c, b, start, i, g, n) && n == |spent| && n <= 1
    requires forall r :: r in spent ==> i in o && r == o[i] && r < i && Wild(c, b, r, Item(c, i).head)
    requires taken in start ==> g == Some(taken)
    requires g.Some? ==> g.value in start && g.value !in c.consumed && start[g.value].digest.head == Item(c, i).head
    ensures i < k < |c.leftover| && LosesTo(c, b, start, i, k)
  {
    hide ConsistentRun, BooksAfter, Fit, Taken, WildBefore, Origins;
    if home: Id :| RowOf(b, c.leftover[j], home) && g != Some(home) {
      NotHome(c, b, start, pulls, replies, answers, j, taken, g, home);
      HomeAtTurn(c, b, start, pulls, replies, answers, j, taken, home);
      TookNew(c, b, start, pulls, replies, answers, i, j, taken);
      DisplacedLater(c, b, start, pulls, replies, answers, i, o, if i in o then Some(o[i]) else None, j, home, j);
      k := FreedLoses(c, b, start, pulls, replies, answers, i, j, g, taken, n, spent, if i in o then Some(o[i]) else None, home);
    } else {
      k := j;
      LosesToFree(c, b, start, i, j, g, n, spent);
    }
  }

  lemma NotHome(c: Loop, b: Books, start: Listing, pulls: seq<Listing>, replies: seq<CreateReply>, answers: seq<GitHubAnswer>,
                j: nat, taken: Id, g: Option<Id>, home: Id)
    requires WellFormed(c) && ConsistentRun(c, b, start, pulls, replies, answers) && j < |c.leftover| == |answers|
    requires Took(c, b, answers, j, taken) && RowOf(b, c.leftover[j], home) && g != Some(home) && (taken in start ==> g == Some(taken))
    ensures taken != home
  {
    hide ConsistentRun, BooksAfter, Fit, Taken;
    if taken in b.rows { TookOld(c, b, start, pulls, replies, answers, j, taken); }
  }

  /** Whoever is lost loses to a later leftover. */
  lemma LostLoses(c: Loop, b: Books, start: Listing, pulls: seq<Listing>, replies: seq<CreateReply>, answers: seq<GitHubAnswer>, i: nat)
    returns (k: nat)
    requires WellFormed(c) && Consistent(c, b, start) && i < |c.leftover| && Loses(c, b, start, i, pulls, replies, answers)
    ensures i < k < |c.leftover| && LosesTo(c, b, start, i, k)
  {
    hide FittingRun, Consistent, BooksAfter, Fit, Taken, ForgejoAccounted, WildBefore, NewIds;
    RunParts(c, b, start, pulls, replies, answers);
    var g, j := LostIsTaken(c, b, answers, i);
    var o := OriginsExist(c, b, start, pulls, replies, answers, i);
    TookNew(c, b, start, pulls, replies, answers, i, j, g);
    var target := if g in start then Some(g) else None;
    SharedByBoth(c, b, start, pulls, replies, answers, i, j, g);
    if home: Id :| RowOf(b, c.leftover[i], home) && target != Some(home) {
      NotHome(c, b, start, pulls, replies, answers, i, g, target, home);
      HomeAtTurn(c, b, start, pulls, replies, answers, i, g, home);
      if Fit(c, i) == Some(home) {
        OwnFitShared(c, b, start, pulls, replies, answers, i, j, g, home);
        k := LaterTaker(c, b, start, pulls, replies, answers, i, j, g, Some(home), 0, {}, o);
      } else {
        assert Displaced(c, b, answers, i, home, i);
        k := LaterTaker(c, b, start, pulls, replies, answers, i, j, g, target, 1, {o[i]}, o);
      }
    } else {
      k := LaterTaker(c, b, start, pulls, replies, answers, i, j, g, target, 0, {}, o);
    }
  }

  lemma SharedByBoth(c: Loop, b: Books, start: Listing, pulls: seq<Listing>, replies: seq<CreateReply>, answers: seq<GitHubAnswer>,
                     i: nat, j: nat, g: Id)
    requires WellFormed(c) && ConsistentRun(c, b, start, pulls, replies, answers) && i < j < |c.leftover| == |answers|
    requires Took(c, b, answers, i, g) && Took(c, b, answers, j, g)
    ensures Shares(c, start, i, j, if g in start then Some(g) else None)
    ensures g in start ==> g !in c.consumed && start[g].digest.head == Item(c, i).head
  {
    hide FittingRun, BooksAfter, Taken, NewIds, FirstFit;
    TookNew(c, b, start, pulls, replies, answers, i, j, g);
    if g in start {
      TookOld(c, b, start, pulls, replies, answers, i, g);
      TookOld(c, b, start, pulls, replies, answers, j, g);
      AdoptedIsListed(c.order, c.listed, Item(c, i), c.consumed, false, c.normalize);
    }
  }

  /** If i's own row was its fit, and i created another pull request, then j was looking one up. */
  lemma OwnFitShared(c: Loop, b: Books, start: Listing, pulls: seq<Listing>, replies: seq<CreateReply>, answers: seq<GitHubAnswer>,
                     i: nat, j: nat, g: Id, home: Id)
    requires WellFormed(c) && ConsistentRun(c, b, start, pulls, replies, answers) && i < j < |c.leftover| == |answers|
    requires Took(c, b, answers, i, g) && Took(c, b, answers, j, g) && RowOf(b, c.leftover[i], home) && home != g
    requires Fit(c, i) == Some(home) && home in start && home !in c.consumed && start[home].digest.head == Item(c, i).head
    ensures g !in start && Shares(c, start, i, j, Some(home)) && Costs(c, b, start, i, Some(home), 0)
  {
    hide FittingRun, BooksAfter, Taken, NewIds, FirstFit;
    TookNew(c, b, start, pulls, replies, answers, i, j, g);
    if g in start { TookOld(c, b, start, pulls, replies, answers, i, g); }
  }
}
