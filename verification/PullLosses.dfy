/** The second leftover loop of a pull request run, over everything GitHub may answer.

    The loop settles each Forgejo leftover on a GitHub pull request, and never
    marks that one as consumed, so a later leftover may take the row of an earlier
    one; but not if both have a listed counterpart of their own. */
module PullLosses {
  import opened Pairing
  import opened Objects
  import opened PullRequests
  import opened PullForges

  /** What the loop is given: the leftovers and their contents, the GitHub listing in its order, and
      which of it is consumed. */
  datatype Loop = Loop(leftover: seq<Id>, items: Listing, order: seq<Id>, listed: Listing, consumed: set<Id>, normalize: string -> string)

  ghost predicate WellFormed(c: Loop)
  {
    && Distinct(c.leftover) && (forall f :: f in c.leftover ==> f in c.items)
    && (forall x :: x in c.order ==> x in c.listed) && c.consumed <= c.listed.Keys
  }

  function Item(c: Loop, i: nat): Digest
    requires i < |c.leftover| && c.leftover[i] in c.items
  {
    c.items[c.leftover[i]].digest
  }

  /** The listed pull request the i-th leftover adopts if GitHub says that one exists. */
  ghost function Fit(c: Loop, i: nat): Option<Id>
    requires WellFormed(c) && i < |c.leftover|
  {
    FirstFit(c.order, c.listed, Item(c, i), c.consumed, false, c.normalize)
  }

  /** A reply that created a pull request used a new id, and the forge has it now. */
  ghost predicate MadeFresh(reply: CreateReply, item: Digest, before: Listing, after: Listing)
  {
    reply.Made? ==>
      && reply.id !in before && reply.id in after && after[reply.id] == reply.pull && SameRefs(reply.pull.digest, item)
  }

  ghost predicate FitsAt(c: Loop, i: nat, before: Listing, after: Listing, reply: CreateReply, answer: GitHubAnswer)
    requires WellFormed(c) && i < |c.leftover|
  {
    && SameKnowledge(before, after) && MadeFresh(reply, Item(c, i), before, after)
    && (reply == AlreadyExists ==> Spans(after, Item(c, i)))
    && GitHubAnswerFits(answer, reply, Fit(c, i), c.listed, Item(c, i).head, after)
  }

  /** Replies GitHub may give during the loop, the pull requests it has before each of them and at
      the end, and the answers they lead to. */
  ghost predicate FittingRun(c: Loop, pulls: seq<Listing>, replies: seq<CreateReply>, answers: seq<GitHubAnswer>)
    requires WellFormed(c)
  {
    && |replies| == |answers| == |c.leftover| && |pulls| == |c.leftover| + 1 && KnowsListing(pulls[0], c.listed)
    && forall i :: 0 <= i < |c.leftover| ==> FitsAt(c, i, pulls[i], pulls[i + 1], replies[i], answers[i])
  }

  function BooksAfter(c: Loop, b: Books, answers: seq<GitHubAnswer>, k: nat): Books
    requires k <= |c.leftover| == |answers| && forall f :: f in c.leftover ==> f in c.items
  {
    LandAllForgejo(b, c.consumed, c.leftover[..k], c.items, answers[..k])
  }

  lemma BooksStep(c: Loop, b: Books, answers: seq<GitHubAnswer>, k: nat)
    requires WellFormed(c) && k < |c.leftover| == |answers|
    ensures BooksAfter(c, b, answers, k + 1)
            == LandForgejo(BooksAfter(c, b, answers, k), c.consumed, c.leftover[k], Item(c, k), answers[k])
  {
    assert c.leftover[..k + 1][..k] == c.leftover[..k] && answers[..k + 1][..k] == answers[..k];
  }

  // ---- targets ----

  lemma {:induction false} KnowledgeGrows(c: Loop, pulls: seq<Listing>, replies: seq<CreateReply>, answers: seq<GitHubAnswer>, i: nat, k: nat)
    requires WellFormed(c) && FittingRun(c, pulls, replies, answers) && i <= k <= |c.leftover|
    ensures SameKnowledge(pulls[i], pulls[k]) && KnowsListing(pulls[i], c.listed)
    decreases k
  {
    hide FirstFit, GitHubAnswerFits, MadeFresh;
    if k > 0 {
      assert FitsAt(c, k - 1, pulls[k - 1], pulls[k], replies[k - 1], answers[k - 1]);
      if i < k {
        KnowledgeGrows(c, pulls, replies, answers, i, k - 1);
      } else {
        KnowledgeGrows(c, pulls, replies, answers, k - 1, k - 1);
      }
    }
  }

  /** The target of an answer is a pull request with the leftover's head ref. */
  lemma TargetHasHead(c: Loop, pulls: seq<Listing>, replies: seq<CreateReply>, answers: seq<GitHubAnswer>, i: nat, x: Id)
    requires WellFormed(c) && FittingRun(c, pulls, replies, answers) && i < |c.leftover| && x in Target(answers[i])
    ensures x in pulls[i + 1] && pulls[i + 1][x].digest.head == Item(c, i).head
    ensures if replies[i].Made? then x !in pulls[i] && x !in c.listed
            else replies[i] == AlreadyExists && (Fit(c, i).Some? ==> x == Fit(c, i).value && x in c.listed)
  {
    hide FirstFit;
    assert FitsAt(c, i, pulls[i], pulls[i + 1], replies[i], answers[i]);
    KnowledgeGrows(c, pulls, replies, answers, i, i + 1);
    KnowledgeGrows(c, pulls, replies, answers, i + 1, i + 1);
    AdoptedIsListed(c.order, c.listed, Item(c, i), c.consumed, false, c.normalize);
  }

  /** Either the heads differ, or both leftovers have their own listed counterpart. */
  ghost predicate Apart(c: Loop, i: nat, j: nat)
    requires WellFormed(c) && i < |c.leftover| && j < |c.leftover|
  {
    Item(c, i).head == Item(c, j).head ==> Fit(c, i).Some? && Fit(c, j).Some? && Fit(c, i) != Fit(c, j)
  }

  ghost predicate ApartFromLater(c: Loop, i: nat)
    requires WellFormed(c) && i < |c.leftover|
  {
    forall j :: i < j < |c.leftover| ==> Apart(c, i, j)
  }

  lemma ApartTargetsDiffer(c: Loop, pulls: seq<Listing>, replies: seq<CreateReply>, answers: seq<GitHubAnswer>, i: nat, k: nat)
    requires WellFormed(c) && FittingRun(c, pulls, replies, answers) && i < k < |c.leftover| && Apart(c, i, k)
    ensures |answers| == |c.leftover|
    ensures Target(answers[i]) !! Target(answers[k])
  {
    hide FittingRun, Fit;
    FittingLengths(c, pulls, replies, answers);
    forall x | x in Target(answers[i]) && x in Target(answers[k]) ensures false {
      TargetHasHead(c, pulls, replies, answers, i, x);
      TargetHasHead(c, pulls, replies, answers, k, x);
      KnowledgeGrows(c, pulls, replies, answers, i + 1, k);
      KnowledgeGrows(c, pulls, replies, answers, i + 1, k + 1);
    }
  }

  // ---- what is apart is not lost ----

  /** A leftover's own turn places it; a turn with another target leaves it there. */
  lemma TurnPlaces(b: Books, consumed: set<Id>, f: Id, item: Digest, answer: GitHubAnswer)
    ensures PlacedForgejo(LandForgejo(b, consumed, f, item, answer), f, Target(answer))
  {
    var b' := LandForgejo(b, consumed, f, item, answer);
    match answer {
      case Created(g, d) => EnterPlaces(b, g, PullRow(f, d), d, item);
      case Existing(g, d) =>
        if g in consumed {
          NoteExtends(b, PullConflict(DuplicatePull, Some(g), Some(f), Holds(d), Holds(item)), {});
        } else {
          EnterPlaces(b, g, PullRow(f, d), d, item);
        }
      case NoDifference => NoteExtends(b, PullConflict(EmptyPull, None, Some(f), Note("no-diff"), Holds(item)), {});
    }
  }

  lemma EnterPlaces(b: Books, g: Id, row: PullRow, githubItem: Digest, forgejoItem: Digest)
    ensures PlacedForgejo(Enter(b, g, row, githubItem, forgejoItem), row.forgejo, {g})
  {
    NoteExtends(b, PullConflict(PairingClash, Some(g), Some(row.forgejo), Holds(githubItem), Holds(forgejoItem)), {});
  }

  lemma OtherTurnKeeps(b: Books, consumed: set<Id>, f: Id, item: Digest, answer: GitHubAnswer, f0: Id, target: set<Id>)
    requires PlacedForgejo(b, f0, target) && target !! Target(answer)
    ensures PlacedForgejo(LandForgejo(b, consumed, f, item, answer), f0, target)
  {
    var b' := LandForgejo(b, consumed, f, item, answer);
    assert b.conflicts <= b'.conflicts;
    if !NamesForgejo(b, f0) {
      var g :| g in target && g in b.rows && b.rows[g].forgejo == f0;
      assert g in b'.rows && b'.rows[g] == b.rows[g];
    }
  }

  lemma {:induction false} StaysPlaced(c: Loop, b: Books, pulls: seq<Listing>, replies: seq<CreateReply>, answers: seq<GitHubAnswer>, i: nat, k: nat)
    requires WellFormed(c) && FittingRun(c, pulls, replies, answers) && i < k <= |c.leftover|
    requires ApartFromLater(c, i)
    ensures PlacedForgejo(BooksAfter(c, b, answers, k), c.leftover[i], Target(answers[i]))
    decreases k
  {
    hide FittingRun, PlacedForgejo, LandForgejo, Apart, FirstFit;
    FittingLengths(c, pulls, replies, answers);
    BooksStep(c, b, answers, k - 1);
    if k == i + 1 {
      TurnPlaces(BooksAfter(c, b, answers, i), c.consumed, c.leftover[i], Item(c, i), answers[i]);
    } else {
      StaysPlaced(c, b, pulls, replies, answers, i, k - 1);
      ApartTargetsDiffer(c, pulls, replies, answers, i, k - 1);
      OtherTurnKeeps(BooksAfter(c, b, answers, k - 1), c.consumed, c.leftover[k - 1], Item(c, k - 1), answers[k - 1],
                     c.leftover[i], Target(answers[i]));
    }
  }

  lemma FittingLengths(c: Loop, pulls: seq<Listing>, replies: seq<CreateReply>, answers: seq<GitHubAnswer>)
    requires WellFormed(c) && FittingRun(c, pulls, replies, answers)
    ensures |replies| == |answers| == |c.leftover| && |pulls| == |c.leftover| + 1
  {
  }

  /** Whatever GitHub replies, a leftover apart from all later ones is accounted for in the end. */
  lemma ApartIsAccounted(c: Loop, b: Books, pulls: seq<Listing>, replies: seq<CreateReply>, answers: seq<GitHubAnswer>, i: nat)
    requires WellFormed(c) && FittingRun(c, pulls, replies, answers) && i < |c.leftover|
    requires ApartFromLater(c, i)
    ensures |answers| == |c.leftover| && ForgejoAccounted(BooksAfter(c, b, answers, |c.leftover|), c.leftover[i])
  {
    hide FittingRun, LandForgejo, Apart, FirstFit, BooksAfter;
    FittingLengths(c, pulls, replies, answers);
    StaysPlaced(c, b, pulls, replies, answers, i, |c.leftover|);
  }
}
