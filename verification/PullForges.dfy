/** The parties of a pull request run: forges that may refuse anything, and the two tables. */
module PullForges {
  import opened Pairing
  import opened Objects
  import opened PullRequests
  import Forges

  type Listing = map<Id, PullRequest>

  datatype CreateReply =
    | Made(id: Id, pull: PullRequest)
    | AlreadyExists            // GitHub: a pull request spans these refs
    | NoCommits                // GitHub: the refs do not differ
    | Refused(status: nat)     // Forgejo: an API error with this status
    | Failed                   // anything else

  datatype Error = Fault | Unique

  /** A create request and how the forge replied. */
  datatype Asked = Asked(item: PullRequest, reply: CreateReply)

  /** A forge's pull requests.  Refs never change; every call may fail. */
  class PullForge {
    var pulls: Listing
    var listed: Listing   // what the last listing returned
    var order: seq<Id>    // and in which order
    var trouble: bool     // a call other than a create failed, which ends the run
    var stuck: bool       // a last-resort update met a locked pull request, which ends the run
    var log: seq<Asked>   // all create requests
    const onGitHub: bool

    constructor (pulls: Listing, onGitHub: bool)
      ensures this.pulls == pulls && this.listed == map[] && this.order == [] && this.onGitHub == onGitHub
      ensures !trouble && !stuck && log == []
    {
      this.pulls, this.listed, this.order, this.onGitHub := pulls, map[], [], onGitHub;
      trouble, stuck, log := false, false, [];
    }

    ghost predicate Knows(listed: Listing)
      reads this
    {
      KnowsListing(pulls, listed)
    }

    /** A listing may miss pull requests that others open meanwhile. */
    method List() returns (ok: bool, ids: seq<Id>)
      modifies this`listed, this`order, this`trouble
      ensures trouble == (old(trouble) || !ok) && order == ids
      ensures Distinct(ids) && (forall x :: x in ids <==> x in listed)
      ensures Knows(listed)
    {
      ok := *;
      trouble := trouble || !ok;
      var some: set<Id> := *;
      listed := map x | x in pulls && x in some :: pulls[x];
      ids := Forges.Enumerate(listed.Keys);
      order := ids;
    }

    /** Others may open a pull request at the same moment; GitHub refuses a second one for the same refs. */
    method Create(item: PullRequest) returns (reply: CreateReply)
      modifies this`pulls, this`log
      ensures log == old(log) + [Asked(item, reply)]
      ensures if onGitHub then !reply.Refused? else reply != AlreadyExists && reply != NoCommits
      ensures forall x :: x in old(pulls) ==> x in pulls && SameRefs(pulls[x].digest, old(pulls)[x].digest)
      ensures reply.Made? ==> reply.id !in old(pulls) && reply.id in pulls && pulls[reply.id] == reply.pull
                              && SameRefs(reply.pull.digest, item.digest)
      ensures reply == AlreadyExists ==> Spans(pulls, item.digest)
    {
      reply := *;
      if (if onGitHub then reply.Refused? else reply == AlreadyExists || reply == NoCommits) { reply := Failed; }
      if reply.Made? || reply == AlreadyExists {
        ghost var free := Forges.NatAbove(pulls.Keys);
        assert free !in pulls.Keys;
        var id :| id !in pulls;
        var title: string, body: string, state: string := *, *, *;
        var pull := item.(digest := item.digest.(title := title, body := body, state := state));
        if reply.Made? {
          reply := Made(id, pull);
          pulls := pulls[id := pull];
        } else if forall x :: x in pulls ==> !SameRefs(pulls[x].digest, item.digest) {
          pulls := pulls[id := pull];
          assert SameRefs(pulls[id].digest, item.digest);
        }
      }
      log := log + [Asked(item, reply)];
    }

    /** Looks a pull request up by its head ref. */
    method FindByHead(head: string) returns (ok: bool, found: Option<Id>)
      modifies this`trouble
      ensures trouble == (old(trouble) || !ok || found.None?)
      ensures found.Some? ==> found.value in pulls && pulls[found.value].digest.head == head
    {
      ok := *;
      found := None;
      var some: set<Id> := *;
      var matching := set x | x in pulls && x in some && pulls[x].digest.head == head;
      if matching != {} {
        var x :| x in matching;
        found := Some(x);
      }
      trouble := trouble || !ok || found.None?;
    }

    /** Only Forgejo locks a pull request, only GitHub refuses to reopen one. */
    method Update(id: Id, item: Digest, lastResort: bool) returns (reply: UpdateReply)
      modifies this`pulls, this`trouble, this`stuck
      ensures trouble == (old(trouble) || reply.Broken?) && stuck == (old(stuck) || (lastResort && reply.Locked?))
      ensures if onGitHub then !reply.Locked? else !reply.CannotReopen?
      ensures pulls == if reply.Updated? then Edited(old(pulls), id, item) else old(pulls)
    {
      reply := *;
      if (if onGitHub then reply.Locked? else reply.CannotReopen?) { reply := Broken; }
      trouble, stuck := trouble || reply.Broken?, stuck || (lastResort && reply.Locked?);
      if reply.Updated? { pulls := Edited(pulls, id, item); }
    }
  }

  /** The pull requests after an update of one of them. */
  function Edited(pulls: Listing, id: Id, item: Digest): Listing
  {
    if id in pulls then pulls[id := pulls[id].(digest := UpdateTo(pulls[id].digest, item))] else pulls
  }

  /** What the update call of a compared pair did to the two forges. */
  predicate Copied(githubBefore: Listing, forgejoBefore: Listing, github: Listing, forgejo: Listing,
                   g: Id, row: PullRow, githubItem: Digest, forgejoItem: Digest, reply: UpdateReply)
  {
    match Compare(githubItem, forgejoItem, row.baseline)
    case InSync => github == githubBefore && forgejo == forgejoBefore
    case Clash => github == githubBefore && forgejo == forgejoBefore
    case ToForgejo =>
      github == githubBefore && forgejo == if reply.Updated? then Edited(forgejoBefore, row.forgejo, githubItem) else forgejoBefore
    case ToGitHub =>
      if reply.CannotReopen? then github == githubBefore && forgejo == Edited(forgejoBefore, row.forgejo, githubItem)
      else github == Edited(githubBefore, g, forgejoItem) && forgejo == forgejoBefore
  }

  predicate SameRefs(d: Digest, d': Digest)
  {
    d.head == d'.head && d.base == d'.base
  }

  class PullStore {
    var rows: map<Id, PullRow>
    var conflicts: set<PullConflict>
    var trouble: bool   // a call failed

    constructor ()
      ensures Books() == PullRequests.Books(map[], {}) && !trouble
    {
      rows, conflicts, trouble := map[], {}, false;
    }

    function Books(): Books
      reads this
    {
      PullRequests.Books(rows, conflicts)
    }

    method Upsert(g: Id, row: PullRow) returns (err: Option<Error>)
      modifies this
      ensures err == None ==> !Taken(old(rows), g, row.forgejo) && Books() == old(Books()).(rows := old(rows)[g := row])
      ensures err == Some(Unique) ==> Taken(rows, g, row.forgejo) && Books() == old(Books())
      ensures trouble == (old(trouble) || err == Some(Fault))
    {
      if Taken(rows, g, row.forgejo) { return Some(Unique); }
      var ok: bool := *;
      trouble := trouble || !ok;
      if !ok { return Some(Fault); }
      rows := rows[g := row];
      err := None;
    }

    method AddConflict(c: PullConflict) returns (ok: bool)
      modifies this
      ensures ok ==> Books() == WithConflict(old(Books()), c)
      ensures trouble == (old(trouble) || !ok)
    {
      ok := *;
      trouble := trouble || !ok;
      if ok { conflicts := conflicts + {c}; }
    }
  }

  /** Some pull request has these refs. */
  ghost predicate Spans(pulls: Listing, item: Digest)
  {
    exists x :: x in pulls && SameRefs(pulls[x].digest, item)
  }

  /** What earlier answers said about refs stays true. */
  ghost predicate SameKnowledge(pulls: Listing, pulls': Listing)
  {
    forall x :: x in pulls ==> x in pulls' && SameRefs(pulls'[x].digest, pulls[x].digest)
  }

  /** A forge still has everything that was listed, with the same refs. */
  ghost predicate KnowsListing(pulls: Listing, listed: Listing)
  {
    forall x :: x in listed ==> x in pulls && SameRefs(pulls[x].digest, listed[x].digest)
  }

  // ---- adoption and answers ----

  predicate Fits(candidate: Digest, item: Digest, byTitle: bool, normalize: string -> string)
  {
    SameRefs(candidate, item) && (byTitle ==> normalize(candidate.title) == normalize(item.title))
  }

  /** The first unconsumed candidate that fits. */
  function FirstFit(ids: seq<Id>, listed: Listing, item: Digest, consumed: set<Id>, byTitle: bool, normalize: string -> string): Option<Id>
    requires forall x :: x in ids ==> x in listed
  {
    if ids == [] then None
    else if ids[0] !in consumed && Fits(listed[ids[0]].digest, item, byTitle, normalize) then Some(ids[0])
    else FirstFit(ids[1..], listed, item, consumed, byTitle, normalize)
  }

  predicate Usable(x: Id, listed: Listing, item: Digest, consumed: set<Id>, byTitle: bool, normalize: string -> string)
  {
    x in listed && x !in consumed && Fits(listed[x].digest, item, byTitle, normalize)
  }

  /** All candidates before the one found are unusable; nothing is found only if all are. */
  lemma {:induction false} FirstFitIsFirst(ids: seq<Id>, listed: Listing, item: Digest, consumed: set<Id>,
                                           byTitle: bool, normalize: string -> string) returns (i: nat)
    requires forall x :: x in ids ==> x in listed
    ensures i <= |ids| && forall j :: 0 <= j < i ==> !Usable(ids[j], listed, item, consumed, byTitle, normalize)
    ensures i < |ids| ==> Usable(ids[i], listed, item, consumed, byTitle, normalize)
    ensures FirstFit(ids, listed, item, consumed, byTitle, normalize) == if i == |ids| then None else Some(ids[i])
  {
    hide SameRefs, Fits;
    if ids == [] || Usable(ids[0], listed, item, consumed, byTitle, normalize) {
      i := 0;
    } else {
      var k := FirstFitIsFirst(ids[1..], listed, item, consumed, byTitle, normalize);
      i := k + 1;
      forall j | 0 <= j < i ensures !Usable(ids[j], listed, item, consumed, byTitle, normalize) {
        if j > 0 { assert ids[j] == ids[1..][j - 1]; }
      }
    }
  }

  /** Adoption on Forgejo: by refs and title first, then by refs alone. */
  function Adoption(ids: seq<Id>, listed: Listing, item: Digest, consumed: set<Id>, normalize: string -> string): Option<Id>
    requires forall x :: x in ids ==> x in listed
  {
    var titled := FirstFit(ids, listed, item, consumed, true, normalize);
    if titled.Some? then titled else FirstFit(ids, listed, item, consumed, false, normalize)
  }

  /** The first unconsumed candidate with these refs and this title, before any that has only the refs;
      failing that the first with these refs; none only if every candidate is consumed or has others. */
  lemma AdoptionPrefersTitle(ids: seq<Id>, listed: Listing, item: Digest, consumed: set<Id>, normalize: string -> string)
    returns (i: nat)
    requires forall x :: x in ids ==> x in listed
    ensures i <= |ids| && Adoption(ids, listed, item, consumed, normalize) == if i == |ids| then None else Some(ids[i])
    ensures i < |ids| ==> ids[i] !in consumed && SameRefs(listed[ids[i]].digest, item)
    ensures forall j | 0 <= j < |ids| && ids[j] !in consumed && SameRefs(listed[ids[j]].digest, item) ::
              i < |ids| && (i <= j || normalize(listed[ids[i]].digest.title) == normalize(item.title))
    ensures forall j | 0 <= j < |ids| && ids[j] !in consumed && SameRefs(listed[ids[j]].digest, item) ::
              normalize(listed[ids[j]].digest.title) == normalize(item.title) ==>
                i <= j && normalize(listed[ids[i]].digest.title) == normalize(item.title)
  {
    hide SameRefs, FirstFit;
    var titled := FirstFitIsFirst(ids, listed, item, consumed, true, normalize);
    var refsOnly := FirstFitIsFirst(ids, listed, item, consumed, false, normalize);
    i := if titled < |ids| then titled else refsOnly;
    forall j | 0 <= j < |ids| && ids[j] !in consumed && SameRefs(listed[ids[j]].digest, item)
      ensures Usable(ids[j], listed, item, consumed, false, normalize)
      ensures normalize(listed[ids[j]].digest.title) == normalize(item.title) ==> Usable(ids[j], listed, item, consumed, true, normalize) {}
  }

  lemma {:induction false} AdoptedIsListed(ids: seq<Id>, listed: Listing, item: Digest, consumed: set<Id>, byTitle: bool, normalize: string -> string)
    requires forall x :: x in ids ==> x in listed
    ensures var found := FirstFit(ids, listed, item, consumed, byTitle, normalize);
      found.Some? ==> found.value in listed && found.value !in consumed && SameRefs(listed[found.value].digest, item)
  {
    if ids != [] { AdoptedIsListed(ids[1..], listed, item, consumed, byTitle, normalize); }
  }

  /** What a GitHub leftover comes to; `None` ends the run. */
  function ForgejoAnswerTo(reply: CreateReply, adopted: Option<Id>, listed: Listing): Option<ForgejoAnswer>
    requires adopted.Some? ==> adopted.value in listed
  {
    if reply.Made? then Some(Counterpart(reply.id, reply.pull.digest))
    else if reply == Refused(404) || reply == Refused(422) then Some(Uncreateable)
    else if adopted.Some? then Some(Counterpart(adopted.value, listed[adopted.value].digest))
    else if reply == Refused(409) then Some(OccupiedRefs)
    else None
  }

  /** What a Forgejo leftover comes to: an existing pull request is adopted from the listing, or
      else looked up by its head ref. */
  predicate GitHubAnswerFits(answer: GitHubAnswer, reply: CreateReply, adopted: Option<Id>, listed: Listing, head: string, pulls: Listing)
  {
    match reply
    case Made(id, pull) => answer == Created(id, pull.digest)
    case NoCommits => answer == NoDifference
    case AlreadyExists =>
      if adopted.Some? then adopted.value in listed && answer == Existing(adopted.value, listed[adopted.value].digest)
      else answer.Existing? && answer.id in pulls && answer.digest == pulls[answer.id].digest && answer.digest.head == head
    case _ => false
  }
}
