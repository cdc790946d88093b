/** What a pull request run writes down, on values.

    Forges refuse pull requests in many ways, so a run cannot promise that every
    one gets a counterpart.  It promises accounting: each listed pull request is
    in a mapping row or named by a conflict. */
module PullRequests {
  import opened Pairing
  import opened Objects

  /** The hashed fields; an update can change only title, body and state. */
  datatype Digest = Digest(title: string, body: string, state: string, head: string, base: string, draft: bool, merged: bool)

  datatype PullRequest = PullRequest(index: nat, digest: Digest)

  datatype PullRow = PullRow(forgejo: Id, baseline: Digest)

  datatype Kind = MissingPull | LockedPull | ClashingPull | EmptyPull | DuplicatePull | PairingClash

  datatype Seen = Absent | Present(digest: Digest, id: Id) | Holds(digest: Digest) | Note(text: string)

  datatype PullConflict = PullConflict(kind: Kind, github: Option<Id>, forgejo: Option<Id>, githubState: Seen, forgejoState: Seen)

  /** The mapping table, keyed by GitHub id and UNIQUE by Forgejo id, and the conflict table. */
  datatype Books = Books(rows: map<Id, PullRow>, conflicts: set<PullConflict>)

  ghost predicate UniquePulls(rows: map<Id, PullRow>)
  {
    forall x, y :: x in rows && y in rows && rows[x].forgejo == rows[y].forgejo ==> x == y
  }

  /** Another row already has the Forgejo id. */
  predicate Taken(rows: map<Id, PullRow>, g: Id, f: Id)
  {
    exists x :: x in rows && x != g && rows[x].forgejo == f
  }

  function WithConflict(b: Books, c: PullConflict): Books
  {
    b.(conflicts := b.conflicts + {c})
  }

  /** Upsert a row; a UNIQUE violation is recorded as a conflict naming both. */
  function Enter(b: Books, g: Id, row: PullRow, githubItem: Digest, forgejoItem: Digest): Books
  {
    if Taken(b.rows, g, row.forgejo)
    then WithConflict(b, PullConflict(PairingClash, Some(g), Some(row.forgejo), Holds(githubItem), Holds(forgejoItem)))
    else b.(rows := b.rows[g := row])
  }

  // ---- accounting ----

  ghost predicate NamesGitHub(b: Books, g: Id)
  {
    exists c :: c in b.conflicts && c.github == Some(g)
  }

  ghost predicate NamesForgejo(b: Books, f: Id)
  {
    exists c :: c in b.conflicts && c.forgejo == Some(f)
  }

  ghost predicate GitHubAccounted(b: Books, g: Id)
  {
    g in b.rows || NamesGitHub(b, g)
  }

  ghost predicate ForgejoAccounted(b: Books, f: Id)
  {
    (exists g :: g in b.rows && b.rows[g].forgejo == f) || NamesForgejo(b, f)
  }

  /** f is mapped by one of the GitHub pull requests in `fixed`, or named by a conflict. */
  ghost predicate ForgejoFixed(b: Books, fixed: set<Id>, f: Id)
  {
    (exists g :: g in fixed && g in b.rows && b.rows[g].forgejo == f) || NamesForgejo(b, f)
  }

  /** The consumed pull requests of both forges are accounted for, by rows of consumed ones. */
  ghost predicate Booked(b: Books, consumedGitHub: set<Id>, consumedForgejo: set<Id>)
  {
    && UniquePulls(b.rows)
    && (forall g :: g in consumedGitHub ==> GitHubAccounted(b, g))
    && (forall f :: f in consumedForgejo ==> ForgejoFixed(b, consumedGitHub, f))
  }

  /** Rows are never dropped, conflicts never forgotten, and the rows of `fixed` stay. */
  ghost predicate Extends(b: Books, b': Books, fixed: set<Id>)
  {
    && b.rows.Keys <= b'.rows.Keys && b.conflicts <= b'.conflicts
    && (forall g :: g in fixed && g in b.rows ==> b'.rows[g] == b.rows[g])
  }

  lemma ExtendsKeeps(b: Books, b': Books, fixed: set<Id>)
    requires Extends(b, b', fixed)
    ensures forall g :: GitHubAccounted(b, g) ==> GitHubAccounted(b', g)
    ensures forall f :: ForgejoFixed(b, fixed, f) ==> ForgejoFixed(b', fixed, f)
    ensures forall f :: NamesForgejo(b, f) ==> NamesForgejo(b', f)
  {
    forall f | ForgejoFixed(b, fixed, f) ensures ForgejoFixed(b', fixed, f) {
      if !NamesForgejo(b, f) {
        var g :| g in fixed && g in b.rows && b.rows[g].forgejo == f;
        assert g in b'.rows && b'.rows[g].forgejo == f;
      }
    }
  }

  lemma NoteExtends(b: Books, c: PullConflict, fixed: set<Id>)
    ensures Extends(b, WithConflict(b, c), fixed)
    ensures c.github.Some? ==> NamesGitHub(WithConflict(b, c), c.github.value)
    ensures c.forgejo.Some? ==> NamesForgejo(WithConflict(b, c), c.forgejo.value)
  {
  }

  /** Entering a pair accounts for both of its members. */
  lemma EnterExtends(b: Books, g: Id, row: PullRow, githubItem: Digest, forgejoItem: Digest, fixed: set<Id>)
    requires UniquePulls(b.rows) && g !in fixed
    ensures var b' := Enter(b, g, row, githubItem, forgejoItem);
      && Extends(b, b', fixed) && UniquePulls(b'.rows) && GitHubAccounted(b', g)
      && (NamesForgejo(b', row.forgejo) || (g in b'.rows && b'.rows[g] == row))
  {
    var c := PullConflict(PairingClash, Some(g), Some(row.forgejo), Holds(githubItem), Holds(forgejoItem));
    NoteExtends(b, c, fixed);
  }

  // ---- what the leftovers lead to ----

  /** The answer for a GitHub leftover: a Forgejo pull request, created or adopted, or a refusal. */
  datatype ForgejoAnswer = Counterpart(id: Id, digest: Digest) | Uncreateable | OccupiedRefs

  /** The answer for a Forgejo leftover; an existing one was adopted from the listing or looked up. */
  datatype GitHubAnswer = Created(id: Id, digest: Digest) | Existing(id: Id, digest: Digest) | NoDifference

  function LandGitHub(b: Books, g: Id, item: Digest, answer: ForgejoAnswer): Books
  {
    match answer
    case Counterpart(f, d) => Enter(b, g, PullRow(f, item), item, d)
    case Uncreateable => WithConflict(b, PullConflict(EmptyPull, Some(g), None, Holds(item), Note("uncreateable")))
    case OccupiedRefs => WithConflict(b, PullConflict(DuplicatePull, Some(g), None, Holds(item), Note("occupied-refs")))
  }

  function LandForgejo(b: Books, consumedGitHub: set<Id>, f: Id, item: Digest, answer: GitHubAnswer): Books
  {
    match answer
    case Created(g, d) => Enter(b, g, PullRow(f, d), d, item)
    case Existing(g, d) =>
      if g in consumedGitHub then WithConflict(b, PullConflict(DuplicatePull, Some(g), Some(f), Holds(d), Holds(item)))
      else Enter(b, g, PullRow(f, d), d, item)
    case NoDifference => WithConflict(b, PullConflict(EmptyPull, None, Some(f), Note("no-diff"), Holds(item)))
  }

  /** The books after a whole loop, leftover by leftover. */
  function LandAllGitHub(b: Books, ids: seq<Id>, items: map<Id, PullRequest>, answers: seq<ForgejoAnswer>): Books
    requires |ids| == |answers| && forall x :: x in ids ==> x in items
  {
    if ids == [] then b
    else
      var n := |ids| - 1;
      LandGitHub(LandAllGitHub(b, ids[..n], items, answers[..n]), ids[n], items[ids[n]].digest, answers[n])
  }

  function LandAllForgejo(b: Books, consumedGitHub: set<Id>, ids: seq<Id>, items: map<Id, PullRequest>, answers: seq<GitHubAnswer>): Books
    requires |ids| == |answers| && forall x :: x in ids ==> x in items
  {
    if ids == [] then b
    else
      var n := |ids| - 1;
      LandForgejo(LandAllForgejo(b, consumedGitHub, ids[..n], items, answers[..n]), consumedGitHub, ids[n], items[ids[n]].digest, answers[n])
  }

  /** A GitHub leftover is accounted for whatever Forgejo answers. */
  lemma LandedGitHub(b: Books, g: Id, item: Digest, answer: ForgejoAnswer, consumedGitHub: set<Id>, consumedForgejo: set<Id>)
    requires Booked(b, consumedGitHub, consumedForgejo) && g !in consumedGitHub
    ensures var b' := LandGitHub(b, g, item, answer);
      Extends(b, b', consumedGitHub) && Booked(b', consumedGitHub, consumedForgejo) && GitHubAccounted(b', g)
  {
    hide Extends, UniquePulls, ForgejoFixed, GitHubAccounted, NamesForgejo, WithConflict, Enter;
    match answer {
      case Counterpart(f, d) => EnterExtends(b, g, PullRow(f, item), item, d, consumedGitHub);
      case Uncreateable =>
        NotedGitHub(b, PullConflict(EmptyPull, Some(g), None, Holds(item), Note("uncreateable")), consumedGitHub, g);
      case OccupiedRefs =>
        NotedGitHub(b, PullConflict(DuplicatePull, Some(g), None, Holds(item), Note("occupied-refs")), consumedGitHub, g);
    }
    ExtendsKeeps(b, LandGitHub(b, g, item, answer), consumedGitHub);
  }

  lemma NotedGitHub(b: Books, c: PullConflict, fixed: set<Id>, g: Id)
    requires UniquePulls(b.rows) && c.github == Some(g)
    ensures Extends(b, WithConflict(b, c), fixed) && UniquePulls(WithConflict(b, c).rows) && GitHubAccounted(WithConflict(b, c), g)
  {
    NoteExtends(b, c, fixed);
  }

  /** Where the answer to a Forgejo leftover puts it: into the row of its target, or into a conflict. */
  ghost predicate PlacedForgejo(b: Books, f: Id, target: set<Id>)
  {
    NamesForgejo(b, f) || exists g :: g in target && g in b.rows && b.rows[g].forgejo == f
  }

  function Target(answer: GitHubAnswer): set<Id>
  {
    if answer.NoDifference? then {} else {answer.id}
  }

  lemma LandedForgejo(b: Books, f: Id, item: Digest, answer: GitHubAnswer, consumedGitHub: set<Id>, consumedForgejo: set<Id>)
    requires Booked(b, consumedGitHub, consumedForgejo) && (answer.Created? ==> answer.id !in consumedGitHub)
    ensures var b' := LandForgejo(b, consumedGitHub, f, item, answer);
      && Extends(b, b', consumedGitHub) && Booked(b', consumedGitHub, consumedForgejo)
      && PlacedForgejo(b', f, Target(answer))
      && (forall g :: g in b.rows && g !in Target(answer) ==> b'.rows[g] == b.rows[g])
  {
    var b' := LandForgejo(b, consumedGitHub, f, item, answer);
    match answer {
      case Created(g, d) => EnterExtends(b, g, PullRow(f, d), d, item, consumedGitHub);
      case Existing(g, d) =>
        if g in consumedGitHub {
          NoteExtends(b, PullConflict(DuplicatePull, Some(g), Some(f), Holds(d), Holds(item)), consumedGitHub);
        } else {
          EnterExtends(b, g, PullRow(f, d), d, item, consumedGitHub);
        }
      case NoDifference => NoteExtends(b, PullConflict(EmptyPull, None, Some(f), Note("no-diff"), Holds(item)), consumedGitHub);
    }
    ExtendsKeeps(b, b', consumedGitHub);
  }

  // ---- a mapped pair ----

  datatype Direction = InSync | ToForgejo | ToGitHub | Clash

  function Compare(github: Digest, forgejo: Digest, baseline: Digest): Direction
  {
    if github == forgejo then InSync
    else if forgejo == baseline then ToForgejo
    else if github == baseline then ToGitHub
    else Clash
  }

  datatype UpdateReply = Updated | Locked | CannotReopen | Broken

  /** A pair of a pairing pass is in the books: as a row, or, for equal digests, as a clash with another row. */
  ghost predicate Entered(b: Books, g: Id, f: Id, githubItem: Digest, forgejoItem: Digest, byDigest: bool)
  {
    || (g in b.rows && b.rows[g] == PullRow(f, if byDigest then githubItem else forgejoItem))
    || (byDigest && PullConflict(PairingClash, Some(g), Some(f), Holds(githubItem), Holds(forgejoItem)) in b.conflicts)
  }

  lemma EnterEnters(b: Books, g: Id, f: Id, githubItem: Digest, forgejoItem: Digest, byDigest: bool)
    requires byDigest || !Taken(b.rows, g, f)
    ensures var row := PullRow(f, if byDigest then githubItem else forgejoItem);
      Entered(Enter(b, g, row, githubItem, forgejoItem), g, f, githubItem, forgejoItem, byDigest)
  {
  }

  lemma EnterKeepsOthers(b: Books, g: Id, row: PullRow, githubItem: Digest, forgejoItem: Digest,
                         h: Id, f: Id, gd: Digest, fd: Digest, byDigest: bool)
    requires Entered(b, h, f, gd, fd, byDigest) && h != g
    ensures Entered(Enter(b, g, row, githubItem, forgejoItem), h, f, gd, fd, byDigest)
  {
  }

  /** The replies with which a run goes on. */
  predicate Handled(direction: Direction, reply: UpdateReply)
  {
    match direction
    case InSync => true
    case Clash => true
    case ToForgejo => reply.Updated? || reply.Locked?
    case ToGitHub => reply.Updated? || reply.CannotReopen?
  }

  /** The baseline a successful run leaves in the row, by the reply to its update call. */
  function BaselineAfter(github: Digest, forgejo: Digest, baseline: Digest, reply: UpdateReply): Digest
  {
    match Compare(github, forgejo, baseline)
    case InSync => github
    case ToForgejo => github
    case ToGitHub => if reply.CannotReopen? then github else forgejo
    case Clash => baseline
  }

  /** What an accepted update makes of a pull request. */
  function UpdateTo(d: Digest, item: Digest): Digest
  {
    d.(title := item.title, body := item.body, state := item.state)
  }
}
