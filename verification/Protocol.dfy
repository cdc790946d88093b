/** The protocol shared by issues, releases and comments, on values.

    A `World` is what the two forges and the mapping table hold for one
    repository (for comments, one thread).  `PlanOf` says what a run will do
    with the objects that are not mapped; `Interrupted` is the state after any
    part of a run's work, whatever its order, `Stopped` a state in which a run can
    really stop, with its work done in order, and `Run` the state after a whole run. */
module Protocol {
  import opened Pairing
  import opened Objects

  /** One mapping row; the table's primary key is the GitHub id. */
  datatype Row = Row(forgejo: Id, githubAddress: nat, forgejoAddress: nat, baseline: Content)

  /** A conflict row by the columns of its UNIQUE constraint. */
  datatype Conflict =
    | Missing(github: Id, forgejo: Id, githubState: Option<Content>, forgejoState: Option<Content>)
    | Diverged(github: Id, forgejo: Id, githubContent: Content, forgejoContent: Content)

  /** `pins` is true for releases: a mapped object whose partner vanished stays with its row.
      `githubUsed` and `forgejoUsed` are the ids ever handed out; a forge never reuses one. */
  datatype World = World(
    pins: bool,
    github: map<Id, Object>, forgejo: map<Id, Object>,
    rows: map<Id, Row>, conflicts: set<Conflict>,
    githubUsed: set<Id>, forgejoUsed: set<Id>)

  ghost predicate UniqueAddresses(objects: map<Id, Object>)
  {
    forall x, y :: x in objects && y in objects && objects[x].address == objects[y].address ==> x == y
  }

  /** The UNIQUE constraint on the Forgejo column. */
  ghost predicate UniqueForgejo(rows: map<Id, Row>)
  {
    forall x, y :: x in rows && y in rows && rows[x].forgejo == rows[y].forgejo ==> x == y
  }

  ghost predicate Valid(w: World)
  {
    && w.github.Keys <= w.githubUsed && w.forgejo.Keys <= w.forgejoUsed && w.rows.Keys <= w.githubUsed
    && (forall g :: g in w.rows ==> w.rows[g].forgejo in w.forgejoUsed)
    && UniqueForgejo(w.rows)
    && UniqueAddresses(w.github) && UniqueAddresses(w.forgejo)
    && (forall g :: g in w.rows && g in w.github ==> w.github[g].address == w.rows[g].githubAddress)
    && (forall g :: g in w.rows && w.rows[g].forgejo in w.forgejo ==>
          w.forgejo[w.rows[g].forgejo].address == w.rows[g].forgejoAddress)
  }

  // ---- mapped pairs ----

  predicate Live(w: World, g: Id)
  {
    g in w.rows && g in w.github && w.rows[g].forgejo in w.forgejo
  }

  /** The three inputs of the three-way comparison. */
  datatype Triple = Triple(github: Content, forgejo: Content, baseline: Content)

  function View(w: World, g: Id): Triple
    requires Live(w, g)
  {
    Triple(w.github[g].content, w.forgejo[w.rows[g].forgejo].content, w.rows[g].baseline)
  }

  predicate InConflict(t: Triple)
  {
    t.github != t.forgejo && t.forgejo != t.baseline && t.github != t.baseline
  }

  /** Forgejo's update of an issue sends everything but the labels first, and the labels then. */
  function WithoutLabels(content: Content, before: Content): Content
  {
    if content.Issue? && before.Issue? then content.(labels := before.labels) else content
  }

  /** Between the two requests of an update on Forgejo. */
  function Halfway(t: Triple): Triple
  {
    if t.github != t.forgejo && t.forgejo == t.baseline then t.(forgejo := WithoutLabels(t.github, t.forgejo)) else t
  }

  /** After the update call and before the row is written. */
  function Remote(t: Triple): Triple
  {
    if t.github == t.forgejo then t
    else if t.forgejo == t.baseline then t.(forgejo := t.github)
    else if t.github == t.baseline then t.(github := t.forgejo)
    else t
  }

  /** After the row is written as well. */
  function Sync(t: Triple): Triple
  {
    if InConflict(t) then t else Remote(t).(baseline := Remote(t).github)
  }

  // ---- unmapped objects ----

  ghost function FreeGitHub(w: World): (ids: set<Id>)
    ensures ids <= w.github.Keys
  {
    set g | g in w.github && !Live(w, g) && !(w.pins && g in w.rows)
  }

  /** Held by a row that makes the run treat it as mapped. */
  ghost predicate Held(w: World, f: Id)
  {
    exists g :: g in w.rows && w.rows[g].forgejo == f && (w.pins || g in w.github)
  }

  ghost function FreeForgejo(w: World): (ids: set<Id>)
    ensures ids <= w.forgejo.Keys
  {
    set f | f in w.forgejo && !Held(w, f)
  }

  function Contents(objects: map<Id, Object>, ids: set<Id>): map<Id, Signature<Content>>
  {
    map x | x in ids && x in objects :: ContentSignature(objects[x])
  }

  function Slots(objects: map<Id, Object>, ids: set<Id>): map<Id, Signature<Slot>>
  {
    map x | x in ids && x in objects && HasSlot(objects[x]) :: SlotSignature(objects[x])
  }

  ghost function HashPairs(w: World): map<Id, Id>
  {
    Pairs(Contents(w.github, FreeGitHub(w)), Contents(w.forgejo, FreeForgejo(w)))
  }

  /** Left by the first pass. */
  ghost function RestGitHub(w: World): (ids: set<Id>)
    ensures ids <= w.github.Keys
  {
    FreeGitHub(w) - HashPairs(w).Keys
  }

  ghost function RestForgejo(w: World): (ids: set<Id>)
    ensures ids <= w.forgejo.Keys
  {
    FreeForgejo(w) - HashPairs(w).Values
  }

  ghost function SlotPairs(w: World): map<Id, Id>
  {
    Pairs(Slots(w.github, RestGitHub(w)), Slots(w.forgejo, RestForgejo(w)))
  }

  /** What a run does with the unmapped objects: `join` pairs get a row, each
      leftover is copied to the other forge. */
  datatype Plan = Plan(join: map<Id, Id>, leftGitHub: set<Id>, leftForgejo: set<Id>)

  ghost function PlanOf(w: World): Plan
  {
    Plan(HashPairs(w) + SlotPairs(w),
         RestGitHub(w) - SlotPairs(w).Keys,
         RestForgejo(w) - SlotPairs(w).Values)
  }

  /** A plan that deals with every unmapped object of either forge exactly once. */
  ghost predicate Splits(w: World, p: Plan)
  {
    && Injective(p.join)
    && p.join.Keys + p.leftGitHub == FreeGitHub(w) && p.join.Keys !! p.leftGitHub
    && p.join.Values + p.leftForgejo == FreeForgejo(w) && p.join.Values !! p.leftForgejo
  }

  lemma PlanSplits(w: World)
    ensures Splits(w, PlanOf(w))
  {
    var h, s := HashPairs(w), SlotPairs(w);
    assert h.Keys <= FreeGitHub(w) && h.Values <= FreeForgejo(w);
    assert s.Keys <= RestGitHub(w) && s.Values <= RestForgejo(w);
    JoinMaps(h, s);
  }

  // ---- rows and conflicts a run may write ----

  /** Both passes record the Forgejo content: after a hash match it is GitHub's too. */
  function JoinRow(w: World, g: Id, f: Id): Row
    requires g in w.github && f in w.forgejo
  {
    Row(f, w.github[g].address, w.forgejo[f].address, w.forgejo[f].content)
  }

  function ConflictOf(w: World, g: Id): Conflict
    requires g in w.rows
  {
    var f := w.rows[g].forgejo;
    if Live(w, g) then Diverged(g, f, w.github[g].content, w.forgejo[f].content)
    else Missing(g, f, if g in w.github then Some(w.github[g].content) else None,
                       if f in w.forgejo then Some(w.forgejo[f].content) else None)
  }

  predicate Raises(w: World, g: Id)
    requires g in w.rows
  {
    Live(w, g) ==> InConflict(View(w, g))
  }

  function NewConflicts(w: World): set<Conflict>
  {
    set g | g in w.rows && Raises(w, g) :: ConflictOf(w, g)
  }

  // ---- runs ----

  /** Objects created by a run: each new id with the object it copies. */
  datatype Births = Births(github: map<Id, Id>, forgejo: map<Id, Id>)

  const NO_BIRTHS := Births(map[], map[])

  ghost predicate BirthsOk(w: World, p: Plan, b: Births)
  {
    && b.github.Keys !! w.githubUsed && b.forgejo.Keys !! w.forgejoUsed
    && Injective(b.github) && Injective(b.forgejo)
    && b.github.Values <= p.leftForgejo && b.forgejo.Values <= p.leftGitHub
  }

  /** Nothing outside the mapped pairs changed, apart from the births. */
  ghost predicate Framed(w: World, w': World, b: Births)
  {
    && w'.pins == w.pins
    && w'.githubUsed == w.githubUsed + b.github.Keys && w'.forgejoUsed == w.forgejoUsed + b.forgejo.Keys
    && w'.github.Keys == w.github.Keys + b.github.Keys && w'.forgejo.Keys == w.forgejo.Keys + b.forgejo.Keys
    && (forall g :: g in w.github ==> w'.github[g].address == w.github[g].address)
    && (forall f :: f in w.forgejo ==> w'.forgejo[f].address == w.forgejo[f].address)
    && (forall g :: g in w.github && !Live(w, g) ==> w'.github[g] == w.github[g])
    && (forall f :: f in w.forgejo && !Tied(w, f) ==> w'.forgejo[f] == w.forgejo[f])
    && (forall n :: n in b.github ==> b.github[n] in w.forgejo && w'.github[n].content == w.forgejo[b.github[n]].content)
    && (forall n :: n in b.forgejo ==> b.forgejo[n] in w.github && w'.forgejo[n].content == w.github[b.forgejo[n]].content)
  }

  /** The Forgejo side of a live pair. */
  ghost predicate Tied(w: World, f: Id)
  {
    exists g :: Live(w, g) && w.rows[g].forgejo == f
  }

  ghost predicate SameLink(w: World, w': World, g: Id)
    requires g in w.rows
  {
    g in w'.rows && w'.rows[g] == w.rows[g].(baseline := w'.rows[g].baseline)
  }

  /** A live pair is untouched, updated remotely, perhaps without its labels yet, or finished. */
  ghost predicate PairProgress(w: World, w': World, g: Id)
    requires Live(w, g)
  {
    && SameLink(w, w', g) && Live(w', g)
    && (View(w', g) == View(w, g) || View(w', g) == Halfway(View(w, g)) || View(w', g) == Remote(View(w, g))
        || View(w', g) == Sync(View(w, g)))
  }

  /** The row that maps g to its copy on Forgejo. */
  ghost predicate IsForgejoBirthRow(w: World, w': World, b: Births, g: Id, r: Row)
  {
    && r.forgejo in b.forgejo && b.forgejo[r.forgejo] == g && g in w.github && r.forgejo in w'.forgejo
    && r == Row(r.forgejo, w.github[g].address, w'.forgejo[r.forgejo].address, w.github[g].content)
  }

  /** The row that maps the copy n on GitHub to its Forgejo original. */
  ghost predicate IsGitHubBirthRow(w: World, w': World, b: Births, n: Id, r: Row)
  {
    && n in b.github && b.github[n] in w.forgejo && n in w'.github
    && r == Row(b.github[n], w'.github[n].address, w.forgejo[b.github[n]].address, w.forgejo[b.github[n]].content)
  }

  /** Where a row of w' that is not a live row of w comes from. */
  ghost predicate RowSource(w: World, p: Plan, w': World, b: Births, g: Id)
    requires g in w'.rows
  {
    || (g in w.rows && w'.rows[g] == w.rows[g])
    || (g in p.join && g in w.github && p.join[g] in w.forgejo
        && w'.rows[g] == JoinRow(w, g, p.join[g]))
    || IsForgejoBirthRow(w, w', b, g, w'.rows[g])
    || IsGitHubBirthRow(w, w', b, g, w'.rows[g])
  }

  /** The state after any part of the work of one run that started in w and followed plan p, in any
      order: more states than a run can stop in. */
  ghost predicate Interrupted(w: World, p: Plan, w': World, b: Births)
  {
    && Valid(w') && BirthsOk(w, p, b) && Framed(w, w', b)
    && w.rows.Keys <= w'.rows.Keys
    && (forall g :: Live(w, g) ==> PairProgress(w, w', g))
    && (forall g :: g in w'.rows && !Live(w, g) ==> RowSource(w, p, w', b, g))
    && w.conflicts <= w'.conflicts <= w.conflicts + NewConflicts(w)
  }

  /** Every unit of work is finished. */
  ghost predicate Finished(w: World, p: Plan, w': World, b: Births)
  {
    && (forall g :: Live(w, g) ==> Live(w', g) && View(w', g) == Sync(View(w, g)))
    && NewConflicts(w) <= w'.conflicts
    && (forall g :: g in p.join ==> g in w'.rows && w'.rows[g].forgejo == p.join[g])
    && b.forgejo.Values == p.leftGitHub
    && b.github.Values == p.leftForgejo
    && (forall n :: n in b.forgejo ==> b.forgejo[n] in w'.rows && w'.rows[b.forgejo[n]].forgejo == n)
    && (forall n :: n in b.github ==> n in w'.rows && w'.rows[n].forgejo == b.github[n])
  }

  /** The state after one complete run that started in w and followed plan p. */
  ghost predicate Run(w: World, p: Plan, w': World, b: Births)
  {
    Interrupted(w, p, w', b) && Finished(w, p, w', b)
  }

  // ---- where a run can stop ----

  ghost predicate Linked(w: World, x: Id, y: Id)
  {
    x in w.rows && w.rows[x].forgejo == y
  }

  ghost predicate AllLinked(w: World, pairs: map<Id, Id>)
  {
    forall x :: x in pairs ==> Linked(w, x, pairs[x])
  }

  ghost predicate NoneLinked(w: World, pairs: map<Id, Id>)
  {
    forall x :: x in pairs ==> !Linked(w, x, pairs[x])
  }

  /** The mapping rows are dealt with: every live pair is compared, and every conflict recorded. */
  ghost predicate RowsDone(w: World, w': World)
  {
    && (forall g :: Live(w, g) ==> Live(w', g) && View(w', g) == Sync(View(w, g)))
    && NewConflicts(w) <= w'.conflicts
  }

  /** All but at most one of the copies on Forgejo have their row. */
  ghost predicate OnePendingForgejo(w': World, b: Births)
  {
    forall n, m :: n in b.forgejo && m in b.forgejo && !Linked(w', b.forgejo[n], n) && !Linked(w', b.forgejo[m], m) ==> n == m
  }

  ghost predicate OnePendingGitHub(w': World, b: Births)
  {
    forall n, m :: n in b.github && m in b.github && !Linked(w', n, b.github[n]) && !Linked(w', m, b.github[m]) ==> n == m
  }

  /** Still at the mapping rows. */
  ghost predicate InRows(w: World, w': World, b: Births)
  {
    b == NO_BIRTHS && NoneLinked(w', PlanOf(w).join)
  }

  /** Recording the pairs found by content, in any order. */
  ghost predicate InFirstPass(w: World, w': World, b: Births)
  {
    RowsDone(w, w') && b == NO_BIRTHS && NoneLinked(w', SlotPairs(w))
  }

  /** Recording the pairs found by number or tag, in any order. */
  ghost predicate InSecondPass(w: World, w': World, b: Births)
  {
    RowsDone(w, w') && b == NO_BIRTHS && AllLinked(w', HashPairs(w))
  }

  /** Copying GitHub's leftovers in the order they are listed, each with its row before the next. */
  ghost predicate CopyingToForgejo(w: World, w': World, b: Births)
  {
    RowsDone(w, w') && AllLinked(w', PlanOf(w).join) && b.github == map[] && OnePendingForgejo(w', b)
  }

  /** The same for Forgejo's leftovers, once GitHub's are all copied and recorded. */
  ghost predicate CopyingToGitHub(w: World, w': World, b: Births)
  {
    && RowsDone(w, w') && AllLinked(w', PlanOf(w).join)
    && b.forgejo.Values == PlanOf(w).leftGitHub && (forall n :: n in b.forgejo ==> Linked(w', b.forgejo[n], n))
    && OnePendingGitHub(w', b)
  }

  /** A state in which a run that started in w can stop, whatever the order of the listings. */
  ghost predicate Stopped(w: World, w': World, b: Births)
  {
    && Interrupted(w, PlanOf(w), w', b)
    && (InRows(w, w', b) || InFirstPass(w, w', b) || InSecondPass(w, w', b) || CopyingToForgejo(w, w', b) || CopyingToGitHub(w, w', b))
  }
}
