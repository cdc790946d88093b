/** What any number of interrupted runs leave behind.

    `Recovering` is the state after any number of interrupted runs.  It keeps
    the plan of the world in which the first of them started: every row links
    two objects that plan meant for each other, and every object created so far
    is the copy of one of its leftovers. */
module CrashRecovery {
  import opened Pairing
  import opened Objects
  import opened Protocol
  import opened Steps

  /** The two objects are meant for each other: a pair of the plan, or a leftover and its copy. */
  ghost predicate Mates(p: Plan, b: Births, x: Id, y: Id)
  {
    || (x in p.join && p.join[x] == y)
    || (y in b.forgejo && b.forgejo[y] == x)
    || (x in b.github && b.github[x] == y)
  }

  ghost predicate Partners(w: World, p: Plan, b: Births, x: Id, y: Id)
  {
    (Live(w, x) && w.rows[x].forgejo == y) || Mates(p, b, x, y)
  }

  ghost predicate InWorld(w: World, b: Births, x: Id, y: Id)
  {
    && (x in w.github || (x in b.github && b.github[x] in w.forgejo))
    && (y in w.forgejo || (y in b.forgejo && b.forgejo[y] in w.github))
  }

  /** The content an object had at the start, or was created with. */
  function GitHubOrigin(w: World, b: Births, x: Id): Content
    requires x in w.github || (x in b.github && b.github[x] in w.forgejo)
  {
    if x in w.github then w.github[x].content else w.forgejo[b.github[x]].content
  }

  function ForgejoOrigin(w: World, b: Births, y: Id): Content
    requires y in w.forgejo || (y in b.forgejo && b.forgejo[y] in w.github)
  {
    if y in w.forgejo then w.forgejo[y].content else w.github[b.forgejo[y]].content
  }

  /** What the three-way comparison of a link starts from. */
  ghost function LinkOrigin(w: World, b: Births, x: Id, y: Id): Triple
    requires InWorld(w, b, x, y)
  {
    if Live(w, x) then View(w, x)
    else Triple(GitHubOrigin(w, b, x), ForgejoOrigin(w, b, y), ForgejoOrigin(w, b, y))
  }

  /** One forge gained the births as objects and kept all addresses. */
  ghost predicate GrownSide(objects: map<Id, Object>, used: set<Id>, objects': map<Id, Object>, used': set<Id>,
                            births: map<Id, Id>, source: map<Id, Object>)
  {
    && used' == used + births.Keys && objects'.Keys == objects.Keys + births.Keys
    && (forall n :: n in births ==> births[n] in source)
    && (forall x :: x in objects ==> objects'[x].address == objects[x].address)
  }

  ghost predicate Grown(w: World, w': World, b: Births)
  {
    && w'.pins == w.pins
    && GrownSide(w.github, w.githubUsed, w'.github, w'.githubUsed, b.github, w.forgejo)
    && GrownSide(w.forgejo, w.forgejoUsed, w'.forgejo, w'.forgejoUsed, b.forgejo, w.github)
  }

  ghost predicate LinksFollowPlan(w: World, p: Plan, w': World, b: Births)
  {
    && (forall x :: Live(w, x) ==> Live(w', x) && w'.rows[x].forgejo == w.rows[x].forgejo)
    && (forall x :: Live(w', x) ==>
          var y := w'.rows[x].forgejo;
          InWorld(w, b, x, y) && Partners(w, p, b, x, y) && InOrbit(LinkOrigin(w, b, x, y), View(w', x)))
    && (forall x :: x in w'.rows && !Live(w', x) ==> x in w.rows && w'.rows[x] == w.rows[x])
    && w.rows.Keys <= w'.rows.Keys
  }

  ghost predicate UnlinkedUnchanged(w: World, w': World, b: Births)
  {
    && (forall x :: x in w'.github && !Live(w', x) ==>
          (x in w.github || (x in b.github && b.github[x] in w.forgejo)) && w'.github[x].content == GitHubOrigin(w, b, x))
    && (forall y :: y in w'.forgejo && !Tied(w', y) ==>
          (y in w.forgejo || (y in b.forgejo && b.forgejo[y] in w.github)) && w'.forgejo[y].content == ForgejoOrigin(w, b, y))
  }

  ghost predicate Recovering(w: World, p: Plan, w': World, b: Births)
  {
    && Valid(w') && BirthsOk(w, p, b) && Grown(w, w', b)
    && LinksFollowPlan(w, p, w', b) && UnlinkedUnchanged(w, w', b)
    && w.conflicts <= w'.conflicts
  }

  lemma RecoveringStarts(w: World, p: Plan)
    requires Valid(w)
    ensures Recovering(w, p, w, NO_BIRTHS)
  {
    forall x | Live(w, x) ensures Tied(w, w.rows[x].forgejo) {}
  }

  // ---- one more interrupted run ----

  function Together(b1: Births, b2: Births): Births
  {
    Births(b1.github + b2.github, b1.forgejo + b2.forgejo)
  }

  /** p1 continues p: it joins unrecorded mates and copies the leftovers without copies. */
  ghost predicate Continues(w: World, p: Plan, b1: Births, w1: World, p1: Plan)
  {
    && Splits(w1, p1) && Splits(w, p)
    && (forall x :: x in p1.join ==> Mates(p, b1, x, p1.join[x]))
    && p1.leftGitHub == p.leftGitHub - b1.forgejo.Values
    && p1.leftForgejo == p.leftForgejo - b1.github.Values
    && p.leftGitHub <= w.github.Keys && p.leftForgejo <= w.forgejo.Keys
  }

  /** The births of both runs on one forge, and what the later ones copy. */
  ghost predicate BirthsCompose(used: set<Id>, b1: map<Id, Id>, b2: map<Id, Id>, left: set<Id>, source: map<Id, Object>)
  {
    && Injective(b1 + b2) && (b1 + b2).Values == b1.Values + b2.Values && (b1 + b2).Keys == b1.Keys + b2.Keys
    && (forall n :: n in b2 ==> n !in used && n !in b1 && b2[n] in left && b2[n] in source)
  }

  lemma BirthsComposeSide(used: set<Id>, b1: map<Id, Id>, b2: map<Id, Id>, left: set<Id>, source: map<Id, Object>)
    requires Injective(b1) && Injective(b2) && b1.Keys <= used && b2.Keys !! used
    requires b2.Values <= left - b1.Values && left <= source.Keys
    ensures BirthsCompose(used, b1, b2, left, source)
  {
    JoinMaps(b1, b2);
    assert forall n :: n in b2 ==> b2[n] in b2.Values;
  }

  ghost predicate BothCompose(w: World, p: Plan, b1: Births, w1: World, b2: Births)
  {
    && BirthsCompose(w1.githubUsed, b1.github, b2.github, p.leftForgejo, w.forgejo)
    && BirthsCompose(w1.forgejoUsed, b1.forgejo, b2.forgejo, p.leftGitHub, w.github)
  }

  lemma BirthsTogether(w: World, p: Plan, b1: Births, w1: World, p1: Plan, b2: Births)
    requires BirthsOk(w, p, b1) && BirthsOk(w1, p1, b2) && Grown(w, w1, b1) && Continues(w, p, b1, w1, p1)
    ensures BirthsOk(w, p, Together(b1, b2)) && BothCompose(w, p, b1, w1, b2)
  {
    hide Splits, Injective, GrownSide, Mates, BirthsCompose;
    GrownUsed(w, w1, b1);
    BirthsComposeSide(w1.githubUsed, b1.github, b2.github, p.leftForgejo, w.forgejo);
    BirthsComposeSide(w1.forgejoUsed, b1.forgejo, b2.forgejo, p.leftGitHub, w.github);
    ComposedAreOk(w, p, b1, w1, p1, b2);
  }

  lemma GrownUsed(w: World, w1: World, b1: Births)
    requires Grown(w, w1, b1)
    ensures w1.githubUsed == w.githubUsed + b1.github.Keys && w1.forgejoUsed == w.forgejoUsed + b1.forgejo.Keys
  {
  }

  lemma ComposedAreOk(w: World, p: Plan, b1: Births, w1: World, p1: Plan, b2: Births)
    requires BirthsOk(w, p, b1) && BirthsOk(w1, p1, b2) && BothCompose(w, p, b1, w1, b2)
    requires w.githubUsed <= w1.githubUsed && w.forgejoUsed <= w1.forgejoUsed
    requires p1.leftForgejo <= p.leftForgejo && p1.leftGitHub <= p.leftGitHub
    ensures BirthsOk(w, p, Together(b1, b2))
  {
    hide Injective;
  }

  lemma GrownSideTogether(o: map<Id, Object>, u: set<Id>, o1: map<Id, Object>, u1: set<Id>, o2: map<Id, Object>, u2: set<Id>,
                          b1: map<Id, Id>, b2: map<Id, Id>, left: set<Id>, source: map<Id, Object>)
    requires GrownSide(o, u, o1, u1, b1, source) && BirthsCompose(u1, b1, b2, left, source)
    requires u2 == u1 + b2.Keys && o2.Keys == o1.Keys + b2.Keys && forall x :: x in o1 ==> o2[x].address == o1[x].address
    ensures GrownSide(o, u, o2, u2, b1 + b2, source)
  {
  }

  lemma GrownTogether(w: World, p: Plan, b1: Births, w1: World, b2: Births, w2: World)
    requires Grown(w, w1, b1) && Framed(w1, w2, b2) && BothCompose(w, p, b1, w1, b2)
    ensures Grown(w, w2, Together(b1, b2))
  {
    hide Live, Tied, GrownSide, BirthsCompose;
    GrownSideTogether(w.github, w.githubUsed, w1.github, w1.githubUsed, w2.github, w2.githubUsed,
                      b1.github, b2.github, p.leftForgejo, w.forgejo);
    GrownSideTogether(w.forgejo, w.forgejoUsed, w1.forgejo, w1.forgejoUsed, w2.forgejo, w2.forgejoUsed,
                      b1.forgejo, b2.forgejo, p.leftGitHub, w.github);
  }

  /** Later births do not disturb earlier origins and links. */
  lemma GitHubOriginStable(w: World, p: Plan, b1: Births, w1: World, b2: Births, x: Id)
    requires Grown(w, w1, b1) && BothCompose(w, p, b1, w1, b2) && Valid(w1) && x in w1.github
    ensures x in w.github || (x in b1.github && b1.github[x] in w.forgejo)
    ensures var b := Together(b1, b2);
      (x in w.github || (x in b.github && b.github[x] in w.forgejo)) && GitHubOrigin(w, b, x) == GitHubOrigin(w, b1, x)
  {
    hide Injective;
  }

  lemma ForgejoOriginStable(w: World, p: Plan, b1: Births, w1: World, b2: Births, y: Id)
    requires Grown(w, w1, b1) && BothCompose(w, p, b1, w1, b2) && Valid(w1) && y in w1.forgejo
    ensures y in w.forgejo || (y in b1.forgejo && b1.forgejo[y] in w.github)
    ensures var b := Together(b1, b2);
      (y in w.forgejo || (y in b.forgejo && b.forgejo[y] in w.github)) && ForgejoOrigin(w, b, y) == ForgejoOrigin(w, b1, y)
  {
    hide Injective;
  }

  lemma MatesStable(w: World, p: Plan, b1: Births, w1: World, b2: Births, x: Id, y: Id)
    requires BothCompose(w, p, b1, w1, b2)
    ensures Mates(p, b1, x, y) ==> Mates(p, Together(b1, b2), x, y)
    ensures x in b2.github && b2.github[x] == y ==> Mates(p, Together(b1, b2), x, y)
    ensures y in b2.forgejo && b2.forgejo[y] == x ==> Mates(p, Together(b1, b2), x, y)
  {
  }

  lemma OrbitsClose(t0: Triple, t1: Triple, t2: Triple)
    requires InOrbit(t0, t1) && InOrbit(t1, t2)
    ensures InOrbit(t0, t2)
  {
  }

  /** A link that was already there moves along its orbit. */
  lemma OldLink(w: World, p: Plan, w1: World, b1: Births, p1: Plan, w2: World, b2: Births, x: Id)
    requires Recovering(w, p, w1, b1) && Interrupted(w1, p1, w2, b2) && BothCompose(w, p, b1, w1, b2) && Live(w1, x)
    ensures LinkOk(w, p, w2, Together(b1, b2), x)
  {
    hide UnlinkedUnchanged, RowSource, Framed, BirthsOk, NewConflicts, Valid, InOrbit, Grown, BothCompose;
    var y := w1.rows[x].forgejo;
    assert PairProgress(w1, w2, x);
    RecoveringParts(w, p, w1, b1);
    GitHubOriginStable(w, p, b1, w1, b2, x);
    ForgejoOriginStable(w, p, b1, w1, b2, y);
    MatesStable(w, p, b1, w1, b2, x, y);
    OrbitsCloseFor(View(w1, x), View(w2, x));
    OrbitsClose(LinkOrigin(w, b1, x, y), View(w1, x), View(w2, x));
  }

  lemma OrbitsCloseFor(t1: Triple, t2: Triple)
    requires t2 == t1 || t2 == Halfway(t1) || t2 == Remote(t1) || t2 == Sync(t1)
    ensures InOrbit(t1, t2)
  {
  }

  lemma RecoveringParts(w: World, p: Plan, w1: World, b1: Births)
    requires Recovering(w, p, w1, b1)
    ensures Valid(w1) && BirthsOk(w, p, b1) && Grown(w, w1, b1) && LinksFollowPlan(w, p, w1, b1) && UnlinkedUnchanged(w, w1, b1)
  {
  }

  ghost predicate LinkOk(w: World, p: Plan, w': World, b: Births, x: Id)
  {
    && Live(w', x)
    && InWorld(w, b, x, w'.rows[x].forgejo) && Partners(w, p, b, x, w'.rows[x].forgejo)
    && InOrbit(LinkOrigin(w, b, x, w'.rows[x].forgejo), View(w', x))
  }

  /** A pair recorded by the later run. */
  lemma JoinedLink(w: World, p: Plan, w1: World, b1: Births, p1: Plan, w2: World, b2: Births, x: Id)
    requires Recovering(w, p, w1, b1) && Framed(w1, w2, b2) && Continues(w, p, b1, w1, p1) && BothCompose(w, p, b1, w1, b2)
    requires x in w2.rows && x in p1.join && x in w1.github && p1.join[x] in w1.forgejo
    requires w2.rows[x] == JoinRow(w1, x, p1.join[x])
    ensures LinkOk(w, p, w2, Together(b1, b2), x)
  {
    hide BirthsOk, NewConflicts, Valid, InOrbit, Grown, BothCompose, Injective;
    var y, b := p1.join[x], Together(b1, b2);
    assert x in FreeGitHub(w1) && y in FreeForgejo(w1);
    assert !Live(w1, x) && !Tied(w1, y);
    RecoveringParts(w, p, w1, b1);
    assert !Live(w, x);
    GitHubOriginStable(w, p, b1, w1, b2, x);
    ForgejoOriginStable(w, p, b1, w1, b2, y);
    MatesStable(w, p, b1, w1, b2, x, y);
    OrbitsCloseFor(View(w2, x), View(w2, x));
    assert View(w2, x) == LinkOrigin(w, b, x, y);
  }

  /** Copies of the later run, by the first world: each is the copy of a leftover. */
  lemma ForgejoCopyOrigin(w: World, p: Plan, w1: World, b1: Births, w2: World, b2: Births, y: Id)
    requires Grown(w, w1, b1) && Valid(w1) && BothCompose(w, p, b1, w1, b2) && y in b2.forgejo
    ensures var b, x := Together(b1, b2), b2.forgejo[y];
      && x in w.github && y !in w.forgejo && y in b.forgejo && b.forgejo[y] == x
      && ForgejoOrigin(w, b, y) == w.github[x].content
  {
    hide Injective;
  }

  lemma GitHubCopyOrigin(w: World, p: Plan, w1: World, b1: Births, w2: World, b2: Births, x: Id)
    requires Grown(w, w1, b1) && Valid(w1) && BothCompose(w, p, b1, w1, b2) && x in b2.github
    ensures var b, y := Together(b1, b2), b2.github[x];
      && y in w.forgejo && x !in w.github && x in b.github && b.github[x] == y
      && GitHubOrigin(w, b, x) == w.forgejo[y].content
  {
    hide Injective;
  }

  lemma UntouchedContents(w: World, p: Plan, w1: World, b1: Births)
    requires Recovering(w, p, w1, b1)
    ensures forall x :: x in w.github && !Live(w1, x) ==> x in w1.github && w1.github[x].content == w.github[x].content && !Live(w, x)
    ensures forall y :: y in w.forgejo && !Tied(w1, y) ==> y in w1.forgejo && w1.forgejo[y].content == w.forgejo[y].content
  {
    hide BirthsOk, Valid, InOrbit;
  }

  /** A copy made and recorded by the later run. */
  lemma ForgejoCopyLink(w: World, p: Plan, w1: World, b1: Births, w2: World, b2: Births, x: Id)
    requires Recovering(w, p, w1, b1) && Framed(w1, w2, b2) && BothCompose(w, p, b1, w1, b2) && !Live(w1, x)
    requires x in w2.rows && IsForgejoBirthRow(w1, w2, b2, x, w2.rows[x])
    ensures LinkOk(w, p, w2, Together(b1, b2), x)
  {
    hide Recovering, NewConflicts, InOrbit, Grown, Injective, BothCompose;
    var y, b := w2.rows[x].forgejo, Together(b1, b2);
    RecoveringParts(w, p, w1, b1);
    ForgejoCopyOrigin(w, p, w1, b1, w2, b2, y);
    UntouchedContents(w, p, w1, b1);
    OrbitsCloseFor(View(w2, x), View(w2, x));
    assert View(w2, x) == LinkOrigin(w, b, x, y);
  }

  lemma GitHubCopyLink(w: World, p: Plan, w1: World, b1: Births, w2: World, b2: Births, x: Id)
    requires Recovering(w, p, w1, b1) && Framed(w1, w2, b2) && BothCompose(w, p, b1, w1, b2)
    requires x in w2.rows && IsGitHubBirthRow(w1, w2, b2, x, w2.rows[x]) && !Tied(w1, w2.rows[x].forgejo)
    ensures LinkOk(w, p, w2, Together(b1, b2), x)
  {
    hide Recovering, NewConflicts, InOrbit, Grown, Injective, BothCompose;
    var y, b := w2.rows[x].forgejo, Together(b1, b2);
    RecoveringParts(w, p, w1, b1);
    GitHubCopyOrigin(w, p, w1, b1, w2, b2, x);
    UntouchedContents(w, p, w1, b1);
    OrbitsCloseFor(View(w2, x), View(w2, x));
    assert View(w2, x) == LinkOrigin(w, b, x, y);
  }

  /** What a run copies does not belong to a live pair. */
  lemma CopiedAreFree(w1: World, p1: Plan, b2: Births)
    requires Splits(w1, p1) && BirthsOk(w1, p1, b2)
    ensures forall n :: n in b2.github ==> b2.github[n] in w1.forgejo && !Tied(w1, b2.github[n])
    ensures forall n :: n in b2.forgejo ==> b2.forgejo[n] in w1.github && !Live(w1, b2.forgejo[n])
  {
    forall n | n in b2.github ensures b2.github[n] in FreeForgejo(w1) { assert b2.github[n] in b2.github.Values; }
    forall n | n in b2.forgejo ensures b2.forgejo[n] in FreeGitHub(w1) { assert b2.forgejo[n] in b2.forgejo.Values; }
  }

  /** A row that a run keeps stays as dead as it was. */
  lemma KeptRowStaysDead(w1: World, w2: World, b2: Births, x: Id)
    requires Valid(w1) && Framed(w1, w2, b2) && b2.github.Keys !! w1.githubUsed && b2.forgejo.Keys !! w1.forgejoUsed
    requires x in w1.rows && !Live(w1, x) && x in w2.rows && w2.rows[x] == w1.rows[x]
    ensures !Live(w2, x)
  {
  }

  lemma NewLink(w: World, p: Plan, w1: World, b1: Births, p1: Plan, w2: World, b2: Births, x: Id)
    requires Recovering(w, p, w1, b1) && Interrupted(w1, p1, w2, b2)
    requires Continues(w, p, b1, w1, p1) && BothCompose(w, p, b1, w1, b2)
    requires x in w2.rows && !Live(w1, x)
    ensures if Live(w2, x) then LinkOk(w, p, w2, Together(b1, b2), x) else x in w1.rows && w2.rows[x] == w1.rows[x]
  {
    hide BothCompose, NewConflicts, Recovering, LinkOk, JoinRow, IsForgejoBirthRow, IsGitHubBirthRow;
    RecoveringParts(w, p, w1, b1);
    assert RowSource(w1, p1, w2, b2, x);
    if x in w1.rows && w2.rows[x] == w1.rows[x] {
      KeptRowStaysDead(w1, w2, b2, x);
    } else if IsForgejoBirthRow(w1, w2, b2, x, w2.rows[x]) {
      ForgejoCopyLink(w, p, w1, b1, w2, b2, x);
    } else if IsGitHubBirthRow(w1, w2, b2, x, w2.rows[x]) {
      CopiedAreFree(w1, p1, b2);
      GitHubRowLinksCopy(w1, w2, b2, x, w2.rows[x]);
      GitHubCopyLink(w, p, w1, b1, w2, b2, x);
    } else {
      JoinedLink(w, p, w1, b1, p1, w2, b2, x);
    }
    LinkIsLive(w, p, w2, Together(b1, b2), x);
  }

  lemma GitHubRowLinksCopy(w1: World, w2: World, b2: Births, n: Id, r: Row)
    requires IsGitHubBirthRow(w1, w2, b2, n, r)
    ensures n in b2.github && b2.github[n] == r.forgejo
  {
  }

  lemma LinkIsLive(w: World, p: Plan, w': World, b: Births, x: Id)
    ensures LinkOk(w, p, w', b, x) ==> Live(w', x)
  {
  }

  lemma LinksTogether(w: World, p: Plan, w1: World, b1: Births, p1: Plan, w2: World, b2: Births)
    requires Recovering(w, p, w1, b1) && Interrupted(w1, p1, w2, b2)
    requires Continues(w, p, b1, w1, p1) && BothCompose(w, p, b1, w1, b2)
    ensures forall x :: Live(w2, x) ==> LinkOk(w, p, w2, Together(b1, b2), x)
    ensures forall x :: x in w2.rows && !Live(w2, x) ==> x in w1.rows && !Live(w1, x) && w2.rows[x] == w1.rows[x]
    ensures forall x :: Live(w1, x) ==> Live(w2, x) && w2.rows[x].forgejo == w1.rows[x].forgejo
    ensures w1.rows.Keys <= w2.rows.Keys
  {
    hide Continues, BothCompose, Recovering, LinkOk, Framed, RowSource, BirthsOk, NewConflicts, Valid;
    forall x | Live(w1, x) ensures Live(w2, x) && LinkOk(w, p, w2, Together(b1, b2), x) && w2.rows[x].forgejo == w1.rows[x].forgejo {
      assert PairProgress(w1, w2, x);
      OldLink(w, p, w1, b1, p1, w2, b2, x);
    }
    forall x | x in w2.rows && !Live(w1, x)
      ensures if Live(w2, x) then LinkOk(w, p, w2, Together(b1, b2), x) else x in w1.rows && w2.rows[x] == w1.rows[x]
    {
      NewLink(w, p, w1, b1, p1, w2, b2, x);
    }
  }

  lemma LinksStillFollowPlan(w: World, p: Plan, w1: World, b1: Births, w2: World, b: Births)
    requires LinksFollowPlan(w, p, w1, b1)
    requires forall x :: Live(w2, x) ==> LinkOk(w, p, w2, b, x)
    requires forall x :: x in w2.rows && !Live(w2, x) ==> x in w1.rows && !Live(w1, x) && w2.rows[x] == w1.rows[x]
    requires forall x :: Live(w1, x) ==> Live(w2, x) && w2.rows[x].forgejo == w1.rows[x].forgejo
    requires w1.rows.Keys <= w2.rows.Keys
    ensures LinksFollowPlan(w, p, w2, b)
  {
    hide InOrbit, Partners, LinkOrigin;
  }

  lemma UnlinkedGitHub(w: World, p: Plan, w1: World, b1: Births, p1: Plan, w2: World, b2: Births, x: Id)
    requires Recovering(w, p, w1, b1) && Framed(w1, w2, b2) && BothCompose(w, p, b1, w1, b2)
    requires Splits(w1, p1) && BirthsOk(w1, p1, b2)
    requires x in w2.github && !Live(w1, x)
    ensures var b := Together(b1, b2);
      (x in w.github || (x in b.github && b.github[x] in w.forgejo)) && w2.github[x].content == GitHubOrigin(w, b, x)
  {
    hide Recovering, BothCompose, Injective, Grown, GitHubOrigin, Splits, BirthsOk, Live;
    RecoveringParts(w, p, w1, b1);
    if x in b2.github {
      CopiedAreFree(w1, p1, b2);
      GitHubCopyOrigin(w, p, w1, b1, w2, b2, x);
      UntouchedContents(w, p, w1, b1);
    } else {
      GitHubOriginStable(w, p, b1, w1, b2, x);
    }
  }

  lemma UnlinkedForgejo(w: World, p: Plan, w1: World, b1: Births, p1: Plan, w2: World, b2: Births, y: Id)
    requires Recovering(w, p, w1, b1) && Framed(w1, w2, b2) && BothCompose(w, p, b1, w1, b2)
    requires Splits(w1, p1) && BirthsOk(w1, p1, b2)
    requires y in w2.forgejo && !Tied(w1, y)
    ensures var b := Together(b1, b2);
      (y in w.forgejo || (y in b.forgejo && b.forgejo[y] in w.github)) && w2.forgejo[y].content == ForgejoOrigin(w, b, y)
  {
    hide Recovering, BothCompose, Injective, Grown, ForgejoOrigin, Splits, BirthsOk, Live, Tied;
    RecoveringParts(w, p, w1, b1);
    if y in b2.forgejo {
      CopiedAreFree(w1, p1, b2);
      ForgejoCopyOrigin(w, p, w1, b1, w2, b2, y);
      UntouchedContents(w, p, w1, b1);
    } else {
      ForgejoOriginStable(w, p, b1, w1, b2, y);
    }
  }

  lemma UnlinkedTogether(w: World, p: Plan, w1: World, b1: Births, p1: Plan, w2: World, b2: Births)
    requires Recovering(w, p, w1, b1) && Framed(w1, w2, b2) && BothCompose(w, p, b1, w1, b2)
    requires Splits(w1, p1) && BirthsOk(w1, p1, b2)
    requires forall x :: Live(w1, x) ==> Live(w2, x) && w2.rows[x].forgejo == w1.rows[x].forgejo
    ensures UnlinkedUnchanged(w, w2, Together(b1, b2))
  {
    hide Recovering, BothCompose, Injective, Grown, GitHubOrigin, ForgejoOrigin, Splits, BirthsOk, Live, Framed;
    forall x | x in w2.github && !Live(w2, x) {
      UnlinkedGitHub(w, p, w1, b1, p1, w2, b2, x);
    }
    forall y | y in w2.forgejo && !Tied(w2, y) {
      UnlinkedForgejo(w, p, w1, b1, p1, w2, b2, y);
    }
  }

  /** One more interrupted run, whose plan continues the first one, leaves the world recovering from it. */
  lemma CrashStep(w: World, p: Plan, w1: World, b1: Births, w2: World, b2: Births)
    requires Recovering(w, p, w1, b1) && Continues(w, p, b1, w1, PlanOf(w1))
    requires Interrupted(w1, PlanOf(w1), w2, b2)
    ensures Recovering(w, p, w2, Together(b1, b2))
  {
    hide PlanOf, Recovering, Framed, RowSource, BirthsOk, NewConflicts, Valid, BothCompose, Splits, LinkOk,
      LinksFollowPlan, UnlinkedUnchanged, Grown, Continues;
    var p1, b := PlanOf(w1), Together(b1, b2);
    RecoveringParts(w, p, w1, b1);
    PlanSplits(w1);
    BirthsTogether(w, p, b1, w1, p1, b2);
    GrownTogether(w, p, b1, w1, b2, w2);
    LinksTogether(w, p, w1, b1, p1, w2, b2);
    LinksStillFollowPlan(w, p, w1, b1, w2, b);
    UnlinkedTogether(w, p, w1, b1, p1, w2, b2);
    ConflictsGrow(w, p, w1, b1);
    RecoveringFromParts(w, p, w2, b);
  }

  lemma ConflictsGrow(w: World, p: Plan, w1: World, b1: Births)
    requires Recovering(w, p, w1, b1)
    ensures w.conflicts <= w1.conflicts
  {
  }

  lemma RecoveringFromParts(w: World, p: Plan, w2: World, b: Births)
    requires Valid(w2) && BirthsOk(w, p, b) && Grown(w, w2, b)
    requires LinksFollowPlan(w, p, w2, b) && UnlinkedUnchanged(w, w2, b) && w.conflicts <= w2.conflicts
    ensures Recovering(w, p, w2, b)
  {
  }
}
