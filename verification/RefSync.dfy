/** Pushing a plan, and what the pushes achieve.

    A forge accepts a push that creates a ref or moves a branch forward; it never
    accepts moving a tag, because nothing is pushed by force. */
module RefSync {
  import opened Objects
  import opened RefPlan

  datatype Both = Both(github: Refs, forgejo: Refs)

  function On(s: Both, side: Side): Refs
  {
    if side.GitHub? then s.github else s.forgejo
  }

  function Put(s: Both, side: Side, ref: Ref, sha: Sha): Both
  {
    if side.GitHub? then s.(github := s.github[ref := sha]) else s.(forgejo := s.forgejo[ref := sha])
  }

  predicate IsTag(ref: Ref)
  {
    "refs/tags/" <= ref
  }

  predicate Accepts(refs: Refs, ref: Ref, sha: Sha, ancestry: Ancestry)
  {
    ref !in refs || refs[ref] == sha || (!IsTag(ref) && ancestry(refs[ref], sha) == Yes)
  }

  function PushAll(s: Both, actions: seq<Action>): Both
  {
    if actions == [] then s
    else
      var a := actions[|actions| - 1];
      Put(PushAll(s, actions[..|actions| - 1]), a.to, a.ref, a.sha)
  }

  function Verdicts(s: Both, ref: Ref, ancestry: Ancestry): Verdict
  {
    VerdictOn(s.github, s.forgejo, ref, ancestry)
  }

  /** The plan for s; every check it needed was answered. */
  ghost predicate Plans(s: Both, ancestry: Ancestry, actions: seq<Action>, conflicts: seq<Divergence>)
  {
    IsPlan(s.github, s.forgejo, ancestry, actions, conflicts) && forall ref :: !Unanswered(s.github, s.forgejo, ref, ancestry)
  }

  /** The plan by its verdicts. */
  lemma PlansByVerdict(s: Both, ancestry: Ancestry, actions: seq<Action>, conflicts: seq<Divergence>)
    ensures Plans(s, ancestry, actions, conflicts) <==>
              && Ascending(ActionRefs(actions)) && Ascending(ConflictRefs(conflicts))
              && (forall ref :: Verdicts(s, ref, ancestry) != Undecided)
              && (forall a :: a in actions <==> Verdicts(s, a.ref, ancestry) == Copy(a.sha, a.from) && a.to == Other(a.from))
              && (forall c :: c in conflicts <==> Verdicts(s, c.ref, ancestry) == Apart(c.github, c.forgejo))
  {
    hide Less, Ascending, VerdictOn, DueToGitHub, DueToForgejo, DueConflict, Unanswered, Unrelated;
    forall ref ensures Verdicts(s, ref, ancestry) != Undecided <==> !Unanswered(s.github, s.forgejo, ref, ancestry) {
      VerdictMeans(s.github, s.forgejo, ref, ancestry);
    }
    forall a: Action
      ensures DueToGitHub(s.github, s.forgejo, a, ancestry) || DueToForgejo(s.github, s.forgejo, a, ancestry) <==>
                Verdicts(s, a.ref, ancestry) == Copy(a.sha, a.from) && a.to == Other(a.from)
    {
      VerdictMeans(s.github, s.forgejo, a.ref, ancestry);
      DueSides(s.github, s.forgejo, a, ancestry);
    }
    forall c: Divergence
      ensures !Unanswered(s.github, s.forgejo, c.ref, ancestry) ==>
                (DueConflict(s.github, s.forgejo, c, ancestry) <==> Verdicts(s, c.ref, ancestry) == Apart(c.github, c.forgejo))
    {
      assert c == Divergence(c.ref, c.github, c.forgejo);
      VerdictMeans(s.github, s.forgejo, c.ref, ancestry);
    }
  }

  lemma ApartIsUnrelated(s: Both, ancestry: Ancestry, actions: seq<Action>, conflicts: seq<Divergence>, ref: Ref)
    requires Plans(s, ancestry, actions, conflicts)
    ensures Verdicts(s, ref, ancestry).Apart? <==> Unrelated(s.github, s.forgejo, ref, ancestry)
    ensures Verdicts(s, ref, ancestry) != Undecided
  {
    hide IsPlan;
    VerdictMeans(s.github, s.forgejo, ref, ancestry);
  }

  // ---- what the pushes of a plan do to each ref ----

  /** Both forges' values of one ref after pushes of which none concerns it. */
  lemma {:induction false} UnnamedRefKept(s: Both, actions: seq<Action>, ref: Ref)
    requires forall a :: a in actions ==> a.ref != ref
    ensures Get(PushAll(s, actions).github, ref) == Get(s.github, ref)
    ensures Get(PushAll(s, actions).forgejo, ref) == Get(s.forgejo, ref)
  {
    if actions != [] {
      assert actions[|actions| - 1] in actions;
      UnnamedRefKept(s, actions[..|actions| - 1], ref);
    }
  }

  lemma NamesDiffer(actions: seq<Action>, i: nat, j: nat)
    requires Ascending(ActionRefs(actions)) && i < j < |actions|
    ensures actions[i].ref != actions[j].ref && Less(actions[i].ref, actions[j].ref)
  {
    assert ActionRefs(actions)[i] == actions[i].ref && ActionRefs(actions)[j] == actions[j].ref;
    LessTotal(actions[i].ref, actions[j].ref);
  }

  /** Before its push an action finds both forges as they were; after all pushes its target has the commit. */
  lemma {:induction false} NamedRefPushed(s: Both, actions: seq<Action>, k: nat, i: nat)
    requires Ascending(ActionRefs(actions)) && i < |actions| && k <= |actions|
    ensures var a, s' := actions[i], PushAll(s, actions[..k]);
      && Get(On(s', a.to), a.ref) == (if i < k then Some(a.sha) else Get(On(s, a.to), a.ref))
      && Get(On(s', Other(a.to)), a.ref) == Get(On(s, Other(a.to)), a.ref)
  {
    hide Less, Ascending;
    if k > 0 {
      assert actions[..k][..k - 1] == actions[..k - 1] && actions[..k][k - 1] == actions[k - 1];
      NamedRefPushed(s, actions, k - 1, i);
      if i < k - 1 { NamesDiffer(actions, i, k - 1); }
      if k - 1 < i { NamesDiffer(actions, k - 1, i); }
    }
  }

  lemma PlannedCopy(s: Both, ancestry: Ancestry, actions: seq<Action>, conflicts: seq<Divergence>, i: nat)
    requires Plans(s, ancestry, actions, conflicts) && i < |actions|
    ensures var a := actions[i];
      && Verdicts(s, a.ref, ancestry) == Copy(a.sha, a.from) && a.to == Other(a.from)
      && Get(On(s, a.from), a.ref) == Some(a.sha)
      && (a.ref in On(s, a.to) ==> ancestry(On(s, a.to)[a.ref], a.sha) == Yes)
  {
    hide Less, Ascending;
    PlansByVerdict(s, ancestry, actions, conflicts);
    assert actions[i] in actions;
  }

  lemma PlannedIfCopy(s: Both, ancestry: Ancestry, actions: seq<Action>, conflicts: seq<Divergence>, ref: Ref)
    returns (i: nat)
    requires Plans(s, ancestry, actions, conflicts) && Verdicts(s, ref, ancestry).Copy?
    ensures i < |actions| && actions[i].ref == ref
  {
    hide Less, Ascending, Plans;
    PlansByVerdict(s, ancestry, actions, conflicts);
    var v := Verdicts(s, ref, ancestry);
    var a := Action(ref, v.sha, v.from, Other(v.from));
    assert a in actions;
    i :| i < |actions| && actions[i] == a;
  }

  lemma UnplannedUnlessCopy(s: Both, ancestry: Ancestry, actions: seq<Action>, conflicts: seq<Divergence>, ref: Ref)
    requires Plans(s, ancestry, actions, conflicts) && !Verdicts(s, ref, ancestry).Copy?
    ensures forall a :: a in actions ==> a.ref != ref
  {
    hide Plans;
    PlansByVerdict(s, ancestry, actions, conflicts);
  }

  /** What became of one ref: a copied ref is equal on both sides, any other is as before. */
  lemma RefAfterPlan(s: Both, ancestry: Ancestry, actions: seq<Action>, conflicts: seq<Divergence>, ref: Ref)
    requires Plans(s, ancestry, actions, conflicts)
    ensures var s', v := PushAll(s, actions), Verdicts(s, ref, ancestry);
      if v.Copy? then Get(s'.github, ref) == Get(s'.forgejo, ref) == Some(v.sha)
      else Get(s'.github, ref) == Get(s.github, ref) && Get(s'.forgejo, ref) == Get(s.forgejo, ref)
  {
    hide Plans, VerdictOn;
    if Verdicts(s, ref, ancestry).Copy? {
      var i := PlannedIfCopy(s, ancestry, actions, conflicts, ref);
      PlannedCopy(s, ancestry, actions, conflicts, i);
      PlanAscends(s, ancestry, actions, conflicts);
      NamedRefPushed(s, actions, |actions|, i);
      assert actions[..|actions|] == actions;
    } else {
      UnplannedUnlessCopy(s, ancestry, actions, conflicts, ref);
      UnnamedRefKept(s, actions, ref);
    }
  }

  lemma PlanAscends(s: Both, ancestry: Ancestry, actions: seq<Action>, conflicts: seq<Divergence>)
    requires Plans(s, ancestry, actions, conflicts)
    ensures Ascending(ActionRefs(actions))
  {
  }

  ghost predicate MovedForward(refs: Refs, refs': Refs, ancestry: Ancestry)
  {
    forall ref :: ref in refs ==> ref in refs' && (refs'[ref] == refs[ref] || ancestry(refs[ref], refs'[ref]) == Yes)
  }

  /** No ref is deleted or moved to a commit that does not contain its old one. */
  ghost predicate Forward(s: Both, s': Both, ancestry: Ancestry)
  {
    MovedForward(s.github, s'.github, ancestry) && MovedForward(s.forgejo, s'.forgejo, ancestry)
  }

  lemma CopyIsForward(s: Both, ref: Ref, ancestry: Ancestry)
    requires Verdicts(s, ref, ancestry).Copy?
    ensures var v := Verdicts(s, ref, ancestry);
      && (ref in s.github ==> s.github[ref] == v.sha || ancestry(s.github[ref], v.sha) == Yes)
      && (ref in s.forgejo ==> s.forgejo[ref] == v.sha || ancestry(s.forgejo[ref], v.sha) == Yes)
  {
  }

  lemma VerdictAfterPlan(s: Both, ancestry: Ancestry, actions: seq<Action>, conflicts: seq<Divergence>, ref: Ref)
    requires Plans(s, ancestry, actions, conflicts)
    ensures Verdicts(PushAll(s, actions), ref, ancestry)
            == if Verdicts(s, ref, ancestry).Apart? then Verdicts(s, ref, ancestry) else Same
  {
    hide Plans, PushAll;
    ApartIsUnrelated(s, ancestry, actions, conflicts, ref);
    RefAfterPlan(s, ancestry, actions, conflicts, ref);
  }

  /** Every ref is still there, where it was or at a commit that contains its old one. */
  lemma RefMovesForward(s: Both, ancestry: Ancestry, actions: seq<Action>, conflicts: seq<Divergence>, ref: Ref)
    requires Plans(s, ancestry, actions, conflicts)
    ensures var s' := PushAll(s, actions);
      && (ref in s.github ==> ref in s'.github && (s'.github[ref] == s.github[ref] || ancestry(s.github[ref], s'.github[ref]) == Yes))
      && (ref in s.forgejo ==> ref in s'.forgejo && (s'.forgejo[ref] == s.forgejo[ref] || ancestry(s.forgejo[ref], s'.forgejo[ref]) == Yes))
  {
    hide Plans, PushAll, VerdictOn;
    RefAfterPlan(s, ancestry, actions, conflicts, ref);
    if Verdicts(s, ref, ancestry).Copy? { CopyIsForward(s, ref, ancestry); }
  }

  lemma NothingLeftToPlan(s: Both, s': Both, ancestry: Ancestry, actions: seq<Action>, conflicts: seq<Divergence>)
    requires Plans(s, ancestry, actions, conflicts)
    requires forall ref :: Verdicts(s', ref, ancestry) == if Verdicts(s, ref, ancestry).Apart? then Verdicts(s, ref, ancestry) else Same
    ensures Plans(s', ancestry, [], conflicts)
  {
    hide VerdictOn, Less, Ascending, Plans;
    PlansByVerdict(s, ancestry, actions, conflicts);
    PlansByVerdict(s', ancestry, [], conflicts);
    EmptyAscends();
    forall c: Divergence
      ensures Verdicts(s', c.ref, ancestry) == Apart(c.github, c.forgejo) <==> Verdicts(s, c.ref, ancestry) == Apart(c.github, c.forgejo) {}
    forall a: Action ensures !Verdicts(s', a.ref, ancestry).Copy? {}
  }

  lemma SameVerdict(s: Both, ref: Ref, ancestry: Ancestry)
    ensures Verdicts(s, ref, ancestry) == Same <==> Get(s.github, ref) == Get(s.forgejo, ref)
  {
  }

  /** Applying a plan: every ref moves forward; a ref ends equal on both forges unless its two commits
      differed and neither contained the other; and planning again finds nothing to push and the
      same divergences. */
  lemma PlanIsFixpoint(s: Both, ancestry: Ancestry, actions: seq<Action>, conflicts: seq<Divergence>)
    requires Plans(s, ancestry, actions, conflicts)
    ensures Forward(s, PushAll(s, actions), ancestry)
    ensures forall ref :: Get(PushAll(s, actions).github, ref) == Get(PushAll(s, actions).forgejo, ref) <==>
              !(ref in s.github && ref in s.forgejo && s.github[ref] != s.forgejo[ref]
                && ancestry(s.github[ref], s.forgejo[ref]) != Yes && ancestry(s.forgejo[ref], s.github[ref]) != Yes)
    ensures Plans(PushAll(s, actions), ancestry, [], conflicts)
  {
    hide Plans, PushAll, Verdicts;
    var s' := PushAll(s, actions);
    forall ref
      ensures Verdicts(s', ref, ancestry) == if Verdicts(s, ref, ancestry).Apart? then Verdicts(s, ref, ancestry) else Same
      ensures Get(s'.github, ref) == Get(s'.forgejo, ref) <==> !Unrelated(s.github, s.forgejo, ref, ancestry)
    {
      VerdictAfterPlan(s, ancestry, actions, conflicts, ref);
      ApartIsUnrelated(s, ancestry, actions, conflicts, ref);
      SameVerdict(s', ref, ancestry);
    }
    NothingLeftToPlan(s, s', ancestry, actions, conflicts);
    forall ref | ref in s.github
      ensures ref in s'.github && (s'.github[ref] == s.github[ref] || ancestry(s.github[ref], s'.github[ref]) == Yes)
    {
      RefMovesForward(s, ancestry, actions, conflicts, ref);
    }
    forall ref | ref in s.forgejo
      ensures ref in s'.forgejo && (s'.forgejo[ref] == s.forgejo[ref] || ancestry(s.forgejo[ref], s'.forgejo[ref]) == Yes)
    {
      RefMovesForward(s, ancestry, actions, conflicts, ref);
    }
  }

  lemma EmptyAscends()
    ensures Ascending(ActionRefs([]))
  {
  }

  /** The forge accepts a planned push unless it would move a tag, and only then. */
  lemma PushAcceptedIff(s: Both, ancestry: Ancestry, actions: seq<Action>, conflicts: seq<Divergence>, i: nat)
    requires Plans(s, ancestry, actions, conflicts) && i < |actions|
    ensures var a := actions[i];
      && (Accepts(On(PushAll(s, actions[..i]), a.to), a.ref, a.sha, ancestry) <==> !(IsTag(a.ref) && a.ref in On(s, a.to)))
      && (IsTag(a.ref) <==> "refs/tags/" <= a.ref)
  {
    hide Plans, Less, Ascending;
    PlannedCopy(s, ancestry, actions, conflicts, i);
    PlanAscends(s, ancestry, actions, conflicts);
    NamedRefPushed(s, actions, i, i);
    CopyDiffers(s, actions[i].ref, ancestry);
  }

  lemma CopyDiffers(s: Both, ref: Ref, ancestry: Ancestry)
    requires Verdicts(s, ref, ancestry).Copy?
    ensures var v := Verdicts(s, ref, ancestry); ref in On(s, Other(v.from)) ==> On(s, Other(v.from))[ref] != v.sha
  {
  }

  // ---- symmetry of the two forges ----

  function Mirror(v: Verdict): Verdict
  {
    match v
    case Copy(sha, from) => Copy(sha, Other(from))
    case Apart(g, f) => Apart(f, g)
    case _ => v
  }

  /** Neither forge is privileged on a ref, unless its two different commits contain each other. */
  lemma VerdictMirrorsIff(s: Both, ref: Ref, ancestry: Ancestry)
    requires forall a, b :: ancestry(a, b) != Unknown
    ensures Verdicts(Both(s.forgejo, s.github), ref, ancestry) == Mirror(Verdicts(s, ref, ancestry)) <==>
              !(ref in s.github && ref in s.forgejo && s.github[ref] != s.forgejo[ref]
                && ancestry(s.github[ref], s.forgejo[ref]) == Yes && ancestry(s.forgejo[ref], s.github[ref]) == Yes)
  {
  }

  lemma MirrorTwice(v: Verdict)
    ensures Mirror(Mirror(v)) == v
  {
  }

  function MirrorActions(actions: seq<Action>): seq<Action>
  {
    seq(|actions|, i requires 0 <= i < |actions| => Action(actions[i].ref, actions[i].sha, actions[i].to, actions[i].from))
  }

  function MirrorConflicts(conflicts: seq<Divergence>): seq<Divergence>
  {
    seq(|conflicts|, i requires 0 <= i < |conflicts| => Divergence(conflicts[i].ref, conflicts[i].forgejo, conflicts[i].github))
  }

  lemma MirroredMembers(actions: seq<Action>, a: Action)
    ensures a in MirrorActions(actions) <==> Action(a.ref, a.sha, a.to, a.from) in actions
  {
    if a in MirrorActions(actions) {
      var i :| 0 <= i < |actions| && MirrorActions(actions)[i] == a;
      assert actions[i] == Action(a.ref, a.sha, a.to, a.from);
    }
    if Action(a.ref, a.sha, a.to, a.from) in actions {
      var i :| 0 <= i < |actions| && actions[i] == Action(a.ref, a.sha, a.to, a.from);
      assert MirrorActions(actions)[i] == a;
    }
  }

  lemma MirroredConflictMembers(conflicts: seq<Divergence>, c: Divergence)
    ensures c in MirrorConflicts(conflicts) <==> Divergence(c.ref, c.forgejo, c.github) in conflicts
  {
    if c in MirrorConflicts(conflicts) {
      var i :| 0 <= i < |conflicts| && MirrorConflicts(conflicts)[i] == c;
      assert conflicts[i] == Divergence(c.ref, c.forgejo, c.github);
    }
    if Divergence(c.ref, c.forgejo, c.github) in conflicts {
      var i :| 0 <= i < |conflicts| && conflicts[i] == Divergence(c.ref, c.forgejo, c.github);
      assert MirrorConflicts(conflicts)[i] == c;
    }
  }

  lemma MirroredRefs(actions: seq<Action>, conflicts: seq<Divergence>)
    ensures ActionRefs(MirrorActions(actions)) == ActionRefs(actions)
    ensures ConflictRefs(MirrorConflicts(conflicts)) == ConflictRefs(conflicts)
  {
  }

  /** Commits of different refs' sides that contain each other are equal: the ancestry of one history. */
  ghost predicate Antisymmetric(ancestry: Ancestry)
  {
    && (forall a, b :: ancestry(a, b) != Unknown)
    && (forall a, b :: ancestry(a, b) == Yes && ancestry(b, a) == Yes ==> a == b)
  }

  /** Swapping the forges mirrors the plan: the same refs in the same order, From and To exchanged,
      the two commits of each conflict exchanged, and nothing else. */
  lemma PlanMirrors(s: Both, ancestry: Ancestry, actions: seq<Action>, conflicts: seq<Divergence>,
                    actions': seq<Action>, conflicts': seq<Divergence>)
    requires Antisymmetric(ancestry)
    requires Plans(s, ancestry, actions, conflicts) && Plans(Both(s.forgejo, s.github), ancestry, actions', conflicts')
    ensures actions' == MirrorActions(actions) && conflicts' == MirrorConflicts(conflicts)
  {
    hide VerdictOn, Less, Ascending, Plans, MirrorActions, MirrorConflicts, ActionRefs, ConflictRefs;
    var m := Both(s.forgejo, s.github);
    PlansByVerdict(s, ancestry, actions, conflicts);
    PlansByVerdict(m, ancestry, actions', conflicts');
    MirroredRefs(actions, conflicts);
    forall a ensures a in MirrorActions(actions) <==> a in actions' {
      VerdictMirrorsIff(s, a.ref, ancestry);
      MirroredMembers(actions, a);
      MirrorTwice(Verdicts(s, a.ref, ancestry));
    }
    forall c ensures c in MirrorConflicts(conflicts) <==> c in conflicts' {
      VerdictMirrorsIff(s, c.ref, ancestry);
      MirroredConflictMembers(conflicts, c);
      MirrorTwice(Verdicts(s, c.ref, ancestry));
    }
    SameActions(actions', MirrorActions(actions));
    SameConflicts(conflicts', MirrorConflicts(conflicts));
  }

  /** Two ascending lists with the same members are one list. */
  lemma {:induction false} SameNames(s: seq<string>, t: seq<string>)
    requires Ascending(s) && Ascending(t) && forall x :: x in s <==> x in t
    ensures s == t
  {
    FirstIsMember(s);
    FirstIsMember(t);
    if s != [] && t != [] {
      FirstIsLeast(s, t);
      SameNames(s[1..], t[1..]) by {
        forall x ensures x in s[1..] <==> x in t[1..] {
          RestOf(s, x);
          RestOf(t, x);
        }
      }
      assert s == [s[0]] + s[1..] && t == [t[0]] + t[1..];
    }
  }

  lemma FirstIsMember(s: seq<string>)
    ensures s != [] ==> exists x :: x in s
  {
    if s != [] { assert s[0] in s; }
  }

  lemma FirstIsLeast(s: seq<string>, t: seq<string>)
    requires Ascending(s) && Ascending(t) && s != [] && t != [] && forall x :: x in s <==> x in t
    ensures s[0] == t[0]
  {
    assert s[0] in t && t[0] in s;
    var i :| 0 <= i < |t| && t[i] == s[0];
    var j :| 0 <= j < |s| && s[j] == t[0];
    LessTotal(s[0], t[0]);
  }

  lemma RestOf(s: seq<string>, x: string)
    requires Ascending(s) && s != []
    ensures x in s[1..] <==> x in s && x != s[0]
  {
    LessTotal(x, x);
    assert forall i :: 0 < i < |s| ==> s[i] == s[1..][i - 1];
  }

  lemma NameIsListed(actions: seq<Action>, a: Action)
    requires a in actions
    ensures a.ref in ActionRefs(actions)
  {
    var i :| 0 <= i < |actions| && actions[i] == a;
    assert ActionRefs(actions)[i] == a.ref;
  }

  lemma ConflictNameIsListed(conflicts: seq<Divergence>, c: Divergence)
    requires c in conflicts
    ensures c.ref in ConflictRefs(conflicts)
  {
    var i :| 0 <= i < |conflicts| && conflicts[i] == c;
    assert ConflictRefs(conflicts)[i] == c.ref;
  }

  lemma SameActions(s: seq<Action>, t: seq<Action>)
    requires Ascending(ActionRefs(s)) && Ascending(ActionRefs(t)) && forall a :: a in s <==> a in t
    ensures s == t
  {
    hide Less;
    forall x ensures x in ActionRefs(s) <==> x in ActionRefs(t) {
      if x in ActionRefs(s) { var i :| 0 <= i < |s| && s[i].ref == x; NameIsListed(t, s[i]); }
      if x in ActionRefs(t) { var i :| 0 <= i < |t| && t[i].ref == x; NameIsListed(s, t[i]); }
    }
    SameNames(ActionRefs(s), ActionRefs(t));
    forall i | 0 <= i < |s| ensures s[i] == t[i] {
      assert s[i] in t;
      var j :| 0 <= j < |t| && t[j] == s[i];
      assert ActionRefs(s)[i] == ActionRefs(t)[i];
      if i != j { NamesDiffer(t, if i < j then i else j, if i < j then j else i); }
    }
  }

  lemma ConflictNamesDiffer(conflicts: seq<Divergence>, i: nat, j: nat)
    requires Ascending(ConflictRefs(conflicts)) && i < j < |conflicts|
    ensures conflicts[i].ref != conflicts[j].ref
  {
    assert ConflictRefs(conflicts)[i] == conflicts[i].ref && ConflictRefs(conflicts)[j] == conflicts[j].ref;
    LessTotal(conflicts[i].ref, conflicts[j].ref);
  }

  lemma SameConflicts(s: seq<Divergence>, t: seq<Divergence>)
    requires Ascending(ConflictRefs(s)) && Ascending(ConflictRefs(t)) && forall c :: c in s <==> c in t
    ensures s == t
  {
    hide Less;
    forall x ensures x in ConflictRefs(s) <==> x in ConflictRefs(t) {
      if x in ConflictRefs(s) { var i :| 0 <= i < |s| && s[i].ref == x; ConflictNameIsListed(t, s[i]); }
      if x in ConflictRefs(t) { var i :| 0 <= i < |t| && t[i].ref == x; ConflictNameIsListed(s, t[i]); }
    }
    SameNames(ConflictRefs(s), ConflictRefs(t));
    forall i | 0 <= i < |s| ensures s[i] == t[i] {
      assert s[i] in t;
      var j :| 0 <= j < |t| && t[j] == s[i];
      assert ConflictRefs(s)[i] == ConflictRefs(t)[i];
      if i != j { ConflictNamesDiffer(t, if i < j then i else j, if i < j then j else i); }
    }
  }

  /** No ref occurs in two places of a plan. */
  lemma RefsOccurOnce(s: Both, ancestry: Ancestry, actions: seq<Action>, conflicts: seq<Divergence>)
    requires Plans(s, ancestry, actions, conflicts)
    ensures forall i, j :: 0 <= i < j < |actions| ==> actions[i].ref != actions[j].ref
    ensures forall i, j :: 0 <= i < j < |conflicts| ==> conflicts[i].ref != conflicts[j].ref
    ensures forall a, c :: a in actions && c in conflicts ==> a.ref != c.ref
  {
    hide Less;
    forall i, j | 0 <= i < j < |actions| ensures actions[i].ref != actions[j].ref { NamesDiffer(actions, i, j); }
    forall i, j | 0 <= i < j < |conflicts| ensures conflicts[i].ref != conflicts[j].ref { ConflictNamesDiffer(conflicts, i, j); }
  }
}
