/** Planning which refs to push where.

    Refs map names to commits.  The plan looks at every ref of either forge, in
    name order, and either pushes it one way, leaves it, or reports that its two
    commits diverged. */
module RefPlan {
  import opened Objects

  type Ref = string
  type Sha = nat
  type Refs = map<Ref, Sha>

  datatype Action = Action(ref: Ref, sha: Sha, from: Side, to: Side)

  datatype Divergence = Divergence(ref: Ref, github: Sha, forgejo: Sha)

  /** What the ancestry check reports; it may fail. */
  datatype Answer = Yes | No | Unknown

  type Ancestry = (Sha, Sha) -> Answer

  datatype Planned = Planned(actions: seq<Action>, conflicts: seq<Divergence>) | Failed

  // ---- the name order ----

  predicate Less(a: string, b: string)
  {
    if a == [] || b == [] then a == [] && b != []
    else a[0] < b[0] || (a[0] == b[0] && Less(a[1..], b[1..]))
  }

  lemma {:induction false} LessTransitive(a: string, b: string, c: string)
    requires Less(a, b) && Less(b, c)
    ensures Less(a, c)
  {
    if a != [] && b != [] && c != [] && a[0] == b[0] == c[0] {
      LessTransitive(a[1..], b[1..], c[1..]);
    }
  }

  lemma {:induction false} LessTotal(a: string, b: string)
    ensures a == b || Less(a, b) || Less(b, a)
    ensures !(Less(a, b) && Less(b, a)) && (Less(a, b) ==> a != b)
  {
    if a != [] && b != [] {
      if a[0] == b[0] { LessTotal(a[1..], b[1..]); }
      assert a[1..] == b[1..] && a[0] == b[0] ==> a == [a[0]] + a[1..] == [b[0]] + b[1..] == b;
    }
  }

  ghost predicate Ascending(names: seq<string>)
  {
    forall i, j :: 0 <= i < j < |names| ==> Less(names[i], names[j])
  }

  function ActionRefs(actions: seq<Action>): seq<Ref>
  {
    seq(|actions|, i requires 0 <= i < |actions| => actions[i].ref)
  }

  function ConflictRefs(conflicts: seq<Divergence>): seq<Ref>
  {
    seq(|conflicts|, i requires 0 <= i < |conflicts| => conflicts[i].ref)
  }

  // ---- the verdict on one ref ----

  datatype Verdict = Same | Copy(sha: Sha, from: Side) | Apart(github: Sha, forgejo: Sha) | Undecided

  function Get(refs: Refs, ref: Ref): Option<Sha>
  {
    if ref in refs then Some(refs[ref]) else None
  }

  function Judge(github: Option<Sha>, forgejo: Option<Sha>, ancestry: Ancestry): Verdict
  {
    match (github, forgejo)
    case (None, None) => Same
    case (Some(g), None) => Copy(g, GitHub)
    case (None, Some(f)) => Copy(f, Forgejo)
    case (Some(g), Some(f)) =>
      if g == f then Same
      else if ancestry(g, f) == Unknown then Undecided
      else if ancestry(g, f) == Yes then Copy(f, Forgejo)
      else if ancestry(f, g) == Unknown then Undecided
      else if ancestry(f, g) == Yes then Copy(g, GitHub)
      else Apart(g, f)
  }

  function VerdictOn(github: Refs, forgejo: Refs, ref: Ref, ancestry: Ancestry): Verdict
  {
    Judge(Get(github, ref), Get(forgejo, ref), ancestry)
  }

  function Other(s: Side): Side
  {
    if s.GitHub? then Forgejo else GitHub
  }

  // ---- what is due ----

  /** Both forges have the ref, at two commits of which neither is known to contain the other. */
  ghost predicate Unrelated(github: Refs, forgejo: Refs, ref: Ref, ancestry: Ancestry)
  {
    && ref in github && ref in forgejo && github[ref] != forgejo[ref]
    && ancestry(github[ref], forgejo[ref]) != Yes && ancestry(forgejo[ref], github[ref]) != Yes
  }

  /** A check that planning needs fails; the second is needed only after a No. */
  ghost predicate Unanswered(github: Refs, forgejo: Refs, ref: Ref, ancestry: Ancestry)
  {
    && ref in github && ref in forgejo && github[ref] != forgejo[ref]
    && (ancestry(github[ref], forgejo[ref]) == Unknown
        || (ancestry(github[ref], forgejo[ref]) == No && ancestry(forgejo[ref], github[ref]) == Unknown))
  }

  /** GitHub lacks the ref or is behind. */
  ghost predicate DueToGitHub(github: Refs, forgejo: Refs, a: Action, ancestry: Ancestry)
  {
    && a.from == Forgejo && a.to == GitHub && a.ref in forgejo && a.sha == forgejo[a.ref]
    && (a.ref in github ==> github[a.ref] != forgejo[a.ref] && ancestry(github[a.ref], forgejo[a.ref]) == Yes)
  }

  /** Forgejo lacks the ref or is behind, and GitHub is not. */
  ghost predicate DueToForgejo(github: Refs, forgejo: Refs, a: Action, ancestry: Ancestry)
  {
    && a.from == GitHub && a.to == Forgejo && a.ref in github && a.sha == github[a.ref]
    && (a.ref in forgejo ==>
          && github[a.ref] != forgejo[a.ref]
          && ancestry(github[a.ref], forgejo[a.ref]) == No && ancestry(forgejo[a.ref], github[a.ref]) == Yes)
  }

  ghost predicate DueConflict(github: Refs, forgejo: Refs, c: Divergence, ancestry: Ancestry)
  {
    Unrelated(github, forgejo, c.ref, ancestry) && c.github == github[c.ref] && c.forgejo == forgejo[c.ref]
  }

  /** Strictly name-ordered lists holding exactly the pushes and divergences due. */
  ghost predicate IsPlan(github: Refs, forgejo: Refs, ancestry: Ancestry, actions: seq<Action>, conflicts: seq<Divergence>)
  {
    && Ascending(ActionRefs(actions)) && Ascending(ConflictRefs(conflicts))
    && (forall a :: a in actions <==> DueToGitHub(github, forgejo, a, ancestry) || DueToForgejo(github, forgejo, a, ancestry))
    && (forall c :: c in conflicts <==> DueConflict(github, forgejo, c, ancestry))
  }

  /** What the verdicts mean. */
  lemma VerdictMeans(github: Refs, forgejo: Refs, ref: Ref, ancestry: Ancestry)
    ensures var v := VerdictOn(github, forgejo, ref, ancestry);
      && (v == Undecided <==> Unanswered(github, forgejo, ref, ancestry))
      && (v.Apart? <==> Unrelated(github, forgejo, ref, ancestry) && !Unanswered(github, forgejo, ref, ancestry))
      && (forall g, f :: v == Apart(g, f) <==>
            DueConflict(github, forgejo, Divergence(ref, g, f), ancestry) && !Unanswered(github, forgejo, ref, ancestry))
      && (forall sha :: v == Copy(sha, Forgejo) <==> DueToGitHub(github, forgejo, Action(ref, sha, Forgejo, GitHub), ancestry))
      && (forall sha :: v == Copy(sha, GitHub) <==> DueToForgejo(github, forgejo, Action(ref, sha, GitHub, Forgejo), ancestry))
  {
  }

  // ---- the algorithm ----

  lemma AscendingInsert(names: seq<string>, k: nat, ref: string)
    requires Ascending(names) && k <= |names|
    requires k > 0 ==> Less(names[k - 1], ref)
    requires k < |names| ==> Less(ref, names[k])
    ensures Ascending(names[..k] + [ref] + names[k..])
  {
    forall i | 0 <= i < k ensures Less(names[i], ref) {
      if i < k - 1 { LessTransitive(names[i], names[k - 1], ref); }
    }
    forall i | k <= i < |names| ensures Less(ref, names[i]) {
      if i > k { LessTransitive(ref, names[k], names[i]); }
    }
  }

  method InsertSorted(names: seq<string>, ref: string) returns (result: seq<string>)
    requires Ascending(names) && ref !in names
    ensures Ascending(result) && forall x :: x in result <==> x in names || x == ref
  {
    var k := |names|;
    while k > 0 && Less(ref, names[k - 1])
      invariant 0 <= k <= |names|
      invariant k < |names| ==> Less(ref, names[k])
    {
      k := k - 1;
    }
    if k > 0 {
      LessTotal(names[k - 1], ref);
      assert names[k - 1] in names;
    }
    AscendingInsert(names, k, ref);
    assert names == names[..k] + names[k..];
    result := names[..k] + [ref] + names[k..];
  }

  /** All ref names of both forges, each once, in order. */
  method Union(github: Refs, forgejo: Refs) returns (names: seq<Ref>)
    ensures Ascending(names) && forall x :: x in names <==> x in github || x in forgejo
  {
    var rest := github.Keys + forgejo.Keys;
    names := [];
    while rest != {}
      invariant rest <= github.Keys + forgejo.Keys
      invariant Ascending(names) && forall x :: x in names <==> x in github.Keys + forgejo.Keys - rest
      decreases rest
    {
      var ref :| ref in rest;
      rest := rest - {ref};
      names := InsertSorted(names, ref);
    }
  }

  /** The lists hold what is due for the names seen so far. */
  ghost predicate PlanSoFar(github: Refs, forgejo: Refs, ancestry: Ancestry, seen: seq<Ref>,
                            actions: seq<Action>, conflicts: seq<Divergence>)
  {
    && Ascending(ActionRefs(actions)) && Ascending(ConflictRefs(conflicts))
    && (forall a :: a in actions <==>
          a.ref in seen && VerdictOn(github, forgejo, a.ref, ancestry) == Copy(a.sha, a.from) && a.to == Other(a.from))
    && (forall c :: c in conflicts <==>
          c.ref in seen && VerdictOn(github, forgejo, c.ref, ancestry) == Apart(c.github, c.forgejo))
  }

  lemma AscendingAppend(names: seq<string>, seen: seq<string>, ref: string)
    requires Ascending(names) && Ascending(seen + [ref]) && forall x :: x in names ==> x in seen
    ensures Ascending(names + [ref])
  {
    forall i | 0 <= i < |names| ensures Less(names[i], ref) {
      assert names[i] in seen;
      var j :| 0 <= j < |seen| && seen[j] == names[i];
      assert (seen + [ref])[j] == names[i] && (seen + [ref])[|seen|] == ref;
    }
  }

  lemma ActionAppended(github: Refs, forgejo: Refs, ancestry: Ancestry, seen: seq<Ref>, ref: Ref,
                       actions: seq<Action>, conflicts: seq<Divergence>, a: Action)
    requires PlanSoFar(github, forgejo, ancestry, seen, actions, conflicts) && Ascending(seen + [ref])
    requires a.ref == ref && VerdictOn(github, forgejo, ref, ancestry) == Copy(a.sha, a.from) && a.to == Other(a.from)
    ensures PlanSoFar(github, forgejo, ancestry, seen + [ref], actions + [a], conflicts)
  {
    hide VerdictOn, Less;
    assert forall i :: 0 <= i < |actions| ==> actions[i] in actions;
    AscendingAppend(ActionRefs(actions), seen, ref);
    assert ActionRefs(actions + [a]) == ActionRefs(actions) + [ref];
  }

  lemma ConflictAppended(github: Refs, forgejo: Refs, ancestry: Ancestry, seen: seq<Ref>, ref: Ref,
                         actions: seq<Action>, conflicts: seq<Divergence>, c: Divergence)
    requires PlanSoFar(github, forgejo, ancestry, seen, actions, conflicts) && Ascending(seen + [ref])
    requires c.ref == ref && VerdictOn(github, forgejo, ref, ancestry) == Apart(c.github, c.forgejo)
    ensures PlanSoFar(github, forgejo, ancestry, seen + [ref], actions, conflicts + [c])
  {
    hide VerdictOn, Less;
    assert forall i :: 0 <= i < |conflicts| ==> conflicts[i] in conflicts;
    AscendingAppend(ConflictRefs(conflicts), seen, ref);
    assert ConflictRefs(conflicts + [c]) == ConflictRefs(conflicts) + [ref];
  }

  lemma PrefixAscending(names: seq<string>, i: nat)
    requires Ascending(names) && i < |names|
    ensures names[..i + 1] == names[..i] + [names[i]] && Ascending(names[..i] + [names[i]])
  {
  }

  /** One ref: append what is due. */
  method PlanRef(github: Refs, forgejo: Refs, ancestry: Ancestry, ghost seen: seq<Ref>, ref: Ref, planned: Planned)
    returns (result: Planned)
    requires planned.Planned? && PlanSoFar(github, forgejo, ancestry, seen, planned.actions, planned.conflicts)
    requires Ascending(seen + [ref]) && (ref in github || ref in forgejo)
    ensures result.Failed? <==> VerdictOn(github, forgejo, ref, ancestry) == Undecided
    ensures result.Planned? ==> PlanSoFar(github, forgejo, ancestry, seen + [ref], result.actions, result.conflicts)
  {
    hide Ascending, Less;
    result := planned;
    if ref !in forgejo {
      var a := Action(ref, github[ref], GitHub, Forgejo);
      ActionAppended(github, forgejo, ancestry, seen, ref, planned.actions, planned.conflicts, a);
      result := planned.(actions := planned.actions + [a]);
    } else if ref !in github {
      var a := Action(ref, forgejo[ref], Forgejo, GitHub);
      ActionAppended(github, forgejo, ancestry, seen, ref, planned.actions, planned.conflicts, a);
      result := planned.(actions := planned.actions + [a]);
    } else if github[ref] != forgejo[ref] {
      var forgejoAhead := ancestry(github[ref], forgejo[ref]);
      if forgejoAhead == Unknown { return Failed; }
      if forgejoAhead == Yes {
        var a := Action(ref, forgejo[ref], Forgejo, GitHub);
        ActionAppended(github, forgejo, ancestry, seen, ref, planned.actions, planned.conflicts, a);
        return planned.(actions := planned.actions + [a]);
      }
      var githubAhead := ancestry(forgejo[ref], github[ref]);
      if githubAhead == Unknown { return Failed; }
      if githubAhead == Yes {
        var a := Action(ref, github[ref], GitHub, Forgejo);
        ActionAppended(github, forgejo, ancestry, seen, ref, planned.actions, planned.conflicts, a);
        return planned.(actions := planned.actions + [a]);
      }
      var c := Divergence(ref, github[ref], forgejo[ref]);
      ConflictAppended(github, forgejo, ancestry, seen, ref, planned.actions, planned.conflicts, c);
      result := planned.(conflicts := planned.conflicts + [c]);
    }
  }

  lemma PlanOfAllNames(github: Refs, forgejo: Refs, ancestry: Ancestry, names: seq<Ref>,
                       actions: seq<Action>, conflicts: seq<Divergence>)
    requires PlanSoFar(github, forgejo, ancestry, names, actions, conflicts)
    requires forall ref :: ref in github || ref in forgejo ==> ref in names
    requires forall ref :: ref in names ==> VerdictOn(github, forgejo, ref, ancestry) != Undecided
    ensures IsPlan(github, forgejo, ancestry, actions, conflicts)
    ensures forall ref :: !Unanswered(github, forgejo, ref, ancestry)
  {
    hide Less, Ascending, VerdictOn, DueToGitHub, DueToForgejo, DueConflict, Unrelated, Unanswered;
    forall ref ensures !Unanswered(github, forgejo, ref, ancestry) {
      VerdictMeans(github, forgejo, ref, ancestry);
      if ref !in names { OnNeitherForge(github, forgejo, ref, ancestry); }
    }
    forall a ensures a in actions <==> DueToGitHub(github, forgejo, a, ancestry) || DueToForgejo(github, forgejo, a, ancestry) {
      VerdictMeans(github, forgejo, a.ref, ancestry);
      DueSides(github, forgejo, a, ancestry);
      if a.ref !in names { OnNeitherForge(github, forgejo, a.ref, ancestry); }
    }
    forall c ensures c in conflicts <==> DueConflict(github, forgejo, c, ancestry) {
      assert c == Divergence(c.ref, c.github, c.forgejo);
      VerdictMeans(github, forgejo, c.ref, ancestry);
      if c.ref !in names { OnNeitherForge(github, forgejo, c.ref, ancestry); }
    }
  }

  lemma OnNeitherForge(github: Refs, forgejo: Refs, ref: Ref, ancestry: Ancestry)
    requires ref !in github && ref !in forgejo
    ensures VerdictOn(github, forgejo, ref, ancestry) == Same
  {
  }

  lemma DueSides(github: Refs, forgejo: Refs, a: Action, ancestry: Ancestry)
    ensures DueToGitHub(github, forgejo, a, ancestry) ==> a == Action(a.ref, a.sha, Forgejo, GitHub)
    ensures DueToForgejo(github, forgejo, a, ancestry) ==> a == Action(a.ref, a.sha, GitHub, Forgejo)
    ensures a.to == Other(a.from) ==> a == Action(a.ref, a.sha, Forgejo, GitHub) || a == Action(a.ref, a.sha, GitHub, Forgejo)
  {
  }

  /** Planning fails exactly when an ancestry check it needs fails; otherwise it returns the plan. */
  method Plan(github: Refs, forgejo: Refs, ancestry: Ancestry) returns (result: Planned)
    ensures result.Failed? <==> exists ref :: Unanswered(github, forgejo, ref, ancestry)
    ensures result.Planned? ==> IsPlan(github, forgejo, ancestry, result.actions, result.conflicts)
    ensures result.Planned? ==> forall ref, g, f ::
              Divergence(ref, g, f) in result.conflicts <==>
                && ref in github && ref in forgejo && github[ref] == g && forgejo[ref] == f
                && g != f && ancestry(g, f) != Yes && ancestry(f, g) != Yes
    ensures result.Planned? ==> forall ref, f ::
              Action(ref, f, Forgejo, GitHub) in result.actions <==>
                && ref in forgejo && forgejo[ref] == f
                && (ref in github ==> github[ref] != f && ancestry(github[ref], f) == Yes)
    ensures result.Planned? ==> forall ref, g ::
              Action(ref, g, GitHub, Forgejo) in result.actions <==>
                && ref in github && github[ref] == g
                && (ref in forgejo ==> forgejo[ref] != g && ancestry(g, forgejo[ref]) == No && ancestry(forgejo[ref], g) == Yes)
    ensures result.Planned? ==> forall a :: a in result.actions ==> a.to == Other(a.from)
  {
    hide Less;
    var names := Union(github, forgejo);
    result := Planned([], []);
    for i := 0 to |names|
      invariant result.Planned? && PlanSoFar(github, forgejo, ancestry, names[..i], result.actions, result.conflicts)
      invariant forall ref :: ref in names[..i] ==> VerdictOn(github, forgejo, ref, ancestry) != Undecided
    {
      PrefixAscending(names, i);
      assert names[i] in names;
      result := PlanRef(github, forgejo, ancestry, names[..i], names[i], result);
      if result.Failed? {
        VerdictMeans(github, forgejo, names[i], ancestry);
        return;
      }
    }
    assert names[..|names|] == names;
    PlanOfAllNames(github, forgejo, ancestry, names, result.actions, result.conflicts);
  }
}
