/** One synchronization of refs: fetch, plan, push until a push is refused.

    `Synchronizer.Sync` is the run without interference; `IsSync` interleaves it
    with users who push to both forges after the fetch. */
module RefProtocol {
  import opened Objects
  import opened RefPlan
  import opened RefSync
  import opened Forges

  class Remote {
    var refs: Refs
    const refuses: set<Ref>   // names a rule of this forge protects from every push

    constructor (refs: Refs, refuses: set<Ref>)
      ensures this.refs == refs && this.refuses == refuses
    {
      this.refs, this.refuses := refs, refuses;
    }

    method Fetch(net: Network) returns (ok: bool, snapshot: Refs)
      modifies net
      ensures !ok ==> net.remaining == 0
      ensures snapshot == refs
    {
      var reached;
      ok, reached := net.Call();
      snapshot := refs;
    }

    method Push(net: Network, ref: Ref, sha: Sha, ancestry: Ancestry) returns (ok: bool, effect: bool)
      modifies this`refs, net
      ensures refs == if effect then old(refs)[ref := sha] else old(refs)
      ensures effect ==> Accepts(old(refs), ref, sha, ancestry) && ref !in refuses
      ensures ok ==> effect
      ensures !ok ==> net.remaining == 0 || ref in refuses || !Accepts(old(refs), ref, sha, ancestry)
    {
      ok, effect := net.Call();
      if ref in refuses || !Accepts(refs, ref, sha, ancestry) { ok, effect := false, false; }
      if effect { refs := refs[ref := sha]; }
    }
  }

  class ConflictLog {
    var conflicts: set<Divergence>

    constructor ()
      ensures conflicts == {}
    {
      conflicts := {};
    }

    method Add(net: Network, conflict: Divergence) returns (ok: bool)
      modifies this, net
      ensures !ok ==> net.remaining == 0
      ensures ok ==> conflicts == old(conflicts) + {conflict}
      ensures old(conflicts) <= conflicts <= old(conflicts) + {conflict}
    {
      var effect;
      ok, effect := net.Call();
      if effect { conflicts := conflicts + {conflict}; }
    }
  }

  class Synchronizer {
    const github: Remote
    const forgejo: Remote
    const log: ConflictLog

    constructor (github: Remote, forgejo: Remote, log: ConflictLog)
      requires github != forgejo
      ensures this.github == github && this.forgejo == forgejo && this.log == log
    {
      this.github, this.forgejo, this.log := github, forgejo, log;
    }

    function State(): Both
      reads github, forgejo
    {
      Both(github.refs, forgejo.refs)
    }

    function Refuses(side: Side): set<Ref>
    {
      if side.GitHub? then github.refuses else forgejo.refuses
    }

    /** The target forge turns the push down. */
    predicate Turned(s: Both, a: Action, ancestry: Ancestry)
    {
      a.ref in Refuses(a.to) || !Accepts(On(s, a.to), a.ref, a.sha, ancestry)
    }

    method RecordConflicts(net: Network, conflicts: seq<Divergence>) returns (ok: bool)
      modifies log, net
      ensures !ok ==> net.remaining == 0
      ensures ok ==> log.conflicts == old(log.conflicts) + (set c | c in conflicts)
      ensures old(log.conflicts) <= log.conflicts <= old(log.conflicts) + (set c | c in conflicts)
    {
      ok := true;
      for i := 0 to |conflicts|
        invariant log.conflicts == old(log.conflicts) + set c | c in conflicts[..i]
      {
        ok := log.Add(net, conflicts[i]);
        assert conflicts[..i + 1] == conflicts[..i] + [conflicts[i]];
        assert conflicts[i] in conflicts;
        if !ok { return; }
      }
      assert conflicts[..|conflicts|] == conflicts;
    }

    method PushAction(net: Network, a: Action, ancestry: Ancestry) returns (ok: bool, effect: bool)
      requires github != forgejo
      modifies github`refs, forgejo`refs, net
      ensures State() == if effect then Put(old(State()), a.to, a.ref, a.sha) else old(State())
      ensures ok ==> effect
      ensures effect ==> !Turned(old(State()), a, ancestry)
      ensures !ok ==> net.remaining == 0 || Turned(old(State()), a, ancestry)
    {
      if a.to.GitHub? {
        ok, effect := github.Push(net, a.ref, a.sha, ancestry);
      } else {
        ok, effect := forgejo.Push(net, a.ref, a.sha, ancestry);
      }
    }

    /** Pushes the plan's actions in order and stops at the first failure. */
    method PushPlan(net: Network, actions: seq<Action>, ancestry: Ancestry) returns (ok: bool, ghost pushed: nat)
      requires github != forgejo
      modifies github`refs, forgejo`refs, net
      ensures pushed <= |actions| && State() == PushAll(old(State()), actions[..pushed])
      ensures ok ==> pushed == |actions|
      ensures !ok ==> net.remaining == 0 || (pushed < |actions| && Turned(State(), actions[pushed], ancestry))
    {
      ok, pushed := true, 0;
      for i := 0 to |actions|
        invariant ok && pushed == i && State() == PushAll(old(State()), actions[..i])
      {
        var effect;
        ok, effect := PushAction(net, actions[i], ancestry);
        assert actions[..i + 1][..i] == actions[..i];
        if effect { pushed := i + 1; }
        if !ok { return; }
      }
    }

    /** A name the target forge protects, or a tag that already exists there. */
    predicate Blocked(s: Both, a: Action)
    {
      a.ref in Refuses(a.to) || (IsTag(a.ref) && a.ref in On(s, a.to))
    }

    /** Nothing moves in a dry run or when planning fails.  Otherwise the pushes of a prefix of the
        plan took effect: of the whole plan if `ok`; else up to a lost connection or a push
        that is blocked. */
    method Sync(net: Network, ancestry: Ancestry, dryRun: bool) returns (planned: Planned, ok: bool, ghost pushed: nat)
      requires github != forgejo
      modifies github`refs, forgejo`refs, log, net
      ensures planned.Planned? ==> Plans(old(State()), ancestry, planned.actions, planned.conflicts)
      ensures planned.Planned? ==> pushed <= |planned.actions| && State() == PushAll(old(State()), planned.actions[..pushed])
      ensures planned.Failed? ==> !ok && State() == old(State()) && log.conflicts == old(log.conflicts)
      ensures planned.Failed? ==> net.remaining == 0 || exists ref :: Unanswered(old(State()).github, old(State()).forgejo, ref, ancestry)
      ensures dryRun ==> State() == old(State()) && log.conflicts == old(log.conflicts)
      ensures ok && !dryRun ==> pushed == |planned.actions|
      ensures ok && !dryRun ==> log.conflicts == old(log.conflicts) + set c | c in planned.conflicts
      ensures old(log.conflicts) <= log.conflicts <= old(log.conflicts) + if planned.Planned? then set c | c in planned.conflicts else {}
      ensures planned.Planned? && (pushed > 0 || (!ok && net.remaining > 0)) ==>
                log.conflicts == old(log.conflicts) + set c | c in planned.conflicts
      ensures !ok && planned.Planned? ==>
                net.remaining == 0 || (pushed < |planned.actions| && Blocked(old(State()), planned.actions[pushed]))
    {
      hide Plans, PushAll, Less, Ascending, IsTag, Accepts;
      ghost var s := State();
      planned, ok, pushed := Failed, false, 0;
      var reached, githubRefs := github.Fetch(net);
      if !reached { return; }
      var forgejoRefs;
      reached, forgejoRefs := forgejo.Fetch(net);
      if !reached { return; }
      planned := Plan(githubRefs, forgejoRefs, ancestry);
      if planned.Failed? { return; }
      PlansFromParts(s, ancestry, planned.actions, planned.conflicts);
      NothingPushed(s, planned.actions);
      if dryRun { return planned, true, 0; }
      ok := RecordConflicts(net, planned.conflicts);
      if !ok { return; }
      ok, pushed := PushPlan(net, planned.actions, ancestry);
      if !ok && pushed < |planned.actions| {
        PushAcceptedIff(s, ancestry, planned.actions, planned.conflicts, pushed);
      }
    }
  }

  lemma PlansFromParts(s: Both, ancestry: Ancestry, actions: seq<Action>, conflicts: seq<Divergence>)
    requires IsPlan(s.github, s.forgejo, ancestry, actions, conflicts)
    requires forall ref :: !Unanswered(s.github, s.forgejo, ref, ancestry)
    ensures Plans(s, ancestry, actions, conflicts)
  {
  }

  lemma NothingPushed(s: Both, actions: seq<Action>)
    ensures PushAll(s, actions[..0]) == s
  {
  }

  // ---- a refused tag does not hold up branches ----

  lemma {:induction false} CommonPrefix(p: string, a: string, b: string)
    ensures Less(p + a, p + b) == Less(a, b)
  {
    if p == [] {
      assert p + a == a && p + b == b;
    } else {
      assert (p + a)[1..] == p[1..] + a && (p + b)[1..] == p[1..] + b;
      CommonPrefix(p[1..], a, b);
    }
  }

  lemma BranchBeforeTag(branch: Ref, tag: Ref)
    requires "refs/heads/" <= branch && "refs/tags/" <= tag
    ensures Less(branch, tag)
  {
    var p := "refs/";
    assert branch[5] == 'h' && tag[5] == 't';
    assert branch == p + branch[5..] && tag == p + tag[5..];
    CommonPrefix(p, branch[5..], tag[5..]);
  }

  /** Branches come before tags, so a synchronization that stops at a tag has already made every
      branch equal, except those that diverged. */
  lemma StoppedAtTagBranchesAreEqual(s: Both, ancestry: Ancestry, actions: seq<Action>, conflicts: seq<Divergence>,
                                     k: nat, branch: Ref)
    requires Plans(s, ancestry, actions, conflicts) && k <= |actions| && "refs/heads/" <= branch
    requires k < |actions| ==> "refs/tags/" <= actions[k].ref
    requires !Unrelated(s.github, s.forgejo, branch, ancestry)
    ensures Get(PushAll(s, actions[..k]).github, branch) == Get(PushAll(s, actions[..k]).forgejo, branch)
  {
    hide Plans, Less, Ascending, VerdictOn;
    PlanAscends(s, ancestry, actions, conflicts);
    ApartIsUnrelated(s, ancestry, actions, conflicts, branch);
    if Verdicts(s, branch, ancestry).Copy? {
      var i := PlannedIfCopy(s, ancestry, actions, conflicts, branch);
      if k < |actions| {
        BranchBeforeTag(branch, actions[k].ref);
        LessTotal(branch, actions[k].ref);
        if k < i { NamesDiffer(actions, k, i); }
      }
      PlannedCopy(s, ancestry, actions, conflicts, i);
      NamedRefPushed(s, actions, k, i);
    } else {
      UnplannedUnlessCopy(s, ancestry, actions, conflicts, branch);
      assert forall a :: a in actions[..k] ==> a in actions;
      UnnamedRefKept(s, actions[..k], branch);
      SameVerdict(s, branch, ancestry);
    }
  }

  // ---- users push meanwhile ----

  datatype Moment = Moment(forges: Both, pushed: nat, stopped: bool)

  datatype Event = UserPush(to: Side, ref: Ref, sha: Sha) | NextPush

  predicate Possible(m: Moment, e: Event, actions: seq<Action>, ancestry: Ancestry)
  {
    match e
    case UserPush(to, ref, sha) => Accepts(On(m.forges, to), ref, sha, ancestry)
    case NextPush => !m.stopped && m.pushed < |actions|
  }

  function Happen(m: Moment, e: Event, actions: seq<Action>, ancestry: Ancestry): Moment
    requires Possible(m, e, actions, ancestry)
  {
    match e
    case UserPush(to, ref, sha) => m.(forges := Put(m.forges, to, ref, sha))
    case NextPush =>
      var a := actions[m.pushed];
      if Accepts(On(m.forges, a.to), a.ref, a.sha, ancestry)
      then m.(forges := Put(m.forges, a.to, a.ref, a.sha), pushed := m.pushed + 1)
      else m.(stopped := true)
  }

  /** A synchronization that fetched s, interleaved with users' pushes in any way. */
  ghost predicate IsSync(s: Both, ancestry: Ancestry, actions: seq<Action>, moments: seq<Moment>, events: seq<Event>)
  {
    && |moments| == |events| + 1 && moments[0] == Moment(s, 0, false)
    && forall k :: 0 <= k < |events| ==>
         Possible(moments[k], events[k], actions, ancestry) && moments[k + 1] == Happen(moments[k], events[k], actions, ancestry)
  }

  ghost predicate Touched(events: seq<Event>, k: nat, ref: Ref)
  {
    exists j :: 0 <= j < k <= |events| && events[j].UserPush? && events[j].ref == ref
  }

  ghost predicate Transitive(ancestry: Ancestry)
  {
    forall a, b, c :: ancestry(a, b) == Yes && ancestry(b, c) == Yes ==> ancestry(a, c) == Yes
  }

  lemma AcceptedIsForward(s: Both, to: Side, ref: Ref, sha: Sha, ancestry: Ancestry)
    requires Accepts(On(s, to), ref, sha, ancestry)
    ensures Forward(s, Put(s, to, ref, sha), ancestry)
  {
  }

  lemma ForwardTwice(s: Both, t: Both, u: Both, ancestry: Ancestry)
    requires Transitive(ancestry) && Forward(s, t, ancestry) && Forward(t, u, ancestry)
    ensures Forward(s, u, ancestry)
  {
  }

  /** Whatever users push meanwhile and wherever it stops, every ref only ever moves forward. */
  lemma {:induction false} OnlyForward(s: Both, ancestry: Ancestry, actions: seq<Action>, moments: seq<Moment>, events: seq<Event>,
                                       j: nat, k: nat)
    requires IsSync(s, ancestry, actions, moments, events) && Transitive(ancestry) && j <= k < |moments|
    ensures Forward(moments[j].forges, moments[k].forges, ancestry)
    decreases k
  {
    hide Forward, Accepts, Transitive;
    if j == k {
      ForwardRefl(moments[j].forges, ancestry);
    } else {
      OnlyForward(s, ancestry, actions, moments, events, j, k - 1);
      var m := moments[k - 1];
      match events[k - 1] {
        case UserPush(to, ref, sha) => AcceptedIsForward(m.forges, to, ref, sha, ancestry);
        case NextPush =>
          var a := actions[m.pushed];
          if Accepts(On(m.forges, a.to), a.ref, a.sha, ancestry) {
            AcceptedIsForward(m.forges, a.to, a.ref, a.sha, ancestry);
          } else {
            ForwardRefl(m.forges, ancestry);
          }
      }
      ForwardTwice(moments[j].forges, m.forges, moments[k].forges, ancestry);
    }
  }

  lemma ForwardRefl(s: Both, ancestry: Ancestry)
    ensures Forward(s, s, ancestry)
  {
  }

  ghost predicate SameAt(s: Both, t: Both, ref: Ref)
  {
    Get(s.github, ref) == Get(t.github, ref) && Get(s.forgejo, ref) == Get(t.forgejo, ref)
  }

  lemma PutAt(s: Both, t: Both, to: Side, name: Ref, sha: Sha, ref: Ref)
    requires SameAt(s, t, ref)
    ensures SameAt(Put(s, to, name, sha), Put(t, to, name, sha), ref)
    ensures name != ref ==> SameAt(Put(s, to, name, sha), t, ref)
  {
  }

  /** A ref no user touched is where the undisturbed synchronization would have it. */
  lemma {:induction false} UntouchedFollowsPlan(s: Both, ancestry: Ancestry, actions: seq<Action>,
                                                moments: seq<Moment>, events: seq<Event>, k: nat, ref: Ref)
    requires IsSync(s, ancestry, actions, moments, events) && k < |moments| && !Touched(events, k, ref)
    ensures moments[k].pushed <= |actions|
    ensures SameAt(moments[k].forges, PushAll(s, actions[..moments[k].pushed]), ref)
  {
    hide Accepts;
    if k > 0 {
      assert !Touched(events, k - 1, ref);
      UntouchedFollowsPlan(s, ancestry, actions, moments, events, k - 1, ref);
      var m := moments[k - 1];
      var n := m.pushed;
      match events[k - 1] {
        case UserPush(to, name, sha) => PutAt(m.forges, PushAll(s, actions[..n]), to, name, sha, ref);
        case NextPush =>
          var a := actions[n];
          assert actions[..n + 1][..n] == actions[..n];
          PutAt(m.forges, PushAll(s, actions[..n]), a.to, a.ref, a.sha, ref);
      }
    }
  }

  /** When all pushes were accepted, every ref no user touched is equal on both forges or diverged. */
  lemma UntouchedBecomesEqual(s: Both, ancestry: Ancestry, actions: seq<Action>, conflicts: seq<Divergence>,
                              moments: seq<Moment>, events: seq<Event>, k: nat, ref: Ref)
    requires Plans(s, ancestry, actions, conflicts) && IsSync(s, ancestry, actions, moments, events)
    requires k < |moments| && moments[k].pushed == |actions| && !Touched(events, k, ref)
    requires !Unrelated(s.github, s.forgejo, ref, ancestry)
    ensures Get(moments[k].forges.github, ref) == Get(moments[k].forges.forgejo, ref)
  {
    hide Plans, PushAll, VerdictOn, IsSync, Touched;
    UntouchedFollowsPlan(s, ancestry, actions, moments, events, k, ref);
    assert actions[..|actions|] == actions;
    RefAfterPlan(s, ancestry, actions, conflicts, ref);
    ApartIsUnrelated(s, ancestry, actions, conflicts, ref);
    if !Verdicts(s, ref, ancestry).Copy? { SameVerdict(s, ref, ancestry); }
  }

  /** A synchronization stops only at a ref a user pushed meanwhile, or at a tag that already exists. */
  lemma {:induction false} StopsOnlyForReason(s: Both, ancestry: Ancestry, actions: seq<Action>, conflicts: seq<Divergence>,
                                              moments: seq<Moment>, events: seq<Event>, k: nat)
    requires Plans(s, ancestry, actions, conflicts) && IsSync(s, ancestry, actions, moments, events)
    requires k < |moments| && moments[k].stopped
    ensures moments[k].pushed < |actions|
    ensures var a := actions[moments[k].pushed]; Touched(events, k, a.ref) || (IsTag(a.ref) && a.ref in On(s, a.to))
  {
    hide Plans, PushAll, Accepts, IsTag;
    var m := moments[k - 1];
    if m.stopped {
      StopsOnlyForReason(s, ancestry, actions, conflicts, moments, events, k - 1);
      var a := actions[m.pushed];
      if Touched(events, k - 1, a.ref) { TouchedLater(events, k - 1, a.ref); }
    } else {
      var a := actions[m.pushed];
      if !Touched(events, k, a.ref) {
        assert !Touched(events, k - 1, a.ref);
        UntouchedFollowsPlan(s, ancestry, actions, moments, events, k - 1, a.ref);
        PushAcceptedIff(s, ancestry, actions, conflicts, m.pushed);
        SameIsAccepted(m.forges, PushAll(s, actions[..m.pushed]), a, ancestry);
      }
    }
  }

  lemma TouchedLater(events: seq<Event>, k: nat, ref: Ref)
    requires Touched(events, k, ref) && k < |events|
    ensures Touched(events, k + 1, ref)
  {
  }

  lemma SameIsAccepted(s: Both, t: Both, a: Action, ancestry: Ancestry)
    requires SameAt(s, t, a.ref)
    ensures Accepts(On(s, a.to), a.ref, a.sha, ancestry) == Accepts(On(t, a.to), a.ref, a.sha, ancestry)
  {
  }
}
