/** Copying release assets by name.

    Nothing is ever deleted.  An asset above the size limit is skipped and
    reported; but when its report cannot be written, it is copied after all. */
module Assets {
  import opened Objects

  datatype Asset = Asset(name: string, size: int, content: nat)

  class ReleaseSide {
    var assets: seq<Asset>
    const reliable: bool   // downloads and uploads do not fail

    constructor (assets: seq<Asset>, reliable: bool)
      ensures this.assets == assets && this.reliable == reliable
    {
      this.assets, this.reliable := assets, reliable;
    }

    method Download(a: Asset) returns (ok: bool, content: nat)
      ensures ok ==> content == a.content
      ensures ok || !reliable
    {
      ok := *;
      ok := ok || reliable;
      content := a.content;
    }

    method Upload(name: string, size: int, content: nat) returns (ok: bool)
      modifies this`assets
      ensures assets == old(assets) + [Asset(name, size, content)] || (!ok && assets == old(assets))
      ensures ok || !reliable
    {
      ok := *;
      ok := ok || reliable;
      var effect: bool := *;
      if ok || effect { assets := assets + [Asset(name, size, content)]; }
    }
  }

  datatype Skip = Skip(name: string, size: int, limit: int, from: Side)

  /** The reported skips, and the reports that failed; every call may fail. */
  class SkipLog {
    var skips: set<Skip>
    var refused: seq<Skip>

    constructor ()
      ensures skips == {} && refused == []
    {
      skips, refused := {}, [];
    }

    method Add(skip: Skip) returns (ok: bool)
      modifies this
      ensures old(skips) <= skips <= old(skips) + {skip} && (ok ==> skip in skips)
      ensures refused == if ok then old(refused) else old(refused) + [skip]
    {
      ok := *;
      var effect: bool := *;
      if ok || effect { skips := skips + {skip}; }
      if !ok { refused := refused + [skip]; }
    }
  }

  function Names(assets: seq<Asset>): set<string>
  {
    set i | 0 <= i < |assets| :: assets[i].name
  }

  predicate Oversized(a: Asset, limit: int)
  {
    limit > 0 && a.size > limit
  }

  /** The i-th asset gets copied: the other side lacks its name, and it is not too large, or its
      skip is among those that could not be reported. */
  predicate IsCopied(from: seq<Asset>, i: nat, have: set<string>, limit: int, failed: set<nat>)
    requires i < |from|
  {
    from[i].name !in have && (Oversized(from[i], limit) ==> i in failed)
  }

  function Copies(from: seq<Asset>, have: set<string>, limit: int, failed: set<nat>): seq<Asset>
  {
    if from == [] then []
    else
      var n := |from| - 1;
      Copies(from[..n], have, limit, failed) + (if IsCopied(from, n, have, limit, failed) then [from[n]] else [])
  }

  lemma {:induction false} CopiesAre(from: seq<Asset>, have: set<string>, limit: int, failed: set<nat>, a: Asset)
    ensures a in Copies(from, have, limit, failed)
            <==> exists i :: 0 <= i < |from| && from[i] == a && IsCopied(from, i, have, limit, failed)
  {
    if from != [] {
      var n := |from| - 1;
      CopiesAre(from[..n], have, limit, failed, a);
      forall i: nat | i < n ensures IsCopied(from[..n], i, have, limit, failed) == IsCopied(from, i, have, limit, failed) {
      }
    }
  }

  /** The copies are the assets at these positions, which ascend: those whose name the other side lacks
      and that are not above a positive limit, or whose report failed. */
  ghost predicate Picks(indexes: seq<nat>, from: seq<Asset>, copies: seq<Asset>, have: set<string>, limit: int, failed: set<nat>)
  {
    && |indexes| == |copies| && (forall k, l :: 0 <= k < l < |indexes| ==> indexes[k] < indexes[l])
    && (forall k :: 0 <= k < |indexes| ==> indexes[k] < |from| && copies[k] == from[indexes[k]])
    && (forall i: nat | i < |from| :: i in indexes <==> from[i].name !in have && (0 < limit < from[i].size ==> i in failed))
  }

  lemma PickOneMore(indexes: seq<nat>, from: seq<Asset>, copies: seq<Asset>, have: set<string>, limit: int, failed: set<nat>, a: Asset)
    requires Picks(indexes, from, copies, have, limit, failed)
    ensures if a.name !in have && (0 < limit < a.size ==> |from| in failed)
            then Picks(indexes + [|from|], from + [a], copies + [a], have, limit, failed)
            else Picks(indexes, from + [a], copies, have, limit, failed)
  {
    assert |from| !in indexes;
    assert forall i :: 0 <= i < |from| ==> (from + [a])[i] == from[i];
    forall i: nat | i < |from| ensures i in indexes + [|from|] <==> i in indexes {}
  }

  lemma {:induction false} CopiesPick(from: seq<Asset>, have: set<string>, limit: int, failed: set<nat>) returns (indexes: seq<nat>)
    ensures Picks(indexes, from, Copies(from, have, limit, failed), have, limit, failed)
  {
    indexes := [];
    if from != [] {
      hide Picks;
      var n := |from| - 1;
      indexes := CopiesPick(from[..n], have, limit, failed);
      PickOneMore(indexes, from[..n], Copies(from[..n], have, limit, failed), have, limit, failed, from[n]);
      assert from[..n] + [from[n]] == from;
      if IsCopied(from, n, have, limit, failed) { indexes := indexes + [n]; }
    }
  }

  class AssetReconciler {
    const github: ReleaseSide
    const forgejo: ReleaseSide
    const log: SkipLog
    const limit: int   // no limit unless positive

    constructor (github: ReleaseSide, forgejo: ReleaseSide, log: SkipLog, limit: int)
      requires github != forgejo
      ensures this.github == github && this.forgejo == forgejo && this.log == log && this.limit == limit
    {
      this.github, this.forgejo, this.log, this.limit := github, forgejo, log, limit;
    }

    method ExceedsLimit(a: Asset, from: Side) returns (skip: bool)
      modifies log
      ensures skip ==> Oversized(a, limit) && SkipOf(a, from) in log.skips
      ensures old(log.skips) <= log.skips
      ensures log.refused == if Oversized(a, limit) && !skip then old(log.refused) + [SkipOf(a, from)] else old(log.refused)
    {
      if limit <= 0 || a.size <= limit { return false; }
      skip := log.Add(SkipOf(a, from));
    }

    function SkipOf(a: Asset, from: Side): Skip
    {
      Skip(a.name, a.size, limit, from)
    }

    /** Each skipped asset has been reported. */
    ghost predicate Reported(skips: set<Skip>, listed: seq<Asset>, have: set<string>, failed: set<nat>, from: Side)
    {
      forall i: nat :: i < |listed| && listed[i].name !in have && !IsCopied(listed, i, have, limit, failed) ==> SkipOf(listed[i], from) in skips
    }

    /** The failed indexes are those of missing, oversized assets, one for each report that failed. */
    ghost predicate Refusals(refused: seq<Skip>, refused': seq<Skip>, listed: seq<Asset>, have: set<string>, failed: set<nat>, from: Side)
    {
      && |refused'| == |refused| + |failed| && refused <= refused'
      && forall i :: i in failed ==>
           && i < |listed| && listed[i].name !in have && Oversized(listed[i], limit)
           && SkipOf(listed[i], from) in refused'[|refused|..]
    }

    /** Copies what the other side lacks, in order, and stops at the first failed call.  A report
        that fails does not stop the loop: its asset is copied. */
    method CopyMissing(listed: seq<Asset>, have: set<string>, source: ReleaseSide, target: ReleaseSide, from: Side)
      returns (ok: bool, ghost failed: set<nat>)
      modifies target`assets, log
      ensures old(target.assets) <= target.assets && old(log.skips) <= log.skips
      ensures ok ==> target.assets == old(target.assets) + Copies(listed, have, limit, failed)
      ensures forall a :: a in target.assets[|old(target.assets)|..] ==> a in Copies(listed, have, limit, failed)
      ensures ok ==> Reported(log.skips, listed, have, failed, from)
      ensures Refusals(old(log.refused), log.refused, listed, have, failed, from)
      ensures ok || !source.reliable || !target.reliable
    {
      hide Refusals, Reported, Copies, Names;
      ok, failed := true, {};
      NothingYet(log.refused, log.skips, listed, have, from);
      for i := 0 to |listed|
        invariant ok && target.assets == old(target.assets) + Copies(listed[..i], have, limit, failed)
        invariant old(log.skips) <= log.skips && forall k :: k in failed ==> k < i
        invariant Reported(log.skips, listed[..i], have, failed, from)
        invariant Refusals(old(log.refused), log.refused, listed, have, failed, from)
      {
        var a := listed[i];
        ghost var before, refused, skips := failed, log.refused, log.skips;
        if a.name !in have {
          var skip := ExceedsLimit(a, from);
          if !skip && Oversized(a, limit) {
            OneMoreRefused(old(log.refused), refused, log.refused, listed, have, failed, from, i);
            failed := failed + {i};
          }
          LaterFailure(listed[..i], have, limit, before, failed);
          CopiesGrow(listed, i, have, limit, failed);
          assert IsCopied(listed, i, have, limit, failed) == !skip;
          if !skip {
            var content;
            ok, content := source.Download(a);
            if !ok { return; }
            ok := target.Upload(a.name, a.size, content);
            assert a == Asset(a.name, a.size, a.content);
            if !ok { return; }
          }
        } else {
          CopiesGrow(listed, i, have, limit, failed);
        }
        ReportedMore(skips, log.skips, listed, have, before, failed, from, i);
      }
      assert listed[..|listed|] == listed;
    }

    lemma NothingYet(refused: seq<Skip>, skips: set<Skip>, listed: seq<Asset>, have: set<string>, from: Side)
      ensures Refusals(refused, refused, listed, have, {}, from) && Reported(skips, [], have, {}, from)
      ensures Copies(listed[..0], have, limit, {}) == []
    {
    }

    lemma OneMoreRefused(refused0: seq<Skip>, refused: seq<Skip>, refused': seq<Skip>, listed: seq<Asset>, have: set<string>,
                         failed: set<nat>, from: Side, i: nat)
      requires Refusals(refused0, refused, listed, have, failed, from) && i < |listed| && i !in failed
      requires listed[i].name !in have && Oversized(listed[i], limit) && refused' == refused + [SkipOf(listed[i], from)]
      ensures Refusals(refused0, refused', listed, have, failed + {i}, from)
    {
      assert refused'[|refused0|..] == refused[|refused0|..] + [SkipOf(listed[i], from)];
    }

    lemma ReportedMore(skips: set<Skip>, skips': set<Skip>, listed: seq<Asset>, have: set<string>,
                       failed: set<nat>, failed': set<nat>, from: Side, i: nat)
      requires i < |listed| && Reported(skips, listed[..i], have, failed, from) && failed <= failed' && skips <= skips'
      requires listed[i].name !in have && !IsCopied(listed, i, have, limit, failed') ==> SkipOf(listed[i], from) in skips'
      ensures Reported(skips', listed[..i + 1], have, failed', from)
    {
      forall k: nat | k < i + 1 && listed[k].name !in have && !IsCopied(listed, k, have, limit, failed')
        ensures SkipOf(listed[k], from) in skips'
      {
        if k < i { assert listed[..i][k] == listed[k] && !IsCopied(listed[..i], k, have, limit, failed); }
      }
    }

    /** Both directions, each judged by the release as it was listed. */
    method ReconcileAssets() returns (ok: bool, ghost failed: Failures)
      requires github != forgejo
      modifies github`assets, forgejo`assets, log
      ensures old(github.assets) <= github.assets && old(forgejo.assets) <= forgejo.assets && old(log.skips) <= log.skips
      ensures ok ==> Lists(github.assets, forgejo.assets) == AfterPass(Lists(old(github.assets), old(forgejo.assets)), limit, failed)
      ensures ok ==> Reported(log.skips, old(github.assets), Names(old(forgejo.assets)), failed.github, GitHub)
      ensures ok ==> Reported(log.skips, old(forgejo.assets), Names(old(github.assets)), failed.forgejo, Forgejo)
      ensures |log.refused| == |old(log.refused)| + |failed.github| + |failed.forgejo|
      ensures ok || !github.reliable || !forgejo.reliable
    {
      var onGitHub, onForgejo := github.assets, forgejo.assets;
      ghost var fromGitHub, fromForgejo;
      failed := Failures({}, {});
      ok, fromGitHub := CopyMissing(onGitHub, Names(onForgejo), github, forgejo, GitHub);
      failed := failed.(github := fromGitHub);
      if !ok { return; }
      ok, fromForgejo := CopyMissing(onForgejo, Names(onGitHub), forgejo, github, Forgejo);
      failed := failed.(forgejo := fromForgejo);
    }
  }

  /** Failures at later indexes do not change what a prefix contributes. */
  lemma {:induction false} LaterFailure(listed: seq<Asset>, have: set<string>, limit: int, failed: set<nat>, failed': set<nat>)
    requires failed <= failed' && forall i :: i in failed' && i !in failed ==> i >= |listed|
    ensures Copies(listed, have, limit, failed') == Copies(listed, have, limit, failed)
  {
    if listed != [] { LaterFailure(listed[..|listed| - 1], have, limit, failed, failed'); }
  }

  /** Every prefix of the listing contributes a prefix of the copies. */
  lemma CopiesGrow(listed: seq<Asset>, i: nat, have: set<string>, limit: int, failed: set<nat>)
    requires i < |listed|
    ensures Copies(listed[..i + 1], have, limit, failed)
            == Copies(listed[..i], have, limit, failed) + (if IsCopied(listed, i, have, limit, failed) then [listed[i]] else [])
    ensures forall a :: a in Copies(listed[..i + 1], have, limit, failed) ==> a in Copies(listed, have, limit, failed)
  {
    assert listed[..i + 1][..i] == listed[..i];
    forall a | a in Copies(listed[..i + 1], have, limit, failed) ensures a in Copies(listed, have, limit, failed) {
      CopiesAre(listed[..i + 1], have, limit, failed, a);
      var k: nat :| k < i + 1 && listed[..i + 1][k] == a && IsCopied(listed[..i + 1], k, have, limit, failed);
      assert IsCopied(listed, k, have, limit, failed);
      CopiesAre(listed, have, limit, failed, a);
    }
  }

  // ---- what one pass and many passes achieve ----

  /** The assets of a release on both forges, as listed. */
  datatype Lists = Lists(github: seq<Asset>, forgejo: seq<Asset>)

  /** The indexes of the assets whose skip could not be reported in a pass. */
  datatype Failures = Failures(github: set<nat>, forgejo: set<nat>)

  /** The release after one successful pass. */
  function AfterPass(r: Lists, limit: int, failed: Failures): Lists
  {
    Lists(r.github + Copies(r.forgejo, Names(r.github), limit, failed.forgejo),
            r.forgejo + Copies(r.github, Names(r.forgejo), limit, failed.github))
  }

  lemma NamedIn(assets: seq<Asset>, name: string)
    ensures name in Names(assets) <==> exists a :: a in assets && a.name == name
  {
    if name in Names(assets) {
      var i :| 0 <= i < |assets| && assets[i].name == name;
      assert assets[i] in assets;
    }
  }

  /** Some asset of this name is small enough, or its skip could not be reported. */
  ghost predicate GetsThrough(name: string, from: seq<Asset>, limit: int, failed: set<nat>)
  {
    exists i: nat :: i < |from| && from[i].name == name && (Oversized(from[i], limit) ==> i in failed)
  }

  lemma NamesAfterCopy(from: seq<Asset>, to: seq<Asset>, limit: int, failed: set<nat>, name: string)
    ensures name in Names(to + Copies(from, Names(to), limit, failed)) <==>
              name in Names(to) || GetsThrough(name, from, limit, failed)
  {
    var copies := Copies(from, Names(to), limit, failed);
    NamedIn(to + copies, name);
    NamedIn(to, name);
    if name !in Names(to) {
      forall a | a in copies && a.name == name ensures GetsThrough(name, from, limit, failed) {
        CopiesAre(from, Names(to), limit, failed, a);
      }
      if GetsThrough(name, from, limit, failed) {
        var i: nat :| i < |from| && from[i].name == name && (Oversized(from[i], limit) ==> i in failed);
        CopiesAre(from, Names(to), limit, failed, from[i]);
        assert IsCopied(from, i, Names(to), limit, failed);
      }
    }
  }

  /** One pass gives each side the names of the other, except those that only skipped assets have. */
  lemma PassMakesUnion(r: Lists, limit: int, failed: Failures, name: string)
    ensures var r' := AfterPass(r, limit, failed);
      && (name in Names(r'.forgejo) <==> name in Names(r.forgejo) || GetsThrough(name, r.github, limit, failed.github))
      && (name in Names(r'.github) <==> name in Names(r.github) || GetsThrough(name, r.forgejo, limit, failed.forgejo))
  {
    NamesAfterCopy(r.github, r.forgejo, limit, failed.github, name);
    NamesAfterCopy(r.forgejo, r.github, limit, failed.forgejo, name);
  }

  /** Some report fails for an asset that the other side still lacks. */
  ghost predicate LosesReport(from: seq<Asset>, to: seq<Asset>, failed: set<nat>)
  {
    exists i: nat :: i < |from| && from[i].name !in Names(to) && i in failed
  }

  lemma {:induction false} NothingToCopy(from: seq<Asset>, have: set<string>, limit: int, failed: set<nat>)
    ensures Copies(from, have, limit, failed) == [] <==> forall i: nat :: i < |from| ==> !IsCopied(from, i, have, limit, failed)
  {
    var copies := Copies(from, have, limit, failed);
    if copies != [] {
      CopiesAre(from, have, limit, failed, copies[0]);
    } else {
      forall i: nat | i < |from| ensures !IsCopied(from, i, have, limit, failed) {
        CopiesAre(from, have, limit, failed, from[i]);
      }
    }
  }

  /** After a pass whatever one side lacks is too large, so only a failing report lets it through. */
  lemma SideIsCompleteIff(from: seq<Asset>, to: seq<Asset>, limit: int, first: Failures, second: set<nat>)
    ensures var from' := from + Copies(to, Names(from), limit, first.forgejo);
            var to' := to + Copies(from, Names(to), limit, first.github);
      Copies(from', Names(to'), limit, second) == [] <==> !LosesReport(from', to', second)
  {
    var from' := from + Copies(to, Names(from), limit, first.forgejo);
    var to' := to + Copies(from, Names(to), limit, first.github);
    NothingToCopy(from', Names(to'), limit, second);
    forall i: nat | i < |from'| && from'[i].name !in Names(to') ensures Oversized(from'[i], limit) {
      var a := from'[i];
      NamesAfterCopy(from, to, limit, first.github, a.name);
      if i < |from| {
        assert from[i] == a;
      } else {
        assert a in Copies(to, Names(from), limit, first.forgejo);
        CopiesAre(to, Names(from), limit, first.forgejo, a);
        NamedIn(to, a.name);
      }
    }
    forall i: nat | i < |from'| && from'[i].name !in Names(to') ensures IsCopied(from', i, Names(to'), limit, second) <==> i in second {
    }
  }

  /** A second pass uploads nothing, unless in it a report fails for an asset still missing. */
  lemma SecondPassIsQuietIff(r: Lists, limit: int, first: Failures, second: Failures)
    ensures var r1 := AfterPass(r, limit, first);
      AfterPass(r1, limit, second) == r1
      <==> !LosesReport(r1.github, r1.forgejo, second.github) && !LosesReport(r1.forgejo, r1.github, second.forgejo)
  {
    var r1 := AfterPass(r, limit, first);
    var copiesToGitHub, copiesToForgejo :=
      Copies(r1.forgejo, Names(r1.github), limit, second.forgejo), Copies(r1.github, Names(r1.forgejo), limit, second.github);
    SideIsCompleteIff(r.github, r.forgejo, limit, first, second.github);
    SideIsCompleteIff(r.forgejo, r.github, limit, Failures(first.forgejo, first.github), second.forgejo);
    assert (r1.github + copiesToGitHub)[|r1.github|..] == copiesToGitHub && r1.github[|r1.github|..] == [];
    assert (r1.forgejo + copiesToForgejo)[|r1.forgejo|..] == copiesToForgejo && r1.forgejo[|r1.forgejo|..] == [];
  }

  /** The release after successful passes, each with its own failing reports. */
  function AfterPasses(r: Lists, limit: int, failed: seq<Failures>): Lists
  {
    if failed == [] then r else AfterPass(AfterPasses(r, limit, failed[..|failed| - 1]), limit, failed[|failed| - 1])
  }

  /** Over any number of passes a name that Forgejo lacks arrives exactly when one of GitHub's assets
      of this name is small enough, or its report fails in one of the passes. */
  lemma {:induction false} ArrivesIff(r: Lists, limit: int, failed: seq<Failures>, name: string)
    requires name !in Names(r.forgejo)
    ensures var r' := AfterPasses(r, limit, failed);
      && r.github <= r'.github
      && (name in Names(r'.forgejo) <==> exists k :: 0 <= k < |failed| && GetsThrough(name, r.github, limit, failed[k].github))
      && (name !in Names(r'.forgejo) ==> forall i: nat :: |r.github| <= i < |r'.github| ==> r'.github[i].name != name)
  {
    if failed != [] {
      var n := |failed| - 1;
      ArrivesIff(r, limit, failed[..n], name);
      var r1 := AfterPasses(r, limit, failed[..n]);
      PassMakesUnion(r1, limit, failed[n], name);
      if name !in Names(r1.forgejo) {
        LaterAssetsAreOthers(r, r1, limit, failed[n], name);
      }
      forall k | 0 <= k < n ensures failed[..n][k] == failed[k] {}
    }
  }

  lemma LaterAssetsAreOthers(r: Lists, r1: Lists, limit: int, failed: Failures, name: string)
    requires r.github <= r1.github && name !in Names(r1.forgejo)
    requires forall i: nat :: |r.github| <= i < |r1.github| ==> r1.github[i].name != name
    ensures GetsThrough(name, r1.github, limit, failed.github) <==> GetsThrough(name, r.github, limit, failed.github)
    ensures var r2 := AfterPass(r1, limit, failed);
      forall i: nat :: |r.github| <= i < |r2.github| ==> r2.github[i].name != name
  {
    var copies := Copies(r1.forgejo, Names(r1.github), limit, failed.forgejo);
    forall a | a in copies ensures a.name != name {
      CopiesAre(r1.forgejo, Names(r1.github), limit, failed.forgejo, a);
      NamedIn(r1.forgejo, name);
    }
    var r2 := AfterPass(r1, limit, failed);
    forall i: nat | |r.github| <= i < |r2.github| ensures r2.github[i].name != name {
      if i >= |r1.github| { assert r2.github[i] in copies; }
    }
  }
}
