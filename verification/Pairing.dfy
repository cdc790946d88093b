/** Pairing of unmapped objects.

    The issue, release, comment and pull request reconcilers all recover a lost
    mapping in the same way: they group the unmapped objects of each forge by a
    key, keep the keys that name exactly one object on each side, and pair those
    two objects.  The key is the content digest in the first pass; the second
    pass uses the issue number (and then compares titles) or the release tag. */
module Pairing {

  type Id = nat

  /** What one pass looks at: `key` is grouped on, `name` must agree afterwards. */
  datatype Signature<K> = Signature(key: K, name: string)

  /** No other object of the same forge shares x's key. */
  ghost predicate Alone<K>(sigs: map<Id, Signature<K>>, x: Id)
  {
    x in sigs && forall y :: y in sigs && sigs[y].key == sigs[x].key ==> y == x
  }

  ghost predicate Matches<K>(gs: map<Id, Signature<K>>, fs: map<Id, Signature<K>>, g: Id, f: Id)
  {
    Alone(gs, g) && Alone(fs, f) && gs[g] == fs[f]
  }

  /** Exactly the matching pairs, as a map from GitHub ids to Forgejo ids. */
  ghost function Pairs<K>(gs: map<Id, Signature<K>>, fs: map<Id, Signature<K>>): (m: map<Id, Id>)
    ensures forall g :: g in m ==> Matches(gs, fs, g, m[g])
    ensures forall g, f :: Matches(gs, fs, g, f) ==> g in m && m[g] == f
    ensures Injective(m)
  {
    map g | g in gs && exists f :: Matches(gs, fs, g, f) :: var f :| Matches(gs, fs, g, f); f
  }

  ghost predicate Injective(m: map<Id, Id>)
  {
    forall x, y :: x in m && y in m && m[x] == m[y] ==> x == y
  }

  ghost predicate Inverse(m: map<Id, Id>, n: map<Id, Id>)
  {
    && (forall x :: x in m ==> m[x] in n && n[m[x]] == x)
    && (forall y :: y in n ==> n[y] in m && m[n[y]] == y)
  }

  /** Two disjoint injective maps together. */
  lemma JoinMaps(m: map<Id, Id>, n: map<Id, Id>)
    requires Injective(m) && Injective(n) && m.Keys !! n.Keys && m.Values !! n.Values
    ensures Injective(m + n) && (m + n).Values == m.Values + n.Values
  {
    assert forall x :: x in m ==> m[x] in m.Values;
    assert forall x :: x in n ==> n[x] in n.Values;
    forall v | v in m.Values ensures v in (m + n).Values {
      var x :| x in m && m[x] == v;
      assert (m + n)[x] == v;
    }
    forall v | v in n.Values ensures v in (m + n).Values {
      var x :| x in n && n[x] == v;
      assert (m + n)[x] == v;
    }
  }

  lemma ValuesExtend(m: map<Id, Id>, x: Id, v: Id)
    requires x !in m
    ensures m[x := v].Values == m.Values + {v}
  {
    var m' := m[x := v];
    forall u | u in m.Values + {v} ensures u in m'.Values {
      if u == v { assert m'[x] == u; } else { var y :| y in m && m[y] == u; assert m'[y] == u; }
    }
  }

  lemma NonEmptyValues(m: map<Id, Id>)
    ensures m != map[] ==> m.Values != {}
  {
    if m != map[] {
      var x :| x in m;
      assert m[x] in m.Values;
    }
  }

  ghost predicate Distinct(s: seq<Id>)
  {
    forall i, j :: 0 <= i < j < |s| ==> s[i] != s[j]
  }

  /** Every key's group lists each object of that key once, and nothing else. */
  ghost predicate Groups<K(!new)>(groups: map<K, seq<Id>>, sigs: map<Id, Signature<K>>, seen: seq<Id>)
  {
    && (forall k :: k in groups ==> groups[k] != [] && Distinct(groups[k]))
    && (forall k, x :: k in groups && x in groups[k] ==> x in seen && x in sigs && sigs[x].key == k)
    && (forall x :: x in seen && x in sigs ==> sigs[x].key in groups && x in groups[sigs[x].key])
  }

  lemma GroupsExtend<K(!new)>(groups: map<K, seq<Id>>, sigs: map<Id, Signature<K>>, seen: seq<Id>, x: Id)
    requires Groups(groups, sigs, seen) && x in sigs && x !in seen
    ensures
      var k := sigs[x].key;
      Groups(groups[k := (if k in groups then groups[k] else []) + [x]], sigs, seen + [x])
  {
    var k := sigs[x].key;
    var old_ := if k in groups then groups[k] else [];
    var groups' := groups[k := old_ + [x]];
    forall y | y in old_ ensures y != x {}
    forall j, y | j in groups' && y in groups'[j]
      ensures y in seen + [x] && y in sigs && sigs[y].key == j
    {
      if j == k { assert y in old_ || y == x; }
    }
    forall y | y in seen + [x] && y in sigs
      ensures sigs[y].key in groups' && y in groups'[sigs[y].key]
    {
      if y == x { assert x == groups'[k][|old_|]; } else { assert y in seen; }
    }
  }

  method GroupByKey<K(==, !new)>(ids: seq<Id>, sigs: map<Id, Signature<K>>) returns (groups: map<K, seq<Id>>)
    requires Distinct(ids) && forall x :: x in ids <==> x in sigs
    ensures Groups(groups, sigs, ids)
  {
    groups := map[];
    for i := 0 to |ids|
      invariant Groups(groups, sigs, ids[..i])
    {
      var x := ids[i];
      var k := sigs[x].key;
      GroupsExtend(groups, sigs, ids[..i], x);
      groups := groups[k := (if k in groups then groups[k] else []) + [x]];
      assert ids[..i + 1] == ids[..i] + [x];
    }
    assert ids[..|ids|] == ids;
  }

  /** A group is a singleton exactly when its member is alone with its key. */
  lemma SingletonIsAlone<K(!new)>(groups: map<K, seq<Id>>, sigs: map<Id, Signature<K>>, ids: seq<Id>, k: K, x: Id)
    requires Groups(groups, sigs, ids) && k in groups && x in groups[k]
    requires forall x :: x in ids <==> x in sigs
    ensures |groups[k]| == 1 <==> Alone(sigs, x)
  {
    var s := groups[k];
    var i :| 0 <= i < |s| && s[i] == x;
    if |s| == 1 {
      forall y | y in sigs && sigs[y].key == sigs[x].key ensures y == x { assert y in groups[k]; }
    } else {
      var j := if i == 0 then 1 else 0;
      assert s[j] in groups[k] && s[j] != x;
      assert sigs[s[j]].key == sigs[x].key;
    }
  }

  lemma PairsAreComplete<K(!new)>(gs: map<Id, Signature<K>>, fs: map<Id, Signature<K>>, m: map<Id, Id>)
    requires forall g :: g in m ==> Matches(gs, fs, g, m[g])
    requires forall g, f :: Matches(gs, fs, g, f) ==> g in m && m[g] == f
    ensures m == Pairs(gs, fs)
  {
  }

  lemma EveryKeyIsGrouped<K(!new)>(groups: map<K, seq<Id>>, sigs: map<Id, Signature<K>>, ids: seq<Id>)
    requires Groups(groups, sigs, ids) && forall x :: x in ids <==> x in sigs
    ensures forall x :: x in sigs ==> sigs[x].key in groups
  {
  }

  /** A key pairs the first members of its groups, if they are the only ones and their names agree. */
  lemma KeyMatches<K(!new)>(githubGroups: map<K, seq<Id>>, forgejoGroups: map<K, seq<Id>>, githubIds: seq<Id>, forgejoIds: seq<Id>,
                            gs: map<Id, Signature<K>>, fs: map<Id, Signature<K>>, k: K)
    requires Groups(githubGroups, gs, githubIds) && Groups(forgejoGroups, fs, forgejoIds) && k in githubGroups
    requires (forall x :: x in githubIds <==> x in gs) && (forall x :: x in forgejoIds <==> x in fs)
    ensures githubGroups[k] != [] && githubGroups[k][0] in gs && gs[githubGroups[k][0]].key == k
    ensures k in forgejoGroups ==> forgejoGroups[k] != [] && forgejoGroups[k][0] in fs && fs[forgejoGroups[k][0]].key == k
    ensures forall g, f :: Matches(gs, fs, g, f) && gs[g].key == k <==>
              k in forgejoGroups && |githubGroups[k]| == 1 && |forgejoGroups[k]| == 1
              && g == githubGroups[k][0] && f == forgejoGroups[k][0] && gs[g].name == fs[f].name
  {
    var some := githubGroups[k][0];
    assert some in githubGroups[k];
    SingletonIsAlone(githubGroups, gs, githubIds, k, some);
    if k in forgejoGroups {
      var other := forgejoGroups[k][0];
      assert other in forgejoGroups[k];
      SingletonIsAlone(forgejoGroups, fs, forgejoIds, k, other);
    }
    forall g, f | Matches(gs, fs, g, f) && gs[g].key == k
      ensures k in forgejoGroups && |githubGroups[k]| == 1 && |forgejoGroups[k]| == 1
              && g == githubGroups[k][0] && f == forgejoGroups[k][0]
    {
      assert g in githubGroups[k] && f in forgejoGroups[k];
      SingletonIsAlone(githubGroups, gs, githubIds, k, g);
      SingletonIsAlone(forgejoGroups, fs, forgejoIds, k, f);
    }
  }

  method UniquePairs<K(==, !new)>(githubIds: seq<Id>, forgejoIds: seq<Id>,
                            gs: map<Id, Signature<K>>, fs: map<Id, Signature<K>>)
    returns (byGitHub: map<Id, Id>, byForgejo: map<Id, Id>)
    requires Distinct(githubIds) && forall x :: x in githubIds <==> x in gs
    requires Distinct(forgejoIds) && forall x :: x in forgejoIds <==> x in fs
    ensures byGitHub == Pairs(gs, fs)
    ensures Inverse(byGitHub, byForgejo)
  {
    hide Groups, Distinct;
    var githubGroups := GroupByKey(githubIds, gs);
    EveryKeyIsGrouped(githubGroups, gs, githubIds);
    var forgejoGroups := GroupByKey(forgejoIds, fs);
    byGitHub, byForgejo := map[], map[];
    var keys := githubGroups.Keys;
    while keys != {}
      invariant keys <= githubGroups.Keys
      invariant forall g :: g in byGitHub ==> Matches(gs, fs, g, byGitHub[g]) && gs[g].key !in keys
      invariant forall g, f :: Matches(gs, fs, g, f) && gs[g].key !in keys ==> g in byGitHub && byGitHub[g] == f
      invariant Inverse(byGitHub, byForgejo)
      decreases keys
    {
      var k :| k in keys;
      keys := keys - {k};
      KeyMatches(githubGroups, forgejoGroups, githubIds, forgejoIds, gs, fs, k);
      if k in forgejoGroups {
        var some, other := githubGroups[k][0], forgejoGroups[k][0];
        if |githubGroups[k]| == 1 && |forgejoGroups[k]| == 1 && gs[some].name == fs[other].name {
          byGitHub, byForgejo := byGitHub[some := other], byForgejo[other := some];
        }
      }
    }
    PairsAreComplete(gs, fs, byGitHub);
  }

  /** The listed ids that are not consumed, in their order. */
  method Unconsumed(ids: seq<Id>, consumed: set<Id>) returns (rest: seq<Id>)
    requires Distinct(ids)
    ensures Distinct(rest) && forall x :: x in rest <==> x in ids && x !in consumed
  {
    rest := [];
    for i := 0 to |ids|
      invariant Distinct(rest) && forall x :: x in rest <==> x in ids[..i] && x !in consumed
    {
      assert ids[..i + 1] == ids[..i] + [ids[i]];
      assert ids[i] !in ids[..i];
      if ids[i] !in consumed { rest := rest + [ids[i]]; }
    }
    assert ids[..|ids|] == ids;
  }
}
