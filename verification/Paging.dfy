/** Reading a paged listing from a forge that may repeat its last page. */
module Paging {

  const PAGE_SIZE := 50
  const MAX_PAGES := 1000

  /** Issue listings contain pull requests, which are skipped. */
  datatype Item = Item(id: nat, isPullRequest: bool)

  datatype Result = Items(items: seq<Item>) | TooMany | Fault

  ghost predicate Proper(items: seq<Item>)
  {
    && (forall i :: 0 <= i < |items| ==> items[i].id != 0)
    && (forall i, j :: 0 <= i < j < |items| ==> items[i].id != items[j].id)
  }

  function Min(a: nat, b: nat): nat
  {
    if a < b then a else b
  }

  /** Page `page` (from 1) of the listing, which must not be empty. */
  function PageOf(items: seq<Item>, page: nat): seq<Item>
    requires page > 0 && PAGE_SIZE * (page - 1) <= |items|
  {
    items[PAGE_SIZE * (page - 1)..Min(PAGE_SIZE * page, |items|)]
  }

  function LastPage(items: seq<Item>): seq<Item>
  {
    if items == [] then [] else PageOf(items, (|items| - 1) / PAGE_SIZE + 1)
  }

  /** What a forge may answer: past the end, nothing or its last page again. */
  ghost predicate Serves(items: seq<Item>, page: nat, batch: seq<Item>)
    requires page > 0
  {
    if PAGE_SIZE * (page - 1) < |items| then batch == PageOf(items, page)
    else batch == [] || batch == LastPage(items)
  }

  class Server {
    const items: seq<Item>
    const reliable: bool   // no request to it fails

    constructor (items: seq<Item>, reliable: bool)
      ensures this.items == items && this.reliable == reliable
    {
      this.items, this.reliable := items, reliable;
    }

    method Page(page: nat) returns (ok: bool, batch: seq<Item>)
      requires page > 0
      ensures Serves(items, page, batch) && (reliable ==> ok)
    {
      ok := *;
      ok := ok || reliable;
      var clamps: bool := *;
      batch := if PAGE_SIZE * (page - 1) < |items| then PageOf(items, page) else if clamps then LastPage(items) else [];
    }
  }

  function Kept(items: seq<Item>, skipPullRequests: bool): seq<Item>
  {
    if items == [] then []
    else if skipPullRequests && items[0].isPullRequest then Kept(items[1..], skipPullRequests)
    else [items[0]] + Kept(items[1..], skipPullRequests)
  }

  lemma Regroup(a: seq<Item>, b: seq<Item>, c: seq<Item>)
    ensures a + (b + c) == (a + b) + c
  {
  }

  lemma {:induction false} KeptAppend(a: seq<Item>, b: seq<Item>, skip: bool)
    ensures Kept(a + b, skip) == Kept(a, skip) + Kept(b, skip)
  {
    if a == [] {
      assert a + b == b;
    } else {
      KeptAppend(a[1..], b, skip);
      assert (a + b)[1..] == a[1..] + b && (a + b)[0] == a[0];
      if !(skip && a[0].isPullRequest) { Regroup([a[0]], Kept(a[1..], skip), Kept(b, skip)); }
    }
  }

  /** `kept` are the items at these positions, which ascend: all of them, or all that are not pull requests. */
  ghost predicate Picks(indexes: seq<nat>, items: seq<Item>, kept: seq<Item>, skip: bool)
  {
    && |indexes| == |kept| && (forall k, l :: 0 <= k < l < |indexes| ==> indexes[k] < indexes[l])
    && (forall k :: 0 <= k < |indexes| ==> indexes[k] < |items| && kept[k] == items[indexes[k]])
    && (forall i: nat | i < |items| :: i in indexes <==> !(skip && items[i].isPullRequest))
  }

  lemma PickOneMore(indexes: seq<nat>, items: seq<Item>, kept: seq<Item>, skip: bool, item: Item)
    requires Picks(indexes, items, kept, skip)
    ensures skip && item.isPullRequest ==> Picks(indexes, items + [item], kept, skip)
    ensures !(skip && item.isPullRequest) ==> Picks(indexes + [|items|], items + [item], kept + [item], skip)
  {
    assert |items| !in indexes;
    assert forall i :: 0 <= i < |items| ==> (items + [item])[i] == items[i];
    forall i: nat | i < |items| ensures i in indexes + [|items|] <==> i in indexes {}
  }

  lemma KeptLast(items: seq<Item>, item: Item, skip: bool)
    ensures Kept(items + [item], skip) == if skip && item.isPullRequest then Kept(items, skip) else Kept(items, skip) + [item]
  {
    KeptAppend(items, [item], skip);
    assert Kept([item], skip) == if skip && item.isPullRequest then [] else [item];
  }

  lemma {:induction false} KeptIs(items: seq<Item>, skip: bool) returns (indexes: seq<nat>)
    ensures Picks(indexes, items, Kept(items, skip), skip)
  {
    if items == [] {
      indexes := [];
    } else {
      hide Picks, Kept;
      var n := |items| - 1;
      indexes := KeptIs(items[..n], skip);
      KeptLast(items[..n], items[n], skip);
      PickOneMore(indexes, items[..n], Kept(items[..n], skip), skip, items[n]);
      assert items[..n] + [items[n]] == items;
      if !(skip && items[n].isPullRequest) { indexes := indexes + [n]; }
    }
  }

  /** What the loop knows before it asks for `page`: the full pages before it, all different. */
  ghost predicate ReadSoFar(items: seq<Item>, skip: bool, page: nat, previousFirst: nat, result: seq<Item>)
  {
    && page > 0 && PAGE_SIZE * (page - 1) <= |items|
    && result == Kept(items[..PAGE_SIZE * (page - 1)], skip)
    && previousFirst == if page == 1 then 0 else items[PAGE_SIZE * (page - 2)].id
  }

  /** The first item of an answer repeats the previous page's exactly when the listing is exhausted
      and the forge repeated its last page. */
  lemma RepeatMeansEnd(items: seq<Item>, skip: bool, page: nat, previousFirst: nat, result: seq<Item>, batch: seq<Item>)
    requires Proper(items) && ReadSoFar(items, skip, page, previousFirst, result) && Serves(items, page, batch)
    requires batch != []
    ensures batch[0].id == previousFirst <==> PAGE_SIZE * (page - 1) == |items|
  {
    if PAGE_SIZE * (page - 1) < |items| {
      assert batch[0] == items[PAGE_SIZE * (page - 1)];
    } else {
      assert (|items| - 1) / PAGE_SIZE + 1 == page - 1;
      assert batch[0] == items[PAGE_SIZE * (page - 2)];
    }
  }

  method AppendKept(batch: seq<Item>, skip: bool, result: seq<Item>) returns (extended: seq<Item>)
    ensures extended == result + Kept(batch, skip)
  {
    extended := result;
    for i := 0 to |batch|
      invariant extended == result + Kept(batch[..i], skip)
    {
      KeptAppend(batch[..i], [batch[i]], skip);
      assert batch[..i + 1] == batch[..i] + [batch[i]];
      if !(skip && batch[i].isPullRequest) { extended := extended + [batch[i]]; }
    }
    assert batch[..|batch|] == batch;
  }

  /** Every item once, in order, whatever the forge does past the end; more than the loop can read
      is an error, never a truncated listing. */
  method ListAll(server: Server, skipPullRequests: bool) returns (result: Result, ghost indexes: seq<nat>)
    requires Proper(server.items)
    ensures result.Items? ==> |server.items| < PAGE_SIZE * MAX_PAGES && result.items == Kept(server.items, skipPullRequests)
    ensures result.Items? ==>
              && |indexes| == |result.items| && (forall k, l :: 0 <= k < l < |indexes| ==> indexes[k] < indexes[l])
              && (forall k :: 0 <= k < |indexes| ==> indexes[k] < |server.items| && result.items[k] == server.items[indexes[k]])
              && (forall i: nat | i < |server.items| :: i in indexes <==> !(skipPullRequests && server.items[i].isPullRequest))
    ensures result.TooMany? ==> |server.items| >= PAGE_SIZE * MAX_PAGES
    ensures result.Fault? ==> !server.reliable
  {
    hide Kept;
    NothingRead(server.items, skipPullRequests);
    var items, previousFirst := [], 0;
    indexes := KeptIs(server.items, skipPullRequests);
    var page := 1;
    while page <= MAX_PAGES
      invariant 1 <= page <= MAX_PAGES + 1
      invariant ReadSoFar(server.items, skipPullRequests, page, previousFirst, items)
    {
      var ok, batch := server.Page(page);
      if !ok { return Fault, []; }
      if |batch| > 0 {
        RepeatMeansEnd(server.items, skipPullRequests, page, previousFirst, items, batch);
        if batch[0].id == previousFirst {
          assert server.items[..PAGE_SIZE * (page - 1)] == server.items;
          return Items(items), indexes;
        }
        previousFirst := batch[0].id;
      }
      ghost var read := server.items[..PAGE_SIZE * (page - 1)];
      PageExtends(server.items, page, batch);
      KeptAppend(read, batch, skipPullRequests);
      items := AppendKept(batch, skipPullRequests, items);
      if |batch| < PAGE_SIZE { return Items(items), indexes; }
      page := page + 1;
    }
    result := TooMany;
  }

  lemma NothingRead(items: seq<Item>, skip: bool)
    ensures ReadSoFar(items, skip, 1, 0, [])
  {
  }

  /** Reading one more page that is not a repetition. */
  lemma PageExtends(items: seq<Item>, page: nat, batch: seq<Item>)
    requires page > 0 && PAGE_SIZE * (page - 1) <= |items| && Serves(items, page, batch)
    requires PAGE_SIZE * (page - 1) < |items| || batch == []
    ensures var read := items[..PAGE_SIZE * (page - 1)];
      && (|batch| == PAGE_SIZE ==> PAGE_SIZE * page <= |items| && items[..PAGE_SIZE * page] == read + batch)
      && (|batch| == PAGE_SIZE ==> batch[0] == items[PAGE_SIZE * (page - 1)])
      && (|batch| < PAGE_SIZE ==> read + batch == items && |items| < PAGE_SIZE * page)
      && |batch| <= PAGE_SIZE
  {
  }
}
