/** The parties a run talks to: two forges and the mapping table.

    Every call goes through a `Network` that lets some number of calls succeed
    and then fails the next one.  A reconciler returns at the first error, so
    all places where a run can stop, a crash included, are covered by all
    numbers; `late` says whether the failing call took effect all the same. */
module Forges {
  import opened Pairing
  import opened Objects
  import opened Protocol
  import opened Steps

  /** `Fault`: a remote or database call failed.  `Unique`: the row breaks UNIQUE (forgejo_id). */
  datatype Error = Fault | Unique

  class Network {
    var remaining: nat
    const late: bool

    constructor (remaining: nat, late: bool)
      ensures this.remaining == remaining && this.late == late
    {
      this.remaining := remaining;
      this.late := late;
    }

    method Call() returns (ok: bool, effect: bool)
      modifies this
      ensures ok <==> old(remaining) > 0
      ensures remaining == if ok then old(remaining) - 1 else 0
      ensures effect <==> ok || late
    {
      ok := remaining > 0;
      effect := ok || late;
      if ok { remaining := remaining - 1; }
    }
  }

  lemma NatAbove(s: set<nat>) returns (n: nat)
    ensures forall x :: x in s ==> x < n
  {
    if s == {} {
      n := 0;
    } else {
      var x :| x in s;
      var m := NatAbove(s - {x});
      n := if x < m then m else x + 1;
      assert s == (s - {x}) + {x};
    }
  }

  /** The elements of a set, in any order. */
  method Enumerate(s: set<Id>) returns (ids: seq<Id>)
    ensures Distinct(ids) && forall x :: x in ids <==> x in s
  {
    ids := [];
    var rest := s;
    while rest != {}
      invariant rest <= s && Distinct(ids)
      invariant forall x :: x in ids <==> x in s - rest
      decreases rest
    {
      var x :| x in rest;
      assert x !in ids;
      rest, ids := rest - {x}, ids + [x];
    }
  }

  function AddressesOf(objects: map<Id, Object>): set<nat>
  {
    set x | x in objects :: objects[x].address
  }

  /** An update names an address; every object there takes the content. */
  function UpdateAt(objects: map<Id, Object>, address: nat, content: Content): map<Id, Object>
  {
    map x | x in objects :: if objects[x].address == address then objects[x].(content := content) else objects[x]
  }

  /** The same before the labels are sent. */
  function HalfUpdateAt(objects: map<Id, Object>, address: nat, content: Content): map<Id, Object>
  {
    map x | x in objects ::
      if objects[x].address == address then objects[x].(content := WithoutLabels(content, objects[x].content)) else objects[x]
  }

  lemma UpdateAfterHalf(objects: map<Id, Object>, address: nat, content: Content)
    ensures UpdateAt(HalfUpdateAt(objects, address, content), address, content) == UpdateAt(objects, address, content)
  {
  }

  lemma HalfUpdateAtOne(objects: map<Id, Object>, x: Id, content: Content)
    requires UniqueAddresses(objects) && x in objects
    ensures HalfUpdateAt(objects, objects[x].address, content)
            == objects[x := objects[x].(content := WithoutLabels(content, objects[x].content))]
  {
  }

  lemma UpdateAtOne(objects: map<Id, Object>, x: Id, content: Content)
    requires UniqueAddresses(objects) && x in objects
    ensures UpdateAt(objects, objects[x].address, content) == objects[x := objects[x].(content := content)]
  {
  }

  class Forge {
    var objects: map<Id, Object>
    var used: set<Id>     // every id this forge ever handed out
    var writes: nat       // create and update calls received
    const stepwise: bool  // an update of an issue takes two requests

    constructor (objects: map<Id, Object>, used: set<Id>, stepwise: bool)
      ensures this.objects == objects && this.used == used && this.writes == 0 && this.stepwise == stepwise
    {
      this.objects := objects;
      this.stepwise := stepwise;
      this.used := used;
      this.writes := 0;
    }

    /** The ids of all objects, in whatever order the forge lists them. */
    method List(net: Network) returns (ok: bool, ids: seq<Id>)
      modifies net
      ensures !ok ==> net.remaining == 0
      ensures ok ==> Distinct(ids) && forall x :: x in ids <==> x in objects
    {
      var reached;
      ok, reached := net.Call();
      ids := Enumerate(objects.Keys);
    }

    /** The forge picks an id it never used and an address no object has. */
    method Create(net: Network, content: Content) returns (ok: bool, id: Id, created: Object)
      modifies this, net
      ensures !ok ==> net.remaining == 0
      ensures writes == old(writes) + 1
      ensures id !in old(used) && FreshAddress(old(objects), created.address) && created.content == content
      ensures (!ok && objects == old(objects) && used == old(used))
              || (objects == old(objects)[id := created] && used == old(used) + {id})
    {
      ghost var freeId := NatAbove(used);
      ghost var freeAddress := NatAbove(AddressesOf(objects));
      assert freeId !in used && freeAddress !in AddressesOf(objects);
      assert forall x :: x in objects ==> objects[x].address in AddressesOf(objects);
      var effect;
      writes := writes + 1;
      ok, effect := net.Call();
      id :| id !in used;
      var address: nat :| address !in AddressesOf(objects);
      created := Object(address, content);
      if effect { objects, used := objects[id := created], used + {id}; }
    }

    method Update(net: Network, address: nat, content: Content) returns (ok: bool)
      modifies this, net
      ensures !ok ==> net.remaining == 0
      ensures writes == old(writes) + 1 && used == old(used)
      ensures || objects == UpdateAt(old(objects), address, content)
              || (!ok && objects == old(objects))
              || (!ok && stepwise && objects == HalfUpdateAt(old(objects), address, content))
    {
      var effect;
      writes := writes + 1;
      if stepwise {
        ghost var before := objects;
        ok, effect := net.Call();
        if effect { objects := HalfUpdateAt(objects, address, content); }
        if !ok { return; }
        ok, effect := net.Call();
        UpdateAfterHalf(before, address, content);
        if effect { objects := UpdateAt(objects, address, content); }
      } else {
        ok, effect := net.Call();
        if effect { objects := UpdateAt(objects, address, content); }
      }
    }
  }

  class Store {
    var rows: map<Id, Row>
    var conflicts: set<Conflict>
    var writes: nat       // upsert calls received

    constructor (rows: map<Id, Row>, conflicts: set<Conflict>)
      ensures this.rows == rows && this.conflicts == conflicts && this.writes == 0
    {
      this.rows := rows;
      this.conflicts := conflicts;
      this.writes := 0;
    }

    /** The primary keys of all rows. */
    method ListMappings(net: Network) returns (ok: bool, ids: seq<Id>)
      modifies net
      ensures !ok ==> net.remaining == 0
      ensures ok ==> Distinct(ids) && forall g :: g in ids <==> g in rows
    {
      var reached;
      ok, reached := net.Call();
      ids := Enumerate(rows.Keys);
    }

    /** Insert or replace the row of `github`; refused when another row has the Forgejo id. */
    method UpsertMapping(net: Network, github: Id, row: Row) returns (err: Option<Error>)
      modifies this, net
      ensures conflicts == old(conflicts) && writes == old(writes) + 1
      ensures err == Some(Fault) ==> net.remaining == 0
      ensures err == Some(Unique) ==> rows == old(rows) && exists g :: g in rows && g != github && rows[g].forgejo == row.forgejo
      ensures rows != old(rows) || err == None ==>
                rows == old(rows)[github := row] && (UniqueForgejo(old(rows)) ==> UniqueForgejo(rows))
    {
      writes := writes + 1;
      var ok, effect := net.Call();
      if exists g :: g in rows && g != github && rows[g].forgejo == row.forgejo {
        return Some(if ok then Unique else Fault);
      }
      err := if ok then None else Some(Fault);
      if effect { rows := rows[github := row]; }
    }

    /** Recording a conflict that is already there does nothing. */
    method AddConflict(net: Network, conflict: Conflict) returns (ok: bool)
      modifies this, net
      ensures rows == old(rows) && writes == old(writes)
      ensures !ok ==> net.remaining == 0
      ensures (!ok && conflicts == old(conflicts)) || conflicts == old(conflicts) + {conflict}
    {
      var effect;
      ok, effect := net.Call();
      if effect { conflicts := conflicts + {conflict}; }
    }
  }
}
