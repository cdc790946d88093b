/** What the two pairing passes find, object by object. */
module Passes {
  import opened Pairing
  import opened Objects
  import opened Protocol

  ghost predicate DistinctContents(objects: map<Id, Object>, ids: set<Id>)
  {
    forall x, y | x in ids && y in ids && x in objects && y in objects :: objects[x].content == objects[y].content ==> x == y
  }

  /** Two issues with one number, or two releases with one tag. */
  ghost predicate SameSlot(o: Object, o': Object)
  {
    || (o.content.Issue? && o'.content.Issue? && o.address == o'.address)
    || (o.content.Release? && o'.content.Release? && o.content.tag == o'.content.tag)
  }

  /** What the second pass asks of a pair: issues must have equal titles as well. */
  ghost predicate SameSlotSignature(o: Object, o': Object)
  {
    || (o.content.Issue? && o'.content.Issue? && o.address == o'.address && o.content.title == o'.content.title)
    || (o.content.Release? && o'.content.Release? && o.content.tag == o'.content.tag)
  }

  ghost predicate DistinctSlots(objects: map<Id, Object>, ids: set<Id>)
  {
    forall x, y | x in ids && y in ids && x in objects && y in objects :: SameSlot(objects[x], objects[y]) ==> x == y
  }

  /** Equal content, which no other unmapped object of either forge has. */
  ghost predicate ByContent(w: World, x: Id, y: Id)
  {
    && x in FreeGitHub(w) && x in w.github && y in FreeForgejo(w) && y in w.forgejo && w.github[x].content == w.forgejo[y].content
    && (forall u :: u in FreeGitHub(w) && u in w.github && w.github[u].content == w.github[x].content ==> u == x)
    && (forall v :: v in FreeForgejo(w) && v in w.forgejo && w.forgejo[v].content == w.forgejo[y].content ==> v == y)
  }

  /** Issues with one number and one title; no other issue the first pass left has the number. */
  ghost predicate ByNumber(w: World, x: Id, y: Id)
  {
    && x in RestGitHub(w) && x in w.github && w.github[x].content.Issue?
    && y in RestForgejo(w) && y in w.forgejo && w.forgejo[y].content.Issue?
    && w.github[x].address == w.forgejo[y].address && w.github[x].content.title == w.forgejo[y].content.title
    && (forall u | u in RestGitHub(w) && u in w.github :: w.github[u].content.Issue? && w.github[u].address == w.github[x].address ==> u == x)
    && (forall v | v in RestForgejo(w) && v in w.forgejo :: w.forgejo[v].content.Issue? && w.forgejo[v].address == w.forgejo[y].address ==> v == y)
  }

  /** Releases with one tag, which no other release the first pass left has. */
  ghost predicate ByTag(w: World, x: Id, y: Id)
  {
    && x in RestGitHub(w) && x in w.github && w.github[x].content.Release?
    && y in RestForgejo(w) && y in w.forgejo && w.forgejo[y].content.Release?
    && w.github[x].content.tag == w.forgejo[y].content.tag
    && (forall u | u in RestGitHub(w) && u in w.github ::
          w.github[u].content.Release? && w.github[u].content.tag == w.github[x].content.tag ==> u == x)
    && (forall v | v in RestForgejo(w) && v in w.forgejo ::
          w.forgejo[v].content.Release? && w.forgejo[v].content.tag == w.forgejo[y].content.tag ==> v == y)
  }

  /** x is mapped to y, with Forgejo's content as baseline. */
  ghost predicate PairRow(w: World, rows: map<Id, Row>, x: Id, y: Id)
  {
    && x in w.github && y in w.forgejo
    && x in rows && rows[x] == Row(y, w.github[x].address, w.forgejo[y].address, w.forgejo[y].content)
  }

  lemma HashPairIsMatch(w: World, x: Id, y: Id)
    ensures x in HashPairs(w) && HashPairs(w)[x] == y <==> ByContent(w, x, y)
  {
    var gs, fs := Contents(w.github, FreeGitHub(w)), Contents(w.forgejo, FreeForgejo(w));
    assert x in HashPairs(w) && HashPairs(w)[x] == y <==> Matches(gs, fs, x, y);
    hide FreeGitHub, FreeForgejo, HashPairs;
    assert forall u :: u in gs <==> u in FreeGitHub(w) && u in w.github;
    assert forall v :: v in fs <==> v in FreeForgejo(w) && v in w.forgejo;
  }

  /** The first pass pairs objects of equal content that no other unmapped object of either forge has. */
  lemma HashPairIff(w: World, x: Id, y: Id)
    ensures x in HashPairs(w) && HashPairs(w)[x] == y <==>
              && x in FreeGitHub(w) && y in FreeForgejo(w) && w.github[x].content == w.forgejo[y].content
              && (forall u :: u in FreeGitHub(w) && w.github[u].content == w.github[x].content ==> u == x)
              && (forall v :: v in FreeForgejo(w) && w.forgejo[v].content == w.forgejo[y].content ==> v == y)
  {
    hide FreeGitHub, FreeForgejo, HashPairs;
    HashPairIsMatch(w, x, y);
  }

  lemma SlotsAgree(o: Object, o': Object)
    ensures SameSlot(o, o') <==> HasSlot(o) && HasSlot(o') && SlotSignature(o).key == SlotSignature(o').key
    ensures SameSlotSignature(o, o') <==> HasSlot(o) && HasSlot(o') && SlotSignature(o) == SlotSignature(o')
  {
  }

  lemma SlotPairIsMatch(w: World, x: Id, y: Id)
    ensures x in SlotPairs(w) && SlotPairs(w)[x] == y <==>
              && x in RestGitHub(w) && x in w.github && y in RestForgejo(w) && y in w.forgejo && SameSlotSignature(w.github[x], w.forgejo[y])
              && (forall u :: u in RestGitHub(w) && u in w.github && SameSlot(w.github[u], w.github[x]) ==> u == x)
              && (forall v :: v in RestForgejo(w) && v in w.forgejo && SameSlot(w.forgejo[v], w.forgejo[y]) ==> v == y)
  {
    var gs, fs := Slots(w.github, RestGitHub(w)), Slots(w.forgejo, RestForgejo(w));
    assert x in SlotPairs(w) && SlotPairs(w)[x] == y <==> Matches(gs, fs, x, y);
    hide RestGitHub, RestForgejo, SlotPairs, SameSlot, SameSlotSignature, HasSlot, SlotSignature;
    assert forall u :: u in gs <==> u in RestGitHub(w) && u in w.github && HasSlot(w.github[u]);
    assert forall v :: v in fs <==> v in RestForgejo(w) && v in w.forgejo && HasSlot(w.forgejo[v]);
    if x in w.github {
      forall u | u in w.github { SlotsAgree(w.github[u], w.github[x]); }
    }
    if y in w.forgejo {
      forall v | v in w.forgejo { SlotsAgree(w.forgejo[v], w.forgejo[y]); }
      if x in w.github { SlotsAgree(w.github[x], w.forgejo[y]); }
    }
  }

  /** The second pass pairs issues by number and title, releases by tag, and never a comment; nothing
      else the first pass left may have the number or tag. */
  lemma SlotPairIff(w: World, x: Id, y: Id)
    ensures x in SlotPairs(w) && SlotPairs(w)[x] == y <==>
              && x in RestGitHub(w) && y in RestForgejo(w)
              && var o, o' := w.github[x], w.forgejo[y];
              || (o.content.Issue? && o'.content.Issue? && o.address == o'.address && o.content.title == o'.content.title
                  && (forall u | u in RestGitHub(w) :: w.github[u].content.Issue? && w.github[u].address == o.address ==> u == x)
                  && (forall v | v in RestForgejo(w) :: w.forgejo[v].content.Issue? && w.forgejo[v].address == o'.address ==> v == y))
              || (o.content.Release? && o'.content.Release? && o.content.tag == o'.content.tag
                  && (forall u | u in RestGitHub(w) :: w.github[u].content.Release? && w.github[u].content.tag == o.content.tag ==> u == x)
                  && (forall v | v in RestForgejo(w) :: w.forgejo[v].content.Release? && w.forgejo[v].content.tag == o'.content.tag ==> v == y))
    ensures x in SlotPairs(w) && SlotPairs(w)[x] == y <==> ByNumber(w, x, y) || ByTag(w, x, y)
  {
    hide RestGitHub, RestForgejo, SlotPairs;
    SlotPairIsMatch(w, x, y);
  }

  lemma PlanContainsPasses(w: World)
    ensures forall x :: x in HashPairs(w) ==> x in PlanOf(w).join && PlanOf(w).join[x] == HashPairs(w)[x]
    ensures forall x :: x in SlotPairs(w) ==> x in PlanOf(w).join && PlanOf(w).join[x] == SlotPairs(w)[x]
    ensures forall x :: x in PlanOf(w).join ==> x in HashPairs(w) || x in SlotPairs(w)
    ensures forall x :: x in PlanOf(w).join ==> PlanOf(w).join[x] in PlanOf(w).join.Values
    ensures SlotPairs(w).Keys <= RestGitHub(w)
  {
    assert SlotPairs(w).Keys <= RestGitHub(w);
  }

  lemma EqualContentIsHashPair(w: World, x: Id, y: Id)
    requires DistinctContents(w.github, FreeGitHub(w)) && DistinctContents(w.forgejo, FreeForgejo(w))
    requires x in FreeGitHub(w) && y in FreeForgejo(w) && w.github[x].content == w.forgejo[y].content
    ensures x in HashPairs(w) && HashPairs(w)[x] == y
  {
    hide FreeGitHub, FreeForgejo, HashPairs;
    FreeExists(w);
    HashPairIsMatch(w, x, y);
  }

  lemma HashPairsAreFree(w: World)
    ensures forall x :: x in HashPairs(w) ==> x in FreeGitHub(w) && x in w.github && HashPairs(w)[x] in FreeForgejo(w)
    ensures forall x :: x in SlotPairs(w) ==> x in RestGitHub(w) && SlotPairs(w)[x] in RestForgejo(w)
  {
  }

  lemma FreeExists(w: World)
    ensures FreeGitHub(w) <= w.github.Keys && FreeForgejo(w) <= w.forgejo.Keys
  {
  }

  lemma RestIsFree(w: World)
    ensures RestGitHub(w) <= FreeGitHub(w) && RestForgejo(w) <= FreeForgejo(w)
  {
  }

  lemma LeftIsRest(w: World)
    ensures forall x :: x in PlanOf(w).leftGitHub <==> x in RestGitHub(w) && x !in SlotPairs(w)
    ensures forall y :: y in PlanOf(w).leftForgejo <==> y in RestForgejo(w) && y !in SlotPairs(w).Values
    ensures forall x :: x in RestGitHub(w) <==> x in FreeGitHub(w) && x !in HashPairs(w)
    ensures forall y :: y in RestForgejo(w) <==> y in FreeForgejo(w) && y !in HashPairs(w).Values
  {
  }
}
