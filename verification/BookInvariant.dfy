/** `add` and `remove` keep the joint invariant of the book, and the deferred deletions of
    `try_match` amount to cutting off the consumed prefix. */
module BookInvariant {
  import opened Words
  import opened Orders
  import opened Matching
  import opened Books

  /** `r` holds the orders of `t` at other, still positive, quantities. */
  ghost predicate Requantified(t: seq<Order>, r: seq<Order>) {
    |r| == |t| && forall i :: 0 <= i < |t| ==> r[i] == t[i].(qty := r[i].qty)
  }

  lemma RequantifiedLinked(b: Book, side: Side, r: seq<Order>)
    requires Linked(b) && Requantified(b.Of(side), r)
    ensures Linked(b.With(side, r))
  {
    var s := b.Of(side);
    forall id | Has(s, id)
      ensures Has(r, id)
    {
      assert r[FindId(s, id)].id == id;
    }
  }

  lemma FrontReducedRequantified(t: seq<Order>, r: seq<Order>)
    requires FrontReduced(t, r)
    ensures Requantified(t, r)
  {
  }

  lemma {:induction false} RemoveManyLinked(b: Book, ids: seq<u32>)
    requires Linked(b)
    ensures Linked(RemoveMany(b, ids))
    decreases ids
  {
    if ids != [] {
      RemoveLinked(b, ids[0]);
      RemoveManyLinked(Remove(b, ids[0]), ids[1..]);
    }
  }

  // ---- deferred deletion ----

  /** The scan keeps every order in its place, collects the ids of a prefix, and has behind that
      prefix the side that `Eat` leaves. */
  lemma ScanMarksPrefix(s: seq<Order>, a: Order)
    requires Sorted(s, a.side.Opp()) && AllPositive(s)
    ensures var r := FullScan(s, a); var e := Eat(s, a); var k := |e.gone|;
            && Requantified(s, r.orders) && r.left == e.left
            && k <= |s| && e.gone == s[..k] && r.orders[k..] == e.rest
            && r.ids == Ids(e.gone) && Ids(r.orders[..k]) == r.ids && IdSet(r.orders[..k]) == IdSet(e.gone)
  {
    FullScanIsEarlyExit(s, a);
    EarlyExitIsEat(s, a);
    EarlyExitKeepsIds(s, a);
    EatShape(s, a);
    ScannedPrefix(s, FullScan(s, a).orders, |Eat(s, a).gone|);
  }

  /** Scanning the whole side, collecting ids, and then removing each through the index gives
      the book in which the consumed prefix has simply been cut off: same vector, same index,
      other side untouched. */
  lemma DeferredDeletionIsExact(b: Book, a: Order)
    requires Linked(b) && AllPositive(b.Of(a.side.Opp())) && Sorted(b.Of(a.side.Opp()), a.side.Opp())
    ensures MatchDeferred(b, a) == Match(b, a)
  {
    var opp := a.side.Opp();
    var r := FullScan(b.Of(opp), a);
    ScanMarksPrefix(b.Of(opp), a);
    RequantifiedLinked(b, opp, r.orders);
    RemovePrefix(b.With(opp, r.orders), opp, |Eat(b.Of(opp), a).gone|);
  }

  /** The ids collected, hence the fill callbacks fired, are those of the orders consumed, in
      priority order, each once. */
  lemma CallbacksAreExact(s: seq<Order>, a: Order)
    requires DistinctIds(s) && AllPositive(s) && Sorted(s, a.side.Opp())
    ensures var ids := FullScan(s, a).ids;
            ids == Ids(Eat(s, a).gone) && forall i, j :: 0 <= i < j < |ids| ==> ids[i] != ids[j]
  {
    ScanMarksPrefix(s, a);
  }

  lemma ScannedPrefix(s: seq<Order>, r: seq<Order>, k: nat)
    requires Requantified(s, r) && k <= |s|
    ensures Ids(r[..k]) == Ids(s[..k]) && IdSet(r[..k]) == IdSet(s[..k])
  {
  }

  // ---- matching ----

  lemma MatchLinked(b: Book, a: Order)
    requires Linked(b)
    ensures Linked(Match(b, a))
  {
    var opp := a.side.Opp();
    var s := b.Of(opp);
    var k := |Eat(s, a).gone|;
    EatShape(s, a);
    RemovePrefix(b, opp, k);
    RemoveManyLinked(b, Ids(s[..k]));
    FrontReducedRequantified(s[k..], Eat(s, a).rest);
    RequantifiedLinked(RemoveMany(b, Ids(s[..k])), opp, Eat(s, a).rest);
  }

  /** Every survivor stands for an order of the old side, in the same relative place. */
  lemma Survivor(s: seq<Order>, a: Order, i: nat)
    requires i < |Eat(s, a).rest|
    ensures var e := Eat(s, a); var k := |e.gone|;
            && k + i < |s| && e.rest[i] == s[k + i].(qty := e.rest[i].qty)
            && e.rest[i].qty <= s[k + i].qty && (s[k + i].qty > 0 ==> e.rest[i].qty > 0)
  {
  }

  lemma MatchSideKept(s: seq<Order>, a: Order, side: Side, cap: nat)
    requires SideKept(s, side, cap)
    ensures SideKept(Eat(s, a).rest, side, cap)
  {
  }

  /** A side whose prices all occurred before cannot cross the book. */
  lemma NoNewPrices(b: Book, side: Side, r: seq<Order>)
    requires Uncrossed(b.bids, b.asks)
    requires forall x :: x in r ==> exists y :: y in b.Of(side) && y.price == x.price
    ensures var b' := b.With(side, r); Uncrossed(b'.bids, b'.asks)
  {
  }

  lemma MatchKeepsInv(b: Book, a: Order, cap: nat)
    requires Inv(b, cap)
    ensures Inv(Match(b, a), cap)
  {
    MatchLinked(b, a);
    var opp := a.side.Opp();
    var s := b.Of(opp);
    var r := Eat(s, a).rest;
    MatchSideKept(s, a, opp, cap);
    forall x | x in r
      ensures exists y :: y in s && y.price == x.price
    {
      var i :| 0 <= i < |r| && r[i] == x;
      Survivor(s, a, i);
      assert s[|Eat(s, a).gone| + i] in s;
    }
    NoNewPrices(b, opp, r);
  }

  // ---- insertion ----

  lemma InsertMembers(s: seq<Order>, o: Order)
    ensures forall x :: x in Insert(s, o) <==> x == o || x in s
  {
  }

  lemma InsertSideKept(s: seq<Order>, o: Order, cap: nat)
    requires SideKept(s, o.side, cap) && |s| < cap && o.Valid()
    ensures SideKept(Insert(s, o), o.side, cap)
  {
  }

  lemma InsertSideLinked(s: seq<Order>, o: Order, index: map<u32, Side>)
    requires SideLinked(s, o.side, index) && o.id !in index
    ensures SideLinked(Insert(s, o), o.side, index[o.id := o.side])
    ensures forall id :: id == o.id || Has(s, id) ==> Has(Insert(s, o), id)
  {
    var k := FindSlot(s, o);
    var r := Insert(s, o);
    assert forall i :: 0 <= i < |r| ==> r[i] == if i < k then s[i] else if i == k then o else s[i - 1];
    forall id | id == o.id || Has(s, id)
      ensures Has(r, id)
    {
      InsertMembers(s, o);
      HasIff(s, id);
      HasIff(r, id);
    }
  }

  lemma NewcomerElsewhere(s: seq<Order>, side: Side, index: map<u32, Side>, o: Order)
    requires SideLinked(s, side, index) && o.id !in index
    ensures SideLinked(s, side, index[o.id := o.side])
  {
  }

  lemma InsertLinked(b: Book, o: Order)
    requires Linked(b) && o.id !in b.index
    ensures Linked(Rest(b, o))
  {
    InsertSideLinked(b.Of(o.side), o, b.index);
    NewcomerElsewhere(b.Of(o.side.Opp()), o.side.Opp(), b.index, o);
    var r := Rest(b, o);
    assert Complete(r) by {
      forall id | id in r.index
        ensures Has(r.Of(r.index[id]), id)
      {
        assert id != o.id ==> Has(b.Of(b.index[id]), id);
      }
    }
  }

  // ---- the operations ----

  lemma RestedUncrossed(m: Book, o: Order)
    requires Uncrossed(m.bids, m.asks)
    requires forall x :: x in m.Of(o.side.Opp()) ==> !Tradeable(o, x.price)
    ensures var m' := m.With(o.side, Insert(m.Of(o.side), o)); Uncrossed(m'.bids, m'.asks)
  {
  }

  /** Resting a valid order that can trade with nobody keeps the invariant. */
  lemma RestKeepsInv(m: Book, o: Order, cap: nat)
    requires Inv(m, cap) && o.Valid() && o.id !in m.index && |m.Of(o.side)| < cap
    requires forall x :: x in m.Of(o.side.Opp()) ==> !Tradeable(o, x.price)
    ensures Inv(Rest(m, o), cap)
  {
    InsertLinked(m, o);
    InsertSideKept(m.Of(o.side), o, cap);
    RestedUncrossed(m, o);
  }

  lemma InvSide(b: Book, cap: nat, side: Side)
    requires Inv(b, cap)
    ensures SideKept(b.Of(side), side, cap) && AllPositive(b.Of(side))
  {
  }

  /** An aggressor that still wants more faces no price it could trade with. */
  lemma NothingLeftToTrade(b: Book, o: Order, o': Order)
    requires Sorted(b.Of(o.side.Opp()), o.side.Opp())
    requires o' == o.(qty := Eat(b.Of(o.side.Opp()), o).left) && o'.qty > 0
    ensures forall x :: x in Match(b, o).Of(o'.side.Opp()) ==> !Tradeable(o', x.price)
  {
    EatExhausts(b.Of(o.side.Opp()), o);
    OppositeSide(b, o);
  }

  lemma RestedKeepsInv(b: Book, o: Order, cap: nat, o': Order)
    requires Inv(b, cap) && o' == o.(qty := Eat(b.Of(o.side.Opp()), o).left) && o'.Valid()
    requires o.id !in Match(b, o).index && |Match(b, o).Of(o.side)| != cap
    ensures Inv(Rest(Match(b, o), o'), cap)
  {
    MatchKeepsInv(b, o, cap);
    InvSide(b, cap, o.side.Opp());
    NothingLeftToTrade(b, o, o');
    InvSide(Match(b, o), cap, o.side);
    RestKeepsInv(Match(b, o), o', cap);
  }

  /** `add` keeps the invariant, for any order whatsoever. */
  lemma AddKeepsInv(b: Book, o: Order, cap: nat)
    requires Inv(b, cap)
    ensures Inv(Add(b, o, cap).book, cap)
  {
    if Add(b, o, cap).outcome.Rested? {
      RestedKeepsInv(b, o, cap, o.(qty := Eat(b.Of(o.side.Opp()), o).left));
    } else if o.Valid() {
      MatchKeepsInv(b, o, cap);
    }
  }

  lemma EraseSideKept(s: seq<Order>, id: u32, side: Side, cap: nat)
    requires SideKept(s, side, cap)
    ensures SideKept(EraseId(s, id), side, cap)
  {
  }

  /** `remove` keeps the invariant, for any id whatsoever. */
  lemma RemoveKeepsInv(b: Book, id: u32, cap: nat)
    requires Inv(b, cap)
    ensures Inv(Remove(b, id), cap)
  {
    RemoveLinked(b, id);
    if id in b.index {
      var side := b.index[id];
      var s := b.Of(side);
      EraseIdMembers(s, id);
      EraseSideKept(s, id, side, cap);
      NoNewPrices(b, side, EraseId(s, id));
    }
  }
}
