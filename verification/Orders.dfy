/** Prices, sides and orders, and the searches by id that both the order book and the
    order generator make over their vectors of orders. */
module Orders {
  import opened Words

  /** The sentinel price: the least 32-bit signed value. */
  const INVALID_PRICE: i32 := -0x8000_0000

  datatype Side = Bid | Ask {
    function Opp(): Side {
      if Bid? then Ask else Bid
    }
  }

  datatype Order = Order(side: Side, price: i32, qty: u32, id: u32) {
    predicate Valid() {
      price != INVALID_PRICE && qty > 0
    }
  }

  /** Is price `lhs` strictly less eager than `rhs`, seen from the given side? */
  predicate IsMoreCons(lhs: i32, rhs: i32, isBid: bool) {
    if isBid then lhs < rhs else lhs > rhs
  }

  /** The test `try_match` makes before trading with a resting order at price `passive`. */
  predicate Tradeable(aggressor: Order, passive: i32) {
    !IsMoreCons(aggressor.price, passive, aggressor.side.Bid?)
  }

  /** Best price first: bids non-increasing, asks non-decreasing. */
  ghost predicate Sorted(s: seq<Order>, side: Side) {
    forall i, j :: 0 <= i < j < |s| ==> !IsMoreCons(s[i].price, s[j].price, side.Bid?)
  }

  ghost predicate DistinctIds(s: seq<Order>) {
    forall i, j :: 0 <= i < j < |s| ==> s[i].id != s[j].id
  }

  function Ids(s: seq<Order>): (ids: seq<u32>)
    ensures |ids| == |s|
    ensures forall i :: 0 <= i < |s| ==> ids[i] == s[i].id
  {
    seq(|s|, i requires 0 <= i < |s| => s[i].id)
  }

  function TotalQty(s: seq<Order>): nat {
    if s == [] then 0 else s[0].qty + TotalQty(s[1..])
  }

  /** `std::ranges::find` by id: the first position holding `id`, or `|s|`. */
  function FindId(s: seq<Order>, id: u32): (k: nat)
    ensures k <= |s|
    ensures forall i :: 0 <= i < k ==> s[i].id != id
    ensures k < |s| ==> s[k].id == id
  {
    if s == [] || s[0].id == id then 0 else 1 + FindId(s[1..], id)
  }

  predicate Has(s: seq<Order>, id: u32) {
    FindId(s, id) < |s|
  }

  function At(s: seq<Order>, id: u32): Order
    requires Has(s, id)
  {
    s[FindId(s, id)]
  }

  /** Erase the element with this id; nothing happens when there is none. */
  function EraseId(s: seq<Order>, id: u32): seq<Order> {
    var k := FindId(s, id);
    if k == |s| then s else s[..k] + s[k + 1..]
  }

  function EraseAll(s: seq<Order>, ids: seq<u32>): seq<Order> {
    if ids == [] then s else EraseAll(EraseId(s, ids[0]), ids[1..])
  }

  // ---- lookups ----

  lemma HasIff(s: seq<Order>, id: u32)
    ensures Has(s, id) <==> exists o :: o in s && o.id == id
  {
  }

  /** With distinct ids a lookup by id returns the very element that has it. */
  lemma AtMember(s: seq<Order>, o: Order)
    requires DistinctIds(s) && o in s
    ensures Has(s, o.id) && At(s, o.id) == o
  {
  }

  /** Erasing by id removes exactly the order with that id. */
  lemma EraseIdMembers(s: seq<Order>, id: u32)
    requires DistinctIds(s)
    ensures DistinctIds(EraseId(s, id))
    ensures forall o :: o in EraseId(s, id) <==> o in s && o.id != id
  {
    var k := FindId(s, id);
    var r := EraseId(s, id);
    forall o | o in s && o.id != id
      ensures o in r
    {
      var m :| 0 <= m < |s| && s[m] == o;
      assert o == if m < k then r[m] else r[m - 1];
    }
    forall o | o in r
      ensures o in s && o.id != id
    {
      var m :| 0 <= m < |r| && r[m] == o;
      if k < |s| {
        assert o == if m < k then s[m] else s[m + 1];
      }
    }
  }

  /** Erasing a list of ids keeps exactly the orders whose id is not listed. */
  lemma {:induction false} EraseAllMembers(s: seq<Order>, ids: seq<u32>)
    requires DistinctIds(s)
    ensures DistinctIds(EraseAll(s, ids))
    ensures forall o :: o in EraseAll(s, ids) <==> o in s && o.id !in ids
    decreases ids
  {
    if ids != [] {
      EraseIdMembers(s, ids[0]);
      EraseAllMembers(EraseId(s, ids[0]), ids[1..]);
    }
  }

  lemma {:induction false} TotalQtyConcat(s: seq<Order>, t: seq<Order>)
    ensures TotalQty(s + t) == TotalQty(s) + TotalQty(t)
  {
    if s == [] {
      assert s + t == t;
    } else {
      assert (s + t)[1..] == s[1..] + t;
      TotalQtyConcat(s[1..], t);
    }
  }
}
