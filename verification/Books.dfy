/** The order book as a value: its two sides and its index from ids to sides, what `add`,
    `remove` and `try_match` make of it, and the invariant they keep. */
module Books {
  import opened Words
  import opened Orders
  import opened Matching

  datatype Book = Book(bids: seq<Order>, asks: seq<Order>, index: map<u32, Side>) {
    function Of(side: Side): seq<Order> {
      if side.Bid? then bids else asks
    }

    function With(side: Side, s: seq<Order>): Book {
      if side.Bid? then this.(bids := s) else this.(asks := s)
    }
  }

  const EMPTY: Book := Book([], [], map[])

  // ---- operations ----

  function Remove(b: Book, id: u32): Book {
    if id !in b.index then b
    else
      var side := b.index[id];
      b.With(side, EraseId(b.Of(side), id)).(index := b.index - {id})
  }

  function RemoveMany(b: Book, ids: seq<u32>): Book
    decreases ids
  {
    if ids == [] then b else RemoveMany(Remove(b, ids[0]), ids[1..])
  }

  function IdSet(s: seq<Order>): set<u32> {
    set o | o in s :: o.id
  }

  /** The book after an aggressor has traded: a prefix of the opposite side is cut off. */
  function Match(b: Book, a: Order): Book {
    var opp := a.side.Opp();
    var e := Eat(b.Of(opp), a);
    b.With(opp, e.rest).(index := b.index - IdSet(e.gone))
  }

  /** The scan as written, then one `remove` per collected id. */
  function MatchDeferred(b: Book, a: Order): Book {
    var opp := a.side.Opp();
    var r := FullScan(b.Of(opp), a);
    RemoveMany(b.With(opp, r.orders), r.ids)
  }

  /** Where a new order goes: in front of the first price that is no better than its own. */
  function FindSlot(s: seq<Order>, o: Order): (k: nat)
    ensures k <= |s|
    ensures forall i :: 0 <= i < k ==> IsMoreCons(o.price, s[i].price, o.side.Bid?)
    ensures k < |s| ==> !IsMoreCons(o.price, s[k].price, o.side.Bid?)
  {
    if s == [] || (if o.side.Bid? then s[0].price <= o.price else s[0].price >= o.price) then 0
    else 1 + FindSlot(s[1..], o)
  }

  function Insert(s: seq<Order>, o: Order): seq<Order> {
    var k := FindSlot(s, o);
    s[..k] + [o] + s[k..]
  }

  /** The book once `o` has come to rest on its own side. */
  function Rest(b: Book, o: Order): Book {
    b.With(o.side, Insert(b.Of(o.side), o)).(index := b.index[o.id := o.side])
  }

  datatype Outcome = Invalid | Filled | Duplicate | Full | Rested

  /** What one `add` does: the new book, how it ended, the quantity traded and the resting
      orders it filled, in the order their fill callbacks fire. */
  datatype Added = Added(book: Book, outcome: Outcome, consumed: u32, gone: seq<Order>)

  function Add(b: Book, o: Order, cap: nat): Added {
    if !o.Valid() then Added(b, Invalid, 0, [])
    else
      var e := Eat(b.Of(o.side.Opp()), o);
      var m := Match(b, o);
      var consumed := o.qty - e.left;
      if e.left == 0 then Added(m, Filled, consumed, e.gone)
      else if o.id in m.index then Added(m, Duplicate, consumed, e.gone)
      else if |m.Of(o.side)| == cap then Added(m, Full, consumed, e.gone)
      else
        Added(Rest(m, o.(qty := e.left)), Rested, consumed, e.gone)
  }

  /** How the `add` of a valid order ends once it has been matched. */
  lemma AddEnds(b: Book, o: Order, cap: nat)
    requires o.Valid()
    ensures var left := Eat(b.Of(o.side.Opp()), o).left; var m := Match(b, o); var r := Add(b, o, cap);
            && r.gone == Eat(b.Of(o.side.Opp()), o).gone
            && (r.outcome.Rested? <==> left > 0 && o.id !in m.index && |m.Of(o.side)| != cap)
            && r.book == if r.outcome.Rested? then Rest(m, o.(qty := left)) else m
  {
  }

  lemma OppositeSide(b: Book, o: Order)
    ensures Match(b, o).Of(o.side.Opp()) == Eat(b.Of(o.side.Opp()), o).rest
    ensures Match(b, o).Of(o.side) == b.Of(o.side)
    ensures Rest(b, o).Of(o.side.Opp()) == b.Of(o.side.Opp())
  {
  }

  // ---- the invariant ----

  ghost predicate SideLinked(s: seq<Order>, side: Side, index: map<u32, Side>) {
    && DistinctIds(s)
    && forall i :: 0 <= i < |s| ==> s[i].side == side && s[i].id in index && index[s[i].id] == side
  }

  /** Every id the index knows rests on the side it says. */
  ghost predicate Complete(b: Book) {
    forall id :: id in b.index ==> Has(b.Of(b.index[id]), id)
  }

  /** The index is in step with the vectors. */
  ghost predicate Linked(b: Book) {
    SideLinked(b.bids, Bid, b.index) && SideLinked(b.asks, Ask, b.index) && Complete(b)
  }

  /** One side is well kept: best price first, every order valid, within capacity. */
  ghost predicate SideKept(s: seq<Order>, side: Side, cap: nat) {
    && Sorted(s, side)
    && (forall i :: 0 <= i < |s| ==> s[i].Valid())
    && |s| <= cap
  }

  ghost predicate Uncrossed(bids: seq<Order>, asks: seq<Order>) {
    forall x, y :: x in bids && y in asks ==> x.price < y.price
  }

  ghost predicate Inv(b: Book, cap: nat) {
    && Linked(b)
    && SideKept(b.bids, Bid, cap)
    && SideKept(b.asks, Ask, cap)
    && Uncrossed(b.bids, b.asks)
  }

  // ---- removal ----

  lemma EraseIdLinked(s: seq<Order>, side: Side, index: map<u32, Side>, id: u32)
    requires SideLinked(s, side, index)
    ensures SideLinked(EraseId(s, id), side, index - {id})
    ensures forall x :: x != id && Has(s, x) ==> Has(EraseId(s, id), x)
  {
    EraseIdMembers(s, id);
    var r := EraseId(s, id);
    forall i | 0 <= i < |r|
      ensures r[i].side == side && r[i].id in index - {id} && index[r[i].id] == side
    {
      assert r[i] in r;
    }
    forall x | x != id && Has(s, x)
      ensures Has(r, x)
    {
      assert At(s, x) in s;
      HasIff(r, x);
    }
  }

  lemma OtherSideLinked(s: seq<Order>, side: Side, index: map<u32, Side>, ids: set<u32>)
    requires SideLinked(s, side, index)
    requires forall id :: id in ids && id in index ==> index[id] != side
    ensures SideLinked(s, side, index - ids)
  {
  }

  /** The index always leads `remove` to a real element, and stays in step. */
  lemma RemoveLinked(b: Book, id: u32)
    requires Linked(b)
    ensures Linked(Remove(b, id))
    ensures id in b.index ==> Has(b.Of(b.index[id]), id)
  {
    if id in b.index {
      var side := b.index[id];
      EraseIdLinked(b.Of(side), side, b.index, id);
      OtherSideLinked(b.Of(side.Opp()), side.Opp(), b.index, {id});
    }
  }

  lemma RemoveFront(b: Book, side: Side)
    requires Linked(b) && b.Of(side) != []
    ensures var s := b.Of(side); var b' := Remove(b, s[0].id);
            b' == b.With(side, s[1..]).(index := b.index - {s[0].id}) && Linked(b')
  {
    RemoveLinked(b, b.Of(side)[0].id);
  }

  lemma PrefixIds(s: seq<Order>, k: nat, index: map<u32, Side>)
    requires 0 < k <= |s|
    ensures Ids(s[..k]) == [s[0].id] + Ids(s[1..][..k - 1])
    ensures s[1..][k - 1..] == s[k..]
    ensures index - {s[0].id} - IdSet(s[1..][..k - 1]) == index - IdSet(s[..k])
  {
  }

  /** Removing, one by one through the index, the first `k` orders of a side cuts off exactly
      that prefix and leaves the other side alone. */
  lemma {:induction false} RemovePrefix(b: Book, side: Side, k: nat)
    requires Linked(b) && k <= |b.Of(side)|
    ensures var s := b.Of(side);
            RemoveMany(b, Ids(s[..k])) == b.With(side, s[k..]).(index := b.index - IdSet(s[..k]))
    decreases k
  {
    var s := b.Of(side);
    if k == 0 {
      assert s[0..] == s;
      assert b.index - IdSet(s[..0]) == b.index;
    } else {
      var b' := Remove(b, s[0].id);
      RemoveFront(b, side);
      RemovePrefix(b', side, k - 1);
      PrefixIds(s, k, b.index);
      assert RemoveMany(b, Ids(s[..k])) == RemoveMany(b', Ids(s[1..][..k - 1]));
    }
  }
}
