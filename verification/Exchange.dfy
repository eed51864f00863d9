/** The book and the generator as the objects they are: vectors, an index and a list that their
    methods change in place, and callbacks between the two.  Each method is proved to do to the
    state what the value-level operations describe. */
module Exchange {
  import opened Words
  import opened Orders
  import M = Matching
  import B = Books
  import I = BookInvariant
  import Q = Quoting
  import S = Shadow

  class OptionOrderBook {
    const size: nat
    var bids: seq<Order>
    var asks: seq<Order>
    var orderIdsToSide: map<u32, Side>
    /** The fill callback: forwards each id to `NotifyFill`; null when none has been set. */
    var fillFn: OptionOrderGenerator?

    ghost function State(): B.Book
      reads this
    {
      B.Book(bids, asks, orderIdsToSide)
    }

    ghost predicate Valid()
      reads this
    {
      B.Inv(State(), size)
    }

    constructor (size: nat)
      ensures Valid() && State() == B.EMPTY && this.size == size && fillFn == null
    {
      this.size := size;
      bids, asks, orderIdsToSide, fillFn := [], [], map[], null;
    }

    method SetFillFn(fn: OptionOrderGenerator)
      modifies this`fillFn
      ensures fillFn == fn
    {
      fillFn := fn;
    }

    function GetContainer(side: Side): seq<Order>
      reads this
    {
      if side.Bid? then bids else asks
    }

    method SetContainer(side: Side, s: seq<Order>)
      modifies this`bids, this`asks
      ensures State() == old(State()).With(side, s)
    {
      if side.Bid? {
        bids := s;
      } else {
        asks := s;
      }
    }

    /** `has`: under the invariant, whether an order with this id rests on either side. */
    method HasOrder(id: u32) returns (r: bool)
      requires B.Linked(State())
      ensures r <==> exists o :: o in bids + asks && o.id == id
    {
      r := id in orderIdsToSide;
      if r {
        HasIff(GetContainer(orderIdsToSide[id]), id);
      } else {
        forall o | o in bids + asks
          ensures o.id != id
        {
          assert o in bids || o in asks;
        }
      }
    }

    /** The index alone decides; the erase that follows is unchecked in the source, and always
        finds its element. */
    method Remove(id: u32) returns (ok: bool)
      requires B.Linked(State())
      modifies this`bids, this`asks, this`orderIdsToSide
      ensures State() == B.Remove(old(State()), id)
      ensures ok == (id in old(orderIdsToSide))
    {
      if id !in orderIdsToSide {
        return false;
      }
      var side := orderIdsToSide[id];
      var container := GetContainer(side);
      var it := FindId(container, id);
      assert it < |container| by {
        B.RemoveLinked(State(), id);
      }
      SetContainer(side, container[..it] + container[it + 1..]);
      orderIdsToSide := orderIdsToSide - {id};
      return true;
    }

    /** First half of `try_match`: scans the whole opposite side, reducing quantities in place
        and collecting the ids of the orders used up. */
    method ScanOpposite(aggressor: Order) returns (idsToRemove: seq<u32>, left: u32)
      modifies this`bids, this`asks
      ensures var opp := aggressor.side.Opp(); var r := M.FullScan(old(State()).Of(opp), aggressor);
              State() == old(State()).With(opp, r.orders) && idsToRemove == r.ids && left == r.left
    {
      var opp := aggressor.side.Opp();
      var a := aggressor;
      ghost var b0 := State();
      ghost var s0 := b0.Of(opp);
      ghost var r := M.FullScan(s0, aggressor);
      idsToRemove := [];
      var i := 0;
      StartScan(s0, a);
      while i < |GetContainer(opp)|
        invariant State() == b0 && 0 <= i <= |s0|
        invariant a == aggressor.(qty := a.qty)
        invariant r == Resume(s0[..i], idsToRemove, M.FullScan(s0[i..], a))
      {
        var passive := GetContainer(opp)[i];
        if Tradeable(a, passive.price) {
          if passive.qty < a.qty {
            ScanTakes(s0, i, idsToRemove, a);
            idsToRemove := idsToRemove + [passive.id];
            a := a.(qty := a.qty - passive.qty);
          } else if passive.qty > a.qty {
            ScanStops(s0, i, idsToRemove, a);
            assert r == M.Scanned(s0[i := passive.(qty := passive.qty - a.qty)], idsToRemove, 0);
            SetContainer(opp, GetContainer(opp)[i := passive.(qty := passive.qty - a.qty)]);
            return idsToRemove, 0;
          } else {
            ScanStops(s0, i, idsToRemove, a);
            idsToRemove := idsToRemove + [passive.id];
            assert r == M.Scanned(s0[i := passive.(qty := 0)], idsToRemove, 0);
            SetContainer(opp, GetContainer(opp)[i := passive.(qty := 0)]);
            return idsToRemove, 0;
          }
        } else {
          ScanSkips(s0, i, idsToRemove, a);
        }
        i := i + 1;
      }
      ScanEnds(s0, idsToRemove, a);
      left := a.qty;
    }

    /** What `try_match` does for one collected id. */
    method RemoveOne(id: u32)
      requires B.Linked(State())
      modifies this`bids, this`asks, this`orderIdsToSide, fillFn
      ensures B.Linked(State()) && State() == B.Remove(old(State()), id)
      ensures fillFn != null ==>
                && fillFn.live == EraseId(old(fillFn.live), id)
                && fillFn.fills == old(fillFn.fills) + [id]
                && fillFn.nextId == old(fillFn.nextId)
    {
      B.RemoveLinked(State(), id);
      var _ := Remove(id);
      if fillFn != null {
        fillFn.NotifyFill(id);
      }
    }

    /** Second half of `try_match`: removes each collected id through the index and fires the
        fill callback for it. */
    method RemoveAll(idsToRemove: seq<u32>)
      requires B.Linked(State())
      modifies this`bids, this`asks, this`orderIdsToSide, fillFn
      ensures B.Linked(State()) && State() == B.RemoveMany(old(State()), idsToRemove)
      ensures fillFn != null ==>
                && fillFn.Notified(old(fillFn.live), old(fillFn.fills), idsToRemove)
                && fillFn.nextId == old(fillFn.nextId)
    {
      ghost var b0 := State();
      var j := 0;
      while j < |idsToRemove|
        invariant 0 <= j <= |idsToRemove|
        invariant B.Linked(State()) && B.RemoveMany(State(), idsToRemove[j..]) == B.RemoveMany(b0, idsToRemove)
        invariant fillFn != null ==>
                    && fillFn.Notified(old(fillFn.live), old(fillFn.fills), idsToRemove[..j])
                    && fillFn.nextId == old(fillFn.nextId)
      {
        assert idsToRemove[j..][1..] == idsToRemove[j + 1..];
        RemoveOne(idsToRemove[j]);
        if fillFn != null {
          EraseOneMore(old(fillFn.live), idsToRemove, j);
        }
        j := j + 1;
      }
      assert idsToRemove[..j] == idsToRemove;
    }

    /** `try_match`: afterwards the book is the one with the consumed prefix cut off, and the
        callback has fired once for each order consumed, in priority order. */
    method TryMatch(aggressor: Order) returns (consumed: u32, left: u32)
      requires Valid()
      modifies this`bids, this`asks, this`orderIdsToSide, fillFn
      ensures State() == B.Match(old(State()), aggressor)
      ensures var e := M.Eat(old(State()).Of(aggressor.side.Opp()), aggressor);
              && left == e.left && consumed == aggressor.qty - left
              && (fillFn != null ==>
                    && fillFn.Notified(old(fillFn.live), old(fillFn.fills), Ids(e.gone))
                    && fillFn.nextId == old(fillFn.nextId))
    {
      ghost var b0 := State();
      I.InvSide(b0, size, aggressor.side.Opp());
      I.ScanMarksPrefix(b0.Of(aggressor.side.Opp()), aggressor);
      I.RequantifiedLinked(b0, aggressor.side.Opp(), M.FullScan(b0.Of(aggressor.side.Opp()), aggressor).orders);
      I.DeferredDeletionIsExact(b0, aggressor);
      var idsToRemove, remaining := ScanOpposite(aggressor);
      RemoveAll(idsToRemove);
      left := remaining;
      consumed := aggressor.qty - left;
    }

    /** The tail of `add`: the index entry first, taken back when the side is full. */
    method RestRemainder(order: Order) returns (ok: bool)
      modifies this`bids, this`asks, this`orderIdsToSide
      ensures ok == (order.id !in old(orderIdsToSide) && |old(State()).Of(order.side)| != size)
      ensures State() == if ok then B.Rest(old(State()), order) else old(State())
    {
      if order.id in orderIdsToSide {
        return false;
      }
      ghost var m := orderIdsToSide;
      orderIdsToSide := orderIdsToSide[order.id := order.side];
      var container := GetContainer(order.side);
      if |container| == size {
        orderIdsToSide := orderIdsToSide - {order.id};
        assert orderIdsToSide == m;
        return false;
      }
      var it := B.FindSlot(container, order);
      SetContainer(order.side, container[..it] + [order] + container[it..]);
      return true;
    }

    /** `add` past its validity check: match, then rest what is left, if anything is. */
    method MatchAndRest(order: Order) returns (ok: bool)
      requires Valid()
      modifies this`bids, this`asks, this`orderIdsToSide, fillFn
      ensures var m := B.Match(old(State()), order); var e := M.Eat(old(State()).Of(order.side.Opp()), order);
              && ok == (e.left > 0 && order.id !in m.index && |m.Of(order.side)| != size)
              && State() == (if ok then B.Rest(m, order.(qty := e.left)) else m)
              && (fillFn != null ==>
                    && fillFn.Notified(old(fillFn.live), old(fillFn.fills), Ids(e.gone))
                    && fillFn.nextId == old(fillFn.nextId))
    {
      var consumed, left := TryMatch(order);
      if consumed == order.qty {
        return false;
      }
      ok := RestRemainder(order.(qty := left));
    }

    /** True exactly when the order, or what is left of it, has come to rest. */
    method Add(order: Order) returns (ok: bool)
      requires Valid()
      modifies this`bids, this`asks, this`orderIdsToSide, fillFn
      ensures Valid()
      ensures var r := B.Add(old(State()), order, size);
              && State() == r.book
              && ok == r.outcome.Rested?
              && (fillFn != null ==>
                    && fillFn.Notified(old(fillFn.live), old(fillFn.fills), Ids(r.gone))
                    && fillFn.nextId == old(fillFn.nextId))
    {
      ghost var b0 := State();
      if !order.Valid() {
        return false;
      }
      ok := MatchAndRest(order);
      B.AddEnds(b0, order, size);
      NextInv(b0, order, size, State());
    }
  }

  lemma NextInv(b: B.Book, o: Order, cap: nat, next: B.Book)
    requires B.Inv(b, cap) && next == B.Add(b, o, cap).book
    ensures B.Inv(next, cap)
  {
    I.AddKeepsInv(b, o, cap);
  }

  /** The scan's result when its first `|done|` steps have been taken. */
  ghost function Resume(done: seq<Order>, ids: seq<u32>, r: M.Scanned): M.Scanned {
    M.Scanned(done + r.orders, ids + r.ids, r.left)
  }

  lemma StartScan(s: seq<Order>, a: Order)
    ensures M.FullScan(s, a) == Resume(s[..0], [], M.FullScan(s[0..], a))
  {
  }

  /** Taking one step over an order moves it, and its id if collected, to what is done. */
  lemma ResumePassed(done: seq<Order>, ids: seq<u32>, o: Order, more: seq<u32>, r: M.Scanned)
    ensures Resume(done, ids, M.Passed(o, more, r)) == Resume(done + [o], ids + more, r)
  {
  }

  lemma OneMore(s: seq<Order>, i: nat)
    requires i < |s|
    ensures s[i..] != [] && s[i..][0] == s[i] && s[i..][1..] == s[i + 1..]
    ensures s[..i] + [s[i]] == s[..i + 1]
  {
  }

  lemma ScanSkips(s: seq<Order>, i: nat, ids: seq<u32>, a: Order)
    requires i < |s| && !Tradeable(a, s[i].price)
    ensures Resume(s[..i], ids, M.FullScan(s[i..], a)) == Resume(s[..i + 1], ids, M.FullScan(s[i + 1..], a))
  {
  }

  lemma ScanTakes(s: seq<Order>, i: nat, ids: seq<u32>, a: Order)
    requires i < |s| && Tradeable(a, s[i].price) && s[i].qty < a.qty
    ensures Resume(s[..i], ids, M.FullScan(s[i..], a))
         == Resume(s[..i + 1], ids + [s[i].id], M.FullScan(s[i + 1..], a.(qty := a.qty - s[i].qty)))
  {
    var r := M.FullScan(s[i + 1..], a.(qty := a.qty - s[i].qty));
    OneMore(s, i);
    assert M.FullScan(s[i..], a) == M.Passed(s[i], [s[i].id], r);
    ResumePassed(s[..i], ids, s[i], [s[i].id], r);
  }

  lemma ScanStops(s: seq<Order>, i: nat, ids: seq<u32>, a: Order)
    requires i < |s| && Tradeable(a, s[i].price) && a.qty <= s[i].qty
    ensures Resume(s[..i], ids, M.FullScan(s[i..], a))
         == M.Scanned(s[i := s[i].(qty := s[i].qty - a.qty)], ids + if s[i].qty == a.qty then [s[i].id] else [], 0)
  {
  }

  lemma ScanEnds(s: seq<Order>, ids: seq<u32>, a: Order)
    ensures Resume(s[..|s|], ids, M.FullScan(s[|s|..], a)) == M.Scanned(s, ids, a.qty)
  {
  }

  lemma {:induction false} EraseAppend(s: seq<Order>, ids: seq<u32>, id: u32)
    ensures EraseAll(s, ids + [id]) == EraseId(EraseAll(s, ids), id)
    decreases ids
  {
    if ids == [] {
      assert EraseAll(EraseId(s, id), []) == EraseId(s, id);
    } else {
      assert (ids + [id])[1..] == ids[1..] + [id];
      EraseAppend(EraseId(s, ids[0]), ids[1..], id);
    }
  }

  lemma EraseOneMore(s: seq<Order>, ids: seq<u32>, j: nat)
    requires j < |ids|
    ensures ids[..j + 1] == ids[..j] + [ids[j]]
    ensures EraseAll(s, ids[..j + 1]) == EraseId(EraseAll(s, ids[..j]), ids[j])
  {
    assert ids[..j + 1] == ids[..j] + [ids[j]];
    EraseAppend(s, ids[..j], ids[j]);
  }

  class OptionOrderGenerator {
    const cfg: Q.Config
    /** The book both callbacks lead to. */
    const book: OptionOrderBook
    var live: seq<Order>
    var nextId: u32
    /** Every id notified so far, in order. */
    ghost var fills: seq<u32>

    ghost function State(): Q.Gen
      reads this
    {
      Q.Gen(live, nextId)
    }

    ghost predicate Notified(before: seq<Order>, seen: seq<u32>, ids: seq<u32>)
      reads this
    {
      live == EraseAll(before, ids) && fills == seen + ids
    }

    constructor (book: OptionOrderBook, cfg: Q.Config)
      ensures State() == Q.START && this.book == book && this.cfg == cfg && fills == []
    {
      this.book, this.cfg := book, cfg;
      live, nextId, fills := [], 0, [];
    }

    method NotifyFill(id: u32)
      modifies this`live, this`fills
      ensures live == EraseId(old(live), id) && fills == old(fills) + [id]
    {
      fills := fills + [id];
      Untrack(id);
    }

    method Track(order: Order)
      modifies this`live
      ensures live == old(live) + [order]
    {
      live := live + [order];
    }

    method Untrack(id: u32)
      modifies this`live
      ensures live == EraseId(old(live), id)
    {
      var it := FindId(live, id);
      if it != |live| {
        live := live[..it] + live[it + 1..];
      }
    }

    method MakeOrder(side: Side, price: i32, qty: u32) returns (order: Order)
      modifies this`nextId
      ensures nextId == Q.NextId(old(nextId)) && order == Order(side, price, qty, nextId)
    {
      nextId := (nextId + 1) % U32_MODULUS;
      order := Order(side, price, qty, nextId);
    }

    method GenerateMmOrder(side: Side, jitter: i32, qty: u32) returns (order: Order)
      requires 1 <= jitter <= cfg.half && 1 <= qty <= cfg.mmLotMax
      modifies this`nextId
      ensures order == Q.MmOrder(cfg, side, jitter, qty, nextId) && nextId == Q.NextId(old(nextId))
      ensures order.side == side && order.qty == qty && order.id == nextId
    {
      order := MakeOrder(side, if side.Bid? then Q.ToI32(cfg.mid - jitter) else Q.ToI32(cfg.mid + jitter), qty);
    }

    method GenerateAggressorOrder(side: Side, qty: u32) returns (order: Order)
      requires 1 <= qty <= cfg.aggressorLotMax
      modifies this`nextId
      ensures order == Q.AggressorOrder(cfg, live, side, qty, nextId) && nextId == Q.NextId(old(nextId))
      ensures order.side == side && order.qty == qty && order.id == nextId
    {
      var price := if side.Bid? then Q.ToI32(Q.BestAsk(cfg, live) + cfg.offset)
                   else Q.ToI32(Q.BestBid(cfg, live) - cfg.offset);
      order := MakeOrder(side, price, qty);
    }

    /** The wiring `main` sets up: the book's fill callback leads back here. */
    ghost predicate Wired()
      reads this, book
    {
      book.fillFn == this
    }

    ghost function System(): S.System
      reads this, book
    {
      S.System(book.State(), State())
    }

    /** Calls the add callback and tracks the order if it was accepted. */
    method Submit(order: Order)
      requires Wired() && book.Valid()
      modifies this, book
      ensures Wired() && book.Valid() && nextId == old(nextId)
      ensures System() == S.Send(old(System()), order, book.size)
    {
      var accepted := book.Add(order);
      if accepted {
        Track(order);
      }
    }

    /** One turn of the loop. */
    method Act(d: Q.Draw)
      requires Wired() && book.Valid() && d.InRange(cfg)
      modifies this, book
      ensures Wired() && book.Valid()
      ensures System() == S.Step(cfg, old(System()), d, book.size)
    {
      match d
      case Cancel(pick) =>
        if live != [] {
          var id := live[pick % |live|].id;
          I.RemoveKeepsInv(book.State(), id, book.size);
          var _ := book.Remove(id);
          Untrack(id);
        }
      case Aggress(side, qty) =>
        var order := GenerateAggressorOrder(side, qty);
        Submit(order);
      case Quote(bidJitter, bidQty, askJitter, askQty) =>
        var bid := GenerateMmOrder(Bid, bidJitter, bidQty);
        var ask := GenerateMmOrder(Ask, askJitter, askQty);
        Submit(bid);
        Submit(ask);
    }

    /** The loop, one turn per draw until it is stopped. */
    method Run(draws: seq<Q.Draw>)
      requires Wired() && book.Valid() && S.DrawsInRange(cfg, draws)
      modifies this, book
      ensures Wired() && book.Valid()
      ensures System() == S.RunFrom(cfg, old(System()), draws, book.size)
    {
      ghost var s0 := System();
      for i := 0 to |draws|
        invariant Wired() && book.Valid()
        invariant System() == S.RunFrom(cfg, s0, draws[..i], book.size)
      {
        Act(draws[i]);
        assert draws[..i + 1][..i] == draws[..i];
      }
      assert draws[..|draws|] == draws;
    }
  }

  /** The composition root: book first, generator over it, then the callback back, and a run. */
  method RunExchange(size: nat, cfg: Q.Config, draws: seq<Q.Draw>)
    returns (book: OptionOrderBook, generator: OptionOrderGenerator)
    requires S.DrawsInRange(cfg, draws)
    ensures fresh(book) && fresh(generator) && generator.book == book && generator.Wired()
    ensures generator.System() == S.Run(cfg, draws, size)
    ensures S.Good(generator.System(), size)
  {
    book := new OptionOrderBook(size);
    generator := new OptionOrderGenerator(book, cfg);
    book.SetFillFn(generator);
    generator.Run(draws);
    S.ShadowAgrees(cfg, draws, size);
  }
}
