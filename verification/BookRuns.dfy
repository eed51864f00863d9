/** Whole runs of the book: any sequence of `add`, `remove` and bare `try_match` calls, with any
    orders. */
module BookRuns {
  import opened Words
  import opened Orders
  import opened Matching
  import opened Books
  import opened BookInvariant
  import BestExecution

  datatype Event = Submit(order: Order) | Cancel(id: u32) | Trade(order: Order)

  function Step(b: Book, e: Event, cap: nat): Book {
    match e
    case Submit(o) => Add(b, o, cap).book
    case Cancel(id) => Remove(b, id)
    case Trade(o) => MatchDeferred(b, o)
  }

  function Run(evs: seq<Event>, cap: nat): Book {
    if evs == [] then EMPTY
    else Step(Run(evs[..|evs| - 1], cap), evs[|evs| - 1], cap)
  }

  /** A bare match deletes exactly the consumed prefix. */
  lemma TradeCuts(b: Book, o: Order, cap: nat)
    requires Inv(b, cap)
    ensures MatchDeferred(b, o) == Match(b, o) && Inv(Match(b, o), cap)
  {
    InvSide(b, cap, o.side.Opp());
    DeferredDeletionIsExact(b, o);
    MatchKeepsInv(b, o, cap);
  }

  /** Every reachable book satisfies the joint invariant: in particular it is sorted, never
      crossed, its index is exact, and no side outgrows its reserve. */
  lemma {:induction false} ReachableInv(evs: seq<Event>, cap: nat)
    ensures Inv(Run(evs, cap), cap)
  {
    if evs != [] {
      var b := Run(evs[..|evs| - 1], cap);
      ReachableInv(evs[..|evs| - 1], cap);
      match evs[|evs| - 1]
      case Submit(o) => AddKeepsInv(b, o, cap);
      case Cancel(id) => RemoveKeepsInv(b, id, cap);
      case Trade(o) => TradeCuts(b, o, cap);
    }
  }

  /** In every reachable book each resting bid is priced strictly below each resting ask. */
  lemma NeverCrossed(evs: seq<Event>, cap: nat, bid: Order, ask: Order)
    requires bid in Run(evs, cap).bids && ask in Run(evs, cap).asks
    ensures bid.price < ask.price
  {
    ReachableInv(evs, cap);
  }

  /** No order in a reachable book has the least 32-bit price or nothing to trade. */
  lemma NothingInvalidRests(evs: seq<Event>, cap: nat, o: Order)
    requires o in Run(evs, cap).bids || o in Run(evs, cap).asks
    ensures o.price != -0x8000_0000 && o.qty >= 1
  {
    ReachableInv(evs, cap);
  }

  /** Such an order, and no other, is turned away: nothing trades, nothing rests, and the book is
      as it was. */
  lemma TurnedAwayIff(b: Book, o: Order, cap: nat)
    ensures Add(b, o, cap).outcome.Invalid? <==> o.price == -0x8000_0000 || o.qty == 0
    ensures Add(b, o, cap).outcome.Invalid? ==> Add(b, o, cap) == Added(b, Invalid, 0, [])
  {
  }

  // ---- one call to add ----

  /** What `add` trades and leaves on the opposite side is what `Eat` says. */
  lemma AddTrades(b: Book, o: Order, cap: nat)
    requires o.Valid()
    ensures var e := Eat(b.Of(o.side.Opp()), o); var r := Add(b, o, cap);
            && r.consumed == o.qty - e.left && r.gone == e.gone
            && r.book.Of(o.side.Opp()) == e.rest
  {
    AddEnds(b, o, cap);
    OppositeSide(b, o);
    OppositeSide(Match(b, o), o.(qty := Eat(b.Of(o.side.Opp()), o).left));
  }

  /** How an `add` that rests ends. */
  lemma AddRests(b: Book, o: Order, cap: nat)
    requires Add(b, o, cap).outcome.Rested?
    ensures var left := Eat(b.Of(o.side.Opp()), o).left; var r := Add(b, o, cap);
            && o.Valid() && left > 0 && r.consumed == o.qty - left
            && r.book == Rest(Match(b, o), o.(qty := left))
            && o.id !in Match(b, o).index && |Match(b, o).Of(o.side)| != cap
  {
  }

  /** The trade an `add` makes in a reachable book: its size is the lesser of the order and the
      tradeable depth; the opposite side afterwards is the old one less the greedy fills, the
      emptied orders dropped. */
  lemma TradeIsGreedy(b: Book, o: Order, cap: nat)
    requires Inv(b, cap) && o.Valid()
    ensures var s := b.Of(o.side.Opp()); var r := Add(b, o, cap);
            && r.consumed == Sum(Fills(s, o)) == (if o.qty <= Depth(s, o) then o.qty else Depth(s, o))
            && r.book.Of(o.side.Opp()) == Surviving(s, Fills(s, o))
  {
    var s := b.Of(o.side.Opp());
    InvSide(b, cap, o.side.Opp());
    AddTrades(b, o, cap);
    FillsAreEat(s, o);
    EatExhausts(s, o);
  }

  /** No other way of taking the traded quantity from the resting orders is better. */
  lemma TradeIsBest(b: Book, o: Order, cap: nat, x: seq<nat>)
    requires Inv(b, cap) && o.Valid()
    requires BestExecution.Feasible(b.Of(o.side.Opp()), x) && Sum(x) == Add(b, o, cap).consumed
    ensures var s := b.Of(o.side.Opp());
            && (o.side.Bid? ==> BestExecution.Value(s, Fills(s, o)) <= BestExecution.Value(s, x))
            && (o.side.Ask? ==> BestExecution.Value(s, Fills(s, o)) >= BestExecution.Value(s, x))
  {
    InvSide(b, cap, o.side.Opp());
    TradeIsGreedy(b, o, cap);
    BestExecution.BestExecution(b.Of(o.side.Opp()), o, x);
  }

  // ---- the quantity ledger ----

  function Resting(b: Book): nat {
    TotalQty(b.bids) + TotalQty(b.asks)
  }

  /** What an `add` throws away: an order it rejects, or the remainder of one it could not rest. */
  function Discarded(o: Order, r: Added): nat
    requires r.consumed <= o.qty
  {
    if r.outcome.Invalid? || r.outcome.Duplicate? || r.outcome.Full? then o.qty - r.consumed else 0
  }

  lemma InsertTotal(s: seq<Order>, o: Order)
    ensures TotalQty(Insert(s, o)) == TotalQty(s) + o.qty
  {
    var k := FindSlot(s, o);
    TotalQtyConcat(s[..k], s[k..]);
    assert s == s[..k] + s[k..];
    TotalQtyConcat(s[..k] + [o], s[k..]);
    TotalQtyConcat(s[..k], [o]);
  }

  lemma EraseTotal(s: seq<Order>, id: u32)
    requires Has(s, id)
    ensures TotalQty(s) == TotalQty(EraseId(s, id)) + At(s, id).qty
  {
    var k := FindId(s, id);
    assert s == s[..k] + ([s[k]] + s[k + 1..]);
    TotalQtyConcat(s[..k], [s[k]] + s[k + 1..]);
    TotalQtyConcat(s[..k], s[k + 1..]);
  }

  lemma MatchConserves(b: Book, o: Order)
    ensures Resting(b) == Resting(Match(b, o)) + (o.qty - Eat(b.Of(o.side.Opp()), o).left)
  {
    EatConserves(b.Of(o.side.Opp()), o);
  }

  lemma RestConserves(m: Book, o: Order)
    ensures Resting(Rest(m, o)) == Resting(m) + o.qty
  {
    InsertTotal(m.Of(o.side), o);
  }

  lemma ValidAddConserves(b: Book, o: Order, cap: nat)
    requires o.Valid()
    ensures var r := Add(b, o, cap);
            r.consumed <= o.qty && Resting(b) + o.qty == Resting(r.book) + 2 * r.consumed + Discarded(o, r)
  {
    MatchConserves(b, o);
    RestConserves(Match(b, o), o.(qty := Eat(b.Of(o.side.Opp()), o).left));
  }

  /** Both sides of every trade leave the book's care; everything else rests or is discarded. */
  lemma AddConserves(b: Book, o: Order, cap: nat)
    ensures var r := Add(b, o, cap);
            r.consumed <= o.qty && Resting(b) + o.qty == Resting(r.book) + 2 * r.consumed + Discarded(o, r)
  {
    if o.Valid() {
      ValidAddConserves(b, o, cap);
    }
  }

  /** An aggressor left with something has taken every order it could trade with. */
  lemma EatTakesAll(s: seq<Order>, a: Order, x: Order)
    requires Sorted(s, a.side.Opp()) && Eat(s, a).left > 0 && x in s
    ensures x in Eat(s, a).gone <==> Tradeable(a, x.price)
  {
    EatShape(s, a);
    EatExhausts(s, a);
    assert s == Eat(s, a).gone + Eat(s, a).rest;
    if x in Eat(s, a).gone {
      EatenAreTradeable(s, a, x);
    }
  }

  /** The id of `o` already rests, and not in an order that `o` will consume on its way. */
  ghost predicate IdStays(b: Book, o: Order)
    requires Linked(b)
  {
    o.id in b.index && (b.index[o.id] == o.side || !Tradeable(o, At(b.Of(o.side.Opp()), o.id).price))
  }

  /** The id of a resting order is among those consumed exactly when its price is tradeable. */
  lemma ConsumedIff(s: seq<Order>, a: Order, id: u32)
    requires DistinctIds(s) && Sorted(s, a.side.Opp()) && Eat(s, a).left > 0 && Has(s, id)
    ensures id in IdSet(Eat(s, a).gone) <==> Tradeable(a, At(s, id).price)
  {
    var p := At(s, id);
    EatShape(s, a);
    EatTakesAll(s, a, p);
    if g :| g in Eat(s, a).gone && g.id == id {
      AtMember(s, g);
    }
  }

  /** A match consumes no id of the aggressor's own side. */
  lemma OwnSideSpared(b: Book, a: Order, id: u32)
    requires Linked(b) && id in b.index && b.index[id] == a.side
    ensures id !in IdSet(Eat(b.Of(a.side.Opp()), a).gone)
  {
    EatShape(b.Of(a.side.Opp()), a);
  }

  lemma LinkedSide(b: Book, side: Side)
    requires Linked(b)
    ensures SideLinked(b.Of(side), side, b.index)
  {
  }

  lemma IdStaysIff(b: Book, o: Order)
    requires Linked(b) && Sorted(b.Of(o.side.Opp()), o.side.Opp()) && Eat(b.Of(o.side.Opp()), o).left > 0
    ensures o.id in Match(b, o).index <==> IdStays(b, o)
  {
    var s := b.Of(o.side.Opp());
    if o.id in b.index {
      if b.index[o.id] == o.side {
        OwnSideSpared(b, o, o.id);
      } else {
        LinkedSide(b, o.side.Opp());
        ConsumedIff(s, o, o.id);
      }
    }
  }

  /** What `add` discards is what is left of an order it can neither rest nor fill. */
  lemma DiscardedIff(b: Book, o: Order, cap: nat)
    requires o.Valid()
    ensures var left := Eat(b.Of(o.side.Opp()), o).left; var r := Add(b, o, cap);
            && r.consumed == o.qty - left
            && (Discarded(o, r) > 0 <==> left > 0 && (o.id in Match(b, o).index || |b.Of(o.side)| == cap))
  {
    OppositeSide(b, o);
  }

  /** A remainder is discarded after trading exactly when the order is larger than the depth it
      can trade with, that depth is not nothing, and its id stays in the book or its own side is
      full. */
  lemma DiscardsAfterTradingIff(b: Book, o: Order, cap: nat)
    requires Inv(b, cap) && o.Valid()
    ensures var r := Add(b, o, cap); var depth := Depth(b.Of(o.side.Opp()), o);
            r.consumed > 0 && Discarded(o, r) > 0
            <==> 0 < depth < o.qty && (IdStays(b, o) || |b.Of(o.side)| == cap)
  {
    InvSide(b, cap, o.side.Opp());
    EatExhausts(b.Of(o.side.Opp()), o);
    DiscardedIff(b, o, cap);
    if Eat(b.Of(o.side.Opp()), o).left > 0 {
      IdStaysIff(b, o);
    }
  }

  function Withdrawn(b: Book, id: u32): nat {
    if id in b.index && Has(b.Of(b.index[id]), id) then At(b.Of(b.index[id]), id).qty else 0
  }

  lemma RemoveConserves(b: Book, id: u32)
    requires Linked(b)
    ensures Resting(b) == Resting(Remove(b, id)) + Withdrawn(b, id)
  {
    if id in b.index {
      EraseTotal(b.Of(b.index[id]), id);
    }
  }

  /** What a bare match takes from the book; the rest of its order is the caller's again. */
  function Taken(b: Book, o: Order): nat {
    EatConserves(b.Of(o.side.Opp()), o);
    o.qty - Eat(b.Of(o.side.Opp()), o).left
  }

  datatype Ledger = Ledger(submitted: nat, traded: nat, cancelled: nat, discarded: nat)

  /** Totals over a run, each kept by looking at one call at a time. */
  function Tally(evs: seq<Event>, cap: nat): Ledger {
    if evs == [] then Ledger(0, 0, 0, 0)
    else
      var b := Run(evs[..|evs| - 1], cap);
      var l := Tally(evs[..|evs| - 1], cap);
      match evs[|evs| - 1]
      case Cancel(id) => l.(cancelled := l.cancelled + Withdrawn(b, id))
      case Trade(o) => var n := Taken(b, o); l.(submitted := l.submitted + n, traded := l.traded + n)
      case Submit(o) =>
        var r := Add(b, o, cap);
        AddConserves(b, o, cap);
        Ledger(l.submitted + o.qty, l.traded + r.consumed, l.cancelled, l.discarded + Discarded(o, r))
  }

  /** Over every run: submitted = resting + cancelled + discarded + twice the traded quantity. */
  lemma {:induction false} LedgerBalances(evs: seq<Event>, cap: nat)
    ensures var l := Tally(evs, cap);
            l.submitted == Resting(Run(evs, cap)) + l.cancelled + l.discarded + 2 * l.traded
  {
    if evs != [] {
      var before := evs[..|evs| - 1];
      LedgerBalances(before, cap);
      ReachableInv(before, cap);
      match evs[|evs| - 1]
      case Submit(o) =>
        AddConserves(Run(before, cap), o, cap);
      case Cancel(id) => RemoveConserves(Run(before, cap), id);
      case Trade(o) =>
        TradeCuts(Run(before, cap), o, cap);
        MatchConserves(Run(before, cap), o);
    }
  }

  // ---- single calls ----

  /** A call after a run. */
  lemma RunNext(evs: seq<Event>, e: Event, cap: nat)
    ensures Run(evs + [e], cap) == Step(Run(evs, cap), e, cap)
  {
    assert (evs + [e])[..|evs|] == evs;
  }

  lemma NotResting(b: Book, id: u32, side: Side)
    requires Linked(b) && id !in b.index
    ensures forall i :: 0 <= i < |b.Of(side)| ==> b.Of(side)[i].id != id
  {
  }

  /** With nobody to trade with at the front, a new order simply rests. */
  lemma AddAlone(b: Book, o: Order, cap: nat)
    requires o.Valid() && o.id !in b.index && |b.Of(o.side)| < cap
    requires b.Of(o.side.Opp()) != [] ==> !Tradeable(o, b.Of(o.side.Opp())[0].price)
    ensures Add(b, o, cap) == Added(Rest(b, o), Rested, 0, [])
  {
  }

  // ---- a remainder discarded after trading ----

  const RESTING_BID: Order := Order(Bid, 1999, 1, 1)
  const RESTING_ASK: Order := Order(Ask, 2001, 1, 2)
  const TWO_SIDED: Book := Book([RESTING_BID], [RESTING_ASK], map[1 := Bid, 2 := Ask])

  lemma OneEachSide() returns (evs: seq<Event>)
    ensures Run(evs, 1) == TWO_SIDED
  {
    evs := [] + [Submit(RESTING_BID)] + [Submit(RESTING_ASK)];
    RunNext([], Submit(RESTING_BID), 1);
    AddAlone(EMPTY, RESTING_BID, 1);
    RunNext([Submit(RESTING_BID)], Submit(RESTING_ASK), 1);
    AddAlone(Book([RESTING_BID], [], map[1 := Bid]), RESTING_ASK, 1);
    assert evs == [Submit(RESTING_BID)] + [Submit(RESTING_ASK)];
  }

  lemma TwoUnitsForOne(o: Order)
    requires o == Order(Bid, 2401, 2, 1)
    ensures Add(TWO_SIDED, o, 1).outcome.Duplicate? && Add(TWO_SIDED, o, 1).consumed == 1
  {
    assert Eat([RESTING_ASK], o) == Eaten([RESTING_ASK], [], 1);
    assert Match(TWO_SIDED, o).index == map[1 := Bid];
  }

  /** It happens in a reachable book: a bid of two units trades one, meets its own id and loses
      the other. */
  lemma DiscardsAfterTrading() returns (evs: seq<Event>, o: Order)
    ensures o.Valid()
    ensures var r := Add(Run(evs, 1), o, 1); r.outcome.Duplicate? && r.consumed == 1 && Discarded(o, r) == 1
  {
    evs := OneEachSide();
    o := Order(Bid, 2401, 2, 1);
    TwoUnitsForOne(o);
  }

  // ---- undoing and reordering ----

  /** An accepted order that traded nothing can be taken back: `remove` restores both vectors
      and the index exactly. */
  lemma AddThenRemove(b: Book, o: Order, cap: nat)
    requires Inv(b, cap)
    requires Add(b, o, cap).outcome.Rested? && Add(b, o, cap).consumed == 0
    ensures Remove(Add(b, o, cap).book, o.id) == b
  {
    InvSide(b, cap, o.side.Opp());
    AddRests(b, o, cap);
    NothingMatched(b, o);
    assert o.(qty := o.qty) == o;
    RestThenRemove(b, o);
  }

  lemma RestThenRemove(b: Book, o: Order)
    requires Linked(b) && o.id !in b.index
    ensures Remove(Rest(b, o), o.id) == b
  {
    NotResting(b, o.id, o.side);
    EraseInserted(b.Of(o.side), o);
    assert b.index[o.id := o.side] - {o.id} == b.index;
  }

  lemma NothingMatched(b: Book, o: Order)
    requires o.qty > 0 && AllPositive(b.Of(o.side.Opp()))
    requires Eat(b.Of(o.side.Opp()), o).left == o.qty
    ensures Match(b, o) == b
  {
  }

  lemma FindBehind(front: seq<Order>, o: Order, back: seq<Order>)
    requires forall i :: 0 <= i < |front| ==> front[i].id != o.id
    ensures FindId(front + [o] + back, o.id) == |front|
  {
    assert (front + [o] + back)[|front|] == o;
  }

  lemma EraseBehind(front: seq<Order>, o: Order, back: seq<Order>)
    requires forall i :: 0 <= i < |front| ==> front[i].id != o.id
    ensures EraseId(front + [o] + back, o.id) == front + back
  {
    FindBehind(front, o, back);
  }

  lemma EraseInserted(s: seq<Order>, o: Order)
    requires forall i :: 0 <= i < |s| ==> s[i].id != o.id
    ensures EraseId(Insert(s, o), o.id) == s
  {
    var k := FindSlot(s, o);
    EraseBehind(s[..k], o, s[k..]);
    assert s == s[..k] + s[k..];
  }

  function Cut(s: seq<Order>, k: nat): (r: seq<Order>)
    requires k < |s|
  {
    s[..k] + s[k + 1..]
  }

  lemma CutsCommute(s: seq<Order>, i: nat, j: nat)
    requires i < j < |s|
    ensures Cut(Cut(s, j), i) == Cut(Cut(s, i), j - 1)
  {
  }

  /** Where `jd` stands once position `i` has been cut out. */
  lemma FindAfterCut(s: seq<Order>, i: nat, jd: u32)
    requires i < |s| && s[i].id != jd
    ensures FindId(Cut(s, i), jd) == if i < FindId(s, jd) then FindId(s, jd) - 1 else FindId(s, jd)
  {
    var j := FindId(s, jd);
    var r := Cut(s, i);
    assert forall m :: 0 <= m < |r| ==> r[m] == if m < i then s[m] else s[m + 1];
    if j < |s| {
      assert r[if i < j then j - 1 else j] == s[j];
    }
  }

  lemma EraseIsCut(s: seq<Order>, id: u32)
    ensures EraseId(s, id) == if Has(s, id) then Cut(s, FindId(s, id)) else s
  {
  }

  lemma EraseFrontFirst(s: seq<Order>, id: u32, jd: u32)
    requires id != jd && FindId(s, id) < FindId(s, jd) < |s|
    ensures EraseId(EraseId(s, id), jd) == Cut(Cut(s, FindId(s, id)), FindId(s, jd) - 1)
  {
    FindAfterCut(s, FindId(s, id), jd);
    EraseIsCut(s, id);
    EraseIsCut(Cut(s, FindId(s, id)), jd);
  }

  lemma EraseBackFirst(s: seq<Order>, id: u32, jd: u32)
    requires id != jd && FindId(s, id) < FindId(s, jd) < |s|
    ensures EraseId(EraseId(s, jd), id) == Cut(Cut(s, FindId(s, id)), FindId(s, jd) - 1)
  {
    FindAfterCut(s, FindId(s, jd), id);
    EraseIsCut(s, jd);
    EraseIsCut(Cut(s, FindId(s, jd)), id);
    CutsCommute(s, FindId(s, id), FindId(s, jd));
  }

  lemma EraseCommutes(s: seq<Order>, id: u32, jd: u32)
    requires id != jd && Has(s, id) && Has(s, jd)
    ensures EraseId(EraseId(s, id), jd) == EraseId(EraseId(s, jd), id)
  {
    if FindId(s, id) < FindId(s, jd) {
      EraseFrontFirst(s, id, jd);
      EraseBackFirst(s, id, jd);
    } else {
      EraseFrontFirst(s, jd, id);
      EraseBackFirst(s, jd, id);
    }
  }

  lemma IndexCommutes(index: map<u32, Side>, id: u32, jd: u32)
    ensures index - {id} - {jd} == index - {jd} - {id}
  {
  }

  lemma CommuteOnOneSide(b: Book, id: u32, jd: u32)
    requires Linked(b) && id in b.index && jd in b.index && id != jd && b.index[id] == b.index[jd]
    ensures Remove(Remove(b, id), jd) == Remove(Remove(b, jd), id)
  {
    EraseCommutes(b.Of(b.index[id]), id, jd);
    IndexCommutes(b.index, id, jd);
  }

  lemma CommuteAcrossSides(b: Book, id: u32, jd: u32)
    requires id in b.index && jd in b.index && b.index[id] != b.index[jd]
    ensures Remove(Remove(b, id), jd) == Remove(Remove(b, jd), id)
  {
    IndexCommutes(b.index, id, jd);
  }

  /** Removals of two different ids commute. */
  lemma RemovalsCommute(b: Book, id: u32, jd: u32)
    requires Linked(b) && id != jd
    ensures Remove(Remove(b, id), jd) == Remove(Remove(b, jd), id)
  {
    if id in b.index && jd in b.index {
      if b.index[id] == b.index[jd] {
        CommuteOnOneSide(b, id, jd);
      } else {
        CommuteAcrossSides(b, id, jd);
      }
    }
  }
}
