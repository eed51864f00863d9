/** What the generator sends: turn by turn, the orders as drawn, priced from the book itself; and
    over a run, where everything drawn has gone. */
module Traffic {
  import opened Words
  import opened Orders
  import opened Books
  import opened Quoting
  import opened Shadow
  import BookRuns

  // ---- turn by turn ----

  lemma TwoNumbers(n: u32)
    ensures NextId(n) == (n + 1) % 0x1_0000_0000 && NextId(NextId(n)) == (n + 2) % 0x1_0000_0000
  {
  }

  lemma OrdersQuoted(cfg: Config, n: u32, bidJitter: i32, bidQty: u32, askJitter: i32, askQty: u32)
    ensures var first, second := (n + 1) % 0x1_0000_0000, (n + 2) % 0x1_0000_0000;
            && MmOrder(cfg, Bid, bidJitter, bidQty, NextId(n))
               == Order(Bid, ToI32(cfg.mid - bidJitter), bidQty, first)
            && MmOrder(cfg, Ask, askJitter, askQty, NextId(first))
               == Order(Ask, ToI32(cfg.mid + askJitter), askQty, second)
  {
    TwoNumbers(n);
  }

  lemma SendsBoth(cfg: Config, s: System, bidJitter: i32, bidQty: u32, askJitter: i32, askQty: u32, cap: nat,
                  bid: Order, ask: Order)
    requires bid == MmOrder(cfg, Bid, bidJitter, bidQty, NextId(s.gen.nextId))
    requires ask == MmOrder(cfg, Ask, askJitter, askQty, NextId(bid.id))
    ensures Step(cfg, s, Quote(bidJitter, bidQty, askJitter, askQty), cap)
         == Send(Send(System(s.book, Gen(s.gen.live, ask.id)), bid, cap), ask, cap)
  {
    assert s.(gen := s.gen.(nextId := ask.id)) == System(s.book, Gen(s.gen.live, ask.id));
  }

  /** A turn of quoting sends a bid and then an ask of the drawn quantities, the drawn jitters
      below and above the middle, under the next two numbers. */
  lemma QuoteTurn(cfg: Config, s: System, bidJitter: i32, bidQty: u32, askJitter: i32, askQty: u32, cap: nat,
                  bid: Order, ask: Order)
    requires bid == Order(Bid, ToI32(cfg.mid - bidJitter), bidQty, (s.gen.nextId + 1) % 0x1_0000_0000)
    requires ask == Order(Ask, ToI32(cfg.mid + askJitter), askQty, (s.gen.nextId + 2) % 0x1_0000_0000)
    ensures Step(cfg, s, Quote(bidJitter, bidQty, askJitter, askQty), cap)
         == Send(Send(System(s.book, Gen(s.gen.live, ask.id)), bid, cap), ask, cap)
  {
    OrdersQuoted(cfg, s.gen.nextId, bidJitter, bidQty, askJitter, askQty);
    SendsBoth(cfg, s, bidJitter, bidQty, askJitter, askQty, cap, bid, ask);
  }

  /** The price an aggressor of this side starts from: the front of the other side of the book,
      or the edge of the spread when that side is empty. */
  function Base(cfg: Config, b: Book, side: Side): int {
    match side
    case Bid => if b.asks != [] then b.asks[0].price else cfg.mid + cfg.half
    case Ask => if b.bids != [] then b.bids[0].price else cfg.mid - cfg.half
  }

  lemma NothingTracked(s: System, side: Side, cap: nat)
    requires Good(s, cap) && s.book.Of(side) == []
    ensures OnSide(s.gen.live, side) == []
  {
    if OnSide(s.gen.live, side) != [] {
      NoBetterThanFront(s, side, OnSide(s.gen.live, side)[0], cap);
    }
  }

  lemma BaseIsBest(cfg: Config, s: System, side: Side, cap: nat)
    requires Good(s, cap)
    ensures (if side.Bid? then BestAsk(cfg, s.gen.live) else BestBid(cfg, s.gen.live)) == ToI32(Base(cfg, s.book, side))
  {
    if s.book.Of(side.Opp()) == [] {
      NothingTracked(s, side.Opp(), cap);
    } else {
      BestOpposite(cfg, s, side, cap);
    }
  }

  lemma OrderAggressing(cfg: Config, s: System, cap: nat, side: Side, qty: u32)
    requires Good(s, cap)
    ensures var base := ToI32(Base(cfg, s.book, side));
            AggressorOrder(cfg, s.gen.live, side, qty, NextId(s.gen.nextId))
            == Order(side, ToI32(if side.Bid? then base + cfg.offset else base - cfg.offset), qty,
                     (s.gen.nextId + 1) % 0x1_0000_0000)
  {
    BaseIsBest(cfg, s, side, cap);
  }

  lemma SendsOne(cfg: Config, s: System, side: Side, qty: u32, cap: nat, o: Order)
    requires o == AggressorOrder(cfg, s.gen.live, side, qty, NextId(s.gen.nextId))
    ensures Step(cfg, s, Aggress(side, qty), cap) == Send(System(s.book, Gen(s.gen.live, o.id)), o, cap)
  {
    assert s.(gen := s.gen.(nextId := o.id)) == System(s.book, Gen(s.gen.live, o.id));
  }

  /** In every reachable state a turn of aggression sends one order of the drawn side and
      quantity under the next number, priced the offset past the front of the book's other
      side. */
  lemma AggressTurn(cfg: Config, draws: seq<Draw>, cap: nat, side: Side, qty: u32, s: System, o: Order)
    requires s == Run(cfg, draws, cap)
    requires o.side == side && o.qty == qty && o.id == (s.gen.nextId + 1) % 0x1_0000_0000
    requires var base := ToI32(Base(cfg, s.book, side));
             o.price == ToI32(if side.Bid? then base + cfg.offset else base - cfg.offset)
    ensures Step(cfg, s, Aggress(side, qty), cap) == Send(System(s.book, Gen(s.gen.live, o.id)), o, cap)
  {
    ShadowAgrees(cfg, draws, cap);
    OrderAggressing(cfg, s, cap, side, qty);
    SendsOne(cfg, s, side, qty, cap, o);
  }

  lemma Picked(live: seq<Order>, i: nat)
    requires i < |live|
    ensures PickId(live, i) == live[i].id
  {
  }

  lemma ErasedAt(live: seq<Order>, i: nat)
    requires DistinctIds(live) && i < |live|
    ensures EraseId(live, live[i].id) == live[..i] + live[i + 1..]
  {
    var k := FindId(live, live[i].id);
    assert k <= i;
  }

  /** In every reachable state each live order can be the one cancelled, and then it alone leaves
      the list, and its id the book. */
  lemma CancelTurn(cfg: Config, draws: seq<Draw>, cap: nat, i: nat, s: System)
    requires s == Run(cfg, draws, cap) && i < |s.gen.live|
    ensures s.gen.live[i].id in s.book.index
    ensures Step(cfg, s, Cancel(i), cap)
         == System(Remove(s.book, s.gen.live[i].id), Gen(s.gen.live[..i] + s.gen.live[i + 1..], s.gen.nextId))
  {
    ShadowAgrees(cfg, draws, cap);
    CancelsSucceed(cfg, draws, cap, i);
    Picked(s.gen.live, i);
    ErasedAt(s.gen.live, i);
  }

  // ---- the ledger of a run ----

  /** The calls to the book that one turn makes. */
  function Calls(cfg: Config, s: System, d: Draw): seq<BookRuns.Event> {
    match d
    case Cancel(pick) => if s.gen.live == [] then [] else [BookRuns.Cancel(PickId(s.gen.live, pick))]
    case Aggress(side, qty) => [BookRuns.Submit(AggressorOrder(cfg, s.gen.live, side, qty, NextId(s.gen.nextId)))]
    case Quote(bj, bq, aj, aq) =>
      var bid := MmOrder(cfg, Bid, bj, bq, NextId(s.gen.nextId));
      [BookRuns.Submit(bid), BookRuns.Submit(MmOrder(cfg, Ask, aj, aq, NextId(bid.id)))]
  }

  function AllCalls(cfg: Config, draws: seq<Draw>, cap: nat): seq<BookRuns.Event> {
    if draws == [] then []
    else
      var before := draws[..|draws| - 1];
      AllCalls(cfg, before, cap) + Calls(cfg, Run(cfg, before, cap), draws[|draws| - 1])
  }

  lemma OneCall(evs: seq<BookRuns.Event>, calls: seq<BookRuns.Event>, cap: nat)
    requires |calls| == 1
    ensures BookRuns.Run(evs + calls, cap) == BookRuns.Step(BookRuns.Run(evs, cap), calls[0], cap)
  {
    BookRuns.RunNext(evs, calls[0], cap);
    assert evs + calls == evs + [calls[0]];
  }

  lemma TwoCalls(evs: seq<BookRuns.Event>, calls: seq<BookRuns.Event>, cap: nat)
    requires |calls| == 2
    ensures BookRuns.Run(evs + calls, cap)
         == BookRuns.Step(BookRuns.Step(BookRuns.Run(evs, cap), calls[0], cap), calls[1], cap)
  {
    OneCall(evs, calls[..1], cap);
    OneCall(evs + calls[..1], calls[1..], cap);
    assert evs + calls == evs + calls[..1] + calls[1..];
  }

  /** The book of the wired system is the book after exactly these calls. */
  lemma {:induction false} RunIsBookRun(cfg: Config, draws: seq<Draw>, cap: nat)
    ensures BookRuns.Run(AllCalls(cfg, draws, cap), cap) == Run(cfg, draws, cap).book
  {
    if draws != [] {
      var before, d := draws[..|draws| - 1], draws[|draws| - 1];
      RunIsBookRun(cfg, before, cap);
      var evs, calls := AllCalls(cfg, before, cap), Calls(cfg, Run(cfg, before, cap), d);
      if calls == [] {
        assert evs + calls == evs;
      } else if |calls| == 1 {
        OneCall(evs, calls, cap);
      } else {
        TwoCalls(evs, calls, cap);
      }
    }
  }

  /** The quantity drawn for the orders of a turn, and of a run. */
  function DrawnIn(d: Draw): nat {
    match d
    case Cancel(_) => 0
    case Aggress(_, qty) => qty
    case Quote(_, bidQty, _, askQty) => bidQty + askQty
  }

  function Drawn(draws: seq<Draw>): nat {
    if draws == [] then 0 else Drawn(draws[..|draws| - 1]) + DrawnIn(draws[|draws| - 1])
  }

  function SubmittedBy(e: BookRuns.Event): nat {
    if e.Submit? then e.order.qty else 0
  }

  lemma TallyNext(evs: seq<BookRuns.Event>, e: BookRuns.Event, cap: nat)
    requires !e.Trade?
    ensures BookRuns.Tally(evs + [e], cap).submitted == BookRuns.Tally(evs, cap).submitted + SubmittedBy(e)
  {
    assert (evs + [e])[..|evs|] == evs;
  }

  lemma CallsTallied(evs: seq<BookRuns.Event>, cfg: Config, s: System, d: Draw, cap: nat)
    ensures BookRuns.Tally(evs + Calls(cfg, s, d), cap).submitted == BookRuns.Tally(evs, cap).submitted + DrawnIn(d)
  {
    var calls := Calls(cfg, s, d);
    if calls == [] {
      assert evs + calls == evs;
    } else if |calls| == 1 {
      assert evs + calls == evs + [calls[0]];
      TallyNext(evs, calls[0], cap);
    } else {
      assert evs + calls == evs + [calls[0]] + [calls[1]];
      TallyNext(evs, calls[0], cap);
      TallyNext(evs + [calls[0]], calls[1], cap);
    }
  }

  lemma {:induction false} DrawnIsSubmitted(cfg: Config, draws: seq<Draw>, cap: nat)
    ensures BookRuns.Tally(AllCalls(cfg, draws, cap), cap).submitted == Drawn(draws)
  {
    if draws != [] {
      var before := draws[..|draws| - 1];
      DrawnIsSubmitted(cfg, before, cap);
      CallsTallied(AllCalls(cfg, before, cap), cfg, Run(cfg, before, cap), draws[|draws| - 1], cap);
    }
  }

  /** Over every run of the wired system: the quantity drawn = resting + cancelled + discarded +
      twice the quantity traded. */
  lemma RunLedger(cfg: Config, draws: seq<Draw>, cap: nat)
    ensures var l := BookRuns.Tally(AllCalls(cfg, draws, cap), cap);
            Drawn(draws) == BookRuns.Resting(Run(cfg, draws, cap).book) + l.cancelled + l.discarded + 2 * l.traded
  {
    DrawnIsSubmitted(cfg, draws, cap);
    RunIsBookRun(cfg, draws, cap);
    BookRuns.LedgerBalances(AllCalls(cfg, draws, cap), cap);
  }
}
