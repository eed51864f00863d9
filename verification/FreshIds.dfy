/** Ids are reused only when the 32-bit counter has gone all the way round: the duplicate-id
    branch of `add` stays untaken for exactly 2^32 orders. */
module FreshIds {
  import opened Words
  import opened Orders
  import opened Matching
  import opened Books
  import opened Quoting
  import opened Shadow
  import BookInvariant
  import BookRuns

  function MadeBy(d: Draw): nat {
    match d
    case Cancel(_) => 0
    case Aggress(_, _) => 1
    case Quote(_, _, _, _) => 2
  }

  /** How many orders a run has made. */
  function Made(draws: seq<Draw>): nat {
    if draws == [] then 0 else Made(draws[..|draws| - 1]) + MadeBy(draws[|draws| - 1])
  }

  /** The resting ids are numbers given out, none of them yet for the second time. */
  ghost predicate IdsWithin(b: Book, n: nat) {
    forall id :: id in b.index ==> 1 <= id <= n
  }

  lemma AddIds(b: Book, o: Order, cap: nat, n: nat)
    requires IdsWithin(b, n) && o.id > n
    ensures IdsWithin(Add(b, o, cap).book, o.id)
  {
  }

  /** A number not given out yet, or the zero that follows the last one, is fresh. */
  lemma AddFresh(b: Book, o: Order, cap: nat, n: nat)
    requires IdsWithin(b, n) && (o.id > n || o.id == 0)
    ensures !Add(b, o, cap).outcome.Duplicate?
  {
  }

  lemma RemoveIds(b: Book, id: u32, n: nat)
    requires IdsWithin(b, n)
    ensures IdsWithin(Remove(b, id), n)
  {
  }

  lemma SendIds(s: System, o: Order, cap: nat, n: nat)
    requires IdsWithin(s.book, n) && o.id > n
    ensures IdsWithin(Send(s, o, cap).book, o.id) && Send(s, o, cap).gen.nextId == s.gen.nextId
  {
    AddIds(s.book, o, cap, n);
  }

  /** One action whose ids do not wrap: the counter advances by the orders made. */
  lemma StepIds(cfg: Config, s: System, d: Draw, cap: nat)
    requires IdsWithin(s.book, s.gen.nextId) && s.gen.nextId + MadeBy(d) < U32_MODULUS
    ensures var s' := Step(cfg, s, d, cap);
            IdsWithin(s'.book, s'.gen.nextId) && s'.gen.nextId == s.gen.nextId + MadeBy(d)
  {
    var n := s.gen.nextId;
    match d
    case Cancel(pick) =>
      if s.gen.live != [] {
        RemoveIds(s.book, PickId(s.gen.live, pick), n);
      }
    case Aggress(side, qty) =>
      var o := AggressorOrder(cfg, s.gen.live, side, qty, NextId(n));
      SendIds(s.(gen := s.gen.(nextId := o.id)), o, cap, n);
    case Quote(bj, bq, aj, aq) =>
      var bid := MmOrder(cfg, Bid, bj, bq, NextId(n));
      var ask := MmOrder(cfg, Ask, aj, aq, NextId(bid.id));
      var s1 := s.(gen := s.gen.(nextId := ask.id));
      SendIds(s1, bid, cap, n);
      SendIds(Send(s1, bid, cap), ask, cap, bid.id);
  }

  /** An action that makes at most the 2^32nd order - whose id is zero - meets no id of its own
      in the book. */
  lemma StepFresh(cfg: Config, s: System, d: Draw, cap: nat)
    requires IdsWithin(s.book, s.gen.nextId) && s.gen.nextId + MadeBy(d) <= U32_MODULUS
    ensures forall r :: r in Adds(cfg, s, d, cap) ==> !r.outcome.Duplicate?
  {
    var n := s.gen.nextId;
    match d
    case Cancel(pick) =>
    case Aggress(side, qty) =>
      AddFresh(s.book, AggressorOrder(cfg, s.gen.live, side, qty, NextId(n)), cap, n);
    case Quote(bj, bq, aj, aq) =>
      var bid := MmOrder(cfg, Bid, bj, bq, NextId(n));
      AddFresh(s.book, bid, cap, n);
      AddIds(s.book, bid, cap, n);
      AddFresh(Add(s.book, bid, cap).book, MmOrder(cfg, Ask, aj, aq, NextId(bid.id)), cap, bid.id);
  }

  /** While fewer than 2^32 orders have been made, the counter equals the number made and every
      resting id lies between one and that. */
  lemma {:induction false} CounterIsCount(cfg: Config, draws: seq<Draw>, cap: nat)
    requires Made(draws) < U32_MODULUS
    ensures var s := Run(cfg, draws, cap); s.gen.nextId == Made(draws) && IdsWithin(s.book, s.gen.nextId)
  {
    if draws != [] {
      var before := draws[..|draws| - 1];
      CounterIsCount(cfg, before, cap);
      StepIds(cfg, Run(cfg, before, cap), draws[|draws| - 1], cap);
    }
  }

  /** No order up to the 2^32nd takes the duplicate-id branch of `add`. */
  lemma NeverDuplicate(cfg: Config, draws: seq<Draw>, d: Draw, cap: nat)
    requires Made(draws + [d]) <= U32_MODULUS
    ensures forall r :: r in Adds(cfg, Run(cfg, draws, cap), d, cap) ==> !r.outcome.Duplicate?
  {
    assert (draws + [d])[..|draws|] == draws;
    if MadeBy(d) > 0 {
      CounterIsCount(cfg, draws, cap);
      StepFresh(cfg, Run(cfg, draws, cap), d, cap);
    }
  }

  // ---- a run in which an id comes round again ----

  const WIRED: Config := Config(2000, 600, 400, 10, 20)
  const TIGHT: Draw := Quote(1, 1, 1, 1)
  const BID: Order := Order(Bid, 1999, 1, 1)
  const ASK: Order := Order(Ask, 2001, 1, 2)

  /** The state once the first of these quotes has come to rest. */
  function Quoted(nextId: u32): System {
    System(Book([BID], [ASK], map[1 := Bid, 2 := Ask]), Gen([BID, ASK], nextId))
  }

  lemma FirstBid(cap: nat)
    requires cap >= 1
    ensures Send(INITIAL.(gen := Gen([], 2)), BID, cap) == System(Book([BID], [], map[1 := Bid]), Gen([BID], 2))
  {
    BookRuns.AddAlone(EMPTY, BID, cap);
  }

  lemma FirstAsk(cap: nat)
    requires cap >= 1
    ensures Send(System(Book([BID], [], map[1 := Bid]), Gen([BID], 2)), ASK, cap) == Quoted(2)
  {
    BookRuns.AddAlone(Book([BID], [], map[1 := Bid]), ASK, cap);
  }

  lemma FirstQuote(cap: nat)
    requires cap >= 1
    ensures Step(WIRED, INITIAL, TIGHT, cap) == Quoted(2)
  {
    assert MmOrder(WIRED, Bid, 1, 1, 1) == BID && MmOrder(WIRED, Ask, 1, 1, 2) == ASK;
    FirstBid(cap);
    FirstAsk(cap);
  }

  /** With capacity one there is no room for a second quote. */
  lemma NoRoom(n: u32, o: Order)
    requires o.qty == 1 && o.price == if o.side.Bid? then 1999 else 2001
    ensures Send(Quoted(n), o, 1) == Quoted(n)
  {
  }

  lemma QuoteAgain(n: u32)
    ensures Step(WIRED, Quoted(n), TIGHT, 1) == Quoted(NextId(NextId(n)))
  {
    var bid := MmOrder(WIRED, Bid, 1, 1, NextId(n));
    var ask := MmOrder(WIRED, Ask, 1, 1, NextId(bid.id));
    NoRoom(ask.id, bid);
    NoRoom(ask.id, ask);
  }

  // With a larger capacity a second quote rests too, and is cancelled again.

  function WithBid(bid: Order, nextId: u32): System {
    System(Book([bid, BID], [ASK], map[1 := Bid, 2 := Ask, bid.id := Bid]), Gen([BID, ASK, bid], nextId))
  }

  function WithAsk(ask: Order, nextId: u32): System {
    System(Book([BID], [ask, ASK], map[1 := Bid, 2 := Ask, ask.id := Ask]), Gen([BID, ASK, ask], nextId))
  }

  function WithBoth(bid: Order, ask: Order, nextId: u32): System {
    System(Book([bid, BID], [ask, ASK], map[1 := Bid, 2 := Ask, bid.id := Bid, ask.id := Ask]),
           Gen([BID, ASK, bid, ask], nextId))
  }

  lemma BidRests(bid: Order, nextId: u32, cap: nat)
    requires cap >= 2 && bid == Order(Bid, 1999, 1, bid.id) && bid.id != 1 && bid.id != 2
    ensures Send(Quoted(nextId), bid, cap) == WithBid(bid, nextId)
  {
    BookRuns.AddAlone(Quoted(nextId).book, bid, cap);
  }

  lemma AskRests(bid: Order, ask: Order, nextId: u32, cap: nat)
    requires cap >= 2 && bid == Order(Bid, 1999, 1, bid.id) && ask == Order(Ask, 2001, 1, ask.id)
    requires ask.id != 1 && ask.id != 2 && ask.id != bid.id
    ensures Send(WithBid(bid, nextId), ask, cap) == WithBoth(bid, ask, nextId)
  {
    BookRuns.AddAlone(WithBid(bid, nextId).book, ask, cap);
  }

  lemma CancelBid(bid: Order, ask: Order, nextId: u32, cap: nat)
    requires bid.side.Bid? && bid.id != 1 && bid.id != 2 && bid.id != ask.id
    ensures Step(WIRED, WithBoth(bid, ask, nextId), Cancel(2), cap) == WithAsk(ask, nextId)
  {
    var s := WithBoth(bid, ask, nextId);
    assert PickId(s.gen.live, 2) == bid.id;
    assert EraseId([bid, BID], bid.id) == [BID];
    assert FindId(s.gen.live, bid.id) == 2;
    assert EraseId(s.gen.live, bid.id) == [BID, ASK, ask];
    assert s.book.index - {bid.id} == map[1 := Bid, 2 := Ask, ask.id := Ask];
  }

  lemma CancelAsk(ask: Order, nextId: u32, cap: nat)
    requires ask.side.Ask? && ask.id != 1 && ask.id != 2
    ensures Step(WIRED, WithAsk(ask, nextId), Cancel(2), cap) == Quoted(nextId)
  {
    var s := WithAsk(ask, nextId);
    assert PickId(s.gen.live, 2) == ask.id;
    assert EraseId([ask, ASK], ask.id) == [ASK];
    assert FindId(s.gen.live, ask.id) == 2;
    assert EraseId(s.gen.live, ask.id) == [BID, ASK];
    assert s.book.index - {ask.id} == map[1 := Bid, 2 := Ask];
  }

  lemma RunNext(draws: seq<Draw>, d: Draw, cap: nat, s: System, next: System)
    requires Run(WIRED, draws, cap) == s && Step(WIRED, s, d, cap) == next
    ensures Run(WIRED, draws + [d], cap) == next
  {
    assert (draws + [d])[..|draws|] == draws;
  }

  lemma MadeNext(draws: seq<Draw>, d: Draw)
    ensures Made(draws + [d]) == Made(draws) + MadeBy(d)
  {
    assert (draws + [d])[..|draws|] == draws;
  }

  lemma NextInRange(draws: seq<Draw>, d: Draw)
    requires DrawsInRange(WIRED, draws) && d.InRange(WIRED)
    ensures DrawsInRange(WIRED, draws + [d])
  {
  }

  lemma QuoteRests(n: u32, cap: nat, bid: Order, ask: Order)
    requires cap >= 2 && NextId(n) > 2
    requires bid == Order(Bid, 1999, 1, NextId(n)) && ask == Order(Ask, 2001, 1, NextId(bid.id))
    ensures Step(WIRED, Quoted(n), TIGHT, cap) == WithBoth(bid, ask, ask.id)
  {
    assert MmOrder(WIRED, Bid, 1, 1, NextId(n)) == bid && MmOrder(WIRED, Ask, 1, 1, NextId(bid.id)) == ask;
    BidRests(bid, ask.id, cap);
    AskRests(bid, ask, ask.id, cap);
  }

  lemma QuoteAndCancel(draws: seq<Draw>, n: u32, cap: nat)
    requires cap >= 2 && Run(WIRED, draws, cap) == Quoted(n) && NextId(n) > 2
    ensures Run(WIRED, draws + [TIGHT] + [Cancel(2)] + [Cancel(2)], cap) == Quoted(NextId(NextId(n)))
  {
    var bid := Order(Bid, 1999, 1, NextId(n));
    var ask := Order(Ask, 2001, 1, NextId(bid.id));
    QuoteRests(n, cap, bid, ask);
    RunNext(draws, TIGHT, cap, Quoted(n), WithBoth(bid, ask, ask.id));
    CancelBid(bid, ask, ask.id, cap);
    RunNext(draws + [TIGHT], Cancel(2), cap, WithBoth(bid, ask, ask.id), WithAsk(ask, ask.id));
    CancelAsk(ask, ask.id, cap);
    RunNext(draws + [TIGHT] + [Cancel(2)], Cancel(2), cap, WithAsk(ask, ask.id), Quoted(ask.id));
  }

  lemma QuoteAndCancelMakeTwo(draws: seq<Draw>)
    requires DrawsInRange(WIRED, draws)
    ensures var after := draws + [TIGHT] + [Cancel(2)] + [Cancel(2)];
            DrawsInRange(WIRED, after) && Made(after) == Made(draws) + 2
  {
    NextInRange(draws, TIGHT);
    NextInRange(draws + [TIGHT], Cancel(2));
    NextInRange(draws + [TIGHT] + [Cancel(2)], Cancel(2));
    MadeNext(draws, TIGHT);
    MadeNext(draws + [TIGHT], Cancel(2));
    MadeNext(draws + [TIGHT] + [Cancel(2)], Cancel(2));
  }

  /** Two more orders, and the same book. */
  lemma OneRound(draws: seq<Draw>, n: u32, cap: nat) returns (after: seq<Draw>)
    requires cap >= 1 && DrawsInRange(WIRED, draws) && Run(WIRED, draws, cap) == Quoted(n) && NextId(n) > 2
    ensures DrawsInRange(WIRED, after) && Made(after) == Made(draws) + 2
    ensures Run(WIRED, after, cap) == Quoted(NextId(NextId(n)))
  {
    if cap == 1 {
      after := draws + [TIGHT];
      QuoteAgain(n);
      RunNext(draws, TIGHT, cap, Quoted(n), Quoted(NextId(NextId(n))));
      NextInRange(draws, TIGHT);
      MadeNext(draws, TIGHT);
    } else {
      after := draws + [TIGHT] + [Cancel(2)] + [Cancel(2)];
      QuoteAndCancel(draws, n, cap);
      QuoteAndCancelMakeTwo(draws);
    }
  }

  lemma TwoMore(n: nat)
    requires 2 <= n <= 0x8000_0000
    ensures NextId((2 * (n - 1)) % U32_MODULUS) > 2
    ensures NextId(NextId((2 * (n - 1)) % U32_MODULUS)) == (2 * n) % U32_MODULUS
  {
  }

  lemma {:induction false} Rounds(cap: nat, n: nat) returns (draws: seq<Draw>)
    requires cap >= 1 && 1 <= n <= 0x8000_0000
    ensures DrawsInRange(WIRED, draws) && Made(draws) == 2 * n
    ensures Run(WIRED, draws, cap) == Quoted((2 * n) % U32_MODULUS)
  {
    if n == 1 {
      draws := [] + [TIGHT];
      FirstQuote(cap);
      RunNext([], TIGHT, cap, INITIAL, Quoted(2));
      MadeNext([], TIGHT);
    } else {
      draws := Rounds(cap, n - 1);
      TwoMore(n);
      draws := OneRound(draws, (2 * (n - 1)) % U32_MODULUS, cap);
    }
  }

  /** The 2^32 + 1st order: an aggressor that eats the ask and then meets the bid that was given
      the same number. */
  lemma OneTooMany(cap: nat)
    ensures var o := AggressorOrder(WIRED, Quoted(0).gen.live, Bid, 2, NextId(0));
            Adds(WIRED, Quoted(0), Aggress(Bid, 2), cap) == [Add(Quoted(0).book, o, cap)]
            && Add(Quoted(0).book, o, cap).outcome.Duplicate?
  {
    assert OnSide([ASK], Ask) == [ASK];
    assert OnSide([BID, ASK], Ask) == [ASK];
    var o := AggressorOrder(WIRED, [BID, ASK], Bid, 2, 1);
    assert o == Order(Bid, 2401, 2, 1);
    assert Eat([ASK], o) == Eaten([ASK], [], 1);
    assert Match(Quoted(0).book, o).index == map[1 := Bid];
  }

  /** No result of an action is a duplicate. */
  ghost predicate AllFresh(cfg: Config, draws: seq<Draw>, d: Draw, cap: nat) {
    forall r :: r in Adds(cfg, Run(cfg, draws, cap), d, cap) ==> !r.outcome.Duplicate?
  }

  ghost predicate InRunRange(cfg: Config, draws: seq<Draw>, d: Draw) {
    DrawsInRange(cfg, draws) && d.InRange(cfg)
  }

  /** In every run of at most `n` orders on a book of this capacity every id is fresh. */
  ghost predicate FreshFor(n: nat, cap: nat) {
    forall cfg: Config, draws: seq<Draw>, d: Draw ::
      InRunRange(cfg, draws, d) && Made(draws + [d]) <= n ==> AllFresh(cfg, draws, d, cap)
  }

  lemma MeetsItself(draws: seq<Draw>, cap: nat)
    requires Run(WIRED, draws, cap) == Quoted(0)
    ensures !AllFresh(WIRED, draws, Aggress(Bid, 2), cap)
  {
    OneTooMany(cap);
    var calls := Adds(WIRED, Quoted(0), Aggress(Bid, 2), cap);
    assert calls[0] in calls;
  }

  /** Whatever the capacity, as long as it is not zero. */
  lemma FreshnessEnds(cap: nat) returns (draws: seq<Draw>, d: Draw)
    requires cap >= 1
    ensures InRunRange(WIRED, draws, d) && Made(draws + [d]) == U32_MODULUS + 1
    ensures !AllFresh(WIRED, draws, d, cap)
  {
    draws := Rounds(cap, 0x8000_0000);
    d := Aggress(Bid, 2);
    MeetsItself(draws, cap);
    MadeNext(draws, d);
  }

  lemma NothingRests(b: Book)
    requires Inv(b, 0)
    ensures b.index == map[]
  {
  }

  /** A book without room never holds an id. */
  lemma NoRoomFresh(cfg: Config, draws: seq<Draw>, d: Draw)
    ensures AllFresh(cfg, draws, d, 0)
  {
    var s := Run(cfg, draws, 0);
    ShadowAgrees(cfg, draws, 0);
    NothingRests(s.book);
    match d
    case Cancel(pick) =>
    case Aggress(side, qty) =>
      AddFresh(s.book, AggressorOrder(cfg, s.gen.live, side, qty, NextId(s.gen.nextId)), 0, 0);
    case Quote(bj, bq, aj, aq) =>
      var bid := MmOrder(cfg, Bid, bj, bq, NextId(s.gen.nextId));
      AddFresh(s.book, bid, 0, 0);
      BookInvariant.AddKeepsInv(s.book, bid, 0);
      NothingRests(Add(s.book, bid, 0).book);
      AddFresh(Add(s.book, bid, 0).book, MmOrder(cfg, Ask, aj, aq, NextId(bid.id)), 0, 0);
  }

  /** At any capacity, ids are fresh in every run of up to `n` orders exactly when `n` is at
      most 2^32 or nothing can rest at all. */
  lemma FreshExactly(n: nat, cap: nat)
    ensures FreshFor(n, cap) <==> n <= U32_MODULUS || cap == 0
  {
    if n > U32_MODULUS && cap > 0 {
      var draws, d := FreshnessEnds(cap);
    } else {
      forall cfg: Config, draws: seq<Draw>, d: Draw | InRunRange(cfg, draws, d) && Made(draws + [d]) <= n
        ensures AllFresh(cfg, draws, d, cap)
      {
        if cap == 0 {
          NoRoomFresh(cfg, draws, d);
        } else {
          NeverDuplicate(cfg, draws, d, cap);
        }
      }
    }
  }
}
