/** The order generator as a value: the orders it makes from its list of live orders, and how
    that list changes.  Random draws are inputs, constrained to the ranges of the source's
    distributions. */
module Quoting {
  import opened Words
  import opened Orders

  datatype Config = Config(mid: i32, half: i32, offset: i32, mmLotMax: u32, aggressorLotMax: u32)

  /** 32-bit two's complement.  Signed overflow is undefined in the source; the band theorem
      below says when it cannot happen. */
  function ToI32(x: int): (r: i32)
    ensures -0x8000_0000 <= x < 0x8000_0000 ==> r == x
    ensures (r - x) % U32_MODULUS == 0
  {
    var m := x % U32_MODULUS;
    if m < 0x8000_0000 then m else m - U32_MODULUS
  }

  /** Pre-increment of the unsigned id counter. */
  function NextId(n: u32): (r: u32)
    ensures r == if n == U32_MODULUS - 1 then 0 else n + 1
  {
    (n + 1) % U32_MODULUS
  }

  // ---- best prices by linear scan ----

  function OnSide(live: seq<Order>, side: Side): (r: seq<Order>)
    ensures forall o :: o in r <==> o in live && o.side == side
  {
    if live == [] then []
    else (if live[0].side == side then [live[0]] else []) + OnSide(live[1..], side)
  }

  /** `max_element` over bids, `min_element` over asks. */
  function BestPrice(s: seq<Order>, side: Side): (p: i32)
    requires s != []
    ensures exists o :: o in s && o.price == p
    ensures forall o :: o in s ==> !IsMoreCons(p, o.price, side.Bid?)
  {
    if |s| == 1 then
      assert s[0] in s;
      s[0].price
    else
      var p := BestPrice(s[1..], side);
      assert s[0] in s;
      if IsMoreCons(s[0].price, p, side.Bid?) then p else s[0].price
  }

  function BestBid(cfg: Config, live: seq<Order>): i32 {
    var bids := OnSide(live, Bid);
    if bids == [] then ToI32(cfg.mid - cfg.half) else BestPrice(bids, Bid)
  }

  function BestAsk(cfg: Config, live: seq<Order>): i32 {
    var asks := OnSide(live, Ask);
    if asks == [] then ToI32(cfg.mid + cfg.half) else BestPrice(asks, Ask)
  }

  // ---- the orders made ----

  function MmOrder(cfg: Config, side: Side, jitter: i32, qty: u32, id: u32): Order {
    Order(side, if side.Bid? then ToI32(cfg.mid - jitter) else ToI32(cfg.mid + jitter), qty, id)
  }

  function AggressorOrder(cfg: Config, live: seq<Order>, side: Side, qty: u32, id: u32): Order {
    var price := if side.Bid? then ToI32(BestAsk(cfg, live) + cfg.offset)
                 else ToI32(BestBid(cfg, live) - cfg.offset);
    Order(side, price, qty, id)
  }

  /** One turn of the generator's loop: cancel a live order, send an aggressor, or quote both
      sides.  `pick` chooses among however many live orders there are. */
  datatype Draw =
    | Cancel(pick: nat)
    | Aggress(side: Side, qty: u32)
    | Quote(bidJitter: i32, bidQty: u32, askJitter: i32, askQty: u32)
  {
    predicate InRange(cfg: Config) {
      match this
      case Cancel(_) => true
      case Aggress(_, qty) => 1 <= qty <= cfg.aggressorLotMax
      case Quote(bj, bq, aj, aq) =>
        1 <= bj <= cfg.half && 1 <= aj <= cfg.half && 1 <= bq <= cfg.mmLotMax && 1 <= aq <= cfg.mmLotMax
    }
  }

  datatype Gen = Gen(live: seq<Order>, nextId: u32)

  /** What a call of the add callback does to the generator: its answer, and the fill
      notifications that arrive while it is running. */
  datatype Reply = Reply(accepted: bool, filled: seq<u32>)

  function Absorb(live: seq<Order>, o: Order, r: Reply): seq<Order> {
    var l := EraseAll(live, r.filled);
    if r.accepted then l + [o] else l
  }

  function PickId(live: seq<Order>, pick: nat): u32
    requires live != []
  {
    live[pick % |live|].id
  }

  /** One turn with whatever answers the callbacks give. */
  function GenStep(cfg: Config, g: Gen, d: Draw, first: Reply, second: Reply): Gen {
    match d
    case Cancel(pick) =>
      if g.live == [] then g else g.(live := EraseId(g.live, PickId(g.live, pick)))
    case Aggress(side, qty) =>
      var o := AggressorOrder(cfg, g.live, side, qty, NextId(g.nextId));
      Gen(Absorb(g.live, o, first), o.id)
    case Quote(bj, bq, aj, aq) =>
      var bid := MmOrder(cfg, Bid, bj, bq, NextId(g.nextId));
      var ask := MmOrder(cfg, Ask, aj, aq, NextId(bid.id));
      Gen(Absorb(Absorb(g.live, bid, first), ask, second), ask.id)
  }

  datatype Turn = Turn(draw: Draw, first: Reply, second: Reply)

  const START: Gen := Gen([], 0)

  function GenRun(cfg: Config, turns: seq<Turn>): Gen {
    if turns == [] then START
    else
      var t := turns[|turns| - 1];
      GenStep(cfg, GenRun(cfg, turns[..|turns| - 1]), t.draw, t.first, t.second)
  }

  // ---- the price band ----

  predicate InBand(cfg: Config, o: Order) {
    match o.side
    case Bid => cfg.mid - cfg.half <= o.price <= cfg.mid + cfg.half + cfg.offset
    case Ask => cfg.mid - cfg.half - cfg.offset <= o.price <= cfg.mid + cfg.half
  }

  ghost predicate AllInBand(cfg: Config, live: seq<Order>) {
    forall o :: o in live ==> InBand(cfg, o)
  }

  /** The band lies within 32-bit prices, above the sentinel. */
  predicate BandFits(cfg: Config) {
    INVALID_PRICE < cfg.mid - cfg.half - cfg.offset && cfg.mid + cfg.half + cfg.offset < 0x8000_0000
  }

  /** An aggressor made from a list in the band is in the band and validly priced, and its
      price is the best opposite price moved by exactly the offset: nothing wraps. */
  lemma AggressorInBand(cfg: Config, live: seq<Order>, side: Side, qty: u32, id: u32)
    requires cfg.half >= 1 && cfg.offset >= 0 && BandFits(cfg) && AllInBand(cfg, live)
    ensures var o := AggressorOrder(cfg, live, side, qty, id);
            && InBand(cfg, o) && o.price != INVALID_PRICE
            && o.price == if side.Bid? then BestAsk(cfg, live) + cfg.offset else BestBid(cfg, live) - cfg.offset
  {
  }

  lemma QuoteInBand(cfg: Config, side: Side, jitter: i32, qty: u32, id: u32)
    requires cfg.offset >= 0 && BandFits(cfg) && 1 <= jitter <= cfg.half
    ensures var o := MmOrder(cfg, side, jitter, qty, id);
            && InBand(cfg, o) && o.price != INVALID_PRICE
            && o.price == if side.Bid? then cfg.mid - jitter else cfg.mid + jitter
  {
  }

  /** The best prices are in the band of their side, fallbacks included. */
  lemma BestInBand(cfg: Config, live: seq<Order>)
    requires cfg.half >= 1 && cfg.offset >= 0 && BandFits(cfg) && AllInBand(cfg, live)
    ensures cfg.mid - cfg.half <= BestBid(cfg, live) <= cfg.mid + cfg.half + cfg.offset
    ensures cfg.mid - cfg.half - cfg.offset <= BestAsk(cfg, live) <= cfg.mid + cfg.half
  {
  }

  lemma {:induction false} ErasedMembers(s: seq<Order>, ids: seq<u32>)
    ensures forall o :: o in EraseAll(s, ids) ==> o in s
    decreases ids
  {
    if ids != [] {
      var k := FindId(s, ids[0]);
      assert forall o :: o in EraseId(s, ids[0]) ==> o in s;
      ErasedMembers(EraseId(s, ids[0]), ids[1..]);
    }
  }

  lemma AbsorbInBand(cfg: Config, live: seq<Order>, o: Order, r: Reply)
    requires AllInBand(cfg, live) && InBand(cfg, o)
    ensures AllInBand(cfg, Absorb(live, o, r))
  {
    ErasedMembers(live, r.filled);
  }

  lemma StepInBand(cfg: Config, g: Gen, d: Draw, first: Reply, second: Reply)
    requires cfg.half >= 1 && cfg.offset >= 0 && BandFits(cfg) && AllInBand(cfg, g.live) && d.InRange(cfg)
    ensures AllInBand(cfg, GenStep(cfg, g, d, first, second).live)
  {
    var id := NextId(g.nextId);
    match d
    case Cancel(pick) =>
      if g.live != [] {
        ErasedMembers(g.live, [PickId(g.live, pick)]);
        assert EraseAll(g.live, [PickId(g.live, pick)]) == EraseId(g.live, PickId(g.live, pick));
      }
    case Aggress(side, qty) =>
      AggressorInBand(cfg, g.live, side, qty, id);
      AbsorbInBand(cfg, g.live, AggressorOrder(cfg, g.live, side, qty, id), first);
    case Quote(bj, bq, aj, aq) =>
      QuoteInBand(cfg, Bid, bj, bq, id);
      QuoteInBand(cfg, Ask, aj, aq, NextId(id));
      var bid := MmOrder(cfg, Bid, bj, bq, id);
      AbsorbInBand(cfg, g.live, bid, first);
      AbsorbInBand(cfg, Absorb(g.live, bid, first), MmOrder(cfg, Ask, aj, aq, NextId(id)), second);
  }

  ghost predicate TurnsInRange(cfg: Config, turns: seq<Turn>) {
    forall i :: 0 <= i < |turns| ==> turns[i].draw.InRange(cfg)
  }

  /** The price band: whatever the callbacks answer and whenever fills arrive, every order
      tracked in any run stays in the band. */
  lemma {:induction false} PriceBand(cfg: Config, turns: seq<Turn>)
    requires cfg.half >= 1 && cfg.offset >= 0 && BandFits(cfg) && TurnsInRange(cfg, turns)
    ensures AllInBand(cfg, GenRun(cfg, turns).live)
  {
    if turns != [] {
      var t := turns[|turns| - 1];
      PriceBand(cfg, turns[..|turns| - 1]);
      StepInBand(cfg, GenRun(cfg, turns[..|turns| - 1]), t.draw, t.first, t.second);
    }
  }

  predicate FitsI32(x: int) {
    -0x8000_0000 <= x < 0x8000_0000
  }

  predicate ValidPrice(x: int) {
    FitsI32(x) && x != INVALID_PRICE
  }

  predicate QuotesSafely(cfg: Config, jitter: i32) {
    ValidPrice(cfg.mid - jitter) && ValidPrice(cfg.mid + jitter)
  }

  /** Quoting, and pricing an aggressor off this list, overflows nowhere (the fallbacks are
      computed every time, needed or not) and gives a valid price on either side. */
  ghost predicate PricesSafely(cfg: Config, live: seq<Order>) {
    && (forall jitter: i32 :: 1 <= jitter <= cfg.half ==> QuotesSafely(cfg, jitter))
    && FitsI32(cfg.mid - cfg.half) && FitsI32(cfg.mid + cfg.half)
    && ValidPrice(BestAsk(cfg, live) + cfg.offset) && ValidPrice(BestBid(cfg, live) - cfg.offset)
  }

  ghost predicate RunsPriceSafely(cfg: Config) {
    forall turns: seq<Turn> :: TurnsInRange(cfg, turns) ==> PricesSafely(cfg, GenRun(cfg, turns).live)
  }

  /** No run ever overflows or hits the sentinel exactly when the band fits in 32-bit prices
      above the sentinel. */
  lemma BandIsExact(cfg: Config)
    requires cfg.half >= 1 && cfg.offset >= 0
    ensures RunsPriceSafely(cfg) <==> BandFits(cfg)
  {
    if BandFits(cfg) {
      forall turns: seq<Turn> | TurnsInRange(cfg, turns)
        ensures PricesSafely(cfg, GenRun(cfg, turns).live)
      {
        PriceBand(cfg, turns);
        BestInBand(cfg, GenRun(cfg, turns).live);
      }
    }
    if RunsPriceSafely(cfg) {
      assert TurnsInRange(cfg, []) && GenRun(cfg, []).live == [];
      assert PricesSafely(cfg, []);
    }
  }
}
