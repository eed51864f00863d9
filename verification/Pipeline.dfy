/** The client's three threads - the feed that receives ticks, the strategy that turns them into
    signals, the execution that turns signals into orders - as interleaved atomic steps over the
    flag, the counters and the two bounded queues they share.  Sequences that only grow record
    what each thread has done. */
module Pipeline {
  import opened Words

  datatype MarketData = MarketData(seqNum: nat, bid: real, ask: real, timestampNs: nat, symbol: string)

  datatype Signal = Signal(symbol: string, kind: u8, price: real, quantity: nat, timestampNs: nat)

  /** `Signal::Type`.  An unset type field may hold any other byte. */
  const BUY: u8 := 0
  const SELL: u8 := 1
  const HOLD: u8 := 2

  /** Whatever the fields of a fresh `Signal` happen to hold. */
  datatype Unset = Unset(kind: u8, price: real, quantity: nat)

  datatype OrderSide = Buy | Sell
  datatype ClientOrder = ClientOrder(symbol: string, side: OrderSide, price: real, quantity: nat, orderId: nat)

  // ---- strategy and order generation ----

  function Spread(md: MarketData): real {
    md.ask - md.bid
  }

  function Mid(md: MarketData): real {
    (md.ask + md.bid) / 2.0
  }

  function ComputeSignal(md: MarketData, u: Unset): Signal {
    var blank := Signal(md.symbol, u.kind, u.price, u.quantity, md.timestampNs);
    if Spread(md) < 0.05 then
      if Mid(md) < 190.0 then blank.(kind := BUY, price := md.ask, quantity := 100)
      else if Mid(md) > 190.0005 then blank.(kind := SELL, price := md.bid, quantity := 100)
      else blank.(kind := HOLD, price := -1.0)
    else blank
  }

  function GenerateOrder(signal: Signal, id: nat): ClientOrder {
    ClientOrder(signal.symbol, if signal.kind == BUY then Buy else Sell, signal.price, signal.quantity, id)
  }

  /** The order a tick leads to when nothing is full: none for HOLD. */
  datatype Decision = NoOrder | Send(order: ClientOrder)

  function Decide(md: MarketData, u: Unset): Decision {
    var signal := ComputeSignal(md, u);
    if signal.kind == HOLD then NoOrder else Send(GenerateOrder(signal, 1))
  }

  /** The decision depends on the tick alone exactly when its spread is tight; with a wider
      spread it is left to unset fields. */
  lemma DecisionIsDeterminedIff(md: MarketData)
    ensures (forall u: Unset, v: Unset :: Decide(md, u) == Decide(md, v)) <==> Spread(md) < 0.05
  {
    if Spread(md) >= 0.05 {
      assert Decide(md, Unset(BUY, 0.0, 0)) != Decide(md, Unset(HOLD, 0.0, 0));
    }
  }

  // ---- threads ----

  const MAX_RETRIES: nat := 5

  datatype FeedPc =
    | FeedLoop
    | RetryTest(retries: nat)
    | Reconnect(retries: nat)
    | NewClient(retries: nat)
    | Connect(retries: nat)
    | MarkInitialized(retries: nat)
    | AfterRetries(retries: nat)
    | Receive
    | ClearInitialized
    | CountTick(md: MarketData)
    | PushTick(md: MarketData)
    | CountFull(md: MarketData)
    | SpinTest(md: MarketData)
    | SpinPush(md: MarketData)
    | FeedExit

  /** The feed: its position, whether it holds a TCP client, its flag, its counters; and the
      ticks it has counted and those it has given up on. */
  datatype Feed = Feed(
    pc: FeedPc, client: bool, initialized: bool, ticksReceived: nat, queueFullCount: nat,
    counted: seq<MarketData>, lost: seq<MarketData>)

  datatype StrategyPc =
    | StrategyLoop | PopTick | Compute(md: MarketData) | PushSignal(signal: Signal) | CountSignal | StrategyExit

  /** The strategy: its position and counter; and the ticks it has popped, the unset fields it
      met, the signals it has computed, those it pushed with their positions among the computed
      ones, and how many it dropped. */
  datatype Strategy = Strategy(
    pc: StrategyPc, signalsGenerated: nat,
    popped: seq<MarketData>, unsets: seq<Unset>, computed: seq<Signal>,
    pushed: seq<Signal>, pushedAt: seq<nat>, dropped: nat)

  datatype ExecutionPc = ExecutionLoop | PopSignal | Generate(signal: Signal) | CountOrder | ExecutionExit

  /** The execution: its position, counter and next order id; and the signals it has taken and
      the orders it has made. */
  datatype Execution = Execution(
    pc: ExecutionPc, ordersSent: nat, nextOrderId: nat, taken: seq<Signal>, orders: seq<ClientOrder>)

  /** `recv`'s three results. */
  datatype Packet = Disconnected | Incomplete | Whole(md: MarketData)

  datatype FeedDid = FeedDid(running: bool, feed: Feed, tickQueue: seq<MarketData>)

  function FeedStep(running: bool, f: Feed, q: seq<MarketData>, cap: nat, connects: bool, packet: Packet): FeedDid {
    match f.pc
    case FeedLoop =>
      FeedDid(running, f.(pc := if !running then FeedExit else if !f.client then RetryTest(0) else Receive), q)
    case RetryTest(r) =>
      FeedDid(running, f.(pc := if r < MAX_RETRIES && running then Reconnect(r) else AfterRetries(r)), q)
    case Reconnect(r) => FeedDid(running, f.(client := false, initialized := false, pc := NewClient(r)), q)
    case NewClient(r) => FeedDid(running, f.(client := true, pc := Connect(r)), q)
    case Connect(r) =>
      FeedDid(running, if connects then f.(pc := MarkInitialized(r)) else f.(client := false, pc := RetryTest(r + 1)),
              q)
    case MarkInitialized(r) => FeedDid(running, f.(initialized := true, pc := AfterRetries(r)), q)
    case AfterRetries(_) =>
      if f.client then FeedDid(running, f.(pc := FeedLoop), q) else FeedDid(false, f.(pc := FeedExit), q)
    case Receive =>
      (match packet
       case Disconnected => FeedDid(running, f.(client := false, pc := ClearInitialized), q)
       case Incomplete => FeedDid(running, f.(pc := FeedLoop), q)
       case Whole(md) => FeedDid(running, f.(pc := CountTick(md)), q))
    case ClearInitialized => FeedDid(running, f.(initialized := false, pc := FeedLoop), q)
    case CountTick(md) =>
      FeedDid(running, f.(ticksReceived := f.ticksReceived + 1, counted := f.counted + [md], pc := PushTick(md)), q)
    case PushTick(md) =>
      if |q| < cap then FeedDid(running, f.(pc := FeedLoop), q + [md]) else FeedDid(running, f.(pc := CountFull(md)), q)
    case CountFull(md) =>
      FeedDid(running, f.(queueFullCount := f.queueFullCount + 1, pc := SpinTest(md)), q)
    case SpinTest(md) =>
      FeedDid(running, if running then f.(pc := SpinPush(md)) else f.(lost := f.lost + [md], pc := FeedLoop), q)
    case SpinPush(md) =>
      if |q| < cap then FeedDid(running, f.(pc := FeedLoop), q + [md]) else FeedDid(running, f.(pc := SpinTest(md)), q)
    case FeedExit => FeedDid(running, f, q)
  }

  datatype StrategyDid = StrategyDid(strategy: Strategy, tickQueue: seq<MarketData>, signalQueue: seq<Signal>)

  function StrategyStep(running: bool, t: Strategy, q: seq<MarketData>, sq: seq<Signal>, cap: nat,
                        u: Unset): StrategyDid
  {
    match t.pc
    case StrategyLoop => StrategyDid(t.(pc := if running then PopTick else StrategyExit), q, sq)
    case PopTick =>
      if q == [] then StrategyDid(t.(pc := StrategyLoop), q, sq)
      else StrategyDid(t.(popped := t.popped + [q[0]], pc := Compute(q[0])), q[1..], sq)
    case Compute(md) =>
      var signal := ComputeSignal(md, u);
      var next := if signal.kind != HOLD then PushSignal(signal) else StrategyLoop;
      StrategyDid(t.(unsets := t.unsets + [u], computed := t.computed + [signal], pc := next), q, sq)
    case PushSignal(signal) =>
      if |sq| < cap then
        var at := if t.computed == [] then 0 else |t.computed| - 1;
        StrategyDid(t.(pushed := t.pushed + [signal], pushedAt := t.pushedAt + [at], pc := CountSignal), q,
                    sq + [signal])
      else
        StrategyDid(t.(dropped := t.dropped + 1, pc := StrategyLoop), q, sq)
    case CountSignal => StrategyDid(t.(signalsGenerated := t.signalsGenerated + 1, pc := StrategyLoop), q, sq)
    case StrategyExit => StrategyDid(t, q, sq)
  }

  datatype ExecutionDid = ExecutionDid(execution: Execution, signalQueue: seq<Signal>)

  function ExecutionStep(running: bool, x: Execution, sq: seq<Signal>): ExecutionDid {
    match x.pc
    case ExecutionLoop => ExecutionDid(x.(pc := if running then PopSignal else ExecutionExit), sq)
    case PopSignal =>
      if sq == [] then ExecutionDid(x.(pc := ExecutionLoop), sq)
      else ExecutionDid(x.(taken := x.taken + [sq[0]], pc := Generate(sq[0])), sq[1..])
    case Generate(signal) =>
      var order := GenerateOrder(signal, x.nextOrderId);
      ExecutionDid(x.(orders := x.orders + [order], nextOrderId := x.nextOrderId + 1, pc := CountOrder), sq)
    case CountOrder => ExecutionDid(x.(ordersSent := x.ordersSent + 1, pc := ExecutionLoop), sq)
    case ExecutionExit => ExecutionDid(x, sq)
  }

  // ---- runs ----

  datatype State = State(
    running: bool, feed: Feed, strategy: Strategy, execution: Execution,
    tickQueue: seq<MarketData>, signalQueue: seq<Signal>)

  /** The client has connected and its threads have just been started. */
  const START: State := State(
    true, Feed(FeedLoop, true, true, 0, 0, [], []), Strategy(StrategyLoop, 0, [], [], [], [], [], 0),
    Execution(ExecutionLoop, 0, 1, [], []), [], [])

  /** Which thread moves next, and what the outside world gives it; or the client is stopped. */
  datatype Move =
    | FeedMoves(connects: bool, packet: Packet)
    | StrategyMoves(unset: Unset)
    | ExecutionMoves
    | Stop

  datatype Capacities = Capacities(ticks: nat, signals: nat)

  function Step(s: State, c: Capacities, m: Move): State {
    match m
    case FeedMoves(connects, packet) =>
      var d := FeedStep(s.running, s.feed, s.tickQueue, c.ticks, connects, packet);
      State(d.running, d.feed, s.strategy, s.execution, d.tickQueue, s.signalQueue)
    case StrategyMoves(u) =>
      var d := StrategyStep(s.running, s.strategy, s.tickQueue, s.signalQueue, c.signals, u);
      State(s.running, s.feed, d.strategy, s.execution, d.tickQueue, d.signalQueue)
    case ExecutionMoves =>
      var d := ExecutionStep(s.running, s.execution, s.signalQueue);
      State(s.running, s.feed, s.strategy, d.execution, s.tickQueue, d.signalQueue)
    case Stop => State(false, s.feed, s.strategy, s.execution, s.tickQueue, s.signalQueue)
  }

  function Run(c: Capacities, moves: seq<Move>): State {
    if moves == [] then START else Step(Run(c, moves[..|moves| - 1]), c, moves[|moves| - 1])
  }

  lemma OthersLeaveFeed(s: State, c: Capacities, m: Move)
    requires !m.FeedMoves?
    ensures Step(s, c, m).feed == s.feed
  {
  }

  // ---- invariants ----

  /** A counted tick the feed has not yet handed over. */
  function InHand(pc: FeedPc): seq<MarketData> {
    match pc
    case PushTick(md) => [md]
    case CountFull(md) => [md]
    case SpinTest(md) => [md]
    case SpinPush(md) => [md]
    case _ => []
  }

  /** What was counted is, in order, what was popped, what is queued, and then at most one tick
      in hand or, once the flag has fallen, lost. */
  ghost predicate TicksKept(running: bool, f: Feed, popped: seq<MarketData>, q: seq<MarketData>, cap: nat) {
    && f.counted == popped + q + InHand(f.pc) + f.lost
    && f.ticksReceived == |f.counted| && |q| <= cap
    && |f.lost| <= 1
    && (f.lost != [] ==> !running && (f.pc.FeedLoop? || f.pc.FeedExit?))
  }

  /** A client exists while its connection is being made and until it is dropped. */
  predicate Connecting(pc: FeedPc) {
    pc.Connect? || pc.MarkInitialized?
  }

  predicate Retrying(pc: FeedPc) {
    pc.RetryTest? || pc.Reconnect? || pc.NewClient? || pc.Connect?
  }

  /** The client and the flag differ in exactly two windows: the flag is late to follow a lost
      client, and a new client is not announced before it is connected.  Attempts are bounded,
      and giving up follows five failures unless the client program has been stopped. */
  ghost predicate ConnectionKept(running: bool, f: Feed) {
    && (f.initialized && !f.client <==> f.pc.ClearInitialized?)
    && (f.client && !f.initialized <==> Connecting(f.pc))
    && (f.pc.RetryTest? || f.pc.Reconnect? || f.pc.NewClient? ==> !f.client)
    && (f.pc.RetryTest? ==> f.pc.retries <= MAX_RETRIES)
    && (f.pc.Reconnect? || f.pc.NewClient? || Connecting(f.pc) ==> f.pc.retries < MAX_RETRIES)
    && (f.pc.AfterRetries? && !f.client ==> f.pc.retries == MAX_RETRIES || !running)
    && (f.pc.Receive? ==> f.client)
  }

  /** The tick in hand has not met a full queue yet. */
  predicate Unpushed(pc: FeedPc) {
    pc.PushTick? || pc.CountFull?
  }

  /** The tick in hand has met a full queue, and that has been counted. */
  predicate Spinning(pc: FeedPc) {
    pc.SpinTest? || pc.SpinPush?
  }

  /** A tick meets a full queue at most once, and every tick lost has met one. */
  ghost predicate FullCounted(f: Feed) {
    |f.lost| + InFlight(Spinning(f.pc)) <= f.queueFullCount <= |f.counted| - InFlight(Unpushed(f.pc))
  }

  /** One signal is computed for each popped tick, in order. */
  ghost predicate SignalsComputed(t: Strategy) {
    && |t.unsets| == |t.computed| <= |t.popped|
    && (forall i :: 0 <= i < |t.computed| ==> t.computed[i] == ComputeSignal(t.popped[i], t.unsets[i]))
    && (if t.pc.Compute? then |t.popped| == |t.computed| + 1 && t.popped[|t.computed|] == t.pc.md
        else |t.popped| == |t.computed|)
  }

  /** `part` consists of the signals of `all` at the increasing positions `at`; none is HOLD. */
  ghost predicate Selected(all: seq<Signal>, part: seq<Signal>, at: seq<nat>) {
    && |at| == |part|
    && (forall k :: 0 <= k < |part| ==> at[k] < |all| && all[at[k]] == part[k] && part[k].kind != HOLD)
    && (forall k :: 0 <= k < |at| - 1 ==> at[k] < at[k + 1])
  }

  /** The signals pushed are a subsequence of those computed; a signal about to be pushed is the
      last one computed. */
  ghost predicate SignalsPushed(t: Strategy) {
    && Selected(t.computed, t.pushed, t.pushedAt)
    && (t.pc.PushSignal? ==>
          && t.computed != [] && t.computed[|t.computed| - 1] == t.pc.signal && t.pc.signal.kind != HOLD
          && (t.pushedAt != [] ==> t.pushedAt[|t.pushedAt| - 1] < |t.computed| - 1))
  }

  function InFlight(b: bool): nat {
    if b then 1 else 0
  }

  /** The signals among these that ask for an order. */
  function Asking(signals: seq<Signal>): seq<Signal> {
    if signals == [] then []
    else
      var last := signals[|signals| - 1];
      Asking(signals[..|signals| - 1]) + if last.kind != HOLD then [last] else []
  }

  /** Every signal that asks for an order is pushed, dropped or about to be pushed. */
  ghost predicate SignalsCounted(t: Strategy) {
    && t.signalsGenerated + InFlight(t.pc.CountSignal?) == |t.pushed|
    && |Asking(t.computed)| == |t.pushed| + t.dropped + InFlight(t.pc.PushSignal?)
  }

  function AboutToPush(pc: StrategyPc): seq<Signal> {
    if pc.PushSignal? then [pc.signal] else []
  }

  /** As long as none is dropped, the signals pushed are all that ask for an order, in order. */
  ghost predicate NoneSkipped(t: Strategy) {
    t.dropped == 0 ==> Asking(t.computed) == t.pushed + AboutToPush(t.pc)
  }

  /** The signals taken are the pushed ones in order; each becomes one order, ids from 1 on. */
  ghost predicate OrdersKept(pushed: seq<Signal>, x: Execution, sq: seq<Signal>, cap: nat) {
    && pushed == x.taken + sq && |sq| <= cap
    && |x.taken| == |x.orders| + InFlight(x.pc.Generate?)
    && (x.pc.Generate? ==> x.taken[|x.orders|] == x.pc.signal)
    && x.nextOrderId == 1 + |x.orders|
    && (forall k :: 0 <= k < |x.orders| ==> x.orders[k] == GenerateOrder(x.taken[k], 1 + k))
    && x.ordersSent + InFlight(x.pc.CountOrder?) == |x.orders|
  }

  ghost predicate Inv(s: State, c: Capacities) {
    && TicksKept(s.running, s.feed, s.strategy.popped, s.tickQueue, c.ticks)
    && ConnectionKept(s.running, s.feed) && FullCounted(s.feed)
    && SignalsComputed(s.strategy) && SignalsPushed(s.strategy)
    && SignalsCounted(s.strategy) && NoneSkipped(s.strategy)
    && OrdersKept(s.strategy.pushed, s.execution, s.signalQueue, c.signals)
  }

  predicate AboutConnection(pc: FeedPc) {
    Retrying(pc) || pc.MarkInitialized? || pc.AfterRetries? || pc.ClearInitialized? || pc.FeedLoop? || pc.FeedExit?
  }

  lemma ConnectionKeepsTicks(running: bool, f: Feed, popped: seq<MarketData>, q: seq<MarketData>, cap: nat,
                             connects: bool, packet: Packet)
    requires TicksKept(running, f, popped, q, cap) && AboutConnection(f.pc)
    ensures var d := FeedStep(running, f, q, cap, connects, packet);
            TicksKept(d.running, d.feed, popped, d.tickQueue, cap)
  {
  }

  lemma ReceiptKeepsTicks(running: bool, f: Feed, popped: seq<MarketData>, q: seq<MarketData>, cap: nat,
                          connects: bool, packet: Packet)
    requires TicksKept(running, f, popped, q, cap) && (f.pc.Receive? || f.pc.CountTick?)
    ensures var d := FeedStep(running, f, q, cap, connects, packet);
            TicksKept(d.running, d.feed, popped, d.tickQueue, cap)
  {
  }

  lemma HandedOver(popped: seq<MarketData>, q: seq<MarketData>, md: MarketData)
    ensures popped + q + [md] + [] == popped + (q + [md]) + [] + []
  {
  }

  lemma PushKeepsTicks(running: bool, f: Feed, popped: seq<MarketData>, q: seq<MarketData>, cap: nat,
                       connects: bool, packet: Packet)
    requires TicksKept(running, f, popped, q, cap) && (f.pc.PushTick? || f.pc.SpinPush?)
    ensures var d := FeedStep(running, f, q, cap, connects, packet);
            TicksKept(d.running, d.feed, popped, d.tickQueue, cap)
  {
    HandedOver(popped, q, f.pc.md);
  }

  lemma WaitKeepsTicks(running: bool, f: Feed, popped: seq<MarketData>, q: seq<MarketData>, cap: nat,
                       connects: bool, packet: Packet)
    requires TicksKept(running, f, popped, q, cap) && (f.pc.CountFull? || f.pc.SpinTest?)
    ensures var d := FeedStep(running, f, q, cap, connects, packet);
            TicksKept(d.running, d.feed, popped, d.tickQueue, cap)
  {
  }

  lemma FeedKeepsTicks(running: bool, f: Feed, popped: seq<MarketData>, q: seq<MarketData>, cap: nat,
                       connects: bool, packet: Packet)
    requires TicksKept(running, f, popped, q, cap)
    ensures var d := FeedStep(running, f, q, cap, connects, packet);
            TicksKept(d.running, d.feed, popped, d.tickQueue, cap)
  {
    if AboutConnection(f.pc) {
      ConnectionKeepsTicks(running, f, popped, q, cap, connects, packet);
    } else if f.pc.Receive? || f.pc.CountTick? {
      ReceiptKeepsTicks(running, f, popped, q, cap, connects, packet);
    } else if f.pc.PushTick? || f.pc.SpinPush? {
      PushKeepsTicks(running, f, popped, q, cap, connects, packet);
    } else {
      WaitKeepsTicks(running, f, popped, q, cap, connects, packet);
    }
  }

  lemma FeedKeepsConnection(running: bool, f: Feed, q: seq<MarketData>, cap: nat, connects: bool, packet: Packet)
    requires ConnectionKept(running, f)
    ensures var d := FeedStep(running, f, q, cap, connects, packet); ConnectionKept(d.running, d.feed)
  {
  }

  lemma ConnectionCountsFull(running: bool, f: Feed, q: seq<MarketData>, cap: nat, connects: bool, packet: Packet)
    requires FullCounted(f) && AboutConnection(f.pc)
    ensures FullCounted(FeedStep(running, f, q, cap, connects, packet).feed)
  {
  }

  lemma ReceiptCountsFull(running: bool, f: Feed, q: seq<MarketData>, cap: nat, connects: bool, packet: Packet)
    requires FullCounted(f) && (f.pc.Receive? || f.pc.CountTick?)
    ensures FullCounted(FeedStep(running, f, q, cap, connects, packet).feed)
  {
  }

  lemma HandoverCountsFull(running: bool, f: Feed, q: seq<MarketData>, cap: nat, connects: bool, packet: Packet)
    requires FullCounted(f) && (Unpushed(f.pc) || Spinning(f.pc))
    ensures FullCounted(FeedStep(running, f, q, cap, connects, packet).feed)
  {
  }

  lemma FeedCountsFull(running: bool, f: Feed, q: seq<MarketData>, cap: nat, connects: bool, packet: Packet)
    requires FullCounted(f)
    ensures FullCounted(FeedStep(running, f, q, cap, connects, packet).feed)
  {
    if AboutConnection(f.pc) {
      ConnectionCountsFull(running, f, q, cap, connects, packet);
    } else if f.pc.Receive? || f.pc.CountTick? {
      ReceiptCountsFull(running, f, q, cap, connects, packet);
    } else {
      HandoverCountsFull(running, f, q, cap, connects, packet);
    }
  }

  lemma StrategyKeepsTicks(running: bool, f: Feed, t: Strategy, q: seq<MarketData>, sq: seq<Signal>,
                           ticks: nat, cap: nat, u: Unset)
    requires TicksKept(running, f, t.popped, q, ticks)
    ensures var d := StrategyStep(running, t, q, sq, cap, u);
            TicksKept(running, f, d.strategy.popped, d.tickQueue, ticks)
  {
  }

  lemma StrategyKeepsComputed(running: bool, t: Strategy, q: seq<MarketData>, sq: seq<Signal>, cap: nat, u: Unset)
    requires SignalsComputed(t)
    ensures SignalsComputed(StrategyStep(running, t, q, sq, cap, u).strategy)
  {
  }

  lemma SelectedGrows(all: seq<Signal>, part: seq<Signal>, at: seq<nat>, signal: Signal)
    requires Selected(all, part, at)
    ensures Selected(all + [signal], part, at)
    ensures at != [] ==> at[|at| - 1] < |all|
  {
  }

  lemma SelectLast(all: seq<Signal>, part: seq<Signal>, at: seq<nat>, signal: Signal)
    requires Selected(all, part, at) && all != [] && all[|all| - 1] == signal && signal.kind != HOLD
    requires at != [] ==> at[|at| - 1] < |all| - 1
    ensures Selected(all, part + [signal], at + [|all| - 1])
  {
  }

  lemma StrategyKeepsPushed(running: bool, t: Strategy, q: seq<MarketData>, sq: seq<Signal>, cap: nat, u: Unset)
    requires SignalsPushed(t)
    ensures SignalsPushed(StrategyStep(running, t, q, sq, cap, u).strategy)
  {
    if t.pc.Compute? {
      SelectedGrows(t.computed, t.pushed, t.pushedAt, ComputeSignal(t.pc.md, u));
    } else if t.pc.PushSignal? {
      SelectLast(t.computed, t.pushed, t.pushedAt, t.pc.signal);
    }
  }

  lemma AskingNext(signals: seq<Signal>, signal: Signal)
    ensures Asking(signals + [signal]) == Asking(signals) + if signal.kind != HOLD then [signal] else []
  {
    assert (signals + [signal])[..|signals|] == signals;
  }

  lemma StrategyKeepsCounts(running: bool, t: Strategy, q: seq<MarketData>, sq: seq<Signal>, cap: nat, u: Unset)
    requires SignalsCounted(t)
    ensures SignalsCounted(StrategyStep(running, t, q, sq, cap, u).strategy)
  {
    if t.pc.Compute? {
      AskingNext(t.computed, ComputeSignal(t.pc.md, u));
    }
  }

  lemma StrategySkipsNone(running: bool, t: Strategy, q: seq<MarketData>, sq: seq<Signal>, cap: nat, u: Unset)
    requires NoneSkipped(t)
    ensures NoneSkipped(StrategyStep(running, t, q, sq, cap, u).strategy)
  {
    if t.pc.Compute? {
      AskingNext(t.computed, ComputeSignal(t.pc.md, u));
    }
  }

  lemma StrategyKeepsOrders(running: bool, t: Strategy, q: seq<MarketData>, sq: seq<Signal>, x: Execution,
                            cap: nat, u: Unset)
    requires OrdersKept(t.pushed, x, sq, cap)
    ensures var d := StrategyStep(running, t, q, sq, cap, u);
            OrdersKept(d.strategy.pushed, x, d.signalQueue, cap)
  {
  }

  lemma ExecutionKeeps(running: bool, x: Execution, sq: seq<Signal>, pushed: seq<Signal>, cap: nat)
    requires OrdersKept(pushed, x, sq, cap)
    ensures var d := ExecutionStep(running, x, sq); OrdersKept(pushed, d.execution, d.signalQueue, cap)
  {
  }

  lemma StrategyKeepsInv(s: State, c: Capacities, u: Unset)
    requires Inv(s, c)
    ensures Inv(Step(s, c, StrategyMoves(u)), c)
  {
    StrategyKeepsTicks(s.running, s.feed, s.strategy, s.tickQueue, s.signalQueue, c.ticks, c.signals, u);
    StrategyKeepsComputed(s.running, s.strategy, s.tickQueue, s.signalQueue, c.signals, u);
    StrategyKeepsPushed(s.running, s.strategy, s.tickQueue, s.signalQueue, c.signals, u);
    StrategyKeepsCounts(s.running, s.strategy, s.tickQueue, s.signalQueue, c.signals, u);
    StrategySkipsNone(s.running, s.strategy, s.tickQueue, s.signalQueue, c.signals, u);
    StrategyKeepsOrders(s.running, s.strategy, s.tickQueue, s.signalQueue, s.execution, c.signals, u);
  }

  /** Every step of every thread keeps the invariant, whatever the others are in the middle of. */
  lemma StepKeepsInv(s: State, c: Capacities, m: Move)
    requires Inv(s, c)
    ensures Inv(Step(s, c, m), c)
  {
    match m
    case FeedMoves(connects, packet) =>
      FeedKeepsTicks(s.running, s.feed, s.strategy.popped, s.tickQueue, c.ticks, connects, packet);
      FeedKeepsConnection(s.running, s.feed, s.tickQueue, c.ticks, connects, packet);
      FeedCountsFull(s.running, s.feed, s.tickQueue, c.ticks, connects, packet);
    case StrategyMoves(u) => StrategyKeepsInv(s, c, u);
    case ExecutionMoves => ExecutionKeeps(s.running, s.execution, s.signalQueue, s.strategy.pushed, c.signals);
    case Stop =>
  }

  lemma StartTicks(cap: nat)
    ensures TicksKept(START.running, START.feed, START.strategy.popped, START.tickQueue, cap)
    ensures ConnectionKept(START.running, START.feed) && FullCounted(START.feed)
  {
  }

  lemma StartSignals()
    ensures SignalsComputed(START.strategy) && SignalsPushed(START.strategy)
    ensures SignalsCounted(START.strategy) && NoneSkipped(START.strategy)
  {
  }

  lemma StartOrders(cap: nat)
    ensures OrdersKept(START.strategy.pushed, START.execution, START.signalQueue, cap)
  {
  }

  lemma StartInv(c: Capacities, s: State)
    requires s == START
    ensures Inv(s, c)
  {
    StartTicks(c.ticks);
    StartSignals();
    StartOrders(c.signals);
  }

  lemma NextKeepsInv(s: State, c: Capacities, m: Move, next: State)
    requires Inv(s, c) && next == Step(s, c, m)
    ensures Inv(next, c)
  {
    StepKeepsInv(s, c, m);
  }

  /** Every reachable state satisfies the invariant, however the threads interleave. */
  lemma {:induction false} ReachableInv(c: Capacities, moves: seq<Move>)
    ensures Inv(Run(c, moves), c)
  {
    if moves == [] {
      StartInv(c, Run(c, moves));
    } else {
      ReachableInv(c, moves[..|moves| - 1]);
      NextKeepsInv(Run(c, moves[..|moves| - 1]), c, moves[|moves| - 1], Run(c, moves));
    }
  }
}
