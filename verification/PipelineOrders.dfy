/** From packets to orders: under every interleaving the orders made are those the packets
    received ask for, in order, and for any packets there is a run that makes them all. */
module PipelineOrders {
  import opened Pipeline
  import opened PipelineRuns
  import opened PipelineHistory

  /** The orders that the first `|us|` of these ticks ask for, numbered from one. */
  function WantedOf(mds: seq<MarketData>, us: seq<Unset>): seq<ClientOrder>
    requires |us| <= |mds|
  {
    if us == [] then []
    else
      var n := |us| - 1;
      var before := WantedOf(mds, us[..n]);
      before + Wanted(mds[n], us[n], |before| + 1)
  }

  /** Only as many ticks matter as have been looked at. */
  lemma {:induction false} WantedOfPrefix(mds: seq<MarketData>, more: seq<MarketData>, us: seq<Unset>)
    requires |us| <= |mds| && mds <= more
    ensures WantedOf(mds, us) == WantedOf(more, us)
  {
    if us != [] {
      WantedOfPrefix(mds, more, us[..|us| - 1]);
    }
  }

  lemma WantedIsAsked(md: MarketData, u: Unset, id: nat)
    ensures var signal := ComputeSignal(md, u);
            Wanted(md, u, id) == if signal.kind == HOLD then [] else [GenerateOrder(signal, id)]
  {
  }

  /** Over every run each signal carries the symbol and the time of its tick, and a tick of tight
      spread makes it a BUY (0) at the ask, a SELL (1) at the bid or a HOLD (2) at minus one. */
  lemma SignalsFollowTicks(c: Capacities, moves: seq<Move>, i: nat)
    requires i < |Run(c, moves).strategy.computed|
    ensures i < |Run(c, moves).strategy.popped|
    ensures var signal, md := Run(c, moves).strategy.computed[i], Run(c, moves).strategy.popped[i];
            var mid := (md.ask + md.bid) / 2.0;
            && signal.symbol == md.symbol && signal.timestampNs == md.timestampNs
            && (md.ask - md.bid < 0.05 ==>
                  && (mid < 190.0 ==> signal.kind == 0 && signal.price == md.ask && signal.quantity == 100)
                  && (mid > 190.0005 ==> signal.kind == 1 && signal.price == md.bid && signal.quantity == 100)
                  && (190.0 <= mid <= 190.0005 ==> signal.kind == 2 && signal.price == -1.0))
  {
    ReachableInv(c, moves);
  }

  /** Signal by signal, the orders asked for. */
  ghost predicate AskedFor(orders: seq<ClientOrder>, signals: seq<Signal>) {
    && |orders| == |signals|
    && forall k :: 0 <= k < |orders| ==> orders[k] == GenerateOrder(signals[k], k + 1)
  }

  lemma {:induction false} WantedAreAsked(mds: seq<MarketData>, us: seq<Unset>, signals: seq<Signal>)
    requires |us| == |signals| <= |mds|
    requires forall i :: 0 <= i < |signals| ==> signals[i] == ComputeSignal(mds[i], us[i])
    ensures AskedFor(WantedOf(mds, us), Asking(signals))
  {
    if us != [] {
      var n := |us| - 1;
      WantedAreAsked(mds, us[..n], signals[..n]);
      WantedIsAsked(mds[n], us[n], |Asking(signals[..n])| + 1);
    }
  }

  lemma PrefixOfAsked(orders: seq<ClientOrder>, wanted: seq<ClientOrder>, taken: seq<Signal>, asking: seq<Signal>)
    requires AskedFor(wanted, asking) && taken <= asking && |orders| <= |taken|
    requires forall k :: 0 <= k < |orders| ==> orders[k] == GenerateOrder(taken[k], 1 + k)
    ensures orders <= wanted
  {
  }

  lemma OrdersAreAsked(s: State, c: Capacities)
    requires Inv(s, c) && s.strategy.dropped == 0
    ensures |s.strategy.unsets| <= |s.strategy.popped|
    ensures var wanted := WantedOf(s.strategy.popped, s.strategy.unsets);
            && s.execution.orders <= wanted
            && |wanted| == |s.execution.orders| + InFlight(s.execution.pc.Generate?) + |s.signalQueue|
                           + InFlight(s.strategy.pc.PushSignal?)
  {
    var t, x := s.strategy, s.execution;
    WantedAreAsked(t.popped, t.unsets, t.computed);
    assert x.taken <= Asking(t.computed);
    PrefixOfAsked(x.orders, WantedOf(t.popped, t.unsets), x.taken, Asking(t.computed));
  }

  lemma PoppedWasReceived(c: Capacities, moves: seq<Move>)
    ensures Run(c, moves).strategy.popped <= FeedHistory(c, moves).received
  {
    FeedIsHistory(c, moves);
    ReachableInv(c, moves);
    Handoff(Run(c, moves), c);
  }

  /** Under every interleaving, as long as no signal has been dropped, the orders made are, in
      order and numbered from one, the first of those that the packets received ask for; and
      those still missing are exactly in flight. */
  lemma OrdersAreWanted(c: Capacities, moves: seq<Move>, s: State)
    requires s == Run(c, moves) && s.strategy.dropped == 0
    ensures var packets, us := FeedHistory(c, moves).received, StrategyHistory(c, moves).unsets;
            && |us| <= |packets|
            && s.execution.orders <= WantedOf(packets, us)
            && |WantedOf(packets, us)| == |s.execution.orders| + InFlight(s.execution.pc.Generate?) + |s.signalQueue|
                                          + InFlight(s.strategy.pc.PushSignal?)
  {
    ReachableInv(c, moves);
    OrdersAreAsked(s, c);
    StrategyIsHistory(c, moves);
    PoppedWasReceived(c, moves);
    WantedOfPrefix(s.strategy.popped, FeedHistory(c, moves).received, s.strategy.unsets);
  }

  // ---- a run that answers every tick ----

  /** All three threads are at the top of their loops with nothing to do. */
  ghost predicate Quiet(s: State) {
    && s.running && s.feed.client && s.feed.pc.FeedLoop? && s.strategy.pc.StrategyLoop?
    && s.execution.pc.ExecutionLoop? && s.tickQueue == [] && s.signalQueue == []
  }

  lemma FeedGoes(c: Capacities, moves: seq<Move>, s: State, md: MarketData, f: Feed, q: seq<MarketData>)
    returns (more: seq<Move>)
    requires Run(c, moves) == s
    requires FeedStep(s.running, s.feed, s.tickQueue, c.ticks, true, Whole(md)) == FeedDid(s.running, f, q)
    ensures Run(c, more) == s.(feed := f, tickQueue := q)
  {
    more := moves + [FeedMoves(true, Whole(md))];
    RunOneMore(c, moves, FeedMoves(true, Whole(md)));
  }

  lemma StrategyGoes(c: Capacities, moves: seq<Move>, s: State, u: Unset, t: Strategy, q: seq<MarketData>,
                     sq: seq<Signal>) returns (more: seq<Move>)
    requires Run(c, moves) == s
    requires StrategyStep(s.running, s.strategy, s.tickQueue, s.signalQueue, c.signals, u) == StrategyDid(t, q, sq)
    ensures Run(c, more) == s.(strategy := t, tickQueue := q, signalQueue := sq)
  {
    more := moves + [StrategyMoves(u)];
    RunOneMore(c, moves, StrategyMoves(u));
  }

  lemma ExecutionGoes(c: Capacities, moves: seq<Move>, s: State, x: Execution, sq: seq<Signal>)
    returns (more: seq<Move>)
    requires Run(c, moves) == s && ExecutionStep(s.running, s.execution, s.signalQueue) == ExecutionDid(x, sq)
    ensures Run(c, more) == s.(execution := x, signalQueue := sq)
  {
    more := moves + [ExecutionMoves];
    RunOneMore(c, moves, ExecutionMoves);
  }

  lemma TickArrives(c: Capacities, moves: seq<Move>, s: State, md: MarketData) returns (more: seq<Move>, f: Feed)
    requires c.ticks >= 1 && Run(c, moves) == s && Quiet(s)
    ensures Run(c, more) == s.(feed := f, tickQueue := [md])
    ensures f.pc.FeedLoop? && f.client && f.counted == s.feed.counted + [md] && f.lost == s.feed.lost
  {
    var f0 := s.feed;
    f := f0.(ticksReceived := f0.ticksReceived + 1, counted := f0.counted + [md], pc := PushTick(md));
    more := FeedGoes(c, moves, s, md, f0.(pc := Receive), []);
    more := FeedGoes(c, more, s.(feed := f0.(pc := Receive)), md, f0.(pc := CountTick(md)), []);
    more := FeedGoes(c, more, s.(feed := f0.(pc := CountTick(md))), md, f, []);
    more := FeedGoes(c, more, s.(feed := f), md, f.(pc := FeedLoop), [md]);
    f := f.(pc := FeedLoop);
  }

  lemma TickComputed(c: Capacities, moves: seq<Move>, s: State, md: MarketData, u: Unset)
    returns (more: seq<Move>, t: Strategy)
    requires Run(c, moves) == s && s.running && s.strategy.pc.StrategyLoop? && s.tickQueue == [md]
    requires s.signalQueue == []
    ensures Run(c, more) == s.(strategy := t, tickQueue := [])
    ensures t.popped == s.strategy.popped + [md] && t.unsets == s.strategy.unsets + [u]
    ensures var signal := ComputeSignal(md, u);
            t.dropped == s.strategy.dropped && t.pc == if signal.kind == HOLD then StrategyLoop else PushSignal(signal)
  {
    var t0, signal := s.strategy, ComputeSignal(md, u);
    var t1 := t0.(popped := t0.popped + [md], pc := Compute(md));
    t := t1.(unsets := t0.unsets + [u], computed := t0.computed + [signal],
             pc := if signal.kind == HOLD then StrategyLoop else PushSignal(signal));
    more := StrategyGoes(c, moves, s, u, t0.(pc := PopTick), [md], []);
    more := StrategyGoes(c, more, s.(strategy := t0.(pc := PopTick)), u, t1, [], []);
    more := StrategyGoes(c, more, s.(strategy := t1, tickQueue := []), u, t, [], []);
  }

  lemma SignalPushed(c: Capacities, moves: seq<Move>, s: State, signal: Signal, u: Unset)
    returns (more: seq<Move>, t: Strategy)
    requires c.signals >= 1 && Run(c, moves) == s && s.strategy.pc == PushSignal(signal) && s.signalQueue == []
    ensures Run(c, more) == s.(strategy := t, signalQueue := [signal])
    ensures t.pc.StrategyLoop? && t.popped == s.strategy.popped && t.unsets == s.strategy.unsets
    ensures t.dropped == s.strategy.dropped
  {
    var t0 := s.strategy;
    var at := if t0.computed == [] then 0 else |t0.computed| - 1;
    var t1 := t0.(pushed := t0.pushed + [signal], pushedAt := t0.pushedAt + [at], pc := CountSignal);
    t := t1.(signalsGenerated := t0.signalsGenerated + 1, pc := StrategyLoop);
    more := StrategyGoes(c, moves, s, u, t1, s.tickQueue, [signal]);
    more := StrategyGoes(c, more, s.(strategy := t1, signalQueue := [signal]), u, t, s.tickQueue, [signal]);
  }

  lemma SignalExecuted(c: Capacities, moves: seq<Move>, s: State, signal: Signal)
    returns (more: seq<Move>, x: Execution)
    requires Run(c, moves) == s && s.running && s.execution.pc.ExecutionLoop? && s.signalQueue == [signal]
    ensures Run(c, more) == s.(execution := x, signalQueue := []) && x.pc.ExecutionLoop?
  {
    var x0 := s.execution;
    var x1 := x0.(taken := x0.taken + [signal], pc := Generate(signal));
    var x2 := x1.(orders := x0.orders + [GenerateOrder(signal, x0.nextOrderId)], nextOrderId := x0.nextOrderId + 1,
                  pc := CountOrder);
    x := x2.(ordersSent := x0.ordersSent + 1, pc := ExecutionLoop);
    more := ExecutionGoes(c, moves, s, x0.(pc := PopSignal), [signal]);
    more := ExecutionGoes(c, more, s.(execution := x0.(pc := PopSignal)), x1, []);
    more := ExecutionGoes(c, more, s.(execution := x1, signalQueue := []), x2, []);
    more := ExecutionGoes(c, more, s.(execution := x2, signalQueue := []), x, []);
  }

  /** One tick goes all the way through, and the threads are quiet again. */
  lemma TickAnswered(c: Capacities, moves: seq<Move>, md: MarketData, u: Unset) returns (more: seq<Move>)
    requires c.ticks >= 1 && c.signals >= 1 && Quiet(Run(c, moves))
    ensures var s, s' := Run(c, moves), Run(c, more);
            && Quiet(s') && s'.strategy.dropped == s.strategy.dropped
            && s'.strategy.popped == s.strategy.popped + [md] && s'.strategy.unsets == s.strategy.unsets + [u]
  {
    var f, t, x;
    var s, signal := Run(c, moves), ComputeSignal(md, u);
    more, f := TickArrives(c, moves, s, md);
    s := s.(feed := f, tickQueue := [md]);
    more, t := TickComputed(c, more, s, md, u);
    s := s.(strategy := t, tickQueue := []);
    if signal.kind != HOLD {
      more, t := SignalPushed(c, more, s, signal, u);
      s := s.(strategy := t, signalQueue := [signal]);
      more, x := SignalExecuted(c, more, s, signal);
    }
  }

  ghost predicate Answered(s: State, mds: seq<MarketData>, us: seq<Unset>) {
    Quiet(s) && s.strategy.dropped == 0 && s.strategy.popped == mds && s.strategy.unsets == us
  }

  lemma NothingYet(c: Capacities)
    ensures Answered(Run(c, []), [], [])
  {
  }

  lemma AnsweredNext(c: Capacities, moves: seq<Move>, mds: seq<MarketData>, us: seq<Unset>, md: MarketData, u: Unset)
    returns (more: seq<Move>)
    requires c.ticks >= 1 && c.signals >= 1 && Answered(Run(c, moves), mds, us)
    ensures Answered(Run(c, more), mds + [md], us + [u])
  {
    more := TickAnswered(c, moves, md, u);
  }

  lemma {:induction false} TicksAnswered(c: Capacities, mds: seq<MarketData>, us: seq<Unset>)
    returns (moves: seq<Move>)
    requires c.ticks >= 1 && c.signals >= 1 && |us| == |mds|
    ensures Answered(Run(c, moves), mds, us)
  {
    if mds == [] {
      moves := [];
      NothingYet(c);
    } else {
      var n := |mds| - 1;
      moves := TicksAnswered(c, mds[..n], us[..n]);
      moves := AnsweredNext(c, moves, mds[..n], us[..n], mds[n], us[n]);
      assert mds == mds[..n] + [mds[n]] && us == us[..n] + [us[n]];
    }
  }

  lemma QuietMeansSent(s: State, c: Capacities)
    requires Inv(s, c) && Quiet(s) && s.strategy.dropped == 0
    ensures |s.strategy.unsets| <= |s.strategy.popped|
    ensures s.execution.orders == WantedOf(s.strategy.popped, s.strategy.unsets)
    ensures s.execution.ordersSent == |s.execution.orders|
  {
    OrdersAreAsked(s, c);
  }

  /** Whatever the ticks, and whatever the capacities as long as neither is zero, there is a run
      that takes exactly these ticks and sends every order they ask for. */
  lemma EveryTickAnswered(c: Capacities, mds: seq<MarketData>, us: seq<Unset>) returns (moves: seq<Move>)
    requires c.ticks >= 1 && c.signals >= 1 && |us| == |mds|
    ensures Run(c, moves).strategy.popped == mds
    ensures Run(c, moves).execution.orders == WantedOf(mds, us)
    ensures Run(c, moves).execution.ordersSent == |WantedOf(mds, us)|
  {
    moves := TicksAnswered(c, mds, us);
    ReachableInv(c, moves);
    QuietMeansSent(Run(c, moves), c);
  }
}
