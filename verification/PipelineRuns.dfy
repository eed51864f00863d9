/** What the pipeline promises under every interleaving: handoff, accounting, where orders come
    from, when the feed gives up, and that shutting down ends. */
module PipelineRuns {
  import opened Pipeline

  // ---- handoff ----

  lemma Handoff(s: State, c: Capacities)
    requires Inv(s, c)
    ensures var rest := InHand(s.feed.pc) + s.feed.lost;
            s.feed.counted == s.strategy.popped + s.tickQueue + rest && |rest| <= 1
  {
  }

  /** Ordered, lossless handoff: the ticks counted are those popped, then those queued, then at
      most one more - in hand, or lost, and lost only if the flag has fallen and the queue was
      found full. */
  lemma LosslessHandoff(c: Capacities, moves: seq<Move>, s: State)
    requires s == Run(c, moves)
    ensures var rest := InHand(s.feed.pc) + s.feed.lost;
            s.feed.counted == s.strategy.popped + s.tickQueue + rest && |rest| <= 1
    ensures s.feed.ticksReceived == |s.feed.counted|
    ensures s.feed.lost != [] ==> !s.running && s.feed.queueFullCount >= 1
  {
    ReachableInv(c, moves);
    Handoff(s, c);
  }

  lemma RunOneMore(c: Capacities, moves: seq<Move>, m: Move)
    ensures Run(c, moves + [m]) == Step(Run(c, moves), c, m)
  {
    assert (moves + [m])[..|moves|] == moves;
  }

  /** Only the feed has moved since the start. */
  ghost predicate FeedStands(c: Capacities, moves: seq<Move>, f: Feed, q: seq<MarketData>) {
    Run(c, moves) == START.(feed := f, tickQueue := q)
  }

  lemma FeedAlone(c: Capacities, moves: seq<Move>, md: MarketData, f: Feed, q: seq<MarketData>,
                  f': Feed, q': seq<MarketData>) returns (more: seq<Move>)
    requires FeedStands(c, moves, f, q) && FeedStep(true, f, q, c.ticks, true, Whole(md)) == FeedDid(true, f', q')
    ensures FeedStands(c, more, f', q')
  {
    more := moves + [FeedMoves(true, Whole(md))];
    RunOneMore(c, moves, FeedMoves(true, Whole(md)));
  }

  lemma OneCounted(c: Capacities, moves: seq<Move>, md: MarketData, q: seq<MarketData>) returns (more: seq<Move>)
    requires FeedStands(c, moves, Feed(FeedLoop, true, true, |q|, 0, q, []), q)
    ensures FeedStands(c, more, Feed(PushTick(md), true, true, |q| + 1, 0, q + [md], []), q)
  {
    var f := Feed(Receive, true, true, |q|, 0, q, []);
    more := FeedAlone(c, moves, md, f.(pc := FeedLoop), q, f, q);
    more := FeedAlone(c, more, md, f, q, f.(pc := CountTick(md)), q);
    more := FeedAlone(c, more, md, f.(pc := CountTick(md)), q,
                      Feed(PushTick(md), true, true, |q| + 1, 0, q + [md], []), q);
  }

  /** The same tick is received again and again until the queue is full. */
  lemma {:induction false} Filled(c: Capacities, md: MarketData, n: nat) returns (moves: seq<Move>, q: seq<MarketData>)
    requires n <= c.ticks
    ensures |q| == n && FeedStands(c, moves, Feed(FeedLoop, true, true, n, 0, q, []), q)
  {
    if n == 0 {
      moves, q := [], [];
    } else {
      moves, q := Filled(c, md, n - 1);
      moves := OneCounted(c, moves, md, q);
      var f := Feed(PushTick(md), true, true, n, 0, q + [md], []);
      moves := FeedAlone(c, moves, md, f, q, f.(pc := FeedLoop), q + [md]);
      q := q + [md];
    }
  }

  lemma FullQueue(c: Capacities, md: MarketData) returns (moves: seq<Move>, q: seq<MarketData>)
    ensures FeedStands(c, moves, Feed(SpinTest(md), true, true, c.ticks + 1, 1, q + [md], []), q)
  {
    moves, q := Filled(c, md, c.ticks);
    moves := OneCounted(c, moves, md, q);
    var f := Feed(PushTick(md), true, true, c.ticks + 1, 0, q + [md], []);
    moves := FeedAlone(c, moves, md, f, q, f.(pc := CountFull(md)), q);
    moves := FeedAlone(c, moves, md, f.(pc := CountFull(md)), q, f.(queueFullCount := 1, pc := SpinTest(md)), q);
  }

  /** A counted tick can indeed be lost, at any capacity: the queue stays full while the flag
      falls. */
  lemma LosesATick(c: Capacities, md: MarketData) returns (moves: seq<Move>)
    ensures Run(c, moves).feed.lost == [md]
  {
    var q;
    moves, q := FullQueue(c, md);
    RunOneMore(c, moves, Stop);
    RunOneMore(c, moves + [Stop], FeedMoves(true, Whole(md)));
    moves := moves + [Stop] + [FeedMoves(true, Whole(md))];
  }

  /** The feed receives only through a client whose connection has been announced.  What
      `is_initialized` answers agrees with there being a client everywhere but in two windows:
      it is still true when a lost client has just been dropped, and still false from the
      creation of a new client until its connection has succeeded. */
  lemma ReceivesConnected(c: Capacities, moves: seq<Move>, s: State)
    requires s == Run(c, moves)
    ensures s.feed.pc.Receive? ==> s.feed.client && s.feed.initialized
    ensures s.feed.initialized && !s.feed.client <==> s.feed.pc.ClearInitialized?
    ensures s.feed.client && !s.feed.initialized <==> Connecting(s.feed.pc)
  {
    ReachableInv(c, moves);
  }

  // ---- reconnection, over the history of attempts ----

  /** How the feed's attempts to reconnect ended, in order. */
  function Attempts(c: Capacities, moves: seq<Move>): seq<bool> {
    if moves == [] then []
    else
      var before, m := moves[..|moves| - 1], moves[|moves| - 1];
      Attempts(c, before)
      + if m.FeedMoves? && Run(c, before).feed.pc.Connect? then [m.connects] else []
  }

  /** How many attempts, up to the last, have failed in a row. */
  function Failures(outcomes: seq<bool>): nat {
    if outcomes == [] || outcomes[|outcomes| - 1] then 0 else 1 + Failures(outcomes[..|outcomes| - 1])
  }

  lemma FailuresNext(outcomes: seq<bool>, ok: bool)
    ensures Failures(outcomes + [ok]) == if ok then 0 else 1 + Failures(outcomes)
  {
    assert (outcomes + [ok])[..|outcomes|] == outcomes;
  }

  lemma {:induction false} LastFailures(outcomes: seq<bool>)
    ensures var n := Failures(outcomes);
            n <= |outcomes| && forall i :: |outcomes| - n <= i < |outcomes| ==> !outcomes[i]
  {
    if outcomes != [] && !outcomes[|outcomes| - 1] {
      var before := outcomes[..|outcomes| - 1];
      LastFailures(before);
      forall i | |outcomes| - Failures(outcomes) <= i < |outcomes|
        ensures !outcomes[i]
      {
        assert i < |before| ==> outcomes[i] == before[i];
      }
    }
  }

  /** The local retry counter is the number of attempts failed in a row; outside the retry loop
      no failure is pending. */
  ghost predicate RetriesCounted(f: Feed, failures: nat) {
    && failures <= MAX_RETRIES
    && (Retrying(f.pc) ==> failures == f.pc.retries)
    && (f.pc.AfterRetries? ==> failures == if f.client then 0 else f.pc.retries)
    && (!Retrying(f.pc) && !f.pc.AfterRetries? && !f.pc.FeedExit? ==> failures == 0)
  }

  lemma FeedCountsRetries(running: bool, f: Feed, q: seq<MarketData>, cap: nat, connects: bool, packet: Packet,
                          failures: nat)
    requires ConnectionKept(running, f) && RetriesCounted(f, failures)
    ensures RetriesCounted(FeedStep(running, f, q, cap, connects, packet).feed,
                           if !f.pc.Connect? then failures else if connects then 0 else failures + 1)
  {
  }

  lemma {:induction false} RetriesAreFailures(c: Capacities, moves: seq<Move>)
    ensures RetriesCounted(Run(c, moves).feed, Failures(Attempts(c, moves)))
  {
    if moves != [] {
      var before, m := moves[..|moves| - 1], moves[|moves| - 1];
      var s, outcomes := Run(c, before), Attempts(c, before);
      RetriesAreFailures(c, before);
      ReachableInv(c, before);
      if m.FeedMoves? {
        FeedCountsRetries(s.running, s.feed, s.tickQueue, c.ticks, m.connects, m.packet, Failures(outcomes));
        FailuresNext(outcomes, m.connects);
        assert outcomes + [] == outcomes;
      } else {
        OthersLeaveFeed(s, c, m);
        assert outcomes + [] == outcomes;
      }
    }
  }

  lemma AttemptsGrow(c: Capacities, moves: seq<Move>)
    requires moves != []
    ensures var before := Attempts(c, moves[..|moves| - 1]);
            before <= Attempts(c, moves) && |Attempts(c, moves)| <= |before| + 1
  {
  }

  /** No six attempts in a row ever fail. */
  lemma {:induction false} AtMostFiveFailures(c: Capacities, moves: seq<Move>, n: nat)
    requires n <= |Attempts(c, moves)|
    ensures Failures(Attempts(c, moves)[..n]) <= 5
  {
    var outcomes := Attempts(c, moves);
    if n == |outcomes| {
      RetriesAreFailures(c, moves);
      assert outcomes[..n] == outcomes;
    } else {
      var before := moves[..|moves| - 1];
      AttemptsGrow(c, moves);
      AtMostFiveFailures(c, before, n);
      assert outcomes[..n] == Attempts(c, before)[..n];
    }
  }

  lemma LowersFlag(s: State, c: Capacities, m: Move)
    requires ConnectionKept(s.running, s.feed) && s.running && !m.Stop? && !Step(s, c, m).running
    ensures m.FeedMoves? && s.feed.pc == AfterRetries(MAX_RETRIES) && !s.feed.client
  {
  }

  /** The feed lowers the flag itself only when its last five attempts to reconnect have failed. */
  lemma GivesUpAfterFive(c: Capacities, moves: seq<Move>, m: Move)
    requires Run(c, moves).running && !m.Stop? && !Step(Run(c, moves), c, m).running
    ensures var outcomes := Attempts(c, moves);
            && m.FeedMoves? && |outcomes| >= 5
            && forall i :: |outcomes| - 5 <= i < |outcomes| ==> !outcomes[i]
  {
    ReachableInv(c, moves);
    LowersFlag(Run(c, moves), c, m);
    RetriesAreFailures(c, moves);
    LastFailures(Attempts(c, moves));
  }

  lemma FlagStaysDown(s: State, c: Capacities, m: Move)
    requires !s.running
    ensures !Step(s, c, m).running
  {
  }

  /** A thread leaves its loop only once the flag is down. */
  lemma {:induction false} LeavesOnlyStopped(c: Capacities, moves: seq<Move>)
    ensures var s := Run(c, moves);
            s.feed.pc.FeedExit? || s.strategy.pc.StrategyExit? || s.execution.pc.ExecutionExit? ==> !s.running
  {
    if moves != [] {
      var before := moves[..|moves| - 1];
      LeavesOnlyStopped(c, before);
      LeavesStopped(Run(c, before), c, moves[|moves| - 1]);
    }
  }

  lemma LeavesStopped(s: State, c: Capacities, m: Move)
    requires s.feed.pc.FeedExit? || s.strategy.pc.StrategyExit? || s.execution.pc.ExecutionExit? ==> !s.running
    ensures var s' := Step(s, c, m);
            s'.feed.pc.FeedExit? || s'.strategy.pc.StrategyExit? || s'.execution.pc.ExecutionExit? ==> !s'.running
  {
  }

  /** The flag never rises again. */
  lemma {:induction false} FlagFallsOnce(c: Capacities, moves: seq<Move>, more: seq<Move>)
    requires !Run(c, moves).running
    ensures !Run(c, moves + more).running
  {
    if more == [] {
      assert moves + more == moves;
    } else {
      var all, last := moves + more, more[|more| - 1];
      FlagFallsOnce(c, moves, more[..|more| - 1]);
      assert all[..|all| - 1] == moves + more[..|more| - 1];
      FlagStaysDown(Run(c, all[..|all| - 1]), c, last);
    }
  }

  /** Accounting with the in-flight windows, at every step. */
  lemma PipelineAccounting(c: Capacities, moves: seq<Move>)
    ensures var s := Run(c, moves);
            s.strategy.signalsGenerated + InFlight(s.strategy.pc.CountSignal?)
            == s.execution.ordersSent + |s.signalQueue|
               + InFlight(s.execution.pc.Generate? || s.execution.pc.CountOrder?)
  {
    ReachableInv(c, moves);
  }

  ghost predicate Increasing(at: seq<nat>) {
    forall j, k :: 0 <= j < k < |at| ==> at[j] < at[k]
  }

  lemma {:induction false} StepwiseIncreasing(at: seq<nat>)
    requires forall k :: 0 <= k < |at| - 1 ==> at[k] < at[k + 1]
    ensures Increasing(at)
  {
    if |at| > 1 {
      var n := |at| - 1;
      StepwiseIncreasing(at[..n]);
      assert at[n - 1] < at[n];
      forall j | 0 <= j < n
        ensures at[j] < at[n]
      {
        assert j < n - 1 ==> at[..n][j] < at[..n][n - 1];
      }
    }
  }

  /** The order a tick asks for, if any.  A tick of tight spread: to buy 100 at its ask when its
      mid is below 190, to sell 100 at its bid when above 190.0005.  Any other tick: what the
      unset fields happened to ask for. */
  function Wanted(md: MarketData, u: Unset, id: nat): seq<ClientOrder> {
    if md.ask - md.bid < 0.05 then
      if (md.ask + md.bid) / 2.0 < 190.0 then [ClientOrder(md.symbol, Buy, md.ask, 100, id)]
      else if (md.ask + md.bid) / 2.0 > 190.0005 then [ClientOrder(md.symbol, Sell, md.bid, 100, id)]
      else []
    else if u.kind == 2 then []
    else [ClientOrder(md.symbol, if u.kind == 0 then Buy else Sell, u.price, u.quantity, id)]
  }

  /** Order `k` is what tick `i` asks for, and has id `k + 1`. */
  ghost predicate OrderFromTick(s: State, k: nat, i: nat) {
    && k < |s.execution.orders| && i < |s.feed.counted| && i < |s.strategy.unsets|
    && [s.execution.orders[k]] == Wanted(s.feed.counted[i], s.strategy.unsets[i], k + 1)
  }

  lemma OrderHasTick(s: State, c: Capacities, k: nat)
    requires Inv(s, c) && k < |s.execution.orders|
    ensures k < |s.strategy.pushedAt| && OrderFromTick(s, k, s.strategy.pushedAt[k])
  {
  }

  /** Orders are, in sequence and with consecutive ids from one on, what received ticks ask for:
      there are strictly increasing positions in the counted ticks, one for each order, that the
      orders come from. */
  lemma OrdersFollowTicks(c: Capacities, moves: seq<Move>) returns (at: seq<nat>)
    ensures var s := Run(c, moves);
            && |at| == |s.execution.orders| && Increasing(at)
            && forall k :: 0 <= k < |at| ==> OrderFromTick(s, k, at[k])
  {
    var s := Run(c, moves);
    ReachableInv(c, moves);
    StepwiseIncreasing(s.strategy.pushedAt);
    forall k | 0 <= k < |s.execution.orders|
      ensures k < |s.strategy.pushedAt| && OrderFromTick(s, k, s.strategy.pushedAt[k])
    {
      OrderHasTick(s, c, k);
    }
    assert |s.execution.orders| > 0 ==> |s.execution.orders| - 1 < |s.strategy.pushedAt|;
    at := s.strategy.pushedAt[..|s.execution.orders|];
  }

  /** The order is the signal's: a purchase exactly for a BUY. */
  predicate Fulfils(order: ClientOrder, signal: Signal, id: nat) {
    && order.orderId == id && order.symbol == signal.symbol
    && order.price == signal.price && order.quantity == signal.quantity
    && (order.side == Buy <==> signal.kind == 0)
  }

  lemma NothingInFlight(s: State, c: Capacities)
    requires Inv(s, c) && s.feed.pc.FeedExit? && s.strategy.pc.StrategyExit? && s.execution.pc.ExecutionExit?
    ensures s.feed.counted == s.strategy.popped + s.tickQueue + s.feed.lost && |s.feed.lost| <= 1
    ensures s.strategy.signalsGenerated == s.execution.ordersSent + |s.signalQueue|
    ensures s.execution.ordersSent == |s.execution.orders|
    ensures |Asking(s.strategy.computed)| == s.strategy.signalsGenerated + s.strategy.dropped
    ensures s.strategy.dropped == 0 ==> Asking(s.strategy.computed) == s.execution.taken + s.signalQueue
    ensures |s.execution.taken| == |s.execution.orders|
    ensures forall k :: 0 <= k < |s.execution.taken| ==>
              Fulfils(s.execution.orders[k], s.execution.taken[k], k + 1)
    ensures |s.strategy.computed| == |s.strategy.popped|
  {
  }

  /** Once the three threads have left their loops nothing is in flight: every counted tick has
      been popped, is queued or, one at most, is lost; every counted signal is an order sent or
      is queued; every signal asking for an order was counted or dropped; and if none was dropped,
      those taken and those queued are all the signals asking for an order, in order. */
  lemma AtShutdown(c: Capacities, moves: seq<Move>, s: State)
    requires s == Run(c, moves)
    requires s.feed.pc.FeedExit? && s.strategy.pc.StrategyExit? && s.execution.pc.ExecutionExit?
    ensures s.feed.counted == s.strategy.popped + s.tickQueue + s.feed.lost && |s.feed.lost| <= 1
    ensures s.strategy.signalsGenerated == s.execution.ordersSent + |s.signalQueue|
    ensures s.execution.ordersSent == |s.execution.orders|
    ensures |Asking(s.strategy.computed)| == s.strategy.signalsGenerated + s.strategy.dropped
    ensures s.strategy.dropped == 0 ==> Asking(s.strategy.computed) == s.execution.taken + s.signalQueue
    ensures |s.execution.taken| == |s.execution.orders|
    ensures forall k :: 0 <= k < |s.execution.taken| ==>
              Fulfils(s.execution.orders[k], s.execution.taken[k], k + 1)
    ensures |s.strategy.computed| == |s.strategy.popped|
  {
    ReachableInv(c, moves);
    NothingInFlight(s, c);
  }

  // ---- the threads do leave ----

  /** How many more moves of its own each thread makes at most once the flag is down. */
  function FeedLeft(pc: FeedPc): nat {
    match pc
    case FeedExit => 0
    case FeedLoop => 1
    case AfterRetries(_) => 2
    case RetryTest(_) => 3
    case MarkInitialized(_) => 3
    case Connect(_) => 4
    case NewClient(_) => 5
    case Reconnect(_) => 6
    case ClearInitialized => 2
    case SpinTest(_) => 2
    case SpinPush(_) => 3
    case CountFull(_) => 3
    case PushTick(_) => 4
    case CountTick(_) => 5
    case Receive => 6
  }

  function StrategyLeft(pc: StrategyPc): nat {
    match pc
    case StrategyExit => 0
    case StrategyLoop => 1
    case CountSignal => 2
    case PushSignal(_) => 3
    case Compute(_) => 4
    case PopTick => 5
  }

  function ExecutionLeft(pc: ExecutionPc): nat {
    match pc
    case ExecutionExit => 0
    case ExecutionLoop => 1
    case CountOrder => 2
    case Generate(_) => 3
    case PopSignal => 4
  }

  function Less(n: nat, k: nat): nat {
    if k <= n then n - k else 0
  }

  lemma FeedLeaves(f: Feed, q: seq<MarketData>, cap: nat, connects: bool, packet: Packet)
    ensures FeedLeft(FeedStep(false, f, q, cap, connects, packet).feed.pc) <= Less(FeedLeft(f.pc), 1)
  {
  }

  lemma StrategyLeaves(t: Strategy, q: seq<MarketData>, sq: seq<Signal>, cap: nat, u: Unset)
    ensures StrategyLeft(StrategyStep(false, t, q, sq, cap, u).strategy.pc) <= Less(StrategyLeft(t.pc), 1)
  {
  }

  lemma ExecutionLeaves(x: Execution, sq: seq<Signal>)
    ensures ExecutionLeft(ExecutionStep(false, x, sq).execution.pc) <= Less(ExecutionLeft(x.pc), 1)
  {
  }

  datatype Share = Share(feed: nat, strategy: nat, execution: nat)

  /** How many of these moves are each thread's own. */
  function Moved(moves: seq<Move>): Share {
    if moves == [] then Share(0, 0, 0)
    else
      var n := Moved(moves[..|moves| - 1]);
      match moves[|moves| - 1]
      case FeedMoves(_, _) => n.(feed := n.feed + 1)
      case StrategyMoves(_) => n.(strategy := n.strategy + 1)
      case ExecutionMoves => n.(execution := n.execution + 1)
      case Stop => n
  }

  ghost predicate LeftWithin(s: State, feed: nat, strategy: nat, execution: nat) {
    && FeedLeft(s.feed.pc) <= feed
    && StrategyLeft(s.strategy.pc) <= strategy
    && ExecutionLeft(s.execution.pc) <= execution
  }

  /** With the flag down, a move brings its thread nearer its exit and the others no further. */
  lemma MoveLeaves(s: State, c: Capacities, m: Move, feed: nat, strategy: nat, execution: nat)
    requires !s.running && LeftWithin(s, feed, strategy, execution)
    ensures var s' := Step(s, c, m);
            match m
            case FeedMoves(_, _) => LeftWithin(s', Less(feed, 1), strategy, execution)
            case StrategyMoves(_) => LeftWithin(s', feed, Less(strategy, 1), execution)
            case ExecutionMoves => LeftWithin(s', feed, strategy, Less(execution, 1))
            case Stop => LeftWithin(s', feed, strategy, execution)
  {
    match m
    case FeedMoves(connects, packet) => FeedLeaves(s.feed, s.tickQueue, c.ticks, connects, packet);
    case StrategyMoves(u) => StrategyLeaves(s.strategy, s.tickQueue, s.signalQueue, c.signals, u);
    case ExecutionMoves => ExecutionLeaves(s.execution, s.signalQueue);
    case Stop =>
  }

  lemma RunNext(c: Capacities, moves: seq<Move>, more: seq<Move>)
    requires more != []
    ensures Run(c, moves + more) == Step(Run(c, moves + more[..|more| - 1]), c, more[|more| - 1])
  {
    assert (moves + more)[..|moves + more| - 1] == moves + more[..|more| - 1];
  }

  /** From any reachable state with the flag down, whatever the others do, every thread is as
      many of its own moves nearer its exit as it has made. */
  lemma {:induction false} LeavingProgress(c: Capacities, moves: seq<Move>, more: seq<Move>)
    requires !Run(c, moves).running
    ensures var n := Moved(more);
            LeftWithin(Run(c, moves + more), Less(6, n.feed), Less(5, n.strategy), Less(4, n.execution))
  {
    if more == [] {
      assert moves + more == moves;
    } else {
      var before, n := more[..|more| - 1], Moved(more[..|more| - 1]);
      LeavingProgress(c, moves, before);
      FlagFallsOnce(c, moves, before);
      RunNext(c, moves, more);
      MoveLeaves(Run(c, moves + before), c, more[|more| - 1],
                 Less(6, n.feed), Less(5, n.strategy), Less(4, n.execution));
    }
  }

  /** Shutting down ends: once the flag is down, the feed has left after six moves of its own,
      the strategy after five and the execution after four, however the moves interleave and
      however full the queues are. */
  lemma ShutdownEnds(c: Capacities, moves: seq<Move>, more: seq<Move>)
    requires !Run(c, moves).running
    ensures var s := Run(c, moves + more); var n := Moved(more);
            && (n.feed >= 6 ==> s.feed.pc.FeedExit?)
            && (n.strategy >= 5 ==> s.strategy.pc.StrategyExit?)
            && (n.execution >= 4 ==> s.execution.pc.ExecutionExit?)
  {
    LeavingProgress(c, moves, more);
  }

  /** So whatever the schedule, a stopped client comes to rest with everything accounted for. */
  lemma ShutdownAccounts(c: Capacities, moves: seq<Move>, more: seq<Move>, s: State)
    requires !Run(c, moves).running && s == Run(c, moves + more)
    requires Moved(more).feed >= 6 && Moved(more).strategy >= 5 && Moved(more).execution >= 4
    ensures s.feed.counted == s.strategy.popped + s.tickQueue + s.feed.lost && |s.feed.lost| <= 1
    ensures s.strategy.signalsGenerated == s.execution.ordersSent + |s.signalQueue|
    ensures s.execution.ordersSent == |s.execution.orders|
    ensures |Asking(s.strategy.computed)| == s.strategy.signalsGenerated + s.strategy.dropped
    ensures s.strategy.dropped == 0 ==> Asking(s.strategy.computed) == s.execution.taken + s.signalQueue
    ensures |s.execution.taken| == |s.execution.orders|
    ensures forall k :: 0 <= k < |s.execution.taken| ==>
              Fulfils(s.execution.orders[k], s.execution.taken[k], k + 1)
  {
    ShutdownEnds(c, moves, more);
    AtShutdown(c, moves + more, s);
  }
}
