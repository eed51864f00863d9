/** What has happened to the pipeline, read off the history of moves, and that the state says
    exactly that: what the feed received and handed over, what the strategy popped, pushed and
    dropped, what the execution took, and whether there is a connection. */
module PipelineHistory {
  import opened Pipeline
  import opened PipelineRuns

  // ---- the feed ----

  /** `link`: how the last thing to happen to the connection ended; `received`: the whole packets
      that came; `handed`: the ticks for which a push met room; `met`: how many first pushes met
      a full queue; `abandoned`: the ticks whose spin met the fallen flag. */
  datatype FeedLog = FeedLog(
    link: bool, received: seq<MarketData>, handed: seq<MarketData>, met: nat, abandoned: seq<MarketData>)

  function FeedNotes(l: FeedLog, running: bool, pc: FeedPc, full: bool, connects: bool, packet: Packet): FeedLog {
    match pc
    case Receive =>
      (match packet
       case Disconnected => l.(link := false)
       case Incomplete => l
       case Whole(md) => l.(received := l.received + [md]))
    case Connect(_) => l.(link := connects)
    case PushTick(md) => if full then l.(met := l.met + 1) else l.(handed := l.handed + [md])
    case SpinPush(md) => if full then l else l.(handed := l.handed + [md])
    case SpinTest(md) => if running then l else l.(abandoned := l.abandoned + [md])
    case _ => l
  }

  function FeedHistory(c: Capacities, moves: seq<Move>): FeedLog {
    if moves == [] then FeedLog(true, [], [], 0, [])
    else
      var before, m := moves[..|moves| - 1], moves[|moves| - 1];
      var s := Run(c, before);
      if m.FeedMoves? then
        FeedNotes(FeedHistory(c, before), s.running, s.feed.pc, |s.tickQueue| == c.ticks, m.connects, m.packet)
      else FeedHistory(c, before)
  }

  /** A whole packet that has come and is about to be counted. */
  function AboutToCount(pc: FeedPc): seq<MarketData> {
    if pc.CountTick? then [pc.md] else []
  }

  ghost predicate ConnectionIsHistory(f: Feed, l: FeedLog) {
    && (f.client <==> l.link || f.pc.Connect?)
    && (f.initialized <==> (l.link && !f.pc.MarkInitialized?) || f.pc.ClearInitialized?)
  }

  ghost predicate ReceiptIsHistory(f: Feed, l: FeedLog) {
    f.counted + AboutToCount(f.pc) == l.received
  }

  ghost predicate FullQueueIsHistory(f: Feed, l: FeedLog) {
    f.queueFullCount + InFlight(f.pc.CountFull?) == l.met && f.lost == l.abandoned
  }

  ghost predicate TicksAreHistory(f: Feed, sent: seq<MarketData>, l: FeedLog) {
    ReceiptIsHistory(f, l) && FullQueueIsHistory(f, l) && sent == l.handed
  }

  lemma ConnectionNoted(running: bool, f: Feed, q: seq<MarketData>, cap: nat, connects: bool, packet: Packet,
                        l: FeedLog)
    requires ConnectionKept(running, f) && ConnectionIsHistory(f, l)
    ensures ConnectionIsHistory(FeedStep(running, f, q, cap, connects, packet).feed,
                                FeedNotes(l, running, f.pc, |q| == cap, connects, packet))
  {
  }

  lemma ConnectionIsNoReceipt(running: bool, f: Feed, q: seq<MarketData>, cap: nat, connects: bool, packet: Packet,
                              l: FeedLog)
    requires AboutConnection(f.pc)
    ensures var f' := FeedStep(running, f, q, cap, connects, packet).feed;
            var l' := FeedNotes(l, running, f.pc, |q| == cap, connects, packet);
            && f'.counted == f.counted && f'.queueFullCount == f.queueFullCount && f'.lost == f.lost
            && (f'.pc.Receive? || AboutConnection(f'.pc)) && l' == l.(link := l'.link)
  {
  }

  lemma ReceiptNoted(running: bool, f: Feed, q: seq<MarketData>, cap: nat, connects: bool, packet: Packet, l: FeedLog)
    requires ReceiptIsHistory(f, l) && !AboutConnection(f.pc)
    ensures ReceiptIsHistory(FeedStep(running, f, q, cap, connects, packet).feed,
                             FeedNotes(l, running, f.pc, |q| == cap, connects, packet))
  {
    if f.pc.CountTick? {
      assert f.counted + [f.pc.md] + [] == f.counted + [f.pc.md];
    }
  }

  lemma HandoverNoted(running: bool, f: Feed, popped: seq<MarketData>, q: seq<MarketData>, cap: nat, connects: bool,
                      packet: Packet, l: FeedLog)
    requires |q| <= cap && popped + q == l.handed
    ensures popped + FeedStep(running, f, q, cap, connects, packet).tickQueue
         == FeedNotes(l, running, f.pc, |q| == cap, connects, packet).handed
  {
    assert forall md: MarketData :: popped + (q + [md]) == popped + q + [md];
  }

  lemma FullQueueNoted(running: bool, f: Feed, q: seq<MarketData>, cap: nat, connects: bool, packet: Packet, l: FeedLog)
    requires |q| <= cap && FullQueueIsHistory(f, l) && !AboutConnection(f.pc)
    ensures FullQueueIsHistory(FeedStep(running, f, q, cap, connects, packet).feed,
                               FeedNotes(l, running, f.pc, |q| == cap, connects, packet))
  {
  }

  lemma TicksNoted(running: bool, f: Feed, popped: seq<MarketData>, q: seq<MarketData>, cap: nat, connects: bool,
                   packet: Packet, l: FeedLog)
    requires |q| <= cap && TicksAreHistory(f, popped + q, l)
    ensures var d := FeedStep(running, f, q, cap, connects, packet);
            TicksAreHistory(d.feed, popped + d.tickQueue, FeedNotes(l, running, f.pc, |q| == cap, connects, packet))
  {
    HandoverNoted(running, f, popped, q, cap, connects, packet, l);
    if AboutConnection(f.pc) {
      ConnectionIsNoReceipt(running, f, q, cap, connects, packet, l);
    } else {
      ReceiptNoted(running, f, q, cap, connects, packet, l);
      FullQueueNoted(running, f, q, cap, connects, packet, l);
    }
  }

  /** Popping a tick does not change what has been handed over. */
  lemma PopKeepsSent(running: bool, t: Strategy, q: seq<MarketData>, sq: seq<Signal>, cap: nat, u: Unset)
    ensures var d := StrategyStep(running, t, q, sq, cap, u); d.strategy.popped + d.tickQueue == t.popped + q
  {
  }

  lemma OthersKeepFeedNotes(s: State, c: Capacities, m: Move, l: FeedLog)
    requires !m.FeedMoves? && ConnectionIsHistory(s.feed, l)
    requires TicksAreHistory(s.feed, s.strategy.popped + s.tickQueue, l)
    ensures var s' := Step(s, c, m);
            ConnectionIsHistory(s'.feed, l) && TicksAreHistory(s'.feed, s'.strategy.popped + s'.tickQueue, l)
  {
    if m.StrategyMoves? {
      PopKeepsSent(s.running, s.strategy, s.tickQueue, s.signalQueue, c.signals, m.unset);
    }
  }

  /** The feed does what its history says: every whole packet received is counted, in order;
      every push that met room queued its tick; every first push that met a full queue was
      counted; every spin that met the fallen flag lost its tick; and there is a client, and it
      is announced, exactly as the last connection event has it, but for the two windows. */
  lemma {:induction false} FeedIsHistory(c: Capacities, moves: seq<Move>)
    ensures var s, l := Run(c, moves), FeedHistory(c, moves);
            ConnectionIsHistory(s.feed, l) && TicksAreHistory(s.feed, s.strategy.popped + s.tickQueue, l)
  {
    if moves != [] {
      var before, m := moves[..|moves| - 1], moves[|moves| - 1];
      var s, l := Run(c, before), FeedHistory(c, before);
      FeedIsHistory(c, before);
      ReachableInv(c, before);
      if m.FeedMoves? {
        ConnectionNoted(s.running, s.feed, s.tickQueue, c.ticks, m.connects, m.packet, l);
        TicksNoted(s.running, s.feed, s.strategy.popped, s.tickQueue, c.ticks, m.connects, m.packet, l);
      } else {
        OthersKeepFeedNotes(s, c, m, l);
      }
    }
  }

  // ---- after a lost connection ----

  lemma OneMore(c: Capacities, moves: seq<Move>, more: seq<Move>)
    requires more != []
    ensures var all := moves + more; all[..|all| - 1] == moves + more[..|more| - 1] && all[|all| - 1] == more[|more| - 1]
  {
  }

  lemma {:induction false} AttemptsExtend(c: Capacities, moves: seq<Move>, more: seq<Move>)
    ensures Attempts(c, moves) <= Attempts(c, moves + more)
  {
    if more == [] {
      assert moves + more == moves;
    } else {
      OneMore(c, moves, more);
      AttemptsExtend(c, moves, more[..|more| - 1]);
      AttemptsGrow(c, moves + more);
    }
  }

  /** An attempt that comes after `moves`, within `more`, succeeds. */
  ghost predicate Reconnects(c: Capacities, moves: seq<Move>, more: seq<Move>) {
    exists i :: |Attempts(c, moves)| <= i < |Attempts(c, moves + more)| && Attempts(c, moves + more)[i]
  }

  lemma LinkNext(c: Capacities, moves: seq<Move>)
    requires moves != []
    requires var before := moves[..|moves| - 1]; !FeedHistory(c, before).link && FeedHistory(c, moves).link
    ensures Attempts(c, moves) == Attempts(c, moves[..|moves| - 1]) + [true]
  {
  }

  lemma {:induction false} LinkNeedsAttempt(c: Capacities, moves: seq<Move>, more: seq<Move>)
    requires !FeedHistory(c, moves).link && FeedHistory(c, moves + more).link
    ensures Reconnects(c, moves, more)
  {
    assert moves + [] == moves;
    if more != [] {
      var last := more[..|more| - 1];
      OneMore(c, moves, more);
      AttemptsExtend(c, moves, last);
      if FeedHistory(c, moves + last).link {
        LinkNeedsAttempt(c, moves, last);
        AttemptsGrow(c, moves + more);
        var i :| |Attempts(c, moves)| <= i < |Attempts(c, moves + last)| && Attempts(c, moves + last)[i];
        assert Attempts(c, moves + more)[i];
      } else {
        LinkNext(c, moves + more);
        assert Attempts(c, moves + more)[|Attempts(c, moves + last)|];
      }
    }
  }

  lemma LosesLink(c: Capacities, moves: seq<Move>, m: Move)
    requires Run(c, moves).feed.pc.Receive? && m.FeedMoves? && m.packet.Disconnected?
    ensures !FeedHistory(c, moves + [m]).link
    ensures Run(c, moves + [m]).feed == Run(c, moves).feed.(client := false, pc := ClearInitialized)
  {
    assert (moves + [m])[..|moves|] == moves;
  }

  /** Once `recv` has reported a lost connection the feed does not receive again until an attempt
      to reconnect has succeeded. */
  lemma NoReceiptUntilReconnected(c: Capacities, moves: seq<Move>, m: Move, more: seq<Move>)
    requires Run(c, moves).feed.pc.Receive? && m.FeedMoves? && m.packet.Disconnected?
    requires Run(c, moves + [m] + more).feed.pc.Receive?
    ensures Reconnects(c, moves + [m], more)
  {
    LosesLink(c, moves, m);
    FeedIsHistory(c, moves + [m] + more);
    ReachableInv(c, moves + [m] + more);
    LinkNeedsAttempt(c, moves + [m], more);
  }

  // ---- what the feed goes on to do ----

  /** Ways the feed goes by its own moves while the flag is up: from a lost connection into the
      retry loop, through one attempt, from a connection made back to receiving, and from a
      queue that has room again to having handed the tick over. */
  datatype Way = Lost | Trying(retries: nat) | Connected | RoomAgain

  ghost predicate On(w: Way, s: State, c: Capacities, n: nat) {
    match w
    case Lost =>
      && (n == 0 ==> s.feed.pc.ClearInitialized? && !s.feed.client)
      && (n == 1 ==> s.feed.pc.FeedLoop? && !s.feed.client && !s.feed.initialized)
      && (n == 2 ==> s.feed.pc == RetryTest(0))
    case Trying(r) =>
      && (n == 0 ==> s.feed.pc == RetryTest(r) && r < 5)
      && (n == 1 ==> s.feed.pc == Reconnect(r))
      && (n == 2 ==> s.feed.pc == NewClient(r) && !s.feed.initialized)
      && (n == 3 ==> s.feed.pc == Connect(r) && s.feed.client)
    case Connected =>
      && (n == 0 ==> s.feed.pc.MarkInitialized? && s.feed.client)
      && (n == 1 ==> s.feed.pc.AfterRetries? && s.feed.client && s.feed.initialized)
      && (n == 2 ==> s.feed.pc.FeedLoop? && s.feed.client)
      && (n == 3 ==> s.feed.pc.Receive?)
    case RoomAgain =>
      && (n == 0 ==> s.feed.pc.SpinTest? && |s.tickQueue| < c.ticks)
      && (n == 1 ==> s.feed.pc.SpinPush? && |s.tickQueue| < c.ticks)
      && (n == 2 ==> s.feed.pc.FeedLoop?)
  }

  lemma WayGoesOn(w: Way, s: State, c: Capacities, m: Move, n: nat)
    requires On(w, s, c, n) && s.running
    ensures On(w, Step(s, c, m), c, if m.FeedMoves? then n + 1 else n)
  {
  }

  /** Whatever the others do in between, as long as the client is not stopped. */
  lemma {:induction false} FollowsWay(w: Way, c: Capacities, moves: seq<Move>, more: seq<Move>)
    requires On(w, Run(c, moves), c, 0) && Run(c, moves + more).running
    ensures On(w, Run(c, moves + more), c, Moved(more).feed)
  {
    if more == [] {
      assert moves + more == moves;
    } else {
      var before, last := moves + more[..|more| - 1], more[|more| - 1];
      RunNext(c, moves, more);
      if !Run(c, before).running {
        FlagStaysDown(Run(c, before), c, last);
      } else {
        FollowsWay(w, c, moves, more[..|more| - 1]);
        WayGoesOn(w, Run(c, before), c, last, Moved(more[..|more| - 1]).feed);
      }
    }
  }

  /** Two moves of its own after the report of a lost connection the feed is at the first test of
      the retry loop. */
  lemma LossLeadsToRetry(c: Capacities, moves: seq<Move>, m: Move, more: seq<Move>)
    requires Run(c, moves).feed.pc.Receive? && m.FeedMoves? && m.packet.Disconnected?
    requires Run(c, moves + [m] + more).running && Moved(more).feed == 2
    ensures Run(c, moves + [m] + more).feed.pc == RetryTest(0)
  {
    LosesLink(c, moves, m);
    FollowsWay(Lost, c, moves + [m], more);
  }

  /** While retries are left, each test of the retry loop leads to an attempt. */
  lemma RetryLeadsToAttempt(c: Capacities, moves: seq<Move>, r: nat, more: seq<Move>)
    requires r < 5 && Run(c, moves).feed.pc == RetryTest(r)
    requires Run(c, moves + more).running && Moved(more).feed == 3
    ensures Run(c, moves + more).feed.pc == Connect(r)
  {
    FollowsWay(Trying(r), c, moves, more);
  }

  /** A connection made leads back to receiving. */
  lemma ConnectionLeadsToReceipt(c: Capacities, moves: seq<Move>, more: seq<Move>)
    requires Run(c, moves).feed.pc.MarkInitialized?
    requires Run(c, moves + more).running && Moved(more).feed == 3
    ensures Run(c, moves + more).feed.pc.Receive?
  {
    ReachableInv(c, moves);
    FollowsWay(Connected, c, moves, more);
  }

  /** A feed spinning while the queue has room again has handed its tick over after two moves of
      its own: the others only make more room. */
  lemma RoomLetsTickIn(c: Capacities, moves: seq<Move>, more: seq<Move>)
    requires Run(c, moves).feed.pc.SpinTest? && |Run(c, moves).tickQueue| < c.ticks
    requires Run(c, moves + more).running && Moved(more).feed == 2
    ensures Run(c, moves + more).feed.pc.FeedLoop? && Run(c, moves + more).feed.lost == []
  {
    FollowsWay(RoomAgain, c, moves, more);
    ReachableInv(c, moves + more);
  }

  /** An incomplete packet leaves no trace: a connected feed that receives one is back where it
      was, and so is everything else. */
  lemma IncompleteChangesNothing(c: Capacities, moves: seq<Move>, first: Move, second: Move)
    requires var s := Run(c, moves); s.running && s.feed.pc.FeedLoop? && s.feed.client
    requires first.FeedMoves? && second.FeedMoves? && second.packet.Incomplete?
    ensures Run(c, moves + [first] + [second]) == Run(c, moves)
  {
    RunOneMore(c, moves, first);
    RunOneMore(c, moves + [first], second);
  }

  // ---- the strategy ----

  /** `fetched`: the fronts of the tick queue at the pops that found one; `unsets`: the unset
      fields met; `offered`: the signals whose push met room; `refused`: how many pushes met a
      full queue. */
  datatype StrategyLog = StrategyLog(
    fetched: seq<MarketData>, unsets: seq<Unset>, offered: seq<Signal>, refused: nat)

  function StrategyNotes(l: StrategyLog, pc: StrategyPc, q: seq<MarketData>, full: bool, u: Unset): StrategyLog {
    match pc
    case PopTick => if q == [] then l else l.(fetched := l.fetched + [q[0]])
    case Compute(_) => l.(unsets := l.unsets + [u])
    case PushSignal(signal) => if full then l.(refused := l.refused + 1) else l.(offered := l.offered + [signal])
    case _ => l
  }

  function StrategyHistory(c: Capacities, moves: seq<Move>): StrategyLog {
    if moves == [] then StrategyLog([], [], [], 0)
    else
      var before, m := moves[..|moves| - 1], moves[|moves| - 1];
      var s := Run(c, before);
      if m.StrategyMoves? then
        StrategyNotes(StrategyHistory(c, before), s.strategy.pc, s.tickQueue, |s.signalQueue| == c.signals, m.unset)
      else StrategyHistory(c, before)
  }

  ghost predicate SignalsAreHistory(t: Strategy, l: StrategyLog) {
    t.popped == l.fetched && t.unsets == l.unsets && t.pushed == l.offered && t.dropped == l.refused
  }

  lemma StrategyNoted(running: bool, t: Strategy, q: seq<MarketData>, sq: seq<Signal>, cap: nat, u: Unset,
                      l: StrategyLog)
    requires |sq| <= cap && SignalsAreHistory(t, l)
    ensures SignalsAreHistory(StrategyStep(running, t, q, sq, cap, u).strategy,
                              StrategyNotes(l, t.pc, q, |sq| == cap, u))
  {
  }

  lemma OthersKeepStrategy(s: State, c: Capacities, m: Move)
    requires !m.StrategyMoves?
    ensures Step(s, c, m).strategy == s.strategy
  {
  }

  /** The strategy does what its history says: it takes the front of the tick queue whenever it
      finds one, pushes a signal whenever there is room, and drops one only on a full queue. */
  lemma {:induction false} StrategyIsHistory(c: Capacities, moves: seq<Move>)
    ensures SignalsAreHistory(Run(c, moves).strategy, StrategyHistory(c, moves))
  {
    if moves != [] {
      var before, m := moves[..|moves| - 1], moves[|moves| - 1];
      var s, l := Run(c, before), StrategyHistory(c, before);
      StrategyIsHistory(c, before);
      ReachableInv(c, before);
      if m.StrategyMoves? {
        StrategyNoted(s.running, s.strategy, s.tickQueue, s.signalQueue, c.signals, m.unset, l);
      } else {
        OthersKeepStrategy(s, c, m);
      }
    }
  }

  /** The signal queue never fills before the last of these moves. */
  ghost predicate RoomForSignals(c: Capacities, moves: seq<Move>) {
    forall n :: 0 <= n < |moves| ==> |Run(c, moves[..n]).signalQueue| < c.signals
  }

  /** While the signal queue never fills, no signal is dropped. */
  lemma {:induction false} RoomDropsNone(c: Capacities, moves: seq<Move>)
    requires RoomForSignals(c, moves)
    ensures Run(c, moves).strategy.dropped == 0
  {
    if moves != [] {
      var before := moves[..|moves| - 1];
      forall n | 0 <= n < |before|
        ensures |Run(c, before[..n]).signalQueue| < c.signals
      {
        assert before[..n] == moves[..n];
      }
      RoomDropsNone(c, before);
      assert |Run(c, moves[..|before|]).signalQueue| < c.signals;
      StrategyIsHistory(c, before);
      StrategyIsHistory(c, moves);
    }
  }

  // ---- the execution ----

  /** The fronts of the signal queue at the pops that found one. */
  function Acted(c: Capacities, moves: seq<Move>): seq<Signal> {
    if moves == [] then []
    else
      var before := moves[..|moves| - 1];
      var s := Run(c, before);
      Acted(c, before)
      + if moves[|moves| - 1].ExecutionMoves? && s.execution.pc.PopSignal? && s.signalQueue != [] then [s.signalQueue[0]]
        else []
  }

  lemma ActedNext(s: State, c: Capacities, m: Move)
    ensures Step(s, c, m).execution.taken
         == s.execution.taken
            + if m.ExecutionMoves? && s.execution.pc.PopSignal? && s.signalQueue != [] then [s.signalQueue[0]] else []
  {
  }

  /** The execution takes the front of the signal queue whenever it finds one. */
  lemma {:induction false} ExecutionIsHistory(c: Capacities, moves: seq<Move>)
    ensures Run(c, moves).execution.taken == Acted(c, moves)
  {
    if moves != [] {
      ExecutionIsHistory(c, moves[..|moves| - 1]);
      ActedNext(Run(c, moves[..|moves| - 1]), c, moves[|moves| - 1]);
    }
  }
}
