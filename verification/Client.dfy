/** The client's three thread loops, each with the source's own control flow.  Between any two
    accesses to what the threads share, the others may move; an arbitrary schedule says who moves
    and what the outside world gives it.  A move of the thread itself is made by its loop, until
    it has left it.  Whichever thread runs as its loop, the outcome is the
    pipeline's run of the whole schedule. */
module Client {
  import opened Pipeline

  datatype Thread = FeedThread | StrategyThread | ExecutionThread

  predicate Owns(t: Thread, m: Move) {
    match t
    case FeedThread => m.FeedMoves?
    case StrategyThread => m.StrategyMoves?
    case ExecutionThread => m.ExecutionMoves?
  }

  lemma OthersLeaveStrategy(s: State, c: Capacities, m: Move)
    requires !m.StrategyMoves?
    ensures Step(s, c, m).strategy == s.strategy
  {
  }

  lemma OthersLeaveExecution(s: State, c: Capacities, m: Move)
    requires !m.ExecutionMoves?
    ensures Step(s, c, m).execution == s.execution
  {
  }

  predicate AtExit(s: State, t: Thread) {
    match t
    case FeedThread => s.feed.pc.FeedExit?
    case StrategyThread => s.strategy.pc.StrategyExit?
    case ExecutionThread => s.execution.pc.ExecutionExit?
  }

  lemma ExitIsFinal(s: State, c: Capacities, m: Move, t: Thread)
    requires AtExit(s, t)
    ensures AtExit(Step(s, c, m), t)
  {
  }

  /** The positions `pc` are bookkeeping: the loops below write their own and never read it. */
  class Core {
    const caps: Capacities

    /** The thread that runs as its loop. */
    const me: Thread

    var running: bool
    var feed: Feed
    var strategy: Strategy
    var execution: Execution
    var tickQueue: seq<MarketData>
    var signalQueue: seq<Signal>

    /** The schedule: the moves still to come, and those that have come. */
    var todo: seq<Move>
    ghost var done: seq<Move>

    function State(): Pipeline.State
      reads this
    {
      Pipeline.State(running, feed, strategy, execution, tickQueue, signalQueue)
    }

    ghost function Schedule(): seq<Move>
      reads this
    {
      done + todo
    }

    /** Every move that has come has been carried out. */
    ghost predicate Settled()
      reads this
    {
      State() == Run(caps, done)
    }

    /** The last move that has come is about to be carried out. */
    ghost predicate Due(m: Move)
      reads this
    {
      done != [] && done[|done| - 1] == m && State() == Run(caps, done[..|done| - 1])
    }

    /** This thread has left its loop for good. */
    ghost predicate Exited()
      reads this
    {
      AtExit(State(), me)
    }

    constructor (caps: Capacities, me: Thread, schedule: seq<Move>)
      ensures this.caps == caps && this.me == me && State() == START && todo == schedule && done == []
    {
      this.caps, this.me := caps, me;
      running, feed, strategy, execution := START.running, START.feed, START.strategy, START.execution;
      tickQueue, signalQueue := START.tickQueue, START.signalQueue;
      todo, done := schedule, [];
    }

    // ---- the schedule ----

    /** A move that is not this thread's, or one that comes to it after it has left its loop. */
    method Interfere()
      requires Settled() && todo != [] && (Owns(me, todo[0]) ==> Exited())
      modifies this
      ensures Settled() && State() == Step(old(State()), caps, old(todo)[0])
      ensures todo == old(todo)[1..] && Schedule() == old(Schedule())
    {
      var s := Step(State(), caps, todo[0]);
      running, feed, strategy, execution := s.running, s.feed, s.strategy, s.execution;
      tickQueue, signalQueue := s.tickQueue, s.signalQueue;
      assert (done + [todo[0]])[..|done|] == done;
      assert done + todo == done + [todo[0]] + todo[1..];
      done, todo := done + [todo[0]], todo[1..];
    }

    /** The others move until it is this thread's turn, or the schedule ends. */
    method Await() returns (turn: bool, m: Move)
      requires Settled()
      modifies this
      ensures Schedule() == old(Schedule())
      ensures turn ==> Owns(me, m) && Due(m) && |todo| < |old(todo)|
      ensures !turn ==> Settled() && todo == []
      ensures me.FeedThread? ==> feed == old(feed)
      ensures me.StrategyThread? ==> strategy == old(strategy)
      ensures me.ExecutionThread? ==> execution == old(execution)
    {
      while todo != [] && !Owns(me, todo[0])
        invariant Settled() && Schedule() == old(Schedule()) && |todo| <= |old(todo)|
        invariant me.FeedThread? ==> feed == old(feed)
        invariant me.StrategyThread? ==> strategy == old(strategy)
        invariant me.ExecutionThread? ==> execution == old(execution)
        decreases |todo|
      {
        match me {
          case FeedThread => OthersLeaveFeed(State(), caps, todo[0]);
          case StrategyThread => OthersLeaveStrategy(State(), caps, todo[0]);
          case ExecutionThread => OthersLeaveExecution(State(), caps, todo[0]);
        }
        Interfere();
      }
      if todo == [] {
        return false, Stop;
      }
      turn, m := true, todo[0];
      assert (done + [m])[..|done|] == done;
      assert done + todo == done + [m] + todo[1..];
      done, todo := done + [m], todo[1..];
    }

    /** The thread has left its loop; the others go on to the end of the schedule. */
    method Drain()
      requires Settled() && Exited()
      modifies this
      ensures Settled() && todo == [] && Schedule() == old(Schedule()) && Exited()
    {
      while todo != []
        invariant Settled() && Schedule() == old(Schedule()) && Exited()
        decreases |todo|
      {
        ExitIsFinal(State(), caps, todo[0], me);
        Interfere();
      }
    }

    // ---- one access each: the writes a thread makes to what it owns and what it shares ----

    method FeedWrites(m: Move, run: bool, f: Feed, q: seq<MarketData>)
      requires Due(m) && m.FeedMoves?
      requires FeedDid(run, f, q) == FeedStep(running, feed, tickQueue, caps.ticks, m.connects, m.packet)
      modifies this`running, this`feed, this`tickQueue
      ensures Settled() && running == run && feed == f && tickQueue == q
    {
      running, feed, tickQueue := run, f, q;
    }

    method StrategyWrites(m: Move, t: Strategy, q: seq<MarketData>, sq: seq<Signal>)
      requires Due(m) && m.StrategyMoves?
      requires StrategyDid(t, q, sq) == StrategyStep(running, strategy, tickQueue, signalQueue, caps.signals, m.unset)
      modifies this`strategy, this`tickQueue, this`signalQueue
      ensures Settled() && strategy == t && tickQueue == q && signalQueue == sq
    {
      strategy, tickQueue, signalQueue := t, q, sq;
    }

    method ExecutionWrites(m: Move, x: Execution, sq: seq<Signal>)
      requires Due(m) && m.ExecutionMoves?
      requires ExecutionDid(x, sq) == ExecutionStep(running, execution, signalQueue)
      modifies this`execution, this`signalQueue
      ensures Settled() && execution == x && signalQueue == sq
    {
      execution, signalQueue := x, sq;
    }

    // ---- MarketFeed::receive_loop ----

    /** Connecting a new client: it is announced once it has connected, and dropped if it has
        not. */
    method ConnectClient(retries: nat) returns (ok: bool)
      requires me.FeedThread? && Settled() && feed.pc == Connect(retries) && feed.client
      modifies this
      ensures Settled() && Schedule() == old(Schedule()) && |todo| <= |old(todo)|
      ensures ok ==> feed.pc == AfterRetries(retries) && feed.client && feed.initialized
      ensures !ok ==> !feed.pc.AfterRetries?
      ensures !ok ==> todo == [] || (feed.pc == RetryTest(retries + 1) && !feed.client)
    {
      var turn, m := Await();
      if !turn { return false; }
      if !m.connects {
        FeedWrites(m, running, feed.(client := false, pc := RetryTest(retries + 1)), tickQueue);
        return false;
      }
      FeedWrites(m, running, feed.(pc := MarkInitialized(retries)), tickQueue);

      turn, m := Await();
      if !turn { return false; }
      FeedWrites(m, running, feed.(initialized := true, pc := AfterRetries(retries)), tickQueue);
      return true;
    }

    /** One attempt to reconnect: drop the old client, make a new one and connect it. */
    method TryReconnect(retries: nat) returns (ok: bool)
      requires me.FeedThread? && Settled() && feed.pc == Reconnect(retries)
      modifies this
      ensures Settled() && Schedule() == old(Schedule()) && |todo| <= |old(todo)|
      ensures ok ==> feed.pc == AfterRetries(retries) && feed.client && feed.initialized
      ensures !ok ==> !feed.pc.AfterRetries?
      ensures !ok ==> todo == [] || (feed.pc == RetryTest(retries + 1) && !feed.client)
    {
      var turn, m := Await();
      if !turn { return false; }
      FeedWrites(m, running, feed.(client := false, initialized := false, pc := NewClient(retries)), tickQueue);

      turn, m := Await();
      if !turn { return false; }
      FeedWrites(m, running, feed.(client := true, pc := Connect(retries)), tickQueue);
      ok := ConnectClient(retries);
    }

    /** The retry loop, after the null check has failed.  It ends with a connection, after the
        fifth failure, or because the flag has fallen - or is cut short by the end of the
        schedule. */
    method RetryLoop()
      requires me.FeedThread? && Settled() && feed.pc == RetryTest(0)
      modifies this
      ensures Settled() && Schedule() == old(Schedule()) && |todo| <= |old(todo)|
      ensures feed.pc.AfterRetries? ==> feed.client || feed.pc.retries == MAX_RETRIES || !running
      ensures !feed.pc.AfterRetries? ==> todo == []
    {
      var retryCount := 0;
      while true
        invariant Settled() && Schedule() == old(Schedule()) && |todo| <= |old(todo)|
        invariant feed.pc == RetryTest(retryCount) && retryCount <= MAX_RETRIES
        decreases |todo|
      {
        var turn, m := Await();
        if !turn { return; }
        if !(retryCount < MAX_RETRIES && running) {
          FeedWrites(m, running, feed.(pc := AfterRetries(retryCount)), tickQueue);
          return;
        }
        FeedWrites(m, running, feed.(pc := Reconnect(retryCount)), tickQueue);

        var ok := TryReconnect(retryCount);
        if ok { return; }
        if todo == [] { return; }
        retryCount := retryCount + 1;
      }
    }

    /** The null check after the retry loop.  False when the thread gives up. */
    method StillThere() returns (alive: bool)
      requires me.FeedThread? && Settled() && feed.pc.AfterRetries?
      modifies this
      ensures Settled() && Schedule() == old(Schedule()) && |todo| <= |old(todo)|
      ensures alive ==> feed.pc == FeedLoop || todo == []
      ensures !alive ==> Exited()
    {
      var turn, m := Await();
      if !turn { return true; }
      alive := feed.client;
      if alive {
        FeedWrites(m, running, feed.(pc := FeedLoop), tickQueue);
      } else {
        FeedWrites(m, false, feed.(pc := FeedExit), tickQueue);
      }
    }

    /** One more push of the tick in hand. */
    method PushAgain(md: MarketData) returns (pushed: bool)
      requires me.FeedThread? && Settled() && feed.pc == SpinPush(md)
      modifies this
      ensures Settled() && Schedule() == old(Schedule()) && |todo| <= |old(todo)| && feed.lost == old(feed.lost)
      ensures pushed ==> feed.pc == FeedLoop && tickQueue != [] && tickQueue[|tickQueue| - 1] == md
      ensures !pushed ==> feed.pc != FeedLoop && (feed.pc == SpinTest(md) || todo == [])
    {
      var turn, m := Await();
      if !turn { return false; }
      pushed := |tickQueue| < caps.ticks;
      if pushed {
        FeedWrites(m, running, feed.(pc := FeedLoop), tickQueue + [md]);
      } else {
        FeedWrites(m, running, feed.(pc := SpinTest(md)), tickQueue);
      }
    }

    /** Spinning on a full queue until there is room, and the tick is queued, or the flag has
        fallen, and the tick is lost - or until the end of the schedule. */
    method Spin(md: MarketData)
      requires me.FeedThread? && Settled() && feed.pc == SpinTest(md)
      modifies this
      ensures Settled() && Schedule() == old(Schedule()) && |todo| <= |old(todo)|
      ensures feed.pc == FeedLoop || todo == []
      ensures feed.pc == FeedLoop ==>
                || (!running && feed.lost == old(feed.lost) + [md])
                || (feed.lost == old(feed.lost) && tickQueue != [] && tickQueue[|tickQueue| - 1] == md)
    {
      while true
        invariant Settled() && Schedule() == old(Schedule()) && |todo| <= |old(todo)|
        invariant feed.pc == SpinTest(md) && feed.lost == old(feed.lost)
        decreases |todo|
      {
        var turn, m := Await();
        if !turn { return; }
        if !running {
          FeedWrites(m, running, feed.(lost := feed.lost + [md], pc := FeedLoop), tickQueue);
          return;
        }
        FeedWrites(m, running, feed.(pc := SpinPush(md)), tickQueue);

        var pushed := PushAgain(md);
        if pushed { return; }
        if todo == [] { return; }
      }
    }

    /** Pushing a counted tick. */
    method HandOver(md: MarketData)
      requires me.FeedThread? && Settled() && feed.pc == PushTick(md)
      modifies this
      ensures Settled() && Schedule() == old(Schedule()) && |todo| <= |old(todo)|
      ensures feed.pc == FeedLoop || todo == []
    {
      var turn, m := Await();
      if !turn { return; }
      if |tickQueue| < caps.ticks {
        FeedWrites(m, running, feed.(pc := FeedLoop), tickQueue + [md]);
        return;
      }
      FeedWrites(m, running, feed.(pc := CountFull(md)), tickQueue);

      turn, m := Await();
      if !turn { return; }
      FeedWrites(m, running, feed.(queueFullCount := feed.queueFullCount + 1, pc := SpinTest(md)), tickQueue);
      Spin(md);
    }

    /** Counting a tick received, and handing it over. */
    method CountAndHandOver(md: MarketData)
      requires me.FeedThread? && Settled() && feed.pc == CountTick(md)
      modifies this
      ensures Settled() && Schedule() == old(Schedule()) && |todo| <= |old(todo)|
      ensures feed.pc == FeedLoop || todo == []
    {
      var turn, m := Await();
      if !turn { return; }
      FeedWrites(m, running, feed.(ticksReceived := feed.ticksReceived + 1, counted := feed.counted + [md],
                                   pc := PushTick(md)), tickQueue);
      HandOver(md);
    }

    /** Dropping a client that has lost its connection. */
    method DropClient()
      requires me.FeedThread? && Settled() && feed.pc == ClearInitialized
      modifies this
      ensures Settled() && Schedule() == old(Schedule()) && |todo| <= |old(todo)|
      ensures feed.pc == FeedLoop || todo == []
    {
      var turn, m := Await();
      if !turn { return; }
      FeedWrites(m, running, feed.(initialized := false, pc := FeedLoop), tickQueue);
    }

    /** Receiving, and what follows from the result. */
    method ReceiveOne()
      requires me.FeedThread? && Settled() && feed.pc == Receive
      modifies this
      ensures Settled() && Schedule() == old(Schedule()) && |todo| <= |old(todo)|
      ensures feed.pc == FeedLoop || todo == []
    {
      var turn, m := Await();
      if !turn { return; }
      match m.packet {
        case Disconnected =>
          FeedWrites(m, running, feed.(client := false, pc := ClearInitialized), tickQueue);
          DropClient();
        case Incomplete =>
          FeedWrites(m, running, feed.(pc := FeedLoop), tickQueue);
        case Whole(md) =>
          FeedWrites(m, running, feed.(pc := CountTick(md)), tickQueue);
          CountAndHandOver(md);
      }
    }

    method ReceiveLoop()
      requires me.FeedThread? && Settled() && feed.pc == FeedLoop
      modifies this
      ensures Settled() && todo == [] && Schedule() == old(Schedule())
    {
      while true
        invariant Settled() && Schedule() == old(Schedule()) && feed.pc == FeedLoop
        decreases |todo|
      {
        var turn, m := Await();
        if !turn { return; }
        if !running {
          FeedWrites(m, running, feed.(pc := FeedExit), tickQueue);
          break;
        }
        if !feed.client {
          FeedWrites(m, running, feed.(pc := RetryTest(0)), tickQueue);
          RetryLoop();
          if todo == [] { return; }
          var alive := StillThere();
          if !alive { break; }
        } else {
          FeedWrites(m, running, feed.(pc := Receive), tickQueue);
          ReceiveOne();
        }
        if todo == [] { return; }
      }
      Drain();
    }

    // ---- Core::_strategy_loop ----

    /** Pushing a signal, and counting it unless the queue is full. */
    method PushAndCount(signal: Signal)
      requires me.StrategyThread? && Settled() && strategy.pc == PushSignal(signal)
      modifies this
      ensures Settled() && Schedule() == old(Schedule()) && |todo| <= |old(todo)|
      ensures strategy.pc == StrategyLoop || todo == []
    {
      var turn, m := Await();
      if !turn { return; }
      if |signalQueue| >= caps.signals {
        StrategyWrites(m, strategy.(dropped := strategy.dropped + 1, pc := StrategyLoop), tickQueue, signalQueue);
        return;
      }
      var at := if strategy.computed == [] then 0 else |strategy.computed| - 1;
      StrategyWrites(m, strategy.(pushed := strategy.pushed + [signal], pushedAt := strategy.pushedAt + [at],
                                  pc := CountSignal), tickQueue, signalQueue + [signal]);

      turn, m := Await();
      if !turn { return; }
      StrategyWrites(m, strategy.(signalsGenerated := strategy.signalsGenerated + 1, pc := StrategyLoop),
                     tickQueue, signalQueue);
    }

    /** The body of the loop for a popped tick. */
    method ActOn(md: MarketData)
      requires me.StrategyThread? && Settled() && strategy.pc == Compute(md)
      modifies this
      ensures Settled() && Schedule() == old(Schedule()) && |todo| <= |old(todo)|
      ensures strategy.pc == StrategyLoop || todo == []
    {
      var turn, m := Await();
      if !turn { return; }
      var signal := ComputeSignal(md, m.unset);
      var t := strategy.(unsets := strategy.unsets + [m.unset], computed := strategy.computed + [signal]);
      if signal.kind == HOLD {
        StrategyWrites(m, t.(pc := StrategyLoop), tickQueue, signalQueue);
        return;
      }
      StrategyWrites(m, t.(pc := PushSignal(signal)), tickQueue, signalQueue);
      PushAndCount(signal);
    }

    method RunStrategy()
      requires me.StrategyThread? && Settled() && strategy.pc == StrategyLoop
      modifies this
      ensures Settled() && todo == [] && Schedule() == old(Schedule())
    {
      while true
        invariant Settled() && Schedule() == old(Schedule()) && strategy.pc == StrategyLoop
        decreases |todo|
      {
        var turn, m := Await();
        if !turn { return; }
        if !running {
          StrategyWrites(m, strategy.(pc := StrategyExit), tickQueue, signalQueue);
          break;
        }
        StrategyWrites(m, strategy.(pc := PopTick), tickQueue, signalQueue);

        turn, m := Await();
        if !turn { return; }
        if tickQueue == [] {
          StrategyWrites(m, strategy.(pc := StrategyLoop), tickQueue, signalQueue);
        } else {
          var md := tickQueue[0];
          StrategyWrites(m, strategy.(popped := strategy.popped + [md], pc := Compute(md)), tickQueue[1..],
                         signalQueue);
          ActOn(md);
          if todo == [] { return; }
        }
      }
      Drain();
    }

    // ---- Core::_execution_loop ----

    /** Making an order from a popped signal, and counting it. */
    method Execute(signal: Signal)
      requires me.ExecutionThread? && Settled() && execution.pc == Generate(signal)
      modifies this
      ensures Settled() && Schedule() == old(Schedule()) && |todo| <= |old(todo)|
      ensures execution.pc == ExecutionLoop || todo == []
    {
      var turn, m := Await();
      if !turn { return; }
      var order := GenerateOrder(signal, execution.nextOrderId);
      ExecutionWrites(m, execution.(nextOrderId := execution.nextOrderId + 1, orders := execution.orders + [order],
                                    pc := CountOrder), signalQueue);

      turn, m := Await();
      if !turn { return; }
      ExecutionWrites(m, execution.(ordersSent := execution.ordersSent + 1, pc := ExecutionLoop), signalQueue);
    }

    method RunExecution()
      requires me.ExecutionThread? && Settled() && execution.pc == ExecutionLoop
      modifies this
      ensures Settled() && todo == [] && Schedule() == old(Schedule())
    {
      while true
        invariant Settled() && Schedule() == old(Schedule()) && execution.pc == ExecutionLoop
        decreases |todo|
      {
        var turn, m := Await();
        if !turn { return; }
        if !running {
          ExecutionWrites(m, execution.(pc := ExecutionExit), signalQueue);
          break;
        }
        ExecutionWrites(m, execution.(pc := PopSignal), signalQueue);

        turn, m := Await();
        if !turn { return; }
        if signalQueue == [] {
          ExecutionWrites(m, execution.(pc := ExecutionLoop), signalQueue);
        } else {
          var signal := signalQueue[0];
          ExecutionWrites(m, execution.(taken := execution.taken + [signal], pc := Generate(signal)),
                          signalQueue[1..]);
          Execute(signal);
          if todo == [] { return; }
        }
      }
      Drain();
    }
  }

  /** One run from start.  Whichever thread runs as its loop, under any schedule the client ends
      in the pipeline's state and so keeps its invariant. */
  method RunThread(caps: Capacities, schedule: seq<Move>, t: Thread) returns (core: Core)
    ensures fresh(core) && core.caps == caps && core.me == t
    ensures core.State() == Run(caps, schedule) && Inv(core.State(), caps)
  {
    core := new Core(caps, t, schedule);
    assert core.Schedule() == schedule;
    match t {
      case FeedThread => core.ReceiveLoop();
      case StrategyThread => core.RunStrategy();
      case ExecutionThread => core.RunExecution();
    }
    assert core.done == core.Schedule();
    ReachableInv(caps, schedule);
  }
}
