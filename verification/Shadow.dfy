/** The generator wired to the book as its only client: its list of live orders shadows the
    book after every action of every run. */
module Shadow {
  import opened Words
  import opened Orders
  import opened Matching
  import opened Books
  import opened BookInvariant
  import opened Quoting
  import BookRuns

  datatype System = System(book: Book, gen: Gen)

  const INITIAL: System := System(EMPTY, START)

  function ReplyOf(r: Added): Reply {
    Reply(r.outcome.Rested?, Ids(r.gone))
  }

  /** The calls to `add` one action makes, in order. */
  function Adds(cfg: Config, s: System, d: Draw, cap: nat): seq<Added> {
    match d
    case Cancel(_) => []
    case Aggress(side, qty) => [Add(s.book, AggressorOrder(cfg, s.gen.live, side, qty, NextId(s.gen.nextId)), cap)]
    case Quote(bj, bq, aj, aq) =>
      var bid := MmOrder(cfg, Bid, bj, bq, NextId(s.gen.nextId));
      var ask := MmOrder(cfg, Ask, aj, aq, NextId(bid.id));
      var first := Add(s.book, bid, cap);
      [first, Add(first.book, ask, cap)]
  }

  /** One order sent to the book: the fill callbacks reach the generator before it learns
      whether its order rests, and only then does it track it. */
  function Send(s: System, o: Order, cap: nat): System {
    var r := Add(s.book, o, cap);
    System(r.book, s.gen.(live := Absorb(s.gen.live, o, ReplyOf(r))))
  }

  function Step(cfg: Config, s: System, d: Draw, cap: nat): System {
    match d
    case Cancel(pick) =>
      if s.gen.live == [] then s
      else
        var id := PickId(s.gen.live, pick);
        System(Remove(s.book, id), s.gen.(live := EraseId(s.gen.live, id)))
    case Aggress(side, qty) =>
      var o := AggressorOrder(cfg, s.gen.live, side, qty, NextId(s.gen.nextId));
      Send(s.(gen := s.gen.(nextId := o.id)), o, cap)
    case Quote(bj, bq, aj, aq) =>
      var bid := MmOrder(cfg, Bid, bj, bq, NextId(s.gen.nextId));
      var ask := MmOrder(cfg, Ask, aj, aq, NextId(bid.id));
      Send(Send(s.(gen := s.gen.(nextId := ask.id)), bid, cap), ask, cap)
  }

  /** The system after a sequence of draws. */
  function RunFrom(cfg: Config, s: System, draws: seq<Draw>, cap: nat): System {
    if draws == [] then s
    else Step(cfg, RunFrom(cfg, s, draws[..|draws| - 1], cap), draws[|draws| - 1], cap)
  }

  function Run(cfg: Config, draws: seq<Draw>, cap: nat): System {
    RunFrom(cfg, INITIAL, draws, cap)
  }

  // ---- agreement ----

  /** `s` holds `o`'s id at its price, with some of its quantity. */
  ghost predicate Holds(s: seq<Order>, o: Order) {
    exists p :: p in s && p.id == o.id && p.price == o.price && 1 <= p.qty <= o.qty
  }

  /** A tracked order rests in the book on its side at its price, with some of its quantity. */
  ghost predicate Rests(o: Order, b: Book) {
    o.id in b.index && b.index[o.id] == o.side && Holds(b.Of(o.side), o)
  }

  /** The tracked orders are exactly the resting ones. */
  ghost predicate Agrees(live: seq<Order>, b: Book) {
    && DistinctIds(live)
    && (forall o :: o in live ==> Rests(o, b))
    && (forall id :: id in b.index ==> Has(live, id))
  }

  ghost predicate Good(s: System, cap: nat) {
    Inv(s.book, cap) && Agrees(s.gen.live, s.book)
  }

  lemma PrefixListed(s: seq<Order>, k: nat)
    requires k <= |s|
    ensures forall m :: 0 <= m < k ==> s[m].id in Ids(s[..k])
  {
  }

  /** An order of the side that was not eaten survives, perhaps reduced. */
  lemma Spared(s: seq<Order>, a: Order, o: Order)
    requires AllPositive(s) && Holds(s, o) && o.id !in Ids(Eat(s, a).gone)
    ensures Holds(Eat(s, a).rest, o)
  {
    EatShape(s, a);
    var e := Eat(s, a);
    var p :| p in s && p.id == o.id && p.price == o.price && 1 <= p.qty <= o.qty;
    var m :| 0 <= m < |s| && s[m] == p;
    PrefixListed(s, |e.gone|);
    Survivor(s, a, m - |e.gone|);
    assert e.rest[m - |e.gone|] in e.rest;
  }

  lemma IdsAreIdSet(s: seq<Order>)
    ensures forall id :: id in Ids(s) <==> id in IdSet(s)
  {
  }

  /** A tracked order that the match did not fill still rests. */
  lemma MatchRests(b: Book, a: Order, o: Order, cap: nat)
    requires Inv(b, cap) && Rests(o, b) && o.id !in Ids(Eat(b.Of(a.side.Opp()), a).gone)
    ensures Rests(o, Match(b, a))
  {
    var opp := a.side.Opp();
    var gone := Eat(b.Of(opp), a).gone;
    IdsAreIdSet(gone);
    InvSide(b, cap, opp);
    if o.side == opp {
      Spared(b.Of(opp), a, o);
    } else {
      assert Match(b, a).Of(o.side) == b.Of(o.side);
    }
  }

  /** What is left when the list drops some ids. */
  lemma ListKeeps(live: seq<Order>, ids: seq<u32>, id: u32)
    requires DistinctIds(live) && Has(live, id) && id !in ids
    ensures Has(EraseAll(live, ids), id)
  {
    EraseAllMembers(live, ids);
    assert At(live, id) in EraseAll(live, ids);
    HasIff(EraseAll(live, ids), id);
  }

  /** After the fills of a match have been notified, the list agrees with the matched book. */
  lemma MatchAgrees(b: Book, a: Order, live: seq<Order>, cap: nat)
    requires Inv(b, cap) && Agrees(live, b)
    ensures Agrees(EraseAll(live, Ids(Eat(b.Of(a.side.Opp()), a).gone)), Match(b, a))
  {
    var ids := Ids(Eat(b.Of(a.side.Opp()), a).gone);
    var live', m := EraseAll(live, ids), Match(b, a);
    EraseAllMembers(live, ids);
    IdsAreIdSet(Eat(b.Of(a.side.Opp()), a).gone);
    forall o | o in live'
      ensures Rests(o, m)
    {
      MatchRests(b, a, o, cap);
    }
    forall id | id in m.index
      ensures Has(live', id)
    {
      ListKeeps(live, ids, id);
    }
  }

  lemma InsertHolds(s: seq<Order>, o: Order, x: Order)
    ensures Holds(s, x) ==> Holds(Insert(s, o), x)
    ensures o.id == x.id && o.price == x.price && 1 <= o.qty <= x.qty ==> Holds(Insert(s, o), x)
  {
  }

  /** A newly rested order that is then tracked, at its original quantity, keeps agreement. */
  lemma RestAgrees(m: Book, o: Order, left: u32, live: seq<Order>)
    requires Agrees(live, m) && o.id !in m.index && 1 <= left <= o.qty
    ensures Agrees(live + [o], Rest(m, o.(qty := left)))
  {
    var r := Rest(m, o.(qty := left));
    forall x | x in live + [o]
      ensures Rests(x, r)
    {
      InsertHolds(m.Of(o.side), o.(qty := left), x);
    }
    forall id | id in r.index
      ensures Has(live + [o], id)
    {
      assert (if id == o.id then o else At(live, id)) in live + [o];
      HasIff(live + [o], id);
    }
    assert forall i :: 0 <= i < |live| ==> live[i] in live && live[i].id in m.index;
  }

  lemma SendAgrees(b: Book, live: seq<Order>, o: Order, cap: nat)
    requires Inv(b, cap) && Agrees(live, b)
    ensures var r := Add(b, o, cap); Agrees(Absorb(live, o, ReplyOf(r)), r.book)
  {
    var r := Add(b, o, cap);
    if r.outcome.Rested? {
      MatchAgrees(b, o, live, cap);
      BookRuns.AddRests(b, o, cap);
      RestAgrees(Match(b, o), o, Eat(b.Of(o.side.Opp()), o).left, EraseAll(live, Ids(r.gone)));
    } else if o.Valid() {
      MatchAgrees(b, o, live, cap);
    } else {
      assert Absorb(live, o, ReplyOf(r)) == live;
    }
  }

  lemma AddAgrees(s: System, o: Order, cap: nat)
    requires Good(s, cap)
    ensures Good(Send(s, o, cap), cap)
  {
    AddKeepsInv(s.book, o, cap);
    SendAgrees(s.book, s.gen.live, o, cap);
  }

  lemma EraseHolds(s: seq<Order>, id: u32, o: Order)
    requires DistinctIds(s) && Holds(s, o) && o.id != id
    ensures Holds(EraseId(s, id), o)
  {
  }

  lemma RemoveRests(b: Book, id: u32, o: Order)
    requires Linked(b) && Rests(o, b) && o.id != id
    ensures Rests(o, Remove(b, id))
  {
    EraseHolds(b.Of(o.side), id, o);
  }

  lemma RemoveAgrees(b: Book, live: seq<Order>, id: u32)
    requires Linked(b) && Agrees(live, b)
    ensures Agrees(EraseId(live, id), Remove(b, id))
  {
    var live', b' := EraseId(live, id), Remove(b, id);
    EraseIdMembers(live, id);
    forall o | o in live'
      ensures Rests(o, b')
    {
      RemoveRests(b, id, o);
    }
    forall x | x in b'.index
      ensures Has(live', x)
    {
      assert x != id;
      assert At(live, x) in live';
      HasIff(live', x);
    }
  }

  lemma StepGood(cfg: Config, s: System, d: Draw, cap: nat)
    requires Good(s, cap)
    ensures Good(Step(cfg, s, d, cap), cap)
  {
    match d
    case Cancel(pick) =>
      if s.gen.live != [] {
        var id := PickId(s.gen.live, pick);
        RemoveKeepsInv(s.book, id, cap);
        RemoveAgrees(s.book, s.gen.live, id);
      }
    case Aggress(side, qty) =>
      var o := AggressorOrder(cfg, s.gen.live, side, qty, NextId(s.gen.nextId));
      AddAgrees(s.(gen := s.gen.(nextId := o.id)), o, cap);
    case Quote(bj, bq, aj, aq) =>
      var bid := MmOrder(cfg, Bid, bj, bq, NextId(s.gen.nextId));
      var ask := MmOrder(cfg, Ask, aj, aq, NextId(bid.id));
      var s1 := s.(gen := s.gen.(nextId := ask.id));
      AddAgrees(s1, bid, cap);
      AddAgrees(Send(s1, bid, cap), ask, cap);
  }

  /** After every action of every run, however long, the generator's list and the book agree:
      same ids, each once, same sides and prices, book quantity between 1 and the tracked one. */
  lemma {:induction false} ShadowAgrees(cfg: Config, draws: seq<Draw>, cap: nat)
    ensures Good(Run(cfg, draws, cap), cap)
  {
    if draws != [] {
      ShadowAgrees(cfg, draws[..|draws| - 1], cap);
      StepGood(cfg, Run(cfg, draws[..|draws| - 1], cap), draws[|draws| - 1], cap);
    }
  }

  // ---- what agreement buys ----

  /** A resting order is tracked, at the same side and price. */
  lemma Tracked(s: System, side: Side, p: Order)
    requires Linked(s.book) && Agrees(s.gen.live, s.book) && p in s.book.Of(side)
    ensures exists o :: o in OnSide(s.gen.live, side) && o.price == p.price
  {
    var b := s.book;
    var i :| 0 <= i < |b.Of(side)| && b.Of(side)[i] == p;
    assert p.id in b.index && b.index[p.id] == side;
    var o := At(s.gen.live, p.id);
    assert o in s.gen.live && Rests(o, b);
    var q :| q in b.Of(side) && q.id == p.id && q.price == o.price;
    AtMember(b.Of(side), p);
    AtMember(b.Of(side), q);
    assert o in OnSide(s.gen.live, side);
  }

  /** A tracked order is priced no better than the front of its side. */
  lemma NoBetterThanFront(s: System, side: Side, o: Order, cap: nat)
    requires Good(s, cap) && o in OnSide(s.gen.live, side)
    ensures var v := s.book.Of(side); v != [] && !IsMoreCons(v[0].price, o.price, side.Bid?)
  {
  }

  /** The generator's linear scan finds the front price of the sorted side. */
  lemma BestIsFront(s: System, side: Side, cap: nat)
    requires Good(s, cap) && s.book.Of(side) != []
    ensures var live := OnSide(s.gen.live, side);
            live != [] && BestPrice(live, side) == s.book.Of(side)[0].price
  {
    var front := s.book.Of(side)[0];
    var live := OnSide(s.gen.live, side);
    Tracked(s, side, front);
    var t :| t in live && t.price == front.price;
    var best := BestPrice(live, side);
    var o :| o in live && o.price == best;
    NoBetterThanFront(s, side, o, cap);
  }

  /** So the price an aggressor is based on is the front of the opposite side. */
  lemma BestOpposite(cfg: Config, s: System, side: Side, cap: nat)
    requires Good(s, cap) && s.book.Of(side.Opp()) != []
    ensures s.book.Of(side.Opp())[0].price == if side.Bid? then BestAsk(cfg, s.gen.live) else BestBid(cfg, s.gen.live)
  {
    BestIsFront(s, side.Opp(), cap);
  }

  /** In every reachable state the quoted best bid and ask are the book's, on any side that is
      not empty. */
  lemma BestPricesAgree(cfg: Config, draws: seq<Draw>, cap: nat)
    ensures var s := Run(cfg, draws, cap);
            && (s.book.bids != [] ==> BestBid(cfg, s.gen.live) == s.book.bids[0].price)
            && (s.book.asks != [] ==> BestAsk(cfg, s.gen.live) == s.book.asks[0].price)
  {
    var s := Run(cfg, draws, cap);
    ShadowAgrees(cfg, draws, cap);
    if s.book.bids != [] {
      BestOpposite(cfg, s, Ask, cap);
    }
    if s.book.asks != [] {
      BestOpposite(cfg, s, Bid, cap);
    }
  }

  /** Every cancel the generator picks succeeds. */
  lemma CancelsSucceed(cfg: Config, draws: seq<Draw>, cap: nat, pick: nat)
    requires Run(cfg, draws, cap).gen.live != []
    ensures var s := Run(cfg, draws, cap); PickId(s.gen.live, pick) in s.book.index
  {
    var s := Run(cfg, draws, cap);
    ShadowAgrees(cfg, draws, cap);
    assert s.gen.live[pick % |s.gen.live|] in s.gen.live;
  }

  // ---- the band, in the wired system ----

  /** The answer of the `k`-th call to `add` in an action. */
  function NthReply(calls: seq<Added>, k: nat): Reply {
    if k < |calls| then ReplyOf(calls[k]) else Reply(false, [])
  }

  /** What the book answers in one action, and in each action of a run. */
  datatype Answers = Answers(first: Reply, second: Reply)

  function AnswersTo(cfg: Config, s: System, d: Draw, cap: nat): Answers {
    Answers(NthReply(Adds(cfg, s, d, cap), 0), NthReply(Adds(cfg, s, d, cap), 1))
  }

  function AllAnswers(cfg: Config, draws: seq<Draw>, cap: nat): (answers: seq<Answers>)
    ensures |answers| == |draws|
  {
    if draws == [] then []
    else
      var before := draws[..|draws| - 1];
      AllAnswers(cfg, before, cap) + [AnswersTo(cfg, Run(cfg, before, cap), draws[|before|], cap)]
  }

  /** These draws with these answers, as the generator sees them. */
  function Turns(draws: seq<Draw>, answers: seq<Answers>): (turns: seq<Turn>)
    requires |answers| == |draws|
    ensures |turns| == |draws| && forall i :: 0 <= i < |draws| ==> turns[i].draw == draws[i]
  {
    seq(|draws|, i requires 0 <= i < |draws| => Turn(draws[i], answers[i].first, answers[i].second))
  }

  lemma TurnsNext(draws: seq<Draw>, d: Draw, answers: seq<Answers>, a: Answers)
    requires |answers| == |draws|
    ensures Turns(draws + [d], answers + [a]) == Turns(draws, answers) + [Turn(d, a.first, a.second)]
  {
  }

  lemma StepIsGenStep(cfg: Config, s: System, d: Draw, cap: nat)
    ensures var a := AnswersTo(cfg, s, d, cap);
            Step(cfg, s, d, cap).gen == GenStep(cfg, s.gen, d, a.first, a.second)
  {
  }

  lemma GenRunNext(cfg: Config, before: seq<Turn>, t: Turn)
    ensures GenRun(cfg, before + [t]) == GenStep(cfg, GenRun(cfg, before), t.draw, t.first, t.second)
  {
    assert (before + [t])[..|before|] == before;
  }

  lemma GenFollows(cfg: Config, s: System, d: Draw, cap: nat, draws: seq<Draw>, answers: seq<Answers>)
    requires |answers| == |draws| && s.gen == GenRun(cfg, Turns(draws, answers))
    ensures Step(cfg, s, d, cap).gen == GenRun(cfg, Turns(draws + [d], answers + [AnswersTo(cfg, s, d, cap)]))
  {
    var a := AnswersTo(cfg, s, d, cap);
    StepIsGenStep(cfg, s, d, cap);
    GenRunNext(cfg, Turns(draws, answers), Turn(d, a.first, a.second));
    TurnsNext(draws, d, answers, a);
  }

  lemma RunNext(cfg: Config, draws: seq<Draw>, cap: nat)
    requires draws != []
    ensures var before := draws[..|draws| - 1];
            && draws == before + [draws[|before|]]
            && Run(cfg, draws, cap) == Step(cfg, Run(cfg, before, cap), draws[|before|], cap)
  {
  }

  /** The wired generator is one instance of the generator with arbitrary callbacks: the same
      draws, answered as the book answers them. */
  lemma {:induction false} RunIsGenRun(cfg: Config, draws: seq<Draw>, cap: nat)
    ensures Run(cfg, draws, cap).gen == GenRun(cfg, Turns(draws, AllAnswers(cfg, draws, cap)))
  {
    if draws != [] {
      var before := draws[..|draws| - 1];
      RunIsGenRun(cfg, before, cap);
      RunNext(cfg, draws, cap);
      GenFollows(cfg, Run(cfg, before, cap), draws[|before|], cap, before, AllAnswers(cfg, before, cap));
    }
  }

  ghost predicate DrawsInRange(cfg: Config, draws: seq<Draw>) {
    forall i :: 0 <= i < |draws| ==> draws[i].InRange(cfg)
  }

  lemma RunInBand(cfg: Config, draws: seq<Draw>, cap: nat)
    requires cfg.half >= 1 && cfg.offset >= 0 && BandFits(cfg) && DrawsInRange(cfg, draws)
    ensures AllInBand(cfg, Run(cfg, draws, cap).gen.live)
  {
    RunIsGenRun(cfg, draws, cap);
    PriceBand(cfg, Turns(draws, AllAnswers(cfg, draws, cap)));
  }

  /** In any good state, an aggressor priced `offset` past the best opposite price trades
      exactly when the offset is not negative. */
  lemma AggressorTrades(s: System, side: Side, o: Order, cap: nat, offset: int)
    requires Good(s, cap) && o.Valid() && o.side == side && s.book.Of(side.Opp()) != []
    requires var front := s.book.Of(side.Opp())[0].price;
             o.price == if side.Bid? then front + offset else front - offset
    ensures Add(s.book, o, cap).consumed >= 1 <==> offset >= 0
  {
    var v := s.book.Of(side.Opp());
    InvSide(s.book, cap, side.Opp());
    BookRuns.AddTrades(s.book, o, cap);
    assert Tradeable(o, v[0].price) <==> offset >= 0;
    FirstFill(v, o);
  }

  lemma FirstFill(v: seq<Order>, o: Order)
    requires v != [] && AllPositive(v) && o.qty > 0
    ensures Eat(v, o).left < o.qty <==> Tradeable(o, v[0].price)
  {
  }

  /** While the list is in the band, the aggressor is valid and priced exactly `offset` past the
      front of the opposite side. */
  lemma AggressorPrice(cfg: Config, s: System, side: Side, qty: u32, cap: nat)
    requires cfg.half >= 1 && cfg.offset >= 0 && BandFits(cfg) && qty >= 1
    requires Good(s, cap) && AllInBand(cfg, s.gen.live) && s.book.Of(side.Opp()) != []
    ensures var o := AggressorOrder(cfg, s.gen.live, side, qty, NextId(s.gen.nextId));
            var front := s.book.Of(side.Opp())[0].price;
            o.Valid() && o.price == if side.Bid? then front + cfg.offset else front - cfg.offset
  {
    AggressorInBand(cfg, s.gen.live, side, qty, NextId(s.gen.nextId));
    BestOpposite(cfg, s, side, cap);
  }

  /** Aggressors always trade: in every reachable state with a non-empty opposite side, the
      generated aggressor consumes at least one unit. */
  lemma AggressorsAlwaysTrade(cfg: Config, draws: seq<Draw>, cap: nat, side: Side, qty: u32, s: System)
    requires cfg.half >= 1 && cfg.offset >= 0 && BandFits(cfg) && DrawsInRange(cfg, draws) && qty >= 1
    requires s == Run(cfg, draws, cap) && s.book.Of(side.Opp()) != []
    ensures Add(s.book, AggressorOrder(cfg, s.gen.live, side, qty, NextId(s.gen.nextId)), cap).consumed >= 1
  {
    ShadowAgrees(cfg, draws, cap);
    RunInBand(cfg, draws, cap);
    AggressorPrice(cfg, s, side, qty, cap);
    AggressorTrades(s, side, AggressorOrder(cfg, s.gen.live, side, qty, NextId(s.gen.nextId)), cap, cfg.offset);
  }
}
