/** Priority within a price level: the code fills the newest order first. */
module Priority {
  import opened Words
  import opened Orders
  import opened Matching
  import opened Books
  import opened BookInvariant
  import opened BookRuns

  /** An order that comes to rest arrives now. */
  function Arrive(b: Book, e: Event, cap: nat, arr: map<u32, nat>, now: nat): map<u32, nat> {
    match e
    case Cancel(_) => arr
    case Trade(_) => arr
    case Submit(o) => if Add(b, o, cap).outcome.Rested? then arr[o.id := now] else arr
  }

  /** When each id last came to rest, counted in calls. */
  function Arrivals(evs: seq<Event>, cap: nat): map<u32, nat> {
    if evs == [] then map[]
    else
      var before := evs[..|evs| - 1];
      Arrive(Run(before, cap), evs[|before|], cap, Arrivals(before, cap), |before|)
  }

  /** Within a price level the orders stand newest first. */
  ghost predicate NewestFirst(s: seq<Order>, arr: map<u32, nat>, now: nat) {
    && (forall i :: 0 <= i < |s| ==> s[i].id in arr && arr[s[i].id] < now)
    && (forall i, j :: 0 <= i < j < |s| && s[i].price == s[j].price ==> arr[s[i].id] > arr[s[j].id])
  }

  lemma InsertNewestFirst(s: seq<Order>, o: Order, arr: map<u32, nat>, now: nat)
    requires NewestFirst(s, arr, now) && Sorted(s, o.side)
    requires forall i :: 0 <= i < |s| ==> s[i].id != o.id
    ensures NewestFirst(Insert(s, o), arr[o.id := now], now + 1)
  {
  }

  lemma EraseNewestFirst(s: seq<Order>, id: u32, arr: map<u32, nat>, now: nat)
    requires NewestFirst(s, arr, now)
    ensures NewestFirst(EraseId(s, id), arr, now)
  {
  }

  lemma MatchNewestFirst(s: seq<Order>, a: Order, arr: map<u32, nat>, now: nat)
    requires NewestFirst(s, arr, now)
    ensures NewestFirst(Eat(s, a).rest, arr, now)
  {
  }

  /** An older order is unaffected by a newcomer's arrival number. */
  lemma OtherArrivals(s: seq<Order>, id: u32, arr: map<u32, nat>, now: nat)
    requires NewestFirst(s, arr, now)
    requires forall i :: 0 <= i < |s| ==> s[i].id != id
    ensures NewestFirst(s, arr[id := now], now + 1)
  {
  }

  ghost predicate BookNewestFirst(b: Book, arr: map<u32, nat>, now: nat) {
    NewestFirst(b.bids, arr, now) && NewestFirst(b.asks, arr, now)
  }

  lemma RestNewestFirst(m: Book, o: Order, cap: nat, arr: map<u32, nat>, now: nat)
    requires Inv(m, cap) && BookNewestFirst(m, arr, now) && o.id !in m.index
    ensures BookNewestFirst(Rest(m, o), arr[o.id := now], now + 1)
  {
    NotResting(m, o.id, Bid);
    NotResting(m, o.id, Ask);
    InvSide(m, cap, o.side);
    InsertNewestFirst(m.Of(o.side), o, arr, now);
    OtherArrivals(m.Of(o.side.Opp()), o.id, arr, now);
  }

  lemma MatchedNewestFirst(b: Book, o: Order, arr: map<u32, nat>, now: nat)
    requires BookNewestFirst(b, arr, now)
    ensures BookNewestFirst(Match(b, o), arr, now) && BookNewestFirst(Match(b, o), arr, now + 1)
  {
    MatchNewestFirst(b.Of(o.side.Opp()), o, arr, now);
    Later(Match(b, o), arr, now);
  }

  lemma AddNewestFirst(b: Book, o: Order, cap: nat, arr: map<u32, nat>, now: nat)
    requires Inv(b, cap) && BookNewestFirst(b, arr, now)
    ensures var r := Add(b, o, cap);
            BookNewestFirst(r.book, if r.outcome.Rested? then arr[o.id := now] else arr, now + 1)
  {
    if Add(b, o, cap).outcome.Rested? {
      AddRests(b, o, cap);
      MatchedNewestFirst(b, o, arr, now);
      MatchKeepsInv(b, o, cap);
      RestNewestFirst(Match(b, o), o.(qty := Eat(b.Of(o.side.Opp()), o).left), cap, arr, now);
    } else if o.Valid() {
      MatchedNewestFirst(b, o, arr, now);
    } else {
      Later(b, arr, now);
    }
  }

  lemma Later(b: Book, arr: map<u32, nat>, now: nat)
    requires BookNewestFirst(b, arr, now)
    ensures BookNewestFirst(b, arr, now + 1)
  {
  }

  lemma CancelNewestFirst(b: Book, id: u32, arr: map<u32, nat>, now: nat)
    requires BookNewestFirst(b, arr, now)
    ensures BookNewestFirst(Remove(b, id), arr, now + 1)
  {
    EraseNewestFirst(b.bids, id, arr, now);
    EraseNewestFirst(b.asks, id, arr, now);
    Later(Remove(b, id), arr, now);
  }

  lemma StepNewestFirst(b: Book, e: Event, cap: nat, arr: map<u32, nat>, now: nat)
    requires Inv(b, cap) && BookNewestFirst(b, arr, now)
    ensures BookNewestFirst(Step(b, e, cap), Arrive(b, e, cap, arr, now), now + 1)
  {
    match e
    case Submit(o) => AddNewestFirst(b, o, cap, arr, now);
    case Cancel(id) => CancelNewestFirst(b, id, arr, now);
    case Trade(o) =>
      TradeCuts(b, o, cap);
      MatchedNewestFirst(b, o, arr, now);
  }

  /** In every reachable book two orders of equal side and price stand newest first. */
  lemma {:induction false} ReachableNewestFirst(evs: seq<Event>, cap: nat)
    ensures BookNewestFirst(Run(evs, cap), Arrivals(evs, cap), |evs|)
  {
    if evs != [] {
      var before := evs[..|evs| - 1];
      ReachableNewestFirst(before, cap);
      ReachableInv(before, cap);
      StepNewestFirst(Run(before, cap), evs[|evs| - 1], cap, Arrivals(before, cap), |before|);
    }
  }

  lemma NewerInFront(s: seq<Order>, arr: map<u32, nat>, now: nat, later: nat, earlier: nat)
    requires NewestFirst(s, arr, now) && later < |s| && earlier < |s|
    requires s[later].price == s[earlier].price && arr[s[later].id] > arr[s[earlier].id]
    ensures later < earlier
  {
  }

  /** So at one price the later arrival is filled first: in every reachable book, an aggressor
      that takes anything from the earlier order has emptied the later one. */
  lemma LaterFilledFirst(evs: seq<Event>, cap: nat, s: seq<Order>, a: Order, later: nat, earlier: nat)
    requires s == Run(evs, cap).Of(a.side.Opp()) && later < |s| && earlier < |s|
    requires s[later].id in Arrivals(evs, cap) && s[earlier].id in Arrivals(evs, cap)
    requires Arrivals(evs, cap)[s[later].id] > Arrivals(evs, cap)[s[earlier].id]
    requires s[later].price == s[earlier].price && Fills(s, a)[earlier] > 0
    ensures Fills(s, a)[later] == s[later].qty
  {
    ReachableInv(evs, cap);
    InvSide(Run(evs, cap), cap, a.side.Opp());
    ReachableNewestFirst(evs, cap);
    NewerInFront(s, Arrivals(evs, cap), |evs|, later, earlier);
    FrontFillsFirst(s, a, later, earlier);
  }

  lemma ArrivalsNext(evs: seq<Event>, e: Event, cap: nat)
    ensures Arrivals(evs + [e], cap) == Arrive(Run(evs, cap), e, cap, Arrivals(evs, cap), |evs|)
  {
    assert (evs + [e])[..|evs|] == evs;
  }

  const FIRST: Order := Order(Ask, 100, 1, 1)
  const SECOND: Order := Order(Ask, 100, 1, 2)

  lemma FirstAsk(cap: nat) returns (evs: seq<Event>)
    requires cap >= 1
    ensures Run(evs, cap) == Book([], [FIRST], map[1 := Ask]) && Arrivals(evs, cap) == map[1 := 0]
    ensures |evs| == 1
  {
    evs := [] + [Submit(FIRST)];
    RunNext([], Submit(FIRST), cap);
    ArrivalsNext([], Submit(FIRST), cap);
    AddAlone(EMPTY, FIRST, cap);
  }

  lemma SecondAsk(cap: nat) returns (evs: seq<Event>)
    requires cap >= 2
    ensures Run(evs, cap).asks == [SECOND, FIRST] && Arrivals(evs, cap) == map[1 := 0, 2 := 1]
  {
    var before := FirstAsk(cap);
    evs := before + [Submit(SECOND)];
    RunNext(before, Submit(SECOND), cap);
    ArrivalsNext(before, Submit(SECOND), cap);
    AddAlone(Run(before, cap), SECOND, cap);
  }

  lemma SecondIsFilled()
    ensures Fills([SECOND, FIRST], Order(Bid, 100, 1, 3)) == [1, 0]
  {
    assert Fills([FIRST], Order(Bid, 100, 0, 3)) == [0];
  }

  /** The reading of "price-time" as first in, first out fails: of two asks at one price the
      second to arrive is emptied while the first is not touched. */
  lemma FifoFails(cap: nat) returns (evs: seq<Event>, a: Order)
    requires cap >= 2
    ensures a.Valid() && a.side.Bid?
    ensures var s := Run(evs, cap).asks; var arr := Arrivals(evs, cap);
            && |s| == 2 && s[0].price == s[1].price
            && s[0].id in arr && s[1].id in arr && arr[s[1].id] < arr[s[0].id]
            && Fills(s, a) == [s[0].qty, 0]
  {
    evs := SecondAsk(cap);
    a := Order(Bid, 100, 1, 3);
    SecondIsFilled();
  }

  /** First in, first out: within a price level the orders stand oldest first. */
  ghost predicate OldestFirst(s: seq<Order>, arr: map<u32, nat>) {
    forall i, j :: 0 <= i < j < |s| && s[i].price == s[j].price ==>
      s[i].id in arr && s[j].id in arr && arr[s[i].id] < arr[s[j].id]
  }

  ghost predicate DistinctPrices(s: seq<Order>) {
    forall i, j :: 0 <= i < j < |s| ==> s[i].price != s[j].price
  }

  lemma BothOrdersIff(s: seq<Order>, arr: map<u32, nat>, now: nat)
    requires NewestFirst(s, arr, now)
    ensures OldestFirst(s, arr) <==> DistinctPrices(s)
  {
  }

  /** In every reachable book a side is in first-in, first-out order exactly when no two of its
      orders share a price. */
  lemma FifoIff(evs: seq<Event>, cap: nat, side: Side)
    ensures OldestFirst(Run(evs, cap).Of(side), Arrivals(evs, cap)) <==> DistinctPrices(Run(evs, cap).Of(side))
  {
    ReachableNewestFirst(evs, cap);
    BothOrdersIff(Run(evs, cap).Of(side), Arrivals(evs, cap), |evs|);
  }

  lemma InsertDistinctIff(s: seq<Order>, o: Order)
    requires DistinctPrices(s)
    ensures DistinctPrices(Insert(s, o)) <==> forall x :: x in s ==> x.price != o.price
  {
    var k := FindSlot(s, o);
    var r := Insert(s, o);
    assert forall i :: 0 <= i < |r| ==> r[i] == if i < k then s[i] else if i == k then o else s[i - 1];
    if x :| x in s && x.price == o.price {
      var m :| 0 <= m < |s| && s[m] == x;
      assert k <= m && r[m + 1] == x;
      assert r[k].price == r[m + 1].price;
    }
  }

  /** The own side after an `add` that rests. */
  lemma RestedSide(b: Book, o: Order, cap: nat)
    requires Add(b, o, cap).outcome.Rested?
    ensures Add(b, o, cap).book.Of(o.side)
         == Insert(b.Of(o.side), o.(qty := Eat(b.Of(o.side.Opp()), o).left))
  {
    AddRests(b, o, cap);
    OppositeSide(b, o);
  }

  /** Call by call: an `add` that rests keeps its side first in, first out exactly when no order
      of that side already rests at its price. */
  lemma AddKeepsFifoIff(evs: seq<Event>, cap: nat, o: Order)
    requires Add(Run(evs, cap), o, cap).outcome.Rested?
    requires OldestFirst(Run(evs, cap).Of(o.side), Arrivals(evs, cap))
    ensures var after := evs + [Submit(o)];
            OldestFirst(Run(after, cap).Of(o.side), Arrivals(after, cap))
            <==> forall x :: x in Run(evs, cap).Of(o.side) ==> x.price != o.price
  {
    FifoIff(evs, cap, o.side);
    FifoIff(evs + [Submit(o)], cap, o.side);
    RunNext(evs, Submit(o), cap);
    RestedSide(Run(evs, cap), o, cap);
    InsertDistinctIff(Run(evs, cap).Of(o.side), o.(qty := Eat(Run(evs, cap).Of(o.side.Opp()), o).left));
  }
}
