/** What `try_match` does to one side of the book, in four forms: the scan as it is written
    (`FullScan`), the scan that stops at the first price it cannot trade with (`EarlyExit`),
    the recursive "eat the front" specification (`Eat`), and the per-order allocation
    (`Fills`).  The lemmas show that they agree. */
module Matching {
  import opened Words
  import opened Orders

  // ---- the four forms ----

  /** `gone`: the resting orders consumed entirely; `rest`: the side afterwards;
      `left`: what the aggressor still wants. */
  datatype Eaten = Eaten(gone: seq<Order>, rest: seq<Order>, left: u32)

  function Eat(s: seq<Order>, a: Order): (e: Eaten)
    ensures e.left <= a.qty
  {
    if s == [] || a.qty == 0 || !Tradeable(a, s[0].price) then
      Eaten([], s, a.qty)
    else if s[0].qty <= a.qty then
      var e := Eat(s[1..], a.(qty := a.qty - s[0].qty));
      e.(gone := [s[0]] + e.gone)
    else
      Eaten([], [s[0].(qty := s[0].qty - a.qty)] + s[1..], 0)
  }

  /** `orders`: the vector after the scan and before any deletion; `ids`: the ids collected
      for deletion; `left`: the aggressor's quantity. */
  datatype Scanned = Scanned(orders: seq<Order>, ids: seq<u32>, left: u32)

  function FullScan(s: seq<Order>, a: Order): Scanned {
    if s == [] then
      Scanned([], [], a.qty)
    else if !Tradeable(a, s[0].price) then
      Passed(s[0], [], FullScan(s[1..], a))
    else if s[0].qty < a.qty then
      Passed(s[0], [s[0].id], FullScan(s[1..], a.(qty := a.qty - s[0].qty)))
    else
      Final(s, a)
  }

  function EarlyExit(s: seq<Order>, a: Order): Scanned {
    if s == [] || !Tradeable(a, s[0].price) then
      Scanned(s, [], a.qty)
    else if s[0].qty < a.qty then
      Passed(s[0], [s[0].id], EarlyExit(s[1..], a.(qty := a.qty - s[0].qty)))
    else
      Final(s, a)
  }

  function Passed(o: Order, ids: seq<u32>, r: Scanned): Scanned {
    Scanned([o] + r.orders, ids + r.ids, r.left)
  }

  /** The scan ends at `s[0]`: the aggressor is used up, and the resting order too when the
      two quantities are equal. */
  function Final(s: seq<Order>, a: Order): Scanned
    requires s != [] && a.qty <= s[0].qty
  {
    Scanned([s[0].(qty := s[0].qty - a.qty)] + s[1..], if s[0].qty == a.qty then [s[0].id] else [], 0)
  }

  /** The quantity each resting order gives up, in order. */
  function Fills(s: seq<Order>, a: Order): (f: seq<nat>)
    ensures |f| == |s|
  {
    if s == [] then
      []
    else
      var f := if !Tradeable(a, s[0].price) then 0 else if s[0].qty < a.qty then s[0].qty else a.qty;
      [f] + Fills(s[1..], a.(qty := a.qty - f))
  }

  function Sum(f: seq<nat>): nat {
    if f == [] then 0 else f[0] + Sum(f[1..])
  }

  /** The orders of `s` with these fills taken off, the emptied ones dropped. */
  function Surviving(s: seq<Order>, f: seq<nat>): seq<Order>
    requires |f| == |s|
  {
    if s == [] then []
    else (if f[0] >= s[0].qty then [] else [s[0].(qty := s[0].qty - f[0])]) + Surviving(s[1..], f[1..])
  }

  /** The total quantity resting at prices the aggressor may trade with. */
  function Depth(s: seq<Order>, a: Order): nat {
    if s == [] then 0
    else (if Tradeable(a, s[0].price) then s[0].qty else 0) + Depth(s[1..], a)
  }

  ghost predicate AllPositive(s: seq<Order>) {
    forall i :: 0 <= i < |s| ==> s[i].qty > 0
  }

  lemma Tail(s: seq<Order>, side: Side)
    requires s != []
    ensures Sorted(s, side) ==> Sorted(s[1..], side)
    ensures AllPositive(s) ==> AllPositive(s[1..])
  {
  }

  // ---- shape of the result ----

  /** `after` is `before`, or differs from it only in a smaller quantity of its front. */
  ghost predicate FrontReduced(before: seq<Order>, after: seq<Order>) {
    || after == before
    || (&& before != [] && after != []
        && after == [before[0].(qty := after[0].qty)] + before[1..]
        && 0 < after[0].qty < before[0].qty)
  }

  /** The orders removed are a prefix of the side, all at tradeable prices; at most one
      survivor changes, it is the new front, only its quantity changes, and then the
      aggressor is used up. */
  lemma {:induction false} EatShape(s: seq<Order>, a: Order)
    ensures var e := Eat(s, a); var k := |e.gone|;
            && k <= |s| && e.gone == s[..k] && |e.rest| == |s| - k
            && FrontReduced(s[k..], e.rest)
            && e.left <= a.qty && (e.rest != s[k..] ==> e.left == 0)
  {
    if s == [] || a.qty == 0 || !Tradeable(a, s[0].price) {
      assert s[0..] == s;
    } else if s[0].qty <= a.qty {
      EatShape(s[1..], a.(qty := a.qty - s[0].qty));
      var k := |Eat(s, a).gone|;
      assert s[1..][k - 1..] == s[k..];
      assert s[1..][..k - 1] == s[1..k];
    } else {
      assert s[0..] == s;
    }
  }

  lemma {:induction false} EatenAreTradeable(s: seq<Order>, a: Order, o: Order)
    requires o in Eat(s, a).gone
    ensures Tradeable(a, o.price)
  {
    if s != [] && a.qty > 0 && Tradeable(a, s[0].price) && s[0].qty <= a.qty && o != s[0] {
      EatenAreTradeable(s[1..], a.(qty := a.qty - s[0].qty), o);
    }
  }

  /** Conservation: the aggressor takes exactly what the side loses. */
  lemma {:induction false} EatConserves(s: seq<Order>, a: Order)
    ensures var e := Eat(s, a);
            e.left <= a.qty && TotalQty(s) == TotalQty(e.rest) + (a.qty - e.left)
  {
    if s == [] || a.qty == 0 || !Tradeable(a, s[0].price) {
    } else if s[0].qty <= a.qty {
      EatConserves(s[1..], a.(qty := a.qty - s[0].qty));
    }
  }

  /** Behind a price that cannot be traded with, a sorted side holds no other. */
  lemma {:induction false} NoDepthBehind(s: seq<Order>, a: Order)
    requires Sorted(s, a.side.Opp()) && s != [] && !Tradeable(a, s[0].price)
    ensures forall i :: 0 <= i < |s| ==> !Tradeable(a, s[i].price)
    ensures Depth(s, a) == 0
  {
    if |s| > 1 {
      assert !IsMoreCons(s[0].price, s[1].price, a.side.Opp().Bid?);
      NoDepthBehind(s[1..], a);
      forall i | 0 <= i < |s|
        ensures !Tradeable(a, s[i].price)
      {
        assert i > 0 ==> s[i] == s[1..][i - 1];
      }
    }
  }

  /** The quantity traded is the lesser of what the aggressor wants and the tradeable depth;
      an aggressor that still wants more leaves nothing it could trade with. */
  lemma {:induction false} EatExhausts(s: seq<Order>, a: Order)
    requires Sorted(s, a.side.Opp())
    ensures var e := Eat(s, a);
            && a.qty - e.left == (if a.qty <= Depth(s, a) then a.qty else Depth(s, a))
            && (e.left > 0 ==> forall o :: o in e.rest ==> !Tradeable(a, o.price))
  {
    if s == [] || a.qty == 0 {
    } else if !Tradeable(a, s[0].price) {
      NoDepthBehind(s, a);
    } else if s[0].qty <= a.qty {
      var a' := a.(qty := a.qty - s[0].qty);
      EatExhausts(s[1..], a');
      DepthByPrice(s[1..], a, a');
      assert forall o: Order :: Tradeable(a', o.price) == Tradeable(a, o.price);
    }
  }

  lemma {:induction false} DepthByPrice(s: seq<Order>, a: Order, b: Order)
    requires a.side == b.side && a.price == b.price
    ensures Depth(s, a) == Depth(s, b)
  {
    if s != [] {
      DepthByPrice(s[1..], a, b);
    }
  }

  // ---- the scan as written ----

  lemma {:induction false} NothingTradeable(s: seq<Order>, a: Order)
    requires forall i :: 0 <= i < |s| ==> !Tradeable(a, s[i].price)
    ensures FullScan(s, a) == Scanned(s, [], a.qty)
  {
    if s != [] {
      NothingTradeable(s[1..], a);
      assert [s[0]] + s[1..] == s;
    }
  }

  /** On a sorted side it makes no difference whether the scan goes on past an order it cannot
      trade with or stops there: same vector, same collected ids, same aggressor. */
  lemma {:induction false} FullScanIsEarlyExit(s: seq<Order>, a: Order)
    requires Sorted(s, a.side.Opp())
    ensures FullScan(s, a) == EarlyExit(s, a)
  {
    if s == [] {
    } else if !Tradeable(a, s[0].price) {
      NoDepthBehind(s, a);
      NothingTradeable(s, a);
    } else if s[0].qty < a.qty {
      FullScanIsEarlyExit(s[1..], a.(qty := a.qty - s[0].qty));
    }
  }

  /** The early-exit scan followed by cutting off the collected prefix is `Eat`: the collected
      ids are those of the orders eaten, in priority order, and what follows them in the
      scanned vector is the side that `Eat` leaves. */
  lemma {:induction false} EarlyExitIsEat(s: seq<Order>, a: Order)
    requires a.qty > 0 || AllPositive(s)
    ensures var r := EarlyExit(s, a); var e := Eat(s, a);
            && r.left == e.left
            && r.ids == Ids(e.gone)
            && |e.gone| <= |r.orders| && r.orders[|e.gone|..] == e.rest
  {
    if s == [] || !Tradeable(a, s[0].price) {
    } else if a.qty == 0 {
      assert s[0].(qty := s[0].qty - 0) == s[0];
      assert [s[0]] + s[1..] == s;
    } else if s[0].qty < a.qty {
      var a' := a.(qty := a.qty - s[0].qty);
      EarlyExitIsEat(s[1..], a');
      var r', g' := EarlyExit(s[1..], a'), Eat(s[1..], a').gone;
      assert Eat(s, a).gone == [s[0]] + g';
      assert Ids([s[0]] + g') == [s[0].id] + Ids(g');
      assert ([s[0]] + r'.orders)[1 + |g'|..] == r'.orders[|g'|..];
    } else if s[0].qty == a.qty {
      EatAll(s, a);
    }
  }

  lemma EatAll(s: seq<Order>, a: Order)
    requires s != [] && Tradeable(a, s[0].price) && s[0].qty == a.qty > 0
    ensures Eat(s, a) == Eaten([s[0]], s[1..], 0)
  {
  }

  /** The scan changes quantities only: every order keeps its place, id and side. */
  lemma {:induction false} EarlyExitKeepsIds(s: seq<Order>, a: Order)
    ensures var r := EarlyExit(s, a).orders;
            |r| == |s| && forall i :: 0 <= i < |s| ==> r[i].(qty := s[i].qty) == s[i]
  {
    if s != [] && Tradeable(a, s[0].price) && s[0].qty < a.qty {
      EarlyExitKeepsIds(s[1..], a.(qty := a.qty - s[0].qty));
    }
  }

  // ---- the allocation ----

  /** One step of the allocation: the front gives up what it can, the others share the rest. */
  lemma FillsStep(s: seq<Order>, a: Order, f: nat)
    requires s != [] && f == Fills(s, a)[0]
    ensures f <= a.qty && f <= s[0].qty
    ensures Fills(s, a)[1..] == Fills(s[1..], a.(qty := a.qty - f))
    ensures Sum(Fills(s, a)) == f + Sum(Fills(s[1..], a.(qty := a.qty - f)))
    ensures Surviving(s, Fills(s, a))
         == (if f == s[0].qty then [] else [s[0].(qty := s[0].qty - f)])
            + Surviving(s[1..], Fills(s[1..], a.(qty := a.qty - f)))
  {
  }

  /** The allocation takes from no order more than it offers, and only at tradeable prices. */
  lemma {:induction false} FillsFeasible(s: seq<Order>, a: Order)
    ensures forall i :: 0 <= i < |s| ==> Fills(s, a)[i] <= s[i].qty
    ensures forall i :: 0 <= i < |s| && Fills(s, a)[i] > 0 ==> Tradeable(a, s[i].price)
  {
    if s != [] {
      var f := Fills(s, a)[0];
      var a' := a.(qty := a.qty - f);
      FillsStep(s, a, f);
      FillsFeasible(s[1..], a');
      forall i | 0 <= i < |s|
        ensures Fills(s, a)[i] <= s[i].qty && (Fills(s, a)[i] > 0 ==> Tradeable(a, s[i].price))
      {
        if i > 0 {
          assert Fills(s, a)[i] == Fills(s[1..], a')[i - 1];
          assert Tradeable(a', s[1..][i - 1].price) == Tradeable(a, s[i].price);
        }
      }
    }
  }

  /** Nothing is allocated by an aggressor that wants nothing or can trade with nobody. */
  lemma {:induction false} NoFills(s: seq<Order>, a: Order)
    requires a.qty == 0 || forall i :: 0 <= i < |s| ==> !Tradeable(a, s[i].price)
    ensures Sum(Fills(s, a)) == 0
    ensures forall i :: 0 <= i < |s| ==> Fills(s, a)[i] == 0
  {
    if s != [] {
      FillsStep(s, a, 0);
      assert a.(qty := a.qty - 0) == a;
      NoFills(s[1..], a);
    }
  }

  lemma {:induction false} ZeroFillsSurvive(s: seq<Order>, f: seq<nat>)
    requires |f| == |s| && AllPositive(s) && forall i :: 0 <= i < |s| ==> f[i] == 0
    ensures Surviving(s, f) == s
  {
    if s != [] {
      ZeroFillsSurvive(s[1..], f[1..]);
      assert s[0].(qty := s[0].qty - 0) == s[0];
    }
  }

  lemma NothingTaken(s: seq<Order>, a: Order)
    requires AllPositive(s)
    requires a.qty == 0 || forall i :: 0 <= i < |s| ==> !Tradeable(a, s[i].price)
    ensures Sum(Fills(s, a)) == 0 && Surviving(s, Fills(s, a)) == s
  {
  }

  /** Taking the greedy allocation off the side and dropping the emptied orders is what
      matching leaves, and the aggressor's traded quantity is the sum of the fills. */
  lemma {:induction false} FillsAreEat(s: seq<Order>, a: Order)
    requires Sorted(s, a.side.Opp()) && AllPositive(s)
    ensures Surviving(s, Fills(s, a)) == Eat(s, a).rest
    ensures Sum(Fills(s, a)) == a.qty - Eat(s, a).left
  {
    if s == [] {
    } else if a.qty == 0 {
      NothingTaken(s, a);
    } else if !Tradeable(a, s[0].price) {
      NoDepthBehind(s, a);
      NothingTaken(s, a);
    } else if s[0].qty <= a.qty {
      FillsStep(s, a, s[0].qty);
      Tail(s, a.side.Opp());
      FillsAreEat(s[1..], a.(qty := a.qty - s[0].qty));
    } else {
      FillsStep(s, a, a.qty);
      Tail(s, a.side.Opp());
      NothingTaken(s[1..], a.(qty := 0));
    }
  }

  /** While the front is not filled completely, nothing is taken from behind it. */
  lemma FrontNotFilled(s: seq<Order>, a: Order)
    requires s != [] && Sorted(s, a.side.Opp()) && Fills(s, a)[0] < s[0].qty
    ensures forall j :: 1 <= j < |s| ==> Fills(s, a)[j] == 0
  {
    if !Tradeable(a, s[0].price) {
      NoDepthBehind(s, a);
      NoFills(s, a);
    } else {
      NoFills(s[1..], a.(qty := 0));
    }
  }

  /** Strict priority: an order gives something up only after every order in front of it on
      the sorted side has been filled completely. */
  lemma {:induction false} FrontFillsFirst(s: seq<Order>, a: Order, i: nat, j: nat)
    requires Sorted(s, a.side.Opp())
    requires i < j < |s| && Fills(s, a)[j] > 0
    ensures Fills(s, a)[i] == s[i].qty
  {
    if i == 0 {
      if Fills(s, a)[0] < s[0].qty {
        FrontNotFilled(s, a);
      }
    } else {
      var a' := a.(qty := a.qty - Fills(s, a)[0]);
      FillsTail(s, a);
      Tail(s, a.side.Opp());
      FrontFillsFirst(s[1..], a', i - 1, j - 1);
    }
  }

  lemma FillsTail(s: seq<Order>, a: Order)
    requires s != []
    ensures Fills(s, a)[0] <= a.qty
    ensures forall i :: 1 <= i < |s| ==> Fills(s, a)[i] == Fills(s[1..], a.(qty := a.qty - Fills(s, a)[0]))[i - 1]
  {
  }
}
