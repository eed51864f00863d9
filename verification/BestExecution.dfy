/** The allocation that matching makes is the best one for the aggressor. */
module BestExecution {
  import opened Words
  import opened Orders
  import opened Matching

  /** What taking `x[i]` from each `s[i]` costs (or, selling, brings in). */
  function Value(s: seq<Order>, x: seq<nat>): int
    requires |x| == |s|
  {
    if s == [] then 0 else x[0] * s[0].price + Value(s[1..], x[1..])
  }

  /** `x` takes from no order more than it offers. */
  ghost predicate Feasible(s: seq<Order>, x: seq<nat>) {
    |x| == |s| && forall i :: 0 <= i < |s| ==> x[i] <= s[i].qty
  }

  /** `m` separates the prices taken from the prices left: an order not emptied is priced no
      better than `m`, an order touched is priced no worse. */
  ghost predicate Marginal(s: seq<Order>, f: seq<nat>, isBid: bool, m: int)
    requires |f| == |s|
  {
    forall i :: 0 <= i < |s| ==>
      && (f[i] < s[i].qty ==> if isBid then m <= s[i].price else s[i].price <= m)
      && (f[i] > 0 ==> if isBid then s[i].price <= m else m <= s[i].price)
  }

  ghost predicate AtOrBehind(m: int, front: int, isBid: bool) {
    if isBid then front <= m else m <= front
  }

  /** Matching has a marginal price, and it is no better than the front of the side. */
  lemma {:induction false} MarginalPrice(s: seq<Order>, a: Order) returns (m: int)
    requires Sorted(s, a.side.Opp())
    ensures Marginal(s, Fills(s, a), a.side.Bid?, m)
    ensures s != [] ==> AtOrBehind(m, s[0].price, a.side.Bid?)
  {
    m := 0;
    if s != [] {
      var f := Fills(s, a)[0];
      var a' := a.(qty := a.qty - f);
      FillsStep(s, a, f);
      m := s[0].price;
      if f == s[0].qty {
        if |s| > 1 {
          m := MarginalPrice(s[1..], a');
          assert !IsMoreCons(s[0].price, s[1].price, a.side.Opp().Bid?);
        }
      } else {
        if !Tradeable(a, s[0].price) {
          NoDepthBehind(s, a);
        }
        NoFills(s[1..], a');
        SortedPrices(s, a.side.Opp());
      }
    }
  }

  lemma SortedPrices(s: seq<Order>, side: Side)
    requires Sorted(s, side) && s != []
    ensures forall i :: 0 <= i < |s| ==> !IsMoreCons(s[0].price, s[i].price, side.Bid?)
  {
  }

  lemma GapTerm(x: int, f: int, p: int, m: int)
    requires x > f ==> m <= p
    requires x < f ==> p <= m
    ensures x * p - f * p >= m * x - m * f
  {
  }

  /** Moving from `f` to `x` costs at least `m` per unit moved in and saves at most `m` per
      unit moved out. */
  lemma {:induction false} ValueGap(s: seq<Order>, f: seq<nat>, x: seq<nat>, m: int, isBid: bool)
    requires Feasible(s, f) && Feasible(s, x) && Marginal(s, f, isBid, m)
    ensures isBid ==> Value(s, x) - Value(s, f) >= m * Sum(x) - m * Sum(f)
    ensures !isBid ==> Value(s, x) - Value(s, f) <= m * Sum(x) - m * Sum(f)
  {
    if s != [] {
      ValueGap(s[1..], f[1..], x[1..], m, isBid);
      if isBid {
        GapTerm(x[0], f[0], s[0].price, m);
      } else {
        GapTerm(f[0], x[0], s[0].price, m);
      }
      Distribute(m, x[0], Sum(x[1..]));
      Distribute(m, f[0], Sum(f[1..]));
    }
  }

  lemma Distribute(m: int, x: int, y: int)
    ensures m * (x + y) == m * x + m * y
  {
  }

  /** Best execution: among all ways of taking the traded quantity from the resting orders of
      a sorted side, none takes more than an order offers and is cheaper for a buying aggressor
      or dearer for a selling one than the allocation matching makes. */
  lemma BestExecution(s: seq<Order>, a: Order, x: seq<nat>)
    requires Sorted(s, a.side.Opp())
    requires Feasible(s, x) && Sum(x) == Sum(Fills(s, a))
    ensures a.side.Bid? ==> Value(s, Fills(s, a)) <= Value(s, x)
    ensures a.side.Ask? ==> Value(s, Fills(s, a)) >= Value(s, x)
  {
    FillsFeasible(s, a);
    var m := MarginalPrice(s, a);
    ValueGap(s, Fills(s, a), x, m, a.side.Bid?);
  }
}
