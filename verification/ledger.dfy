/**
 * The portfolio of `session_state["portfolio"]`: the positions held, in the
 * order they were opened, each with a share count and a weighted-average
 * purchase price; how a buy and a sell change them; and the valuation of
 * `calculate_portfolio_summary`.
 */
module Ledger {
  import opened Wrappers
  import opened Market

  /** One entry of `portfolio["stocks"]`: the stock, the shares held and the
      average price paid for them. */
  datatype Position = Position(name: string, quantity: int, cost: real)

  /** The index of the position in `name`, or -1. */
  function PositionIndex(h: seq<Position>, name: string): (i: int)
    ensures -1 <= i < |h|
    ensures i >= 0 ==> h[i].name == name
    ensures i == -1 <==> forall k :: 0 <= k < |h| ==> h[k].name != name
  {
    if h == [] then -1
    else if h[|h| - 1].name == name then |h| - 1
    else PositionIndex(h[..|h| - 1], name)
  }

  /** `portfolio["stocks"].get(name)`. */
  function Lookup(h: seq<Position>, name: string): (r: Option<Position>)
    ensures r.None? <==> forall k :: 0 <= k < |h| ==> h[k].name != name
    ensures r.Some? ==> r.value in h && r.value.name == name
  {
    var i := PositionIndex(h, name);
    if i >= 0 then Some(h[i]) else None
  }

  /** No stock is held twice. */
  predicate DistinctNames(h: seq<Position>) {
    forall i, j :: 0 <= i < j < |h| ==> h[i].name != h[j].name
  }

  /** No stock is held twice and every position holds at least one share. */
  predicate HoldingsOk(h: seq<Position>) {
    DistinctNames(h) && forall i :: 0 <= i < |h| ==> h[i].quantity > 0
  }

  /** In holdings without repeats, the position found for a name is the one
      at its index. */
  lemma LookupAt(h: seq<Position>, i: nat)
    requires DistinctNames(h) && i < |h|
    ensures Lookup(h, h[i].name) == Some(h[i])
  {
  }

  /** Overwriting a position with one of the same stock changes what is found
      for that stock only. */
  lemma LookupReplaced(h: seq<Position>, i: nat, x: Position)
    requires DistinctNames(h) && i < |h| && x.name == h[i].name
    ensures DistinctNames(h[i := x])
    ensures Lookup(h[i := x], x.name) == Some(x)
    ensures forall n :: n != x.name ==> Lookup(h[i := x], n) == Lookup(h, n)
  {
    var r := h[i := x];
    LookupAt(r, i);
    forall n | n != x.name
      ensures Lookup(r, n) == Lookup(h, n)
    {
      var k := PositionIndex(h, n);
      if k >= 0 {
        LookupAt(h, k);
        LookupAt(r, k);
      }
    }
  }

  /** Appending a position for a stock not yet held changes what is found for
      that stock only. */
  lemma LookupAppended(h: seq<Position>, x: Position)
    requires DistinctNames(h) && Lookup(h, x.name).None?
    ensures DistinctNames(h + [x])
    ensures Lookup(h + [x], x.name) == Some(x)
    ensures forall n :: n != x.name ==> Lookup(h + [x], n) == Lookup(h, n)
  {
    var r := h + [x];
    LookupAt(r, |h|);
    forall n | n != x.name
      ensures Lookup(r, n) == Lookup(h, n)
    {
      var k := PositionIndex(h, n);
      if k >= 0 {
        LookupAt(h, k);
        LookupAt(r, k);
      }
    }
  }

  /** Removing a position leaves its stock not held and changes nothing else. */
  lemma LookupRemoved(h: seq<Position>, i: nat)
    requires DistinctNames(h) && i < |h|
    ensures DistinctNames(h[..i] + h[i + 1..])
    ensures Lookup(h[..i] + h[i + 1..], h[i].name).None?
    ensures forall n :: n != h[i].name ==> Lookup(h[..i] + h[i + 1..], n) == Lookup(h, n)
  {
    var r := h[..i] + h[i + 1..];
    RemovedEntries(h, i);
    forall n | n != h[i].name
      ensures Lookup(r, n) == Lookup(h, n)
    {
      var k := PositionIndex(h, n);
      if k >= 0 {
        var k' := if k < i then k else k - 1;
        assert r[k'] == h[k];
        LookupAt(h, k);
        LookupAt(r, k');
      } else {
        forall m | 0 <= m < |r|
          ensures r[m].name != n
        {
          assert r[m] == h[if m < i then m else m + 1];
        }
      }
    }
  }

  /** The entries left after removing entry `i`: those before it, then those
      after it, none of them for its stock. */
  lemma RemovedEntries(h: seq<Position>, i: nat)
    requires DistinctNames(h) && i < |h|
    ensures var r := h[..i] + h[i + 1..];
      && |r| == |h| - 1
      && (forall k :: 0 <= k < |r| ==> r[k] == if k < i then h[k] else h[k + 1])
      && DistinctNames(r)
      && forall k :: 0 <= k < |r| ==> r[k].name != h[i].name
  {
    var r := h[..i] + h[i + 1..];
    assert forall k :: 0 <= k < i ==> r[k] == h[k];
    assert forall k :: i <= k < |r| ==> r[k] == h[k + 1];
    forall a, b | 0 <= a < b < |r|
      ensures r[a].name != r[b].name
    {
      var a' := if a < i then a else a + 1;
      var b' := if b < i then b else b + 1;
      assert r[a] == h[a'] && r[b] == h[b'] && a' < b';
    }
    forall k | 0 <= k < |r|
      ensures r[k].name != h[i].name
    {
      var k' := if k < i then k else k + 1;
      assert r[k] == h[k'] && k' != i;
    }
  }

  /** The purchase price after adding `q` shares bought at `price` to `q0`
      shares that cost `a0` on average: the total paid over the total held,
      and 0 when the total held is not positive. */
  function AverageCost(q0: int, a0: real, q: int, price: int): (a: real)
    ensures q0 + q > 0 ==> a * (q0 + q) as real == q0 as real * a0 + q as real * price as real
    ensures q0 + q <= 0 ==> a == 0.0
  {
    var total := q0 as real * a0 + q as real * price as real;
    if q0 + q > 0 then total / (q0 + q) as real else 0.0
  }

  /** Buying more never moves the average outside the old average and the
      new price. */
  lemma AverageCostBetween(q0: int, a0: real, q: int, price: int)
    requires q0 > 0 && q > 0
    ensures var a := AverageCost(q0, a0, q, price);
      (a0 <= a <= price as real) || (price as real <= a <= a0)
  {
    var a := AverageCost(q0, a0, q, price);
    var m, k, p := q0 as real, q as real, price as real;
    assert a * (m + k) == m * a0 + k * p;
    Shift(a, a0, p, m, k);
    ProductSign(k, p - a0);
    ProductSign(m, p - a0);
    FactorSign(a - a0, m + k);
    FactorSign(p - a, m + k);
  }

  /** The two distances of the new average from the old average and from the
      price, scaled by the shares held. */
  lemma Shift(a: real, a0: real, p: real, m: real, k: real)
    requires a * (m + k) == m * a0 + k * p
    ensures (a - a0) * (m + k) == k * (p - a0)
    ensures (p - a) * (m + k) == m * (p - a0)
  {
  }

  lemma FactorSign(x: real, n: real)
    requires n > 0.0
    ensures x * n >= 0.0 ==> x >= 0.0
    ensures x * n <= 0.0 ==> x <= 0.0
  {
  }

  /** Two buys of the same stock leave the same average whatever their order. */
  lemma AverageCostCommutes(q0: int, a0: real, q1: int, p1: int, q2: int, p2: int)
    requires q0 >= 0 && q1 > 0 && q2 > 0
    ensures AverageCost(q0 + q1, AverageCost(q0, a0, q1, p1), q2, p2)
         == AverageCost(q0 + q2, AverageCost(q0, a0, q2, p2), q1, p1)
  {
    var n := (q0 + q1 + q2) as real;
    var left := AverageCost(q0 + q1, AverageCost(q0, a0, q1, p1), q2, p2);
    var right := AverageCost(q0 + q2, AverageCost(q0, a0, q2, p2), q1, p1);
    var total := q0 as real * a0 + q1 as real * p1 as real + q2 as real * p2 as real;
    assert left * n == total;
    assert right * n == total;
  }

  /** The positions after buying `q` shares of `name` at `price`: an existing
      position is topped up at the new average cost, otherwise a position is
      opened at the end with the price as its cost. */
  function Bought(h: seq<Position>, name: string, q: int, price: int): (r: seq<Position>)
    requires HoldingsOk(h) && q > 0
    ensures HoldingsOk(r)
    ensures Lookup(r, name) == Some(match Lookup(h, name)
      case Some(p) => Position(name, p.quantity + q, AverageCost(p.quantity, p.cost, q, price))
      case None => Position(name, q, price as real))
    ensures forall n :: n != name ==> Lookup(r, n) == Lookup(h, n)
  {
    var i := PositionIndex(h, name);
    if i >= 0 then
      LookupAt(h, i);
      var x := Position(name, h[i].quantity + q, AverageCost(h[i].quantity, h[i].cost, q, price));
      LookupReplaced(h, i, x);
      h[i := x]
    else
      var x := Position(name, q, price as real);
      LookupAppended(h, x);
      h + [x]
  }

  /** The positions after selling `q` of the shares held in `name`: the
      position keeps its cost and is removed once no share is left. */
  function Sold(h: seq<Position>, name: string, q: int): (r: seq<Position>)
    requires HoldingsOk(h) && Lookup(h, name).Some? && 0 < q <= Lookup(h, name).value.quantity
    ensures HoldingsOk(r)
    ensures var p := Lookup(h, name).value;
      Lookup(r, name) == if p.quantity == q then None else Some(p.(quantity := p.quantity - q))
    ensures forall n :: n != name ==> Lookup(r, n) == Lookup(h, n)
  {
    var i := PositionIndex(h, name);
    LookupAt(h, i);
    var left := h[i].quantity - q;
    if left == 0 then
      LookupRemoved(h, i);
      h[..i] + h[i + 1..]
    else
      LookupReplaced(h, i, h[i].(quantity := left));
      h[i := h[i].(quantity := left)]
  }

  // -------------------------------------------------------------- valuation

  /** What one position adds to the total value at the table's prices: the
      current price times the shares, when both are positive. */
  function Worth(p: Position, t: seq<Sector>): (w: int)
    ensures w >= 0
  {
    var price := PriceOf(t, p.name);
    if price > 0 && p.quantity > 0 then price * p.quantity else 0
  }

  /** The value of every position at the table's prices. */
  function StockValue(h: seq<Position>, t: seq<Sector>): (v: int)
    ensures v >= 0
  {
    if h == [] then 0 else StockValue(h[..|h| - 1], t) + Worth(h[|h| - 1], t)
  }

  lemma {:induction false} StockValueConcat(a: seq<Position>, b: seq<Position>, t: seq<Sector>)
    ensures StockValue(a + b, t) == StockValue(a, t) + StockValue(b, t)
    decreases |b|
  {
    if b == [] {
      assert a + b == a;
    } else {
      var n := |b| - 1;
      assert (a + b)[..|a + b| - 1] == a + b[..n];
      StockValueConcat(a, b[..n], t);
    }
  }

  lemma StockValueOne(p: Position, t: seq<Sector>)
    ensures StockValue([p], t) == Worth(p, t)
  {
    assert [p][..0] == [];
  }

  /** Replacing one position changes the value by the difference of the two
      positions' worth. */
  lemma StockValueReplace(h: seq<Position>, i: nat, p: Position, t: seq<Sector>)
    requires i < |h|
    ensures StockValue(h[i := p], t) == StockValue(h, t) - Worth(h[i], t) + Worth(p, t)
  {
    assert h == h[..i] + [h[i]] + h[i + 1..];
    assert h[i := p] == h[..i] + [p] + h[i + 1..];
    StockValueConcat(h[..i] + [h[i]], h[i + 1..], t);
    StockValueConcat(h[..i], [h[i]], t);
    StockValueConcat(h[..i] + [p], h[i + 1..], t);
    StockValueConcat(h[..i], [p], t);
    StockValueOne(h[i], t);
    StockValueOne(p, t);
  }

  /** Removing one position takes away exactly its worth. */
  lemma StockValueRemove(h: seq<Position>, i: nat, t: seq<Sector>)
    requires i < |h|
    ensures StockValue(h[..i] + h[i + 1..], t) == StockValue(h, t) - Worth(h[i], t)
  {
    assert h == h[..i] + [h[i]] + h[i + 1..];
    StockValueConcat(h[..i] + [h[i]], h[i + 1..], t);
    StockValueConcat(h[..i], [h[i]], t);
    StockValueConcat(h[..i], h[i + 1..], t);
    StockValueOne(h[i], t);
  }

  lemma WorthOf(p: Position, t: seq<Sector>, price: int)
    requires price == PriceOf(t, p.name) > 0 && p.quantity > 0
    ensures Worth(p, t) == price * p.quantity
  {
  }

  lemma BoughtExisting(h: seq<Position>, name: string, q: int, price: int, i: nat)
    requires HoldingsOk(h) && q > 0 && i < |h| && h[i].name == name
    ensures Bought(h, name, q, price)
      == h[i := Position(name, h[i].quantity + q, AverageCost(h[i].quantity, h[i].cost, q, price))]
  {
    LookupAt(h, i);
  }

  lemma BoughtNew(h: seq<Position>, name: string, q: int, price: int)
    requires HoldingsOk(h) && q > 0 && Lookup(h, name).None?
    ensures Bought(h, name, q, price) == h + [Position(name, q, price as real)]
  {
  }

  /** Changing the shares of one position by `d` changes the value by `d`
      times its price. */
  lemma ResizedValue(h: seq<Position>, i: nat, p: Position, t: seq<Sector>, price: int, d: int)
    requires i < |h| && p.name == h[i].name && price == PriceOf(t, p.name) > 0
    requires h[i].quantity > 0 && p.quantity > 0 && p.quantity == h[i].quantity + d
    ensures StockValue(h[i := p], t) == StockValue(h, t) + price * d
  {
    StockValueReplace(h, i, p, t);
    WorthOf(h[i], t, price);
    WorthOf(p, t, price);
    MulAdd(price, h[i].quantity, d);
  }

  /** Taking `d` shares off one position takes `d` times its price off the
      value. */
  lemma ShrunkValue(h: seq<Position>, i: nat, p: Position, t: seq<Sector>, price: int, d: int)
    requires i < |h| && p.name == h[i].name && price == PriceOf(t, p.name) > 0
    requires h[i].quantity > 0 && p.quantity > 0 && h[i].quantity == p.quantity + d
    ensures StockValue(h[i := p], t) + price * d == StockValue(h, t)
  {
    StockValueReplace(h, i, p, t);
    WorthOf(h[i], t, price);
    WorthOf(p, t, price);
    MulAdd(price, p.quantity, d);
  }

  lemma MulAdd(x: int, a: int, b: int)
    ensures x * (a + b) == x * a + x * b
  {
  }

  /** A buy at the table's current price turns cash into shares of the same
      value: the total value is unchanged. */
  lemma BuyKeepsTotalValue(cash: int, h: seq<Position>, t: seq<Sector>, name: string, q: int)
    requires HoldingsOk(h) && q > 0 && PriceOf(t, name) > 0
    ensures var price := PriceOf(t, name);
      cash - price * q + StockValue(Bought(h, name, q, price), t) == cash + StockValue(h, t)
  {
    var price := PriceOf(t, name);
    var i := PositionIndex(h, name);
    if i >= 0 {
      var p := Position(name, h[i].quantity + q, AverageCost(h[i].quantity, h[i].cost, q, price));
      BoughtExisting(h, name, q, price, i);
      ResizedValue(h, i, p, t, price, q);
    } else {
      var p := Position(name, q, price as real);
      BoughtNew(h, name, q, price);
      StockValueConcat(h, [p], t);
      StockValueOne(p, t);
      WorthOf(p, t, price);
    }
  }

  lemma SoldAll(h: seq<Position>, name: string, q: int, i: nat)
    requires HoldingsOk(h) && i < |h| && h[i].name == name && q == h[i].quantity
    ensures Lookup(h, name).Some? && Sold(h, name, q) == h[..i] + h[i + 1..]
  {
    LookupAt(h, i);
  }

  lemma SoldSome(h: seq<Position>, name: string, q: int, i: nat)
    requires HoldingsOk(h) && i < |h| && h[i].name == name && 0 < q < h[i].quantity
    ensures Lookup(h, name).Some? && Sold(h, name, q) == h[i := h[i].(quantity := h[i].quantity - q)]
  {
    LookupAt(h, i);
  }

  /** A sell at the table's current price turns shares into cash of the same
      value: the total value is unchanged. */
  lemma SellKeepsTotalValue(cash: int, h: seq<Position>, t: seq<Sector>, name: string, q: int)
    requires HoldingsOk(h) && Lookup(h, name).Some? && 0 < q <= Lookup(h, name).value.quantity
    requires PriceOf(t, name) > 0
    ensures var price := PriceOf(t, name);
      cash + price * q + StockValue(Sold(h, name, q), t) == cash + StockValue(h, t)
  {
    var price := PriceOf(t, name);
    var i := PositionIndex(h, name);
    LookupAt(h, i);
    if h[i].quantity == q {
      SoldAll(h, name, q, i);
      StockValueRemove(h, i, t);
      WorthOf(h[i], t, price);
      assert price * h[i].quantity == price * q;
    } else {
      var p := h[i].(quantity := h[i].quantity - q);
      SoldSome(h, name, q, i);
      ShrunkValue(h, i, p, t, price, q);
    }
  }

  /** The five values `calculate_portfolio_summary` returns. */
  datatype Summary = Summary(cash: int, totalValue: int, profitLoss: int, profitRate: real, initialCash: int)

  /** `calculate_portfolio_summary`: cash plus the value of the positions,
      the gain over the starting capital, and that gain as a percentage of
      the starting capital (0 when the capital is not positive). */
  function Summarize(cash: int, h: seq<Position>, t: seq<Sector>, initialCash: int): (s: Summary)
    ensures s.cash == cash && s.initialCash == initialCash
    ensures s.totalValue - cash == StockValue(h, t) >= 0
    ensures s.profitLoss == s.totalValue - initialCash
    ensures initialCash > 0 ==> s.profitRate * initialCash as real == s.profitLoss as real * 100.0
    ensures initialCash <= 0 ==> s.profitRate == 0.0
    ensures initialCash > 0 ==> (s.profitRate > 0.0 <==> s.totalValue > initialCash)
  {
    var total := cash + StockValue(h, t);
    var gain := total - initialCash;
    var rate := if initialCash > 0 then (gain as real / initialCash as real) * 100.0 else 0.0;
    Summary(cash, total, gain, rate, initialCash)
  }

  /** A worked round of trading: from 1,000,000 of cash, buying 10 shares at
      50,000 and selling 5 of them once the price is 60,000 leaves 800,000 of
      cash and 5 shares at an average cost of 50,000, worth 1,100,000 in all:
      a gain of 100,000, or 10 percent. */
  lemma TradingExample(t: seq<Sector>, name: string)
    requires PriceOf(t, name) == 60000
    ensures Bought([], name, 10, 50000) == [Position(name, 10, 50000.0)]
    ensures Sold([Position(name, 10, 50000.0)], name, 5) == [Position(name, 5, 50000.0)]
    ensures var cash := 1000000 - 50000 * 10 + 60000 * 5;
      Summarize(cash, [Position(name, 5, 50000.0)], t, 1000000) == Summary(800000, 1100000, 100000, 10.0, 1000000)
  {
    BoughtNew([], name, 10, 50000);
    var h := [Position(name, 10, 50000.0)];
    SoldSome(h, name, 5, 0);
    assert h[0 := h[0].(quantity := 5)] == [Position(name, 5, 50000.0)];
    var left := [Position(name, 5, 50000.0)];
    assert left[..0] == [];
    assert StockValue(left, t) == 300000;
  }
}
