/**
 * The stock table of `session_state["stocks"]`: sectors in insertion order,
 * each holding its listings in insertion order, each listing with a current
 * price and the history of every price it has had.  Also the pricing rule of
 * `update_stock_prices` and the table `initialize_session_state` builds.
 */
module Market {

  datatype Listing = Listing(name: string, price: int, history: seq<int>)
  datatype Sector = Sector(name: string, listings: seq<Listing>)

  /** A listing's price is at least 1 and is the last entry of its history,
      whose entries are all at least 1. */
  predicate ListingOk(l: Listing) {
    && l.price >= 1
    && |l.history| > 0
    && l.history[|l.history| - 1] == l.price
    && forall k :: 0 <= k < |l.history| ==> l.history[k] >= 1
  }

  /** Sector names are distinct, stock names are distinct across the whole
      table, and every listing is consistent. */
  predicate WellFormed(t: seq<Sector>) {
    && (forall i, j :: 0 <= i < j < |t| ==> t[i].name != t[j].name)
    && (forall i, j, k, l ::
          (0 <= i < |t| && 0 <= j < |t[i].listings| && 0 <= k < |t| && 0 <= l < |t[k].listings|
           && t[i].listings[j].name == t[k].listings[l].name) ==> i == k && j == l)
    && (forall i, j :: 0 <= i < |t| && 0 <= j < |t[i].listings| ==> ListingOk(t[i].listings[j]))
  }

  /** `list(session_state["stocks"].keys())`: the valid sector names. */
  function SectorNames(t: seq<Sector>): (r: seq<string>)
    ensures |r| == |t| && forall i :: 0 <= i < |t| ==> r[i] == t[i].name
  {
    seq(|t|, i requires 0 <= i < |t| => t[i].name)
  }

  /** The index of the sector called `name`, or -1. */
  function SectorIndex(t: seq<Sector>, name: string): (i: int)
    ensures -1 <= i < |t|
    ensures i >= 0 ==> t[i].name == name
    ensures i == -1 <==> forall k :: 0 <= k < |t| ==> t[k].name != name
  {
    if t == [] then -1
    else if t[|t| - 1].name == name then |t| - 1
    else SectorIndex(t[..|t| - 1], name)
  }

  /** The index of the listing called `name`, or -1. */
  function ListingIndex(ls: seq<Listing>, name: string): (j: int)
    ensures -1 <= j < |ls|
    ensures j >= 0 ==> ls[j].name == name
    ensures j == -1 <==> forall k :: 0 <= k < |ls| ==> ls[k].name != name
  {
    if ls == [] then -1
    else if ls[|ls| - 1].name == name then |ls| - 1
    else ListingIndex(ls[..|ls| - 1], name)
  }

  /** `sector in stocks and name in stocks[sector]`. */
  predicate IsListed(t: seq<Sector>, sector: string, name: string) {
    var i := SectorIndex(t, sector);
    i >= 0 && ListingIndex(t[i].listings, name) >= 0
  }

  /** `stocks[sector][name]["current_price"]`. */
  function PriceIn(t: seq<Sector>, sector: string, name: string): int
    requires IsListed(t, sector, name)
  {
    var i := SectorIndex(t, sector);
    t[i].listings[ListingIndex(t[i].listings, name)].price
  }

  /** The current-price search of `sell_stock` and of the portfolio summary:
      the price in the first sector, in table order, that lists `name`, and 0
      when no sector does. */
  function PriceOf(t: seq<Sector>, name: string): int {
    if t == [] then 0
    else
      var j := ListingIndex(t[0].listings, name);
      if j >= 0 then t[0].listings[j].price else PriceOf(t[1..], name)
  }

  /** In a well-formed table the search finds the one listing of that name. */
  lemma {:induction false} PriceOfListed(t: seq<Sector>, i: nat, j: nat)
    requires WellFormed(t) && i < |t| && j < |t[i].listings|
    ensures PriceOf(t, t[i].listings[j].name) == t[i].listings[j].price >= 1
  {
    var name := t[i].listings[j].name;
    if i == 0 {
      assert ListingIndex(t[0].listings, name) == j;
    } else {
      assert ListingIndex(t[0].listings, name) == -1;
      assert WellFormed(t[1..]);
      PriceOfListed(t[1..], i - 1, j);
    }
  }

  /** The search finds nothing for a name no sector lists. */
  lemma {:induction false} PriceOfUnlisted(t: seq<Sector>, name: string)
    requires forall i, j :: 0 <= i < |t| && 0 <= j < |t[i].listings| ==> t[i].listings[j].name != name
    ensures PriceOf(t, name) == 0
  {
    if t != [] {
      PriceOfUnlisted(t[1..], name);
    }
  }

  /** Whether some sector lists `name`. */
  predicate Lists(t: seq<Sector>, name: string) {
    exists i, j :: 0 <= i < |t| && 0 <= j < |t[i].listings| && t[i].listings[j].name == name
  }

  /** In a well-formed table the search yields a positive price exactly for
      the listed names. */
  lemma PriceOfPositive(t: seq<Sector>, name: string)
    requires WellFormed(t)
    ensures PriceOf(t, name) > 0 <==> Lists(t, name)
    ensures PriceOf(t, name) >= 0
  {
    if Lists(t, name) {
      var i, j :| 0 <= i < |t| && 0 <= j < |t[i].listings| && t[i].listings[j].name == name;
      PriceOfListed(t, i, j);
    } else {
      PriceOfUnlisted(t, name);
    }
  }

  /** A listed name found through its sector has the price the search finds. */
  lemma PriceInIsPriceOf(t: seq<Sector>, sector: string, name: string)
    requires WellFormed(t) && IsListed(t, sector, name)
    ensures PriceIn(t, sector, name) == PriceOf(t, name) >= 1
  {
    var i := SectorIndex(t, sector);
    PriceOfListed(t, i, ListingIndex(t[i].listings, name));
  }

  // ---------------------------------------------------------------- pricing

  /** Python's `int(x)` on a float: truncation toward zero. */
  function Trunc(x: real): (r: int)
    ensures x >= 0.0 ==> r >= 0 && r as real <= x < r as real + 1.0
    ensures x < 0.0 ==> r <= 0 && r as real - 1.0 < x <= r as real
  {
    if x >= 0.0 then x.Floor else -((-x).Floor)
  }

  /** `max(-bound, min(bound, rate))`. */
  function Clamp(rate: real, bound: real): (r: real)
    requires bound >= 0.0
    ensures -bound <= r <= bound
    ensures -bound <= rate <= bound ==> r == rate
    ensures rate > bound ==> r == bound
    ensures rate < -bound ==> r == -bound
  {
    if rate > bound then bound else if rate < -bound then -bound else rate
  }

  /** `max(1, int(price * (1 + clamp(rate))))`. */
  function NextPrice(price: int, rate: real, bound: real): (r: int)
    requires bound >= 0.0
    ensures r >= 1
    ensures r > 1 ==> r as real <= price as real * (1.0 + Clamp(rate, bound)) < r as real + 1.0
    ensures r == 1 <==> price as real * (1.0 + Clamp(rate, bound)) < 2.0
  {
    var p := Trunc(price as real * (1.0 + Clamp(rate, bound)));
    if p < 1 then 1 else p
  }

  /** A new price is at least 1, never above the clamped rise, and never more
      than one unit below the clamped fall (the truncation). */
  lemma NextPriceBounds(price: int, rate: real, bound: real)
    requires price >= 1 && 0.0 <= bound < 1.0
    ensures var p := NextPrice(price, rate, bound);
      && p >= 1
      && p as real <= price as real * (1.0 + bound)
      && p as real > price as real * (1.0 - bound) - 1.0
  {
    var c := Clamp(rate, bound);
    var m := price as real;
    var x := m * (1.0 + c);
    var p := NextPrice(price, rate, bound);
    ProductSign(m, bound - c);
    ProductSign(m, c + bound);
    ProductSign(m, bound);
    assert x == m + m * c;
    assert m * (bound - c) == m * bound - m * c;
    assert m * (c + bound) == m * c + m * bound;
    assert m * (1.0 + bound) == m + m * bound;
    assert m * (1.0 - bound) == m - m * bound;
    // now m - m * bound <= x <= m + m * bound, and p sits within one unit of x
    assert p as real <= m + m * bound by {
      if p == 1 { assert 1.0 <= m; }
    }
  }

  /** The sign of a product with a non-negative factor. */
  lemma ProductSign(x: real, y: real)
    requires x >= 0.0
    ensures y >= 0.0 ==> x * y >= 0.0
    ensures y <= 0.0 ==> x * y <= 0.0
  {
  }

  /** The ±15% daily limit named by the comment at app.py:738 is exceeded by
      truncation at small prices:
      a price of 10 that falls by 15% becomes 8, a 20% fall. */
  lemma TruncationWidensFall()
    ensures NextPrice(10, -0.15, 0.15) == 8
  {
  }

  /** A listing after one update: the new price becomes current and is
      appended to the history. */
  function Step(l: Listing, rate: real, bound: real): (r: Listing)
    requires bound >= 0.0
    ensures r.name == l.name && r.price >= 1
    ensures r.history == l.history + [r.price]
    ensures ListingOk(l) ==> ListingOk(r)
  {
    var p := NextPrice(l.price, rate, bound);
    l.(price := p, history := l.history + [p])
  }

  /** One rate per listing, in the table's shape. */
  predicate Shaped(t: seq<Sector>, rates: seq<seq<real>>) {
    |rates| == |t| && forall i :: 0 <= i < |t| ==> |rates[i]| == |t[i].listings|
  }

  function RepricedSector(s: Sector, rates: seq<real>, bound: real): (r: Sector)
    requires |rates| == |s.listings| && bound >= 0.0
    ensures r.name == s.name && |r.listings| == |s.listings|
  {
    s.(listings := seq(|s.listings|, j requires 0 <= j < |s.listings| => Step(s.listings[j], rates[j], bound)))
  }

  /** The whole table after one update with the given per-listing rates. */
  function Repriced(t: seq<Sector>, rates: seq<seq<real>>, bound: real): (r: seq<Sector>)
    requires Shaped(t, rates) && bound >= 0.0
    ensures |r| == |t| && SectorNames(r) == SectorNames(t)
    ensures forall i :: 0 <= i < |t| ==> r[i] == RepricedSector(t[i], rates[i], bound)
    ensures forall i, j :: 0 <= i < |t| && 0 <= j < |t[i].listings| ==>
      && |r[i].listings| == |t[i].listings|
      && r[i].listings[j].name == t[i].listings[j].name
      && r[i].listings[j].history == t[i].listings[j].history + [r[i].listings[j].price]
  {
    seq(|t|, i requires 0 <= i < |t| => RepricedSector(t[i], rates[i], bound))
  }

  /** An update keeps every sector and stock where it was, appends exactly one
      price to every history, makes that price current, and keeps the table
      well formed. */
  lemma RepricedFacts(t: seq<Sector>, rates: seq<seq<real>>, bound: real)
    requires WellFormed(t) && Shaped(t, rates) && 0.0 <= bound < 1.0
    ensures var r := Repriced(t, rates, bound);
      && WellFormed(r)
      && SectorNames(r) == SectorNames(t)
      && forall i, j :: 0 <= i < |t| && 0 <= j < |t[i].listings| ==>
           && |r[i].listings| == |t[i].listings|
           && r[i].listings[j].name == t[i].listings[j].name
           && r[i].listings[j].history == t[i].listings[j].history + [r[i].listings[j].price]
           && r[i].listings[j].price == NextPrice(t[i].listings[j].price, rates[i][j], bound)
  {
    var r := Repriced(t, rates, bound);
    forall i, j | 0 <= i < |t| && 0 <= j < |t[i].listings|
      ensures ListingOk(r[i].listings[j])
    {
      NextPriceBounds(t[i].listings[j].price, rates[i][j], bound);
    }
  }

  /** An update moves every price by at most the clamp: up by no more than
      `bound`, down by no more than `bound` and one unit of truncation, and
      never below 1. */
  lemma RepricedMoves(t: seq<Sector>, rates: seq<seq<real>>, bound: real)
    requires Shaped(t, rates) && 0.0 <= bound < 1.0 && forall i, j :: 0 <= i < |t| && 0 <= j < |t[i].listings| ==> t[i].listings[j].price >= 1
    ensures var r := Repriced(t, rates, bound);
      forall i, j :: 0 <= i < |t| && 0 <= j < |t[i].listings| ==>
        && 1 <= r[i].listings[j].price
        && r[i].listings[j].price as real <= t[i].listings[j].price as real * (1.0 + bound)
        && r[i].listings[j].price as real > t[i].listings[j].price as real * (1.0 - bound) - 1.0
  {
    forall i, j | 0 <= i < |t| && 0 <= j < |t[i].listings|
      ensures var p := Repriced(t, rates, bound)[i].listings[j].price;
        && 1 <= p
        && p as real <= t[i].listings[j].price as real * (1.0 + bound)
        && p as real > t[i].listings[j].price as real * (1.0 - bound) - 1.0
    {
      NextPriceBounds(t[i].listings[j].price, rates[i][j], bound);
    }
  }

  /** The news-mode rate of every listing: its noise draw plus its sector's
      impulse, `sector_impacts.get(sector, 0.0)`. */
  function NewsRates(t: seq<Sector>, noise: seq<seq<real>>, impacts: map<string, real>): (r: seq<seq<real>>)
    requires Shaped(t, noise)
    ensures Shaped(t, r)
    ensures forall i, j :: 0 <= i < |t| && 0 <= j < |noise[i]| && t[i].name !in impacts ==> r[i][j] == noise[i][j]
    ensures forall i, j :: 0 <= i < |t| && 0 <= j < |noise[i]| ==> r[i][j] - noise[i][j] == r[i][0] - noise[i][0]
    ensures forall i, j :: 0 <= i < |t| && 0 <= j < |noise[i]| && t[i].name in impacts ==>
      r[i][j] == noise[i][j] + impacts[t[i].name]
  {
    seq(|t|, i requires 0 <= i < |t| =>
      var impact := if t[i].name in impacts then impacts[t[i].name] else 0.0;
      seq(|noise[i]|, j requires 0 <= j < |noise[i]| => noise[i][j] + impact))
  }

  /** Every noise draw lies in [-width, width]. */
  predicate NoiseWithin(noise: seq<seq<real>>, width: real) {
    forall i, j :: 0 <= i < |noise| && 0 <= j < |noise[i]| ==> -width <= noise[i][j] <= width
  }

  // ---------------------------------------------------------- initial table

  /** The sectors, and the stocks of each, that `initialize_session_state`
      lays out, in its order. */
  const BaseTable: seq<(string, seq<string>)> := [
    ("기술(Tech)", ["삼성전자", "SK하이닉스", "LG디스플레이"]),
    ("자동차(Auto)", ["현대자동차", "기아", "현대모비스"]),
    ("에너지(Energy)", ["LG에너지솔루션", "SK이노베이션", "두산에너빌리티"]),
    ("인터넷(Internet)", ["네이버", "카카오", "카카오뱅크"]),
    ("소비재(Consumer Goods)", ["CJ제일제당", "아모레퍼시픽", "LG생활건강"]),
    ("금융(Finance)", ["KB금융", "신한지주", "하나금융지주"]),
    ("건설(Construction)", ["삼성물산", "HD현대", "GS건설"]),
    ("유통(Retail)", ["롯데쇼핑", "이마트"]),
    ("통신(Telecom)", ["KT", "SK텔레콤"]),
    ("제약/바이오(Pharma/Bio)", ["삼성바이오로직스", "셀트리온"]),
    ("화학(Chemical)", ["LG화학", "금호석유화학"]),
    ("철강(Steel)", ["POSCO홀딩스", "현대제철"]),
    ("운송(Transportation)", ["대한항공", "HMM"]),
    ("엔터테인먼트(Entertainment)", ["CJ ENM", "하이브"]),
    ("식품(Food)", ["오리온", "농심"])
  ]

  /** The inclusive range `random.randint` draws a stock's first price from. */
  function PriceBand(name: string): (band: (int, int))
    ensures 1 <= band.0 <= band.1
  {
    if name in ["삼성전자", "SK하이닉스", "기아", "KB금융", "신한지주", "HD현대", "GS건설", "KT",
                "SK텔레콤", "현대제철", "대한항공", "HMM", "카카오", "카카오뱅크"] then (30000, 90000)
    else if name in ["LG디스플레이", "두산에너빌리티", "하나금융지주"] then (15000, 45000)
    else if name in ["현대자동차", "현대모비스", "SK이노베이션", "네이버", "아모레퍼시픽", "삼성물산",
                     "롯데쇼핑", "이마트", "셀트리온", "금호석유화학", "CJ ENM", "하이브", "오리온"] then (120000, 280000)
    else if name in ["LG에너지솔루션", "CJ제일제당", "POSCO홀딩스", "농심"] then (280000, 450000)
    else if name in ["LG생활건강", "삼성바이오로직스", "LG화학"] then (500000, 800000)
    else (50000, 150000)
  }

  /** One first price per stock of the base table, each within its band. */
  predicate InitialPricesFit(prices: seq<seq<int>>) {
    && |prices| == |BaseTable|
    && (forall i :: 0 <= i < |BaseTable| ==> |prices[i]| == |BaseTable[i].1|)
    && forall i, j :: 0 <= i < |BaseTable| && 0 <= j < |BaseTable[i].1| ==>
         PriceBand(BaseTable[i].1[j]).0 <= prices[i][j] <= PriceBand(BaseTable[i].1[j]).1
  }

  /** The table `initialize_session_state` builds: every stock of the base
      table at its drawn first price, with a one-entry history. */
  function InitialTable(prices: seq<seq<int>>): (t: seq<Sector>)
    requires InitialPricesFit(prices)
    ensures WellFormed(t)
    ensures SectorNames(t) == seq(|BaseTable|, i requires 0 <= i < |BaseTable| => BaseTable[i].0)
    ensures forall i, j :: 0 <= i < |BaseTable| && 0 <= j < |BaseTable[i].1| ==>
      |t[i].listings| == |BaseTable[i].1| &&
      t[i].listings[j] == Listing(BaseTable[i].1[j], prices[i][j], [prices[i][j]])
  {
    var t := seq(|BaseTable|, i requires 0 <= i < |BaseTable| =>
      Sector(BaseTable[i].0, seq(|BaseTable[i].1|, j requires 0 <= j < |BaseTable[i].1| =>
        Listing(BaseTable[i].1[j], prices[i][j], [prices[i][j]]))));
    LaidOutWellFormed(t);
    t
  }

  /** A table laid out as the base table, with consistent listings, is well
      formed. */
  lemma LaidOutWellFormed(t: seq<Sector>)
    requires |t| == |BaseTable|
    requires forall i :: 0 <= i < |t| ==> t[i].name == BaseTable[i].0 && |t[i].listings| == |BaseTable[i].1|
    requires forall i, j :: 0 <= i < |t| && 0 <= j < |t[i].listings| ==>
      t[i].listings[j].name == BaseTable[i].1[j] && ListingOk(t[i].listings[j])
    ensures WellFormed(t)
  {
    BaseTableDistinct();
  }

  /** Every stock of the base table, sector after sector, and where each
      sector's stocks start in that list. */
  const StockOrder: seq<string> := ["삼성전자", "SK하이닉스", "LG디스플레이", "현대자동차", "기아", "현대모비스",
      "LG에너지솔루션", "SK이노베이션", "두산에너빌리티", "네이버", "카카오", "카카오뱅크",
      "CJ제일제당", "아모레퍼시픽", "LG생활건강", "KB금융", "신한지주", "하나금융지주",
      "삼성물산", "HD현대", "GS건설", "롯데쇼핑", "이마트", "KT", "SK텔레콤",
      "삼성바이오로직스", "셀트리온", "LG화학", "금호석유화학", "POSCO홀딩스", "현대제철",
      "대한항공", "HMM", "CJ ENM", "하이브", "오리온", "농심"]
  const SectorStarts: seq<int> := [0, 3, 6, 9, 12, 15, 18, 21, 23, 25, 27, 29, 31, 33, 35, 37]

  lemma StockOrderDistinct()
    ensures forall x, y :: 0 <= x < y < |StockOrder| ==> StockOrder[x] != StockOrder[y]
  {
    EarlyStocksDistinct();
    LateStocksDistinct();
    EarlyAndLateDistinct();
  }

  lemma EarlyStocksDistinct()
    ensures forall x, y :: 0 <= x < y < 19 ==> StockOrder[x] != StockOrder[y]
  {
  }

  lemma LateStocksDistinct()
    ensures forall x, y :: 19 <= x < y < 37 ==> StockOrder[x] != StockOrder[y]
  {
  }

  lemma EarlyAndLateDistinct()
    ensures forall x, y :: 0 <= x < 19 <= y < 37 ==> StockOrder[x] != StockOrder[y]
  {
  }

  lemma SectorStartsIncrease()
    ensures forall x, y :: 0 <= x < y < |SectorStarts| ==> SectorStarts[x] < SectorStarts[y]
  {
  }

  lemma BaseTableLayout()
    ensures forall i, j :: 0 <= i < |BaseTable| && 0 <= j < |BaseTable[i].1| ==>
      SectorStarts[i] + j < SectorStarts[i + 1] && BaseTable[i].1[j] == StockOrder[SectorStarts[i] + j]
  {
    EarlySectorsLaidOut();
    LateSectorsLaidOut();
    forall i, j | 0 <= i < |BaseTable| && 0 <= j < |BaseTable[i].1|
      ensures SectorStarts[i] + j < SectorStarts[i + 1] && BaseTable[i].1[j] == StockOrder[SectorStarts[i] + j]
    {
      assert LaidOut(i);
    }
  }

  /** Sector `i` of the base table lists the stocks between its offset and
      the next one. */
  predicate LaidOut(i: int)
    requires 0 <= i < |BaseTable|
  {
    SectorStarts[i] + |BaseTable[i].1| <= SectorStarts[i + 1]
    && forall j :: 0 <= j < |BaseTable[i].1| ==> BaseTable[i].1[j] == StockOrder[SectorStarts[i] + j]
  }

  lemma EarlySectorsLaidOut()
    ensures forall i :: 0 <= i < 8 ==> LaidOut(i)
  {
    FirstSectorsLaidOut();
    MiddleSectorsLaidOut();
  }

  lemma FirstSectorsLaidOut()
    ensures forall i :: 0 <= i < 4 ==> LaidOut(i)
  {
  }

  lemma MiddleSectorsLaidOut()
    ensures forall i :: 4 <= i < 8 ==> LaidOut(i)
  {
  }

  lemma LateSectorsLaidOut()
    ensures forall i :: 8 <= i < |BaseTable| ==> LaidOut(i)
  {
  }

  lemma BaseSectorsDistinct()
    ensures forall i, j :: 0 <= i < j < |BaseTable| ==> BaseTable[i].0 != BaseTable[j].0
  {
  }

  /** The base table repeats no sector name and no stock name. */
  lemma BaseTableDistinct()
    ensures forall i, j :: 0 <= i < j < |BaseTable| ==> BaseTable[i].0 != BaseTable[j].0
    ensures forall i, j, k, l ::
      (0 <= i < |BaseTable| && 0 <= j < |BaseTable[i].1| && 0 <= k < |BaseTable| && 0 <= l < |BaseTable[k].1|
       && BaseTable[i].1[j] == BaseTable[k].1[l]) ==> i == k && j == l
  {
    BaseSectorsDistinct();
    StockOrderDistinct();
    SectorStartsIncrease();
    BaseTableLayout();
    DistinctByOffsets(BaseTable, StockOrder, SectorStarts);
  }

  /** Names laid out, sector after sector, at increasing offsets of a list
      without repeats are themselves without repeats. */
  lemma DistinctByOffsets(t: seq<(string, seq<string>)>, flat: seq<string>, offsets: seq<int>)
    requires |offsets| == |t| + 1 && offsets[0] >= 0 && offsets[|t|] <= |flat|
    requires forall x, y :: 0 <= x < y < |flat| ==> flat[x] != flat[y]
    requires forall x, y :: 0 <= x < y < |offsets| ==> offsets[x] < offsets[y]
    requires forall i, j :: 0 <= i < |t| && 0 <= j < |t[i].1| ==>
      offsets[i] + j < offsets[i + 1] && t[i].1[j] == flat[offsets[i] + j]
    ensures forall i, j, k, l ::
      (0 <= i < |t| && 0 <= j < |t[i].1| && 0 <= k < |t| && 0 <= l < |t[k].1|
       && t[i].1[j] == t[k].1[l]) ==> i == k && j == l
  {
    forall i, j, k, l | 0 <= i < |t| && 0 <= j < |t[i].1| && 0 <= k < |t| && 0 <= l < |t[k].1|
      && t[i].1[j] == t[k].1[l]
      ensures i == k && j == l
    {
      assert offsets[0] <= offsets[i] && offsets[0] <= offsets[k];
      assert offsets[i + 1] <= offsets[|t|] && offsets[k + 1] <= offsets[|t|];
      assert offsets[i] + j == offsets[k] + l;
    }
  }

  const QuietBound := 0.10
  const QuietNoise := 0.03
  const NewsBound := 0.15
  const NewsNoise := 0.02
}
