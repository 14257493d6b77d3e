/**
 * The game session of the stock-trading simulator: the player's cash and
 * positions, the stock table, the news of the day and of the day before,
 * the interpretations of yesterday's news, the day counter and the sector
 * impulses of the last price update.  Buying, selling, generating the day's
 * news, updating prices and advancing the day change these fields in place.
 */
module Game {
  import opened Wrappers
  import opened News
  import opened Sentiment
  import opened Market
  import opened Ledger

  /** The three difficulty levels, which fix the starting capital. */
  datatype Level = Elementary | Middle | High

  function StartingCash(level: Level): (c: int)
    ensures c >= 1000000
  {
    match level
    case Elementary => 1000000
    case Middle => 5000000
    case High => 10000000
  }

  /** What `buy_stock` reports. */
  datatype BuyOutcome = Purchased(total: int) | UnknownStock | BadBuyQuantity | InsufficientFunds(maxQuantity: int)

  /** What `sell_stock` reports. */
  datatype SellOutcome = SoldFor(value: int) | NotHeld | BadSellQuantity | ExceedsHolding(owned: int) | PriceUnavailable

  /** The sector impulses an update records: none without interpretations,
      otherwise the impact of each known sector. */
  function Impulses(t: seq<Sector>, meanings: seq<Interpretation>, draws: seq<real>): map<string, real>
    requires DrawsFit(meanings, draws)
  {
    if meanings == [] then map[]
    else map s | s in SectorNames(t) :: SectorImpact(s, meanings, Impacts(meanings, draws))
  }

  /** No impulses without interpretations, otherwise one for every known
      sector; a sector no interpretation lists gets none, and a sector listed
      n times moves by at most 0.12 n either way. */
  lemma ImpulsesFacts(t: seq<Sector>, meanings: seq<Interpretation>, draws: seq<real>)
    requires DrawsFit(meanings, draws)
    ensures var m := Impulses(t, meanings, draws);
      && (meanings == [] ==> m == map[])
      && (meanings != [] ==> m.Keys == set s | s in SectorNames(t))
      && (forall s :: s in m && (forall k :: 0 <= k < |meanings| ==> s !in meanings[k].sectors) ==> m[s] == 0.0)
      && (forall s :: s in m ==>
            -0.12 * TimesListed(s, meanings) as real <= m[s] <= 0.12 * TimesListed(s, meanings) as real)
  {
    if meanings != [] {
      ImpulseBounds(meanings, draws);
      var m := Impulses(t, meanings, draws);
      forall s | s in m && (forall k :: 0 <= k < |meanings| ==> s !in meanings[k].sectors)
        ensures m[s] == 0.0
      {
        UnlistedSectorUnmoved(s, meanings, Impacts(meanings, draws));
      }
    }
  }

  lemma ImpulseBounds(meanings: seq<Interpretation>, draws: seq<real>)
    requires DrawsFit(meanings, draws)
    ensures forall s ::
      -0.12 * TimesListed(s, meanings) as real <= SectorImpact(s, meanings, Impacts(meanings, draws))
        <= 0.12 * TimesListed(s, meanings) as real
  {
    forall s {
      SectorImpactBound(s, meanings, Impacts(meanings, draws), TimesListed(s, meanings));
    }
  }

  /** The draws an update takes: one noise value per listing, within ±0.03
      without interpretations and ±0.02 with them, and one impact draw per
      interpretation. */
  predicate UpdateDrawsFit(t: seq<Sector>, meanings: seq<Interpretation>, noise: seq<seq<real>>, draws: seq<real>) {
    && Shaped(t, noise)
    && NoiseWithin(noise, if meanings == [] then QuietNoise else NewsNoise)
    && DrawsFit(meanings, draws)
  }

  /** The table after `update_stock_prices`: noise alone, clamped to ±10%,
      without interpretations; noise plus the sector's impulse, clamped to
      ±15%, with them. */
  function NextTable(t: seq<Sector>, meanings: seq<Interpretation>, noise: seq<seq<real>>, draws: seq<real>): seq<Sector>
    requires UpdateDrawsFit(t, meanings, noise, draws)
  {
    if meanings == [] then Repriced(t, noise, QuietBound)
    else Repriced(t, NewsRates(t, noise, Impulses(t, meanings, draws)), NewsBound)
  }

  /** Every sector and stock stays in place, every new price is at least 1
      and is appended to its history, a well-formed table stays well formed,
      and every move keeps within the mode's clamp (less one unit of
      truncation on the way down). */
  lemma NextTableFacts(t: seq<Sector>, meanings: seq<Interpretation>, noise: seq<seq<real>>, draws: seq<real>)
    requires UpdateDrawsFit(t, meanings, noise, draws)
    ensures var r := NextTable(t, meanings, noise, draws);
      && |r| == |t| && SectorNames(r) == SectorNames(t)
      && (forall i, j :: 0 <= i < |t| && 0 <= j < |t[i].listings| ==>
            && |r[i].listings| == |t[i].listings|
            && r[i].listings[j].name == t[i].listings[j].name
            && r[i].listings[j].price >= 1
            && r[i].listings[j].history == t[i].listings[j].history + [r[i].listings[j].price])
      && (WellFormed(t) ==> WellFormed(r))
      && (WellFormed(t) ==>
            var bound := if meanings == [] then QuietBound else NewsBound;
            forall i, j :: 0 <= i < |t| && 0 <= j < |t[i].listings| ==>
              && r[i].listings[j].price as real <= t[i].listings[j].price as real * (1.0 + bound)
              && r[i].listings[j].price as real > t[i].listings[j].price as real * (1.0 - bound) - 1.0)
  {
    if meanings == [] {
      UpdateKeepsTable(t, noise, QuietBound);
    } else {
      UpdateKeepsTable(t, NewsRates(t, noise, Impulses(t, meanings, draws)), NewsBound);
    }
  }

  /** Every new price is `NextPrice` of the old one at its listing's rate:
      the noise draw clamped to ±10% without interpretations, and the noise
      draw plus the sector's aggregated impulse clamped to ±15% with them. */
  lemma NextTablePrices(t: seq<Sector>, meanings: seq<Interpretation>, noise: seq<seq<real>>, draws: seq<real>)
    requires UpdateDrawsFit(t, meanings, noise, draws)
    ensures var r := NextTable(t, meanings, noise, draws);
      && (meanings == [] ==>
            forall i, j :: 0 <= i < |t| && 0 <= j < |t[i].listings| ==>
              r[i].listings[j].price == NextPrice(t[i].listings[j].price, noise[i][j], QuietBound))
      && (meanings != [] ==>
            forall i, j :: 0 <= i < |t| && 0 <= j < |t[i].listings| ==>
              r[i].listings[j].price == NextPrice(t[i].listings[j].price,
                noise[i][j] + SectorImpact(t[i].name, meanings, Impacts(meanings, draws)), NewsBound))
  {
    var r := NextTable(t, meanings, noise, draws);
    var bound := if meanings == [] then QuietBound else NewsBound;
    var rates := if meanings == [] then noise else NewsRates(t, noise, Impulses(t, meanings, draws));
    assert r == Repriced(t, rates, bound);
    forall i, j | 0 <= i < |t| && 0 <= j < |t[i].listings|
      ensures r[i].listings[j].price == NextPrice(t[i].listings[j].price, rates[i][j], bound)
    {
      assert r[i] == RepricedSector(t[i], rates[i], bound);
      assert r[i].listings[j] == Step(t[i].listings[j], rates[i][j], bound);
    }
    if meanings != [] {
      var m := Impulses(t, meanings, draws);
      forall i | 0 <= i < |t|
        ensures t[i].name in m && m[t[i].name] == SectorImpact(t[i].name, meanings, Impacts(meanings, draws))
      {
        assert SectorNames(t)[i] == t[i].name;
      }
    }
  }

  /** Repricing a well-formed table keeps it well formed and keeps every move
      within the clamp. */
  lemma UpdateKeepsTable(t: seq<Sector>, rates: seq<seq<real>>, bound: real)
    requires Shaped(t, rates) && 0.0 <= bound < 1.0
    ensures var r := Repriced(t, rates, bound);
      && (forall i, j :: 0 <= i < |t| && 0 <= j < |t[i].listings| ==> r[i].listings[j].price >= 1)
      && (WellFormed(t) ==> WellFormed(r))
      && (WellFormed(t) ==>
        forall i, j :: 0 <= i < |t| && 0 <= j < |t[i].listings| ==>
          && r[i].listings[j].price as real <= t[i].listings[j].price as real * (1.0 + bound)
          && r[i].listings[j].price as real > t[i].listings[j].price as real * (1.0 - bound) - 1.0)
  {
    if WellFormed(t) {
      RepricedFacts(t, rates, bound);
      RepricedMoves(t, rates, bound);
    }
  }

  /** In quiet mode the noise never reaches the clamp: each price moves by
      its own draw alone. */
  lemma QuietNoiseUnclamped(price: int, draw: real)
    requires -QuietNoise <= draw <= QuietNoise
    ensures NextPrice(price, draw, QuietBound) == var p := Trunc(price as real * (1.0 + draw)); if p < 1 then 1 else p
  {
  }

  class Session {
    var cash: int
    var holdings: seq<Position>
    var market: seq<Sector>
    var dailyNews: Option<seq<string>>
    var previousNews: Option<seq<string>>
    var meanings: seq<Interpretation>
    var dayCount: int
    var sectorNewsImpact: map<string, real>
    var initialCash: int

    /** Cash is never negative, positions are distinct and non-empty, and the
        day counter starts at 1. */
    predicate Valid()
      reads this`cash, this`holdings, this`dayCount
    {
      && cash >= 0
      && HoldingsOk(holdings)
      && dayCount >= 1
    }

    /** The stock table is well formed. */
    predicate TableOk()
      reads this`market
    {
      WellFormed(market)
    }

    /** `initialize_session_state` for a fresh session at `level`, with the
        first price of every stock drawn in advance. */
    constructor (level: Level, prices: seq<seq<int>>)
      requires InitialPricesFit(prices)
      ensures Valid() && TableOk()
      ensures cash == initialCash == StartingCash(level)
      ensures holdings == []
      ensures market == InitialTable(prices)
      ensures dailyNews == None && previousNews == None
      ensures meanings == [] && dayCount == 1 && sectorNewsImpact == map[]
    {
      cash := StartingCash(level);
      initialCash := StartingCash(level);
      holdings := [];
      market := InitialTable(prices);
      dailyNews := None;
      previousNews := None;
      meanings := [];
      dayCount := 1;
      sectorNewsImpact := map[];
    }

    /** `buy_stock`: rejects an unknown stock, then a quantity below one, then
        a purchase the cash cannot cover (reporting how many shares it could
        cover); otherwise pays for the shares at the current price. */
    method Buy(name: string, quantity: int, sector: string) returns (outcome: BuyOutcome)
      requires Valid() && TableOk()
      modifies this`cash, this`holdings
      ensures Valid()
      ensures !IsListed(market, sector, name) ==>
        outcome == UnknownStock && cash == old(cash) && holdings == old(holdings)
      ensures IsListed(market, sector, name) && quantity <= 0 ==>
        outcome == BadBuyQuantity && cash == old(cash) && holdings == old(holdings)
      ensures IsListed(market, sector, name) && quantity > 0 ==>
        var price := PriceIn(market, sector, name);
        if price * quantity <= old(cash) then
          && outcome == Purchased(price * quantity)
          && cash == old(cash) - price * quantity
          && holdings == Bought(old(holdings), name, quantity, price)
        else
          && outcome == InsufficientFunds(old(cash) / price)
          && cash == old(cash) && holdings == old(holdings)
      ensures cash + StockValue(holdings, market) == old(cash) + StockValue(old(holdings), market)
    {
      if !IsListed(market, sector, name) {
        return UnknownStock;
      }
      if quantity <= 0 {
        return BadBuyQuantity;
      }
      var price := PriceIn(market, sector, name);
      PriceInIsPriceOf(market, sector, name);
      var total := price * quantity;
      if cash >= total {
        Pay(name, quantity, price);
        outcome := Purchased(total);
      } else {
        var maxQuantity := if price > 0 then cash / price else 0;
        outcome := InsufficientFunds(maxQuantity);
      }
    }

    /** The accepted purchase: the shares are paid for and added to the
        position. */
    method Pay(name: string, quantity: int, price: int)
      requires Valid() && quantity > 0 && price == PriceOf(market, name) > 0 && price * quantity <= cash
      modifies this`cash, this`holdings
      ensures Valid()
      ensures cash == old(cash) - price * quantity
      ensures holdings == Bought(old(holdings), name, quantity, price)
      ensures cash + StockValue(holdings, market) == old(cash) + StockValue(old(holdings), market)
    {
      var paid := price * quantity;
      var left := cash - paid;
      assert left >= 0;
      var after := Bought(holdings, name, quantity, price);
      BuyKeepsTotalValue(cash, holdings, market, name, quantity);
      cash := left;
      holdings := after;
    }

    /** The current-price search of `sell_stock`: the sectors in order, the
        first that lists the stock giving its price, 0 when none does. */
    method CurrentPrice(name: string) returns (price: int)
      ensures price == PriceOf(market, name)
    {
      price := 0;
      var i := 0;
      var found := false;
      while i < |market| && !found
        invariant 0 <= i <= |market|
        invariant found ==> price == PriceOf(market, name)
        invariant !found ==> price == 0 && PriceOf(market[i..], name) == PriceOf(market, name)
      {
        assert market[i..][0] == market[i] && market[i..][1..] == market[i + 1..];
        var j := ListingIndex(market[i].listings, name);
        if j >= 0 {
          price := market[i].listings[j].price;
          found := true;
        }
        i := i + 1;
      }
    }

    /** `sell_stock`: rejects a stock not held, then a quantity below one,
        then more shares than are held, then a stock without a positive
        current price; otherwise receives the shares' value in cash and
        removes the position once it is empty. */
    method Sell(name: string, quantity: int) returns (outcome: SellOutcome)
      requires Valid()
      modifies this`cash, this`holdings
      ensures Valid()
      ensures var owned := Lookup(old(holdings), name);
        var price := PriceOf(market, name);
        if owned.None? then
          outcome == NotHeld && cash == old(cash) && holdings == old(holdings)
        else if quantity <= 0 then
          outcome == BadSellQuantity && cash == old(cash) && holdings == old(holdings)
        else if quantity > owned.value.quantity then
          outcome == ExceedsHolding(owned.value.quantity) && cash == old(cash) && holdings == old(holdings)
        else if price <= 0 then
          outcome == PriceUnavailable && cash == old(cash) && holdings == old(holdings)
        else
          && outcome == SoldFor(price * quantity)
          && cash == old(cash) + price * quantity
          && holdings == Sold(old(holdings), name, quantity)
      ensures cash + StockValue(holdings, market) == old(cash) + StockValue(old(holdings), market)
    {
      var position := Lookup(holdings, name);
      if position.None? {
        return NotHeld;
      }
      var owned := position.value.quantity;
      if quantity <= 0 {
        return BadSellQuantity;
      }
      if quantity > owned {
        return ExceedsHolding(owned);
      }
      var price := CurrentPrice(name);
      if price <= 0 {
        return PriceUnavailable;
      }
      Settle(name, quantity, price);
      outcome := SoldFor(price * quantity);
    }

    /** The accepted sale: the shares' value is credited and the shares are
        taken off the position. */
    method Settle(name: string, quantity: int, price: int)
      requires Valid() && Lookup(holdings, name).Some? && 0 < quantity <= Lookup(holdings, name).value.quantity
      requires price == PriceOf(market, name) > 0
      modifies this`cash, this`holdings
      ensures Valid()
      ensures cash == old(cash) + price * quantity
      ensures holdings == Sold(old(holdings), name, quantity)
      ensures cash + StockValue(holdings, market) == old(cash) + StockValue(old(holdings), market)
    {
      var received := price * quantity;
      var total := cash + received;
      assert total >= 0;
      var after := Sold(holdings, name, quantity);
      SellKeepsTotalValue(cash, holdings, market, name, quantity);
      cash := total;
      holdings := after;
    }

    /** The two nested loops of `update_stock_prices` that set every stock's
        new price and append it to its history, given each stock's rate. */
    method Reprice(rates: seq<seq<real>>, bound: real)
      requires Shaped(market, rates) && 0.0 <= bound
      modifies this`market
      ensures market == Repriced(old(market), rates, bound)
    {
      ghost var before := market;
      var i := 0;
      while i < |market|
        invariant 0 <= i <= |market| == |before|
        invariant forall k :: 0 <= k < i ==> market[k] == RepricedSector(before[k], rates[k], bound)
        invariant forall k :: i <= k < |market| ==> market[k] == before[k]
      {
        var listings := market[i].listings;
        var j := 0;
        while j < |listings|
          invariant 0 <= j <= |listings| == |before[i].listings|
          invariant forall l :: 0 <= l < j ==> listings[l] == Step(before[i].listings[l], rates[i][l], bound)
          invariant forall l :: j <= l < |listings| ==> listings[l] == before[i].listings[l]
        {
          var price := NextPrice(listings[j].price, rates[i][j], bound);
          listings := listings[j := listings[j].(price := price, history := listings[j].history + [price])];
          j := j + 1;
        }
        market := market[i := market[i].(listings := listings)];
        i := i + 1;
      }
    }

    /** `update_stock_prices`: without interpretations, every stock moves by
        its noise alone and no impulse is recorded; with them, the impulses
        of the known sectors are summed, every stock moves by its noise plus
        its sector's impulse, and the impulses are recorded. */
    method UpdatePrices(noise: seq<seq<real>>, draws: seq<real>)
      requires Valid() && TableOk() && UpdateDrawsFit(market, meanings, noise, draws)
      modifies this`market, this`sectorNewsImpact
      ensures Valid() && TableOk()
      ensures market == NextTable(old(market), meanings, noise, draws)
      ensures sectorNewsImpact == Impulses(old(market), meanings, draws)
    {
      if meanings == [] {
        Reprice(noise, QuietBound);
        RepricedFacts(old(market), noise, QuietBound);
        sectorNewsImpact := map[];
        return;
      }
      var impacts := AggregateImpacts(SectorNames(market), meanings, draws);
      var rates := NewsRates(market, noise, impacts);
      assert impacts == Impulses(market, meanings, draws);
      Reprice(rates, NewsBound);
      RepricedFacts(old(market), rates, NewsBound);
      sectorNewsImpact := impacts;
    }

    /** The news button: installs a fresh batch and drops the interpretations
        of the previous one. */
    method GenerateDailyNews(reply: Reply)
      modifies this`dailyNews, this`meanings
      ensures dailyNews == Some(GenerateNews(reply))
      ensures |dailyNews.value| == ArticlesPerDay
      ensures meanings == []
    {
      dailyNews := Some(GenerateNews(reply));
      meanings := [];
    }

    /** Whether the day can be advanced: there is a batch, and it is not
        empty. */
    predicate CanAdvance()
      reads this`dailyNews
    {
      dailyNews.Some? && dailyNews.value != []
    }

    /** The day-advance button: with no news nothing happens; otherwise the
        news becomes yesterday's, its interpretations are installed, prices
        are updated from them, a new batch is generated and the day counter
        moves on by one. */
    method AdvanceDay(replies: seq<Reply>, noise: seq<seq<real>>, draws: seq<real>, newsReply: Reply)
      returns (advanced: bool)
      requires Valid() && TableOk()
      requires CanAdvance() ==> |replies| == |dailyNews.value|
      requires CanAdvance() ==>
        UpdateDrawsFit(market, ExplainAll(dailyNews, replies, SectorNames(market)), noise, draws)
      modifies this`previousNews, this`meanings, this`market, this`sectorNewsImpact, this`dailyNews, this`dayCount
      ensures Valid() && TableOk()
      ensures advanced == old(CanAdvance())
      ensures !advanced ==>
        && previousNews == old(previousNews) && meanings == old(meanings) && market == old(market)
        && sectorNewsImpact == old(sectorNewsImpact) && dailyNews == old(dailyNews) && dayCount == old(dayCount)
      ensures advanced ==>
        && previousNews == old(dailyNews)
        && meanings == ExplainAll(old(dailyNews), replies, SectorNames(old(market)))
        && |meanings| == |old(dailyNews).value| > 0
        && market == NextTable(old(market), meanings, noise, draws)
        && sectorNewsImpact == Impulses(old(market), meanings, draws)
        && dailyNews == Some(GenerateNews(newsReply))
        && dayCount == old(dayCount) + 1
        && CanAdvance()
    {
      if !CanAdvance() {
        return false;
      }
      Advance(replies, noise, draws, newsReply);
      advanced := true;
    }

    /** A day advance once there is news to advance on. */
    method Advance(replies: seq<Reply>, noise: seq<seq<real>>, draws: seq<real>, newsReply: Reply)
      requires Valid() && TableOk() && CanAdvance() && |replies| == |dailyNews.value|
      requires UpdateDrawsFit(market, ExplainAll(dailyNews, replies, SectorNames(market)), noise, draws)
      modifies this`previousNews, this`meanings, this`market, this`sectorNewsImpact, this`dailyNews, this`dayCount
      ensures Valid() && TableOk()
      ensures previousNews == old(dailyNews)
      ensures meanings == ExplainAll(old(dailyNews), replies, SectorNames(old(market)))
      ensures |meanings| == |old(dailyNews).value| > 0
      ensures market == NextTable(old(market), meanings, noise, draws)
      ensures sectorNewsImpact == Impulses(old(market), meanings, draws)
      ensures dailyNews == Some(GenerateNews(newsReply))
      ensures dayCount == old(dayCount) + 1
      ensures CanAdvance()
    {
      ExplainNews(replies);
      CloseDay(noise, draws, newsReply);
    }

    /** The rest of a day advance once the interpretations are installed:
        prices are updated from them, a new batch is generated and the day
        counter moves on by one. */
    method CloseDay(noise: seq<seq<real>>, draws: seq<real>, newsReply: Reply)
      requires Valid() && TableOk() && UpdateDrawsFit(market, meanings, noise, draws)
      modifies this`market, this`sectorNewsImpact, this`dailyNews, this`dayCount
      ensures Valid() && TableOk()
      ensures market == NextTable(old(market), meanings, noise, draws)
      ensures sectorNewsImpact == Impulses(old(market), meanings, draws)
      ensures dailyNews == Some(GenerateNews(newsReply))
      ensures dayCount == old(dayCount) + 1
    {
      UpdatePrices(noise, draws);
      NextBatch(newsReply);
    }

    /** The last part of a day advance: a new batch is generated and the day
        counter moves on by one. */
    method NextBatch(newsReply: Reply)
      requires Valid()
      modifies this`dailyNews, this`dayCount
      ensures Valid()
      ensures dailyNews == Some(GenerateNews(newsReply))
      ensures dayCount == old(dayCount) + 1
    {
      dailyNews := Some(GenerateNews(newsReply));
      dayCount := dayCount + 1;
    }

    /** The first part of a day advance: the current batch becomes
        yesterday's and its interpretations are installed. */
    method ExplainNews(replies: seq<Reply>)
      requires dailyNews.Some? ==> |replies| == |dailyNews.value|
      modifies this`previousNews, this`meanings
      ensures previousNews == old(dailyNews)
      ensures meanings == ExplainAll(old(dailyNews), replies, SectorNames(market))
    {
      previousNews := dailyNews;
      var explained := ExplainAll(previousNews, replies, SectorNames(market));
      meanings := if explained != [] then explained else [];
    }
  }
}
