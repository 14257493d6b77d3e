# Day-cycle market engine of the stock-trading simulator

This project models the core of `app.py`. The application is an educational
stock-trading game. A player starts with the capital of a difficulty level. The
player buys and sells shares of 37 Korean stocks in 15 sectors against a cash
balance. Each simulated day a language model writes five news articles. On the
next day the same model interprets each article as an explanation and a list of
related sectors. A keyword score of each explanation pushes the prices of the
related sectors.

The model has six modules:

- `Strings` (`strings.dfy`): the Python `str` operations the parsers use,
  stated over `seq<char>` with Python's semantics. These are `strip`, `find`,
  `in`, `count`, `split`, `split(sep, 1)[-1]`, `split(sep)[-1]` and clamped
  slicing.
- `News` (`news.dfy`): two parsers.
  - The splitter of `generate_news` turns the generator's reply into exactly
    five articles.
  - The parser of `explain_daily_news_meanings` turns an interpretation reply
    into an explanation and the known sectors it names.
  - Each parser has a round-trip lemma: a reply written in the layout the
    prompts ask for parses back to what was written.
- `Sentiment` (`sentiment.dfy`): the keyword score, the capped impact of one
  interpretation, and the aggregation loop of `update_stock_prices` that sums
  impacts into the known sectors.
- `Market` (`market.dfy`): the stock table, meaning the sectors, their
  listings, the current prices and the price histories. It also covers the
  current-price search, the pricing rule (clamp, truncate, floor at 1), and the
  table `initialize_session_state` builds.
- `Ledger` (`ledger.dfy`): the portfolio positions, what a buy and a sell do to
  them, the weighted-average cost, and `calculate_portfolio_summary`.
- `Game` (`session.dfy`): the class `Session`. It holds the session fields the
  core changes in place: cash, positions, stock table, today's and yesterday's
  news, the interpretations, the day counter, the recorded sector impulses and
  the starting capital. Its methods are `buy_stock`, `sell_stock`,
  `update_stock_prices`, the news button and the day-advance button.

The random draws and the language model's replies are parameters. A `Reply` is
either the reply text or the message of the exception the call raised. The noise
draws come one per listing. Their range is a precondition: ±0.03 without
interpretations and ±0.02 with them. There is one impact draw per
interpretation, in [0.01, 0.04] for a positive score and in [-0.04, -0.01] for a
negative one. The first prices come one per stock, each within the band
`random.randint` draws from.

Python dictionaries are modelled as sequences in insertion order:

- the stock table is a sequence of sectors, each with a sequence of listings;
- the portfolio is a sequence of positions with distinct names;
- `news_meanings` is a sequence of interpretations, where entry `k` stands for
  the key `str(k + 1)`.

Floats are exact reals. `int()` on a float is an explicit truncation toward zero
(`Market.Trunc`).

Two properties of the code are easy to misread, and the model states what the
code does.

- **A move can exceed the daily clamp.** The comment at app.py:738 names a
  daily limit of ±15% (±10% without interpretations, app.py:689), and the rate
  is clamped to it. The price is then truncated by `int()` at app.py:744 (and
  app.py:692), so a fall can exceed the limit by less than one unit.
  `Market.TruncationWidensFall` shows a price of 10 falling to 8.
  `Market.NextPriceBounds` states the bound the code does keep.
- **A second advance is never refused.** The day-advance button checks at
  app.py:1130 that there is news. In the same handler, app.py:1144 installs the
  batch `generate_news` returns, which always holds five non-empty articles,
  before the day counter moves on at app.py:1146. So the check at app.py:1130
  always passes on the next press. `Game.Session.AdvanceDay` ensures
  `CanAdvance()` after every advance.

## Model

| member | source | states |
|---|---|---|
| Strings.Strip | app.py:482 | `strip` gives the middle part of the text that neither starts nor ends with whitespace (Python's whitespace set); the result is empty exactly when the whole text is whitespace |
| Strings.StripPadded | app.py:482 | stripping a text padded with spaces on both sides gives back the text |
| Strings.Find | app.py:560-562 | `find` gives the first index where the substring occurs, or -1 when it occurs nowhere; no occurrence comes before the index |
| Strings.Count | app.py:714-717 | `count` is zero exactly when the substring does not occur |
| Strings.Split | app.py:487 | `split` yields one more part than there are separators, and no part contains the separator |
| Strings.JoinSplit | app.py:487 | joining the parts of a split with the separator gives back the text |
| Strings.SplitJoin | app.py:487 | splitting a join of parts that do not contain the separator's first character gives back the parts |
| Strings.AfterFirst | app.py:491 | `split(sep, 1)[-1]` is what follows the first separator (the text is prefix, separator, result), or the whole text when there is none |
| Strings.StripExact | app.py:482 | everything after the stripped text is whitespace, and a non-empty result is exactly the text minus its leading and trailing whitespace |
| Strings.AfterLast | app.py:572 | `split(sep)[-1]` holds no separator, and is the whole text when there is none |
| Strings.AfterLastIsTail | app.py:572 | when the separator occurs, the text ends with the separator followed by `split(sep)[-1]`, so the result is the text after the last separator |
| Strings.Slice | app.py:494 | a Python slice with non-negative bounds is the ordinary subsequence when the bounds fit, and empty when they cross or start past the end; an end past the text gives everything from the start, as Python clamps it |
| News.DropNumberLine | app.py:494-495 | an article that starts with a number line loses that line and is stripped again; an article without a number line, or without a line break, is unchanged; the result stays trimmed |
| News.ArticleOf | app.py:489-496 | a piece that is kept yields a non-empty article with no surrounding whitespace |
| News.Articles | app.py:487-496 | the splitter keeps at most one article per piece, each of them trimmed |
| News.FitToDay | app.py:498-501 | the batch has exactly five articles: the first five kept, or all the kept ones followed by the missing-article marker |
| News.SplitNews | app.py:484-501 | the splitter always yields exactly five trimmed, non-empty articles |
| News.GenerateNews | app.py:482-505 | `generate_news` always yields exactly five non-empty articles, all of them the error marker when the service call raised |
| News.PieceBody | app.py:490-493 | in a piece in the requested layout, the stripped text after the number line is exactly the article |
| News.ArticleOfPiece | app.py:489-496 | a piece in the requested layout (number line, article, blank line) yields exactly its article |
| News.ArticlesOfPieces | app.py:487-496 | the pieces of a reply in the requested layout yield exactly their articles, in order |
| News.RenderedSplits | app.py:487 | splitting a reply in the requested layout on the article marker yields an empty head followed by the pieces |
| News.SplitNewsRoundTrip | app.py:482-501 | a reply that lists articles under "## 뉴스 " and a number line yields those articles, cut or padded to five |
| News.Candidates | app.py:575 | the candidate list has one entry more than the commas in the sector text |
| News.CandidatesOfList | app.py:575 | the candidates of a ", "-separated list of trimmed names are exactly those names |
| News.KnownOnly | app.py:576 | a name is kept exactly when it is a candidate and a known sector; the kept names are a subsequence of the candidates, in their order, and each known name is kept as many times as it is written |
| News.ExplanationOf | app.py:559-568 | without "해설:" the explanation is the missing-explanation text |
| News.ExplanationOfRendered | app.py:559-566 | the explanation of a reply in the requested layout is the explanation that was written |
| News.SectorsOf | app.py:571-580 | the sectors are all known; none without "관련 섹터:" or when the list is empty or "없음"; otherwise the known candidates, kept in order and with repeats as `News.KnownOnly` keeps them |
| News.SectorsOfRendered | app.py:571-578 | the sectors of a reply in the requested layout are the written names that are known |
| News.ParseInterpretation | app.py:553-582 | every sector of a parsed interpretation is a known sector |
| News.ParseInterpretationRoundTrip | app.py:553-582 | a reply written as "해설: …" and "관련 섹터: a, b, …" parses back to its explanation and its known sector names, in order |
| News.Interpret | app.py:527-586 | a failure-marker article gets the fixed explanation and no sectors; a failed call gets "오류 발생: " and its message with no sectors; the sectors are always known |
| News.MarkersRecognised | app.py:527-530 | both failure texts count as failure markers, and so does every article of a batch whose generation failed |
| News.ExplainAll | app.py:509-588 | no batch gives no interpretations; otherwise one interpretation per article, in order, each naming only known sectors |
| Sentiment.Hits | app.py:714-717 | the summed keyword counts are zero exactly when the explanation contains none of the keywords |
| Sentiment.ScoreSign | app.py:712-717 | a positive score needs some positive keyword in the explanation, and a negative score some negative keyword |
| Sentiment.NoKeywordsNeutral | app.py:712-717 | an explanation containing no keyword scores 0 |
| Sentiment.Capped | app.py:722-724 | `min(abs(score), 3)` lies in [0, 3] and is 0 exactly at score 0 |
| Sentiment.Impact | app.py:719-724 | the impact is 0 exactly when the score is 0, in [0.01, 0.12] when it is positive and in [-0.12, -0.01] when it is negative |
| Sentiment.ImpactSaturates | app.py:722 | every score of 3 or more has the impact of score 3, three times the draw |
| Sentiment.Impacts | app.py:705-724 | one impact per interpretation, each within ±0.12 |
| Sentiment.ImpactsEntries | app.py:712-724 | entry k is the impact of interpretation k's keyword score with draw k: at least 0.01 for a positive score and at most -0.01 for a negative one |
| Sentiment.AddedBound | app.py:726-728 | one interpretation moves a sector by at most 0.12 for each time it lists that sector |
| Sentiment.UnlistedSectorUnmoved | app.py:726-728 | a sector no interpretation lists receives no impulse |
| Sentiment.SectorImpactBound | app.py:700-728 | a sector's impulse is within ±0.12 for each time the day's interpretations list it |
| Sentiment.AddedAtLeast | app.py:726-728 | an interpretation with an impact of at least 0.01 adds at least 0.01 per listing of the sector |
| Sentiment.AddedAtMost | app.py:726-728 | an interpretation with an impact of at most -0.01 takes off at least 0.01 per listing of the sector |
| Sentiment.SectorImpactAtLeast | app.py:704-728 | when every interpretation listing a sector has an impact of at least 0.01, the sector's impulse is at least 0.01 per listing |
| Sentiment.SectorImpactAtMost | app.py:704-728 | when every interpretation listing a sector has an impact of at most -0.01, the sector's impulse is at most -0.01 per listing |
| Sentiment.GoodNewsRaises | app.py:712-728 | when every interpretation listing a sector scores positive, the sector's impulse is at least 0.01 per listing |
| Sentiment.BadNewsLowers | app.py:712-728 | when every interpretation listing a sector scores negative, the sector's impulse is at most -0.01 per listing |
| Sentiment.AggregateImpacts | app.py:700-728 | the loop gives every known sector, and only those, the sum of the impacts of the interpretations listing it; unknown names are ignored |
| Market.PriceOfListed | app.py:654-661 | in a well-formed table, the current-price search finds a listed stock's own price, which is at least 1 |
| Market.PriceOfUnlisted | app.py:654-661 | the search gives 0 for a name no sector lists |
| Market.PriceOfPositive | app.py:654-666 | in a well-formed table, the search gives a positive price exactly for listed stocks |
| Market.PriceInIsPriceOf | app.py:605 | the price a buy reads through the sector is the price the sell-side search finds |
| Market.Trunc | app.py:744 | `int()` truncates toward zero: the result is within one unit of its argument, on the side of zero |
| Market.Clamp | app.py:739 | the clamped rate lies within the bound, equals the rate when the rate is inside it, and is the bound (or its negation) when the rate rises above (or falls below) it |
| Market.NextPrice | app.py:742-744 | the new price is at least 1; above 1 it is the clamped product truncated; it is 1 exactly when the clamped product is below 2 |
| Market.NextPriceBounds | app.py:735-744 | a new price is at least 1, no more than the clamped rise, and less than one unit below the clamped fall |
| Market.TruncationWidensFall | app.py:739-744 | a price of 10 falling by the full 15% becomes 8 |
| Market.NewsRates | app.py:732-737 | each stock's rate is its noise draw plus its sector's recorded impulse, and the noise alone for a sector with no recorded impulse |
| Market.Step | app.py:741-747 | one listing's update keeps its name, gives a price of at least 1 and appends that price to the history |
| Market.Repriced | app.py:730-747 | an update keeps every sector and every stock in place and appends each new price to that stock's history |
| Market.RepricedFacts | app.py:730-747 | an update keeps the table well formed and every sector and stock in place; each stock gets its new price, appended once to its history |
| Market.RepricedMoves | app.py:730-747 | every price moves within the clamp, less one unit of truncation on the way down, and never goes below 1 |
| Market.PriceBand | app.py:404-415 | every first-price band is a non-empty range of positive prices |
| Market.BaseTableDistinct | app.py:382-398 | no stock name occurs twice in the base table, and no sector name does either |
| Market.InitialTable | app.py:380-423 | the first table is well formed and holds every stock of the base table at its drawn price, with a one-entry history |
| Ledger.Lookup | app.py:637 | a stock is found exactly when some position holds it, and what is found is that position |
| Ledger.LookupReplaced | app.py:614-617 | updating a position in place changes what is found for that stock only |
| Ledger.LookupAppended | app.py:619-623 | opening a new position changes what is found for that stock only |
| Ledger.LookupRemoved | app.py:672-674 | deleting a position leaves its stock not held and changes nothing else |
| Ledger.AverageCost | app.py:611-618 | the average cost times the new share count is the total paid for all shares; it is 0 when no share is held |
| Ledger.AverageCostBetween | app.py:611-618 | a top-up never moves the average cost outside the range between the old average and the new price |
| Ledger.AverageCostCommutes | app.py:611-618 | two top-ups of the same stock give the same average cost in either order |
| Ledger.Bought | app.py:610-623 | a buy tops up a held position to the new share count at the weighted-average cost, or opens a new position at the price; other positions are untouched and positions stay distinct and non-empty |
| Ledger.Sold | app.py:668-674 | a sell takes the shares off the position without changing its cost, deletes it when no share is left, and leaves other positions untouched |
| Ledger.Worth | app.py:762-772 | a position's value at the current prices is never negative |
| Ledger.StockValue | app.py:761-772 | the value of all positions is never negative |
| Ledger.StockValueConcat | app.py:761-770 | the value of the positions is the sum of the value of any two consecutive runs of them |
| Ledger.BuyKeepsTotalValue | app.py:605-623 | a buy at the current price leaves cash plus stock value unchanged |
| Ledger.SellKeepsTotalValue | app.py:654-674 | a sell at the current price leaves cash plus stock value unchanged |
| Ledger.Summarize | app.py:755-781 | total value is cash plus the positions' value at current prices; the gain is total value minus starting capital; the rate is that gain as a percentage (0 without capital), and is positive exactly when there is a gain |
| Ledger.TradingExample | app.py:605-779 | from 1,000,000 of cash, buying 10 shares at 50,000 and selling 5 at 60,000 leaves 800,000 of cash and a total value of 1,100,000, a 10% gain |
| Game.StartingCash | app.py:174-177 | every level starts with at least 1,000,000 |
| Game.ImpulsesFacts | app.py:697-751 | no impulses are recorded without interpretations; otherwise every known sector has one, a sector no interpretation lists has 0, and a sector listed n times has at most 0.12·n either way |
| Game.NextTablePrices | app.py:684-747 | every new price is the next price of the old one at its rate: the noise draw clamped to ±10% without interpretations, and the noise draw plus the sector's aggregated impulse clamped to ±15% with them |
| Game.UpdateKeepsTable | app.py:730-747 | an update with rates under a clamp of less than 100% gives every stock a price of at least 1, keeps the table well formed, and keeps every move within the clamp less one unit of truncation |
| Game.NextTableFacts | app.py:683-747 | an update keeps the table well formed and every stock in place, appends each new price to its history, and keeps every move within the mode's clamp less one unit of truncation |
| Game.QuietNoiseUnclamped | app.py:688-692 | without interpretations the ±10% clamp never binds: the noise draw alone moves the price |
| Game.Session.constructor | app.py:368-441 | a fresh session has the level's capital in cash and as the starting capital, no positions, the initial table, no news, no interpretations, no impulses, and day 1 |
| Game.Session.Buy | app.py:591-634 | the rejections come in the source's order (unknown stock, quantity below 1, cash short, which reports the affordable quantity) and change nothing; a purchase pays exactly price × quantity and updates the positions as `Bought`; cash never goes negative and cash plus stock value is unchanged |
| Game.Session.Pay | app.py:608-623 | the accepted purchase takes price × quantity from cash and adds the shares to the positions |
| Game.Session.CurrentPrice | app.py:654-661 | the search loop finds the price in the first sector that lists the stock, or 0 |
| Game.Session.Sell | app.py:636-680 | the rejections come in the source's order (not held, quantity below 1, more than held, no positive price) and change nothing; a sale credits exactly price × quantity and updates the positions as `Sold`; cash plus stock value is unchanged |
| Game.Session.Settle | app.py:668-674 | the accepted sale adds price × quantity to cash and takes the shares off the position |
| Game.Session.Reprice | app.py:730-747 | the nested loops give every stock its next price and append it to its history, and nothing else changes |
| Game.Session.UpdatePrices | app.py:683-751 | `update_stock_prices` sets the table to the next table of its mode and records the mode's impulses; the table stays well formed |
| Game.Session.GenerateDailyNews | app.py:1208-1213 | the news button installs a batch of five articles and clears the interpretations |
| Game.Session.ExplainNews | app.py:1133-1140 | today's news becomes yesterday's, and the interpretations of it are installed |
| Game.Session.NextBatch | app.py:1143-1146 | a fresh batch is installed and the day counter moves on by exactly one |
| Game.Session.CloseDay | app.py:1142-1146 | the table becomes the next table of its mode, the impulses are recorded, a fresh batch is installed and the day counter moves on by one |
| Game.Session.Advance | app.py:1133-1146 | yesterday's news is today's, its interpretations (one per article) are installed, the table and impulses are updated from them, a fresh batch is installed, the day moves on by one, and the next advance is allowed |
| Game.Session.AdvanceDay | app.py:1129-1153 | without news nothing changes, the day counter included; otherwise yesterday's news, the interpretations, the table, the impulses and the new batch are set in the source's order, the day counter moves on by one, and the next advance is allowed |

## Left out

- Streamlit rendering is not modelled: pages, tabs, messages, toasts, spinners,
  reruns, the two-step `buy_confirm`/`sell_confirm` flags, and the price and
  portfolio displays. Only the outcome each message reports is kept, as the
  `BuyOutcome` and `SellOutcome` values.
- The language-model calls, their prompts and the pause between calls are not
  modelled. The reply text, or the exception's message, is a parameter.
- Persistence is not modelled: login, `save_session_data` and the NaN/infinity
  sanitiser are network I/O and floating-point cleanup outside the engine.
- `random.uniform` and `random.randint` are not modelled. Their draws are
  parameters whose ranges are preconditions.
- Floating point is not modelled. Prices and averages are exact reals, so
  rounding in `purchase_price` and in the profit rate is absent.
- `str.isdigit` is modelled for the ASCII digits only. Other Unicode digits at
  the start of an article are not recognised.
- `related_sectors_str.lower()` is not modelled: lower-casing cannot turn any
  text into or out of "없음". The comparison is written against the list as
  it is.
- The `force_reset` path and level changes are not modelled. Neither are the
  session keys the core never reads (chat, messages, analysis results, user
  settings), the stock descriptions and the glossary.
- `calculate_portfolio_summary`'s `total_purchase_value` is computed and then
  discarded by the code, so the model does not compute it.
- Selecting the level is not modelled. The constructor takes the level, and the
  summary takes the starting capital recorded at creation.
- News.GenerateNews: its contract fixes the content of a batch only for replies
  in the requested layout, through `News.SplitNewsRoundTrip`. For other replies
  it states the count and that the articles are trimmed. Those round-trip
  articles must not contain '#' and must not start with a number line.
- News.ParseInterpretation: its own contract states only that the sectors are
  known. The full parse is stated by `News.ExplanationOf`, `News.SectorsOf` and
  `News.ParseInterpretationRoundTrip`. The round trip needs an explanation
  without the character '관' and sector names without ',' or '관'.
- Sentiment.Hits: overlapping keywords are not singled out. "수출 증가"
  contains "증가", so one phrase scores twice. The model counts every keyword
  separately, as the code does, but no lemma states the double count.
