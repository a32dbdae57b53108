# FinTech trade ledger in Dafny

FinTech is a paper-trading web app. A registered user starts with 100000.00
of virtual cash, buys and sells stocks at mock quotes, and sees a portfolio
valued at the current quotes. This project models its business core and
proves properties of it.

- `shared_routes.dfy` (module `SharedRoutes`) covers the route contract
  shared by client and server:
  - the validation schema of the body of `POST /api/trade`;
  - `buildUrl`, which fills the `:name` placeholders of a route path. It is a
    loop (`BuildUrl`) proved against the fold `ApplyParamsAsWritten`.
- `ledger.dfy` (module `Ledger`) is the trade ledger of one user: cash
  balance, holdings keyed by symbol, and the append-only transaction log.
  - `ApplyOrder` specifies one buy or sell.
  - `Account` is the stored user, portfolio and transaction rows. Its method
    `Execute` does the trade route's updates step by step, with its early
    returns, and is proved equal to `ApplyOrder`.
  - Lemmas cover the holding updates, the validity invariant, averages, and
    conservation of cash plus cost basis and of cash plus market value.
- `server_routes.dfy` (module `ServerRoutes`) covers the server routes:
  - the base-price lookup of the mock quote;
  - the `POST /api/trade` handler: 401, 400 "Invalid input", 404, then the
    ledger;
  - the valuation of the rows returned by `GET /api/portfolio`.

Money is an exact `real`. `Math.random()` is a parameter in `[0, 1)`, and the
session check is a boolean parameter. A missing user row is a `null` account.
The trade route stores the symbol exactly as the order spells it. Only the
quote upper-cases it, so `aapl` and `AAPL` are quoted alike but held apart.

## Model

| member | source | states |
|---|---|---|
| SharedRoutes.ParseTradeRequest | shared/routes.ts:90-94 | a body is accepted iff it is an object with a string `symbol`, a `type` of exactly "buy" or "sell" and an integral `quantity` greater than 0; the accepted request carries those values |
| SharedRoutes.EncodeTradeRequest | client/src/hooks/use-stocks.ts:45 | the client's `JSON.stringify(data)` of a trade request: an object whose keys are exactly the three schema keys |
| SharedRoutes.ParseEncodeRoundTrip | shared/routes.ts:90-94 | every request the client can send is accepted and parsed back to itself |
| SharedRoutes.ParsedBodyIsEncoding | shared/routes.ts:90-94 | an accepted body agrees with the encoding of its parsed request on every schema key |
| SharedRoutes.UnknownKeysIgnored | shared/routes.ts:90-94 | adding or changing a key outside the schema never changes the validation result |
| SharedRoutes.Stringify | shared/routes.ts:145 | `String(value)`: a string value is itself; an integer below 10^21 in magnitude prints as a non-empty numeral that starts with `-` iff it is negative and is otherwise all decimal digits (no exponent form) |
| SharedRoutes.DecimalRoundTrip | shared/routes.ts:145 | the decimal numeral `String(n)` of a natural number reads back as `n` |
| SharedRoutes.StringifyNumberRoundTrip | shared/routes.ts:145 | `String(n)` of any integer below 10^21 in magnitude, sign included, reads back as `n` |
| SharedRoutes.NumberHasNoDollar | shared/routes.ts:145 | a number never prints a `$`, so numeric parameters are never template-expanded |
| SharedRoutes.IndexOf | shared/routes.ts:144 | the result is the first index at or after `from` where the pattern occurs; `None` iff there is none |
| SharedRoutes.Includes | shared/routes.ts:144 | `url.includes(p)` holds iff `p` occurs somewhere in the url |
| SharedRoutes.Expand | shared/routes.ts:145 | the replacement template expanded as `String.prototype.replace` does for a string pattern; the result only holds characters of the template, the match and the text around it |
| SharedRoutes.ExpandMatched | shared/routes.ts:145 | `$&` expands to the matched text |
| SharedRoutes.ExpandEscapedDollar | shared/routes.ts:145 | `$$` expands to one `$` |
| SharedRoutes.ExpandBefore | shared/routes.ts:145 | `` $` `` expands to the text before the match |
| SharedRoutes.ExpandAfter | shared/routes.ts:145 | `$'` expands to the text after the match |
| SharedRoutes.ExpandLoneDollar | shared/routes.ts:145 | a `$` at the end, or before any other character, stands for itself |
| SharedRoutes.JsReplace | shared/routes.ts:145 | `url.replace(p, value)`: without an occurrence of `p` the url is unchanged; with a value without `$` it equals replacing the first occurrence verbatim |
| SharedRoutes.SubstituteAsWritten | shared/routes.ts:144-146 | one step of the loop as written: an absent `:key` leaves the url unchanged, and a value without `$` gives the verbatim step |
| SharedRoutes.ApplyParamsAsWritten | shared/routes.ts:143-147 | the loop as written over all entries in order; when no entry's `:key` occurs in the path, the path is returned unchanged |
| SharedRoutes.ExpandWithoutDollar | shared/routes.ts:145 | a replacement string without `$` is inserted verbatim by `String.prototype.replace` |
| SharedRoutes.BuildUrl | shared/routes.ts:140-150 | without params the path is returned unchanged; with params the url is each entry's substitution applied in entry order, and equals the verbatim substitution whenever no value contains `$` |
| SharedRoutes.AbsentPlaceholderKeepsUrl | shared/routes.ts:144 | a parameter whose `:key` is absent leaves the url unchanged |
| SharedRoutes.FirstPlaceholderReplaced | shared/routes.ts:144-145 | only the first `:key` is replaced, the text around it kept; as written the value is template-expanded, and inserted verbatim when it has no `$` |
| SharedRoutes.ApplyParamsSequential | shared/routes.ts:143-147 | entries are applied in order, each on the url the earlier ones produced |
| SharedRoutes.AsWrittenAgreesWithoutDollar | shared/routes.ts:143-147 | as written and verbatim agree whenever no value contains `$` |
| SharedRoutes.PlaceholderAfterPrefix | shared/routes.ts:144 | in a path with no `:` before a placeholder, that placeholder is the first occurrence |
| SharedRoutes.SubstituteSingle | shared/routes.ts:143-147 | a one-entry substitution into `prefix:keysuffix` gives `prefix + String(value) + suffix`; as written, with `String(value)` expanded |
| SharedRoutes.HistoryUrl | shared/routes.ts:76 | with the value inserted verbatim (the intended `buildUrl`), `{symbol}` in `/api/stocks/:symbol/history` gives `/api/stocks/<symbol>/history` for every symbol |
| SharedRoutes.HistoryUrlAsWritten | shared/routes.ts:76 | as written, the same holds for every symbol without `$` |
| SharedRoutes.DollarSymbolCounterexample | shared/routes.ts:145 | as written, the symbol `$&` yields the unsubstituted template path; verbatim it yields `/api/stocks/$&/history` |
| Ledger.CannotAfford | server/routes.ts:126 | defines the funds rejection: a buy whose cost price × quantity exceeds the balance (strict `<`) |
| Ledger.CannotDeliver | server/routes.ts:147 | defines the stock rejection: a sell with no holding of the symbol or fewer shares than ordered |
| Ledger.BoughtHolding | server/routes.ts:135-142 | defines the holding after a buy: the ordered quantity at the execution price when none was held, else the summed quantity at `(oldAvg × oldQty + price × q) / (oldQty + q)` |
| Ledger.ApplyOrder | server/routes.ts:125-163 | a buy is rejected iff cash < price × quantity, a sell iff there is no holding or it is too small; a rejection changes nothing; an accepted order moves cash by price × quantity, appends exactly the order's transaction at that price, changes no other symbol's holding, and keeps quantities positive |
| Ledger.BuyUpdatesHolding | server/routes.ts:135-143 | an accepted buy adds the shares; an existing holding's new average times the new quantity equals old cost plus price × quantity; a new holding is quantity at the execution price |
| Ledger.BoughtHoldingBasis | server/routes.ts:136-139 | the weighted average keeps the cost basis additive |
| Ledger.SellUpdatesHolding | server/routes.ts:155-160 | an accepted sell deletes the holding iff it falls to exactly 0 and otherwise keeps its average price |
| Ledger.BuyWholeBalance | server/routes.ts:126-132 | a buy costing exactly the whole balance is accepted and leaves 0 |
| Ledger.RejectionIsIdempotent | server/routes.ts:126-149 | retrying a rejected order is rejected again and changes nothing |
| Ledger.ApplyOrderPreservesValid | server/routes.ts:125-163 | at a positive price, non-negative cash, positive quantities and positive average prices are preserved |
| Ledger.AverageBetween | server/routes.ts:136-138 | the new average price lies between the old average and the execution price |
| Ledger.TwoBuysAverage | server/routes.ts:135-143 | two buys into a fresh holding give the quantity-weighted average of the two prices |
| Ledger.BuyThenSellRestores | server/routes.ts:125-160 | buying a new symbol and selling it again at the same price restores cash and holdings and logs two trades |
| Ledger.BuyCostIdentity | server/routes.ts:131-139 | a buy moves its cost from cash into the holding's cost basis |
| Ledger.SellCostIdentity | server/routes.ts:151-160 | a sell turns the sold shares' cost basis into cash plus the realised gain |
| Ledger.CostAtSymbol | server/routes.ts:125-160 | on the traded symbol, cash plus cost changes by exactly the realised gain |
| Ledger.CostBasisConservation | server/routes.ts:125-160 | cash plus total cost basis is unchanged by buys and rejections and grows by the realised gain on a sell |
| Ledger.BuyMarkIdentity | server/routes.ts:131-139 | a buy at the mark moves cash into an equal market value |
| Ledger.SellMarkIdentity | server/routes.ts:151-160 | a sell at the mark moves the sold market value into cash |
| Ledger.MarkAtSymbol | server/routes.ts:125-160 | on the traded symbol, cash plus market value is unchanged when the trade is at the mark |
| Ledger.TradeAtMarkConservesEquity | server/routes.ts:125-160 | trading at the valuation price neither creates nor destroys equity (cash plus market value) |
| Ledger.Account.constructor | shared/schema.ts:14 | a new user has balance 100000.00, no holdings, no transactions, and is valid |
| Ledger.Account.Execute | server/routes.ts:125-163 | the step-by-step updates of the stored rows leave exactly the state and outcome of `ApplyOrder`, and keep the account valid at positive prices |
| ServerRoutes.ToUpperCase | server/routes.ts:19 | upper-casing keeps the length, leaves no lower-case ASCII letter, keeps every other character and maps each letter to its capital |
| ServerRoutes.ToUpperCaseIdempotent | server/routes.ts:19 | upper-casing twice is upper-casing once |
| ServerRoutes.BasePrice | server/routes.ts:9-19 | a listed upper-cased symbol gets its listed price, any other the default 100.00; every base price lies in 100.00..3400.00 |
| ServerRoutes.MockPrice | server/routes.ts:18-22 | the quote is within 5 of the base price and always positive |
| ServerRoutes.MockPriceIgnoresCase | server/routes.ts:19 | a symbol and its upper-cased spelling get the same quote |
| ServerRoutes.OtherSpellingUntouched | server/routes.ts:117 | an order never changes the holding of a differently spelled symbol |
| ServerRoutes.LowerCaseSymbolQuotedAsListed | server/routes.ts:19 | `aapl` is quoted at AAPL's base price though it is a different key |
| ServerRoutes.OutcomeResponse | server/routes.ts:126-164 | status 200 with the transaction iff the order executed; a funds rejection is 400 "Insufficient funds", a stock rejection 400 "Insufficient stock quantity" |
| ServerRoutes.HandleTrade | server/routes.ts:113-172 | 401 without a session and 400 "Invalid input" for a bad body, both with no change; 404 without a user row; otherwise the ledger update at the mock price, with one transaction appended iff the response is 200 |
| ServerRoutes.Enrich | server/routes.ts:95-101 | the row is kept; value is quantity × price; gainLoss is value less the row's ledger cost, that is quantity × (price − average), positive iff the price is above the average (for a positive quantity) |
| ServerRoutes.EnrichPortfolio | server/routes.ts:93-102 | every row, in order, is enriched at a quote of its own symbol, and nothing else is changed |
| ServerRoutes.TotalGainIsValueLessCost | server/routes.ts:93-102 | over the portfolio, total gain equals total value less total cost |
| ServerRoutes.PortfolioCostIsCostBasis | server/routes.ts:92 | the rows storage returns for an account's holdings cost, in total, exactly the ledger's cost basis |
| ServerRoutes.PortfolioGainAgainstLedger | server/routes.ts:92-102 | the enriched rows of an account's holdings gain, in total, their market value less the ledger's cost basis |

## Left out

- Rounding: `toFixed(2)` on balances and responses, and the `decimal(12,2)` columns, are not modelled. Money is exact.
- Number formatting: `Number(user.balance)` and the other string-to-number conversions are identities here.
- `Math.random()` is a parameter. The random walk of the price history, the random `change`/`changePercent`, and the linear-regression prediction route are not modelled: they are nondeterministic or floating-point numerics.
- Sessions and authentication are an external library. Only their verdict, a boolean, is modelled.
- Storage: the Drizzle/Postgres storage layer is the `Account` fields. Database errors and other thrown errors, rethrown by the route, are not modelled. So are row ids, user ids and timestamps.
- Concurrency: the route's sequence of `await`s is one atomic method call. Interleaved requests of the same user are not modelled.
- Floating point: JS numbers are modelled as exact reals. `quantity` above 2^53, and the 32-bit overflow of the `integer` column, are not modelled. A body number too large for a double (such as `1e400`) becomes `Infinity` when the body is parsed, and `.int()` then refuses it with 400. The model has no `Infinity`, so `SharedRoutes.ParseTradeRequest` accepts such a quantity as an exact integer.
- ServerRoutes.ToUpperCase: only ASCII letters are mapped. Full Unicode case mapping (which can change the length, as `ß` → `SS`) is not modelled.
- ServerRoutes.BasePrice and ServerRoutes.MockPrice inherit that ASCII-only mapping. A symbol such as `tſla` (long s, which JS upper-cases to `S`) is quoted at TSLA's 900.00 by the source but at the default 100.00 by the model.
- SharedRoutes.Stringify: `String(value)` of a non-integral number is not modelled, because parameter numbers here are integers. Integers of magnitude 10^21 or more, which JS prints in exponent form (`1e+21`), are outside `PlainInteger` and so not modelled; integers beyond 2^53, which a double cannot hold exactly, are modelled as exact.
- ServerRoutes.EnrichPortfolio: the spread `...item` copies the row's id and user id. The model's rows have only symbol, quantity and average price.
- The server's order of steps draws the quote before the 404 check. This does not change any state and is not visible in the model.

## Findings

| source | as written | input that shows it | evidently intended | confidence | as-written member | corrected member |
|---|---|---|---|---|---|---|
| shared/routes.ts:145 | `url.replace(":key", String(value))` with a string replacement, so `$&`, `$$`, `` $` `` and `$'` in a value are expanded as a replacement template | `buildUrl("/api/stocks/:symbol/history", { symbol: "$&" })` gives `/api/stocks/:symbol/history`; the symbol comes from free text typed on the trade page or the `?symbol=` query | the value inserted verbatim: `/api/stocks/$&/history` | not executed; follows from the definition of `String.prototype.replace` | SharedRoutes.DollarSymbolCounterexample | SharedRoutes.HistoryUrl |
