/**
 * The server side of the trade and portfolio routes: the mock quote's base
 * price, the `POST /api/trade` handler around the ledger, and the valuation
 * of the portfolio rows that `GET /api/portfolio` returns. `Math.random()`
 * is a parameter `random` in `[0, 1)`; the session check is a boolean.
 */
module ServerRoutes {
  import opened SharedRoutes
  import opened Ledger

  /** The base prices of the mock stock data service. */
  const MockStocks: map<string, real> :=
    map["AAPL" := 150.00, "GOOGL" := 2800.00, "MSFT" := 300.00, "TSLA" := 900.00, "AMZN" := 3400.00]

  /** The base price of every symbol the mock service does not list. */
  const DefaultBasePrice: real := 100.00

  /** `toUpperCase` on one character of the ASCII range. */
  function UpperAscii(c: char): char {
    if IsLowerAscii(c) then (c as int - 32) as char else c
  }

  predicate IsLowerAscii(c: char) {
    'a' <= c <= 'z'
  }

  /** `s.toUpperCase()` over ASCII text: lower-case letters become capitals, every other character is kept. */
  function ToUpperCase(s: string): (u: string)
    ensures |u| == |s|
    ensures forall i :: 0 <= i < |s| ==> !IsLowerAscii(u[i])
    ensures forall i :: 0 <= i < |s| && !IsLowerAscii(s[i]) ==> u[i] == s[i]
    ensures forall i :: 0 <= i < |s| && IsLowerAscii(s[i]) ==> u[i] as int == s[i] as int - 32
  {
    if s == [] then [] else [UpperAscii(s[0])] + ToUpperCase(s[1..])
  }

  /** Upper-casing twice is upper-casing once. */
  lemma ToUpperCaseIdempotent(s: string)
    ensures ToUpperCase(ToUpperCase(s)) == ToUpperCase(s)
  {
    var u := ToUpperCase(s);
    var uu := ToUpperCase(u);
    assert forall i :: 0 <= i < |u| ==> uu[i] == u[i];
  }

  /**
   * `MOCK_STOCKS[symbol.toUpperCase()] || 100.00`: the listed base price of
   * the upper-cased symbol, or the default when it is not listed (or, as
   * `||` reads, listed at zero).
   */
  function BasePrice(symbol: string): (b: real)
    ensures ToUpperCase(symbol) in MockStocks ==> b == MockStocks[ToUpperCase(symbol)]
    ensures ToUpperCase(symbol) !in MockStocks ==> b == DefaultBasePrice
    ensures DefaultBasePrice <= b <= 3400.00
  {
    var key := ToUpperCase(symbol);
    if key in MockStocks && MockStocks[key] != 0.0 then MockStocks[key] else DefaultBasePrice
  }

  /** `getMockPrice(symbol)`: the base price moved by `Math.random() * 10 - 5`. */
  function MockPrice(symbol: string, random: real): (p: real)
    requires 0.0 <= random < 1.0
    ensures BasePrice(symbol) - 5.0 <= p < BasePrice(symbol) + 5.0
    ensures p > 0.0
  {
    BasePrice(symbol) + (random * 10.0 - 5.0)
  }

  /** The quote does not depend on the symbol's case. */
  lemma MockPriceIgnoresCase(symbol: string, random: real)
    requires 0.0 <= random < 1.0
    ensures MockPrice(symbol, random) == MockPrice(ToUpperCase(symbol), random)
  {
    ToUpperCaseIdempotent(symbol);
  }

  /**
   * The trade route stores the symbol as the order spelled it, so an order
   * for one spelling of a symbol never touches the holding of another
   * spelling, although both are quoted the same price.
   */
  lemma OtherSpellingUntouched(s: LedgerState, order: TradeRequest, price: real, other: string)
    requires PositiveQuantities(s.holdings)
    requires other != order.symbol
    ensures var h' := ApplyOrder(s, order, price).0.holdings;
      && (other in h' <==> other in s.holdings)
      && (other in s.holdings ==> h'[other] == s.holdings[other])
  {
    var h' := ApplyOrder(s, order, price).0.holdings;
    assert other in h' <==> other in h' - {order.symbol};
    assert other in s.holdings <==> other in s.holdings - {order.symbol};
    if other in s.holdings {
      assert (h' - {order.symbol})[other] == (s.holdings - {order.symbol})[other];
    }
  }

  /** "aapl" is quoted as AAPL, yet it is a different holding. */
  lemma LowerCaseSymbolQuotedAsListed()
    ensures ToUpperCase("aapl") == "AAPL" && "aapl" != "AAPL"
    ensures BasePrice("aapl") == 150.00
  {
    var u := ToUpperCase("aapl");
    assert u[0] == 'A' && u[1] == 'A' && u[2] == 'P' && u[3] == 'L';
    assert u == "AAPL";
    assert "aapl"[0] != "AAPL"[0];
  }

  // ---------------------------------------------------------------------------
  // POST /api/trade
  // ---------------------------------------------------------------------------

  /** What the route sends: a bare status, a status with `{ message }`, or the transaction row as JSON (status 200). */
  datatype Response =
    | Status(code: int)
    | ErrorMessage(code: int, message: string)
    | TransactionJson(tx: Transaction)

  /** The response for the outcome of an order that reached the ledger. */
  function OutcomeResponse(outcome: Outcome): (r: Response)
    ensures r.TransactionJson? <==> outcome.Executed?
    ensures outcome.Executed? ==> r.tx == outcome.tx
    ensures outcome.Rejected? ==> r.ErrorMessage? && r.code == 400
    ensures outcome == Rejected(InsufficientFunds) ==> r == ErrorMessage(400, "Insufficient funds")
    ensures outcome == Rejected(InsufficientStock) ==> r == ErrorMessage(400, "Insufficient stock quantity")
  {
    match outcome
    case Executed(tx) => TransactionJson(tx)
    case Rejected(InsufficientFunds) => ErrorMessage(400, "Insufficient funds")
    case Rejected(InsufficientStock) => ErrorMessage(400, "Insufficient stock quantity")
  }

  /**
   * The trade route. Without a session it answers 401; a body the schema
   * refuses answers 400 "Invalid input"; a session whose user row is gone
   * (`user == null`) answers 404; otherwise the order is executed at the
   * mock price of its symbol and the transaction row, or the rejection, is
   * sent back.
   */
  method HandleTrade(authenticated: bool, body: Json, user: Account?, random: real) returns (response: Response)
    requires 0.0 <= random < 1.0
    requires user != null ==> PositiveQuantities(user.holdings)
    modifies user
    ensures !authenticated ==> response == Status(401)
    ensures authenticated && ParseTradeRequest(body).None? ==> response == ErrorMessage(400, "Invalid input")
    ensures authenticated && ParseTradeRequest(body).Some? && user == null ==> response == Status(404)
    ensures user != null && (!authenticated || ParseTradeRequest(body).None?) ==> unchanged(user)
    ensures authenticated && ParseTradeRequest(body).Some? && user != null ==>
      var order := ParseTradeRequest(body).value;
      var (s', outcome) := ApplyOrder(old(user.State()), order, MockPrice(order.symbol, random));
      && user.State() == s'
      && response == OutcomeResponse(outcome)
    ensures user != null ==>
      (response.TransactionJson? <==> |user.transactions| == |old(user.transactions)| + 1)
    ensures user != null && old(user.Valid()) ==> user.Valid()
  {
    if !authenticated {
      return Status(401);
    }
    var parsed := ParseTradeRequest(body);
    if parsed.None? {
      return ErrorMessage(400, "Invalid input");
    }
    var order := parsed.value;
    var price := MockPrice(order.symbol, random);
    if user == null {
      return Status(404);
    }
    var outcome := user.Execute(order, price);
    response := OutcomeResponse(outcome);
  }

  // ---------------------------------------------------------------------------
  // GET /api/portfolio
  // ---------------------------------------------------------------------------

  /** A stored portfolio row, as the storage layer returns it. */
  datatype PortfolioItem = PortfolioItem(symbol: string, quantity: int, averagePrice: real)

  /** A portfolio row with its valuation at the current quote. */
  datatype EnrichedItem = EnrichedItem(item: PortfolioItem, currentValue: real, gainLoss: real)

  /** One row of the `items.map`: its value at `currentPrice` and the gain over what it cost. */
  function Enrich(item: PortfolioItem, currentPrice: real): (e: EnrichedItem)
    ensures e.item == item
    ensures e.currentValue == item.quantity as real * currentPrice
    ensures e.gainLoss == e.currentValue - CostOf(item.symbol, Holding(item.quantity, item.averagePrice))
    ensures e.gainLoss == item.quantity as real * (currentPrice - item.averagePrice)
    ensures item.quantity > 0 ==> (e.gainLoss > 0.0 <==> currentPrice > item.averagePrice)
    ensures item.quantity > 0 ==> (e.gainLoss == 0.0 <==> currentPrice == item.averagePrice)
  {
    var value := item.quantity as real * currentPrice;
    var cost := item.quantity as real * item.averagePrice;
    SignOfScaledDifference(item.quantity, currentPrice, item.averagePrice);
    EnrichedItem(item, value, value - cost)
  }

  /** `q · c - q · a = q · (c - a)`, which for `q > 0` has the sign of `c - a`. */
  lemma SignOfScaledDifference(q: int, c: real, a: real)
    ensures q as real * c - q as real * a == q as real * (c - a)
    ensures q > 0 ==> (q as real * (c - a) > 0.0 <==> c > a)
    ensures q > 0 ==> (q as real * (c - a) == 0.0 <==> c == a)
  {
    if q > 0 {
      if c > a {
        assert q as real * (c - a) > 0.0;
      } else if c < a {
        assert q as real * (a - c) > 0.0;
      }
    }
  }

  predicate ValidRandoms(randoms: seq<real>) {
    forall i :: 0 <= i < |randoms| ==> 0.0 <= randoms[i] < 1.0
  }

  /**
   * The portfolio route's `items.map`: every row, in order, valued at a fresh
   * mock quote of its own symbol (`randoms[i]` is the draw for row `i`).
   */
  function EnrichPortfolio(items: seq<PortfolioItem>, randoms: seq<real>): (r: seq<EnrichedItem>)
    requires |randoms| == |items| && ValidRandoms(randoms)
    ensures |r| == |items|
    ensures forall i :: 0 <= i < |items| ==> r[i] == Enrich(items[i], MockPrice(items[i].symbol, randoms[i]))
  {
    if items == [] then []
    else
      var head := Enrich(items[0], MockPrice(items[0].symbol, randoms[0]));
      var tail := EnrichPortfolio(items[1..], randoms[1..]);
      assert forall i :: 1 <= i < |items| ==> ([head] + tail)[i] == tail[i - 1];
      [head] + tail
  }

  function TotalValue(rows: seq<EnrichedItem>): real {
    if rows == [] then 0.0 else rows[0].currentValue + TotalValue(rows[1..])
  }

  function TotalGainLoss(rows: seq<EnrichedItem>): real {
    if rows == [] then 0.0 else rows[0].gainLoss + TotalGainLoss(rows[1..])
  }

  /** What the rows cost: quantity times average price, summed. */
  function TotalCostBasis(items: seq<PortfolioItem>): real {
    if items == [] then 0.0
    else CostOf(items[0].symbol, Holding(items[0].quantity, items[0].averagePrice)) + TotalCostBasis(items[1..])
  }

  /** Over the whole portfolio, the gains add up to its value less its cost. */
  lemma {:induction false} TotalGainIsValueLessCost(items: seq<PortfolioItem>, randoms: seq<real>)
    requires |randoms| == |items| && ValidRandoms(randoms)
    ensures var r := EnrichPortfolio(items, randoms);
      TotalGainLoss(r) == TotalValue(r) - TotalCostBasis(items)
  {
    if items != [] {
      TotalGainIsValueLessCost(items[1..], randoms[1..]);
      var r := EnrichPortfolio(items, randoms);
      assert r[1..] == EnrichPortfolio(items[1..], randoms[1..]);
    }
  }

  /**
   * `items` are the portfolio rows of a ledger's holdings: one row per held
   * symbol, with its quantity and average price, and no symbol twice.
   */
  predicate ListsHoldings(items: seq<PortfolioItem>, holdings: map<string, Holding>) {
    && (forall i :: 0 <= i < |items| ==>
          items[i].symbol in holdings && holdings[items[i].symbol] == Holding(items[i].quantity, items[i].averagePrice))
    && (forall k :: k in holdings ==> exists i :: 0 <= i < |items| && items[i].symbol == k)
    && (forall i, j :: 0 <= i < j < |items| ==> items[i].symbol != items[j].symbol)
  }

  /** Taking the first row off the listing takes its symbol out of the holdings. */
  lemma ListsHoldingsTail(items: seq<PortfolioItem>, holdings: map<string, Holding>)
    requires ListsHoldings(items, holdings) && items != []
    ensures ListsHoldings(items[1..], holdings - {items[0].symbol})
  {
    var rest := holdings - {items[0].symbol};
    forall k | k in rest
      ensures exists i :: 0 <= i < |items[1..]| && items[1..][i].symbol == k
    {
      var i :| 0 <= i < |items| && items[i].symbol == k;
      assert items[1..][i - 1].symbol == k;
    }
    forall i | 0 <= i < |items[1..]|
      ensures items[1..][i].symbol in rest
    {
      assert items[1..][i] == items[i + 1];
    }
  }

  /** No rows list no holdings. */
  lemma EmptyListing(holdings: map<string, Holding>)
    requires ListsHoldings([], holdings)
    ensures holdings == map[]
  {
  }

  /** The rows the portfolio route values cost, in total, the cost basis of the ledger's holdings. */
  lemma {:induction false} PortfolioCostIsCostBasis(items: seq<PortfolioItem>, holdings: map<string, Holding>)
    requires ListsHoldings(items, holdings)
    ensures TotalCostBasis(items) == CostBasis(holdings)
  {
    if items == [] {
      EmptyListing(holdings);
    } else {
      var k, rest := items[0].symbol, holdings - {items[0].symbol};
      ListsHoldingsTail(items, holdings);
      PortfolioCostIsCostBasis(items[1..], rest);
      assert TotalCostBasis(items[1..]) == SumOver(rest, CostOf);
      SumOverRemove(holdings, k, CostOf);
      assert holdings[k] == Holding(items[0].quantity, items[0].averagePrice);
    }
  }

  /**
   * Valued at fresh quotes, the rows listing a ledger's holdings gain, in
   * total, their market value less the ledger's cost basis.
   */
  lemma PortfolioGainAgainstLedger(items: seq<PortfolioItem>, holdings: map<string, Holding>, randoms: seq<real>)
    requires ListsHoldings(items, holdings)
    requires |randoms| == |items| && ValidRandoms(randoms)
    ensures var r := EnrichPortfolio(items, randoms);
      TotalGainLoss(r) == TotalValue(r) - CostBasis(holdings)
  {
    TotalGainIsValueLessCost(items, randoms);
    PortfolioCostIsCostBasis(items, holdings);
  }
}
