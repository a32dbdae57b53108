/**
 * The trade ledger of one user: a cash balance, the holdings keyed by the
 * symbol exactly as the order spelled it, and the append-only log of
 * executed trades. `ApplyOrder` is the specification of one buy or sell;
 * `Account.Execute` performs it step by step on the stored rows, as the
 * trade route does.
 */
module Ledger {
  import opened SharedRoutes

  /** The balance a new user starts with. */
  const InitialBalance: real := 100000.00

  /** A portfolio row: the shares held and their weighted-average purchase price. */
  datatype Holding = Holding(quantity: int, averagePrice: real)

  /** A transaction row, with the execution price used for the balance change. */
  datatype Transaction = Transaction(symbol: string, side: Side, quantity: Quantity, price: real)

  datatype LedgerState = LedgerState(balance: real, holdings: map<string, Holding>, transactions: seq<Transaction>)

  datatype Rejection = InsufficientFunds | InsufficientStock

  datatype Outcome = Executed(tx: Transaction) | Rejected(reason: Rejection)

  /** No stored holding has a zero or negative share count. */
  predicate PositiveQuantities(holdings: map<string, Holding>) {
    forall k :: k in holdings ==> holdings[k].quantity > 0
  }

  /** What every reachable ledger satisfies: cash is never negative, every holding has shares and a positive cost. */
  predicate ValidState(s: LedgerState) {
    && s.balance >= 0.0
    && PositiveQuantities(s.holdings)
    && forall k :: k in s.holdings ==> s.holdings[k].averagePrice > 0.0
  }

  /** `price × quantity` */
  function TotalCost(order: TradeRequest, price: real): real {
    price * order.quantity as real
  }

  /** A buy is rejected exactly when the balance is below its cost. */
  predicate CannotAfford(s: LedgerState, order: TradeRequest, price: real) {
    order.side == Buy && s.balance < TotalCost(order, price)
  }

  /** A sell is rejected exactly when there is no holding or it has fewer shares than ordered. */
  predicate CannotDeliver(s: LedgerState, order: TradeRequest) {
    order.side == Sell &&
    (order.symbol !in s.holdings || s.holdings[order.symbol].quantity < order.quantity)
  }

  /** The holding after a buy of `order.quantity` shares at `price`. */
  function BoughtHolding(existing: Option<Holding>, order: TradeRequest, price: real): Holding
    requires existing.Some? ==> existing.value.quantity > 0
  {
    match existing
    case None => Holding(order.quantity, price)
    case Some(h) =>
      var totalQty := h.quantity + order.quantity;
      Holding(totalQty, (h.averagePrice * h.quantity as real + TotalCost(order, price)) / totalQty as real)
  }

  /** The holding for `symbol`, if there is one. */
  function Lookup(holdings: map<string, Holding>, symbol: string): Option<Holding> {
    if symbol in holdings then Some(holdings[symbol]) else None
  }

  /**
   * One order against the ledger at execution price `price`: the new state
   * and what happened. Only the order's symbol may change among the holdings.
   */
  function ApplyOrder(s: LedgerState, order: TradeRequest, price: real): (r: (LedgerState, Outcome))
    requires PositiveQuantities(s.holdings)
    ensures r.1 == Rejected(InsufficientFunds) <==> CannotAfford(s, order, price)
    ensures r.1 == Rejected(InsufficientStock) <==> CannotDeliver(s, order)
    ensures r.1.Rejected? ==> r.0 == s
    ensures r.1.Executed? ==>
      && r.1.tx == Transaction(order.symbol, order.side, order.quantity, price)
      && r.0.transactions == s.transactions + [r.1.tx]
      && r.0.balance == (if order.side == Buy then s.balance - TotalCost(order, price)
                         else s.balance + TotalCost(order, price))
    ensures r.0.holdings - {order.symbol} == s.holdings - {order.symbol}
    ensures PositiveQuantities(r.0.holdings)
  {
    var cost := TotalCost(order, price);
    var tx := Transaction(order.symbol, order.side, order.quantity, price);
    match order.side
    case Buy =>
      if s.balance < cost then (s, Rejected(InsufficientFunds))
      else
        var h := BoughtHolding(Lookup(s.holdings, order.symbol), order, price);
        (LedgerState(s.balance - cost, s.holdings[order.symbol := h], s.transactions + [tx]), Executed(tx))
    case Sell =>
      if order.symbol !in s.holdings || s.holdings[order.symbol].quantity < order.quantity then
        (s, Rejected(InsufficientStock))
      else
        var h := s.holdings[order.symbol];
        var newQty := h.quantity - order.quantity;
        var holdings := if newQty == 0 then s.holdings - {order.symbol}
                        else s.holdings[order.symbol := Holding(newQty, h.averagePrice)];
        (LedgerState(s.balance + cost, holdings, s.transactions + [tx]), Executed(tx))
  }

  /** A buy adds the shares, at the weighted-average cost of the old shares and the new ones. */
  lemma BuyUpdatesHolding(s: LedgerState, order: TradeRequest, price: real)
    requires PositiveQuantities(s.holdings)
    requires order.side == Buy && !CannotAfford(s, order, price)
    ensures var h' := ApplyOrder(s, order, price).0.holdings;
      && order.symbol in h'
      && (order.symbol !in s.holdings ==> h'[order.symbol] == Holding(order.quantity, price))
      && (order.symbol in s.holdings ==>
            var h := s.holdings[order.symbol];
            && h'[order.symbol].quantity == h.quantity + order.quantity
            && h'[order.symbol].averagePrice * (h.quantity + order.quantity) as real
               == h.averagePrice * h.quantity as real + price * order.quantity as real)
  {
    if order.symbol in s.holdings {
      BoughtHoldingBasis(s.holdings[order.symbol], order, price);
    }
  }

  /**
   * The weighted average is the one that keeps the cost basis additive: the
   * new shares times the new average is the old cost plus what was paid.
   */
  lemma BoughtHoldingBasis(h: Holding, order: TradeRequest, price: real)
    requires h.quantity > 0
    ensures var b := BoughtHolding(Some(h), order, price);
      && b.quantity == h.quantity + order.quantity
      && b.averagePrice * b.quantity as real == h.averagePrice * h.quantity as real + TotalCost(order, price)
  {
    var n := (h.quantity + order.quantity) as real;
    var basis := h.averagePrice * h.quantity as real + TotalCost(order, price);
    assert basis / n * n == basis;
  }

  /** `(a - b) · x = a · x - b · x` on share counts. */
  lemma ScaleDifference(a: int, b: int, x: real)
    ensures (a - b) as real * x == a as real * x - b as real * x
  {
  }

  /**
   * A sell takes the shares away: the holding disappears when none are left
   * and otherwise keeps its average price.
   */
  lemma SellUpdatesHolding(s: LedgerState, order: TradeRequest, price: real)
    requires PositiveQuantities(s.holdings)
    requires order.side == Sell && !CannotDeliver(s, order)
    ensures var h, h' := s.holdings[order.symbol], ApplyOrder(s, order, price).0.holdings;
      && (h.quantity == order.quantity <==> order.symbol !in h')
      && (order.symbol in h' ==> h'[order.symbol] == Holding(h.quantity - order.quantity, h.averagePrice))
  {
  }

  /** A buy that costs exactly the whole balance goes through and leaves no cash. */
  lemma BuyWholeBalance(s: LedgerState, order: TradeRequest, price: real)
    requires PositiveQuantities(s.holdings)
    requires order.side == Buy && s.balance == TotalCost(order, price)
    ensures ApplyOrder(s, order, price).1.Executed?
    ensures ApplyOrder(s, order, price).0.balance == 0.0
  {
  }

  /** A rejected order stays rejected, and changes nothing, however often it is retried. */
  lemma RejectionIsIdempotent(s: LedgerState, order: TradeRequest, price: real)
    requires PositiveQuantities(s.holdings)
    requires ApplyOrder(s, order, price).1.Rejected?
    ensures ApplyOrder(ApplyOrder(s, order, price).0, order, price) == ApplyOrder(s, order, price)
  {
  }

  /** At a positive price every order keeps the ledger valid. */
  lemma ApplyOrderPreservesValid(s: LedgerState, order: TradeRequest, price: real)
    requires ValidState(s) && price > 0.0
    ensures ValidState(ApplyOrder(s, order, price).0)
  {
    var s' := ApplyOrder(s, order, price).0;
    if order.side == Buy && !CannotAfford(s, order, price) && order.symbol in s.holdings {
      var h := s.holdings[order.symbol];
      var n := (h.quantity + order.quantity) as real;
      var basis := h.averagePrice * h.quantity as real + price * order.quantity as real;
      assert h.averagePrice * h.quantity as real > 0.0;
      assert price * order.quantity as real > 0.0;
      assert basis / n > 0.0;
    }
    forall k | k in s'.holdings
      ensures s'.holdings[k].averagePrice > 0.0
    {
      if k != order.symbol {
        assert k in s'.holdings - {order.symbol};
      }
    }
  }

  /** Dividing by a positive number keeps bounds that hold of the scaled value. */
  lemma DivisionBounds(x: real, n: real, lo: real, hi: real)
    requires n > 0.0 && lo * n <= x <= hi * n
    ensures lo <= x / n <= hi
  {
    var q := x / n;
    assert q * n == x;
    assert (q - lo) * n >= 0.0;
    assert (hi - q) * n >= 0.0;
  }

  /** The new average price after a buy lies between the old average and the execution price. */
  lemma AverageBetween(h: Holding, order: TradeRequest, price: real)
    requires h.quantity > 0
    ensures var avg := BoughtHolding(Some(h), order, price).averagePrice;
      && (h.averagePrice <= price ==> h.averagePrice <= avg <= price)
      && (price <= h.averagePrice ==> price <= avg <= h.averagePrice)
  {
    var n := (h.quantity + order.quantity) as real;
    var basis := h.averagePrice * h.quantity as real + price * order.quantity as real;
    var lo, hi := if h.averagePrice <= price then h.averagePrice else price,
                  if h.averagePrice <= price then price else h.averagePrice;
    assert basis - lo * n == (h.averagePrice - lo) * h.quantity as real + (price - lo) * order.quantity as real;
    assert hi * n - basis == (hi - h.averagePrice) * h.quantity as real + (hi - price) * order.quantity as real;
    DivisionBounds(basis, n, lo, hi);
  }

  lemma CostPositive(order: TradeRequest, price: real)
    requires price > 0.0
    ensures TotalCost(order, price) > 0.0
  {
  }

  /** Buying `q1` at `p1` and then `q2` at `p2` gives the average `(q1·p1 + q2·p2) / (q1 + q2)`. */
  lemma TwoBuysAverage(s: LedgerState, symbol: string, q1: Quantity, p1: real, q2: Quantity, p2: real)
    requires PositiveQuantities(s.holdings) && symbol !in s.holdings
    requires p2 > 0.0 && s.balance >= p1 * q1 as real + p2 * q2 as real
    ensures var s1 := ApplyOrder(s, TradeRequest(symbol, Buy, q1), p1).0;
      var s2 := ApplyOrder(s1, TradeRequest(symbol, Buy, q2), p2).0;
      && symbol in s2.holdings
      && s2.holdings[symbol] == Holding(q1 + q2, (p1 * q1 as real + p2 * q2 as real) / (q1 + q2) as real)
  {
    var o1, o2 := TradeRequest(symbol, Buy, q1), TradeRequest(symbol, Buy, q2);
    CostPositive(o2, p2);
    assert !CannotAfford(s, o1, p1);
    var s1 := ApplyOrder(s, o1, p1).0;
    assert s1.balance == s.balance - TotalCost(o1, p1);
    assert !CannotAfford(s1, o2, p2);
    assert Lookup(s1.holdings, symbol) == Some(Holding(q1, p1));
    var s2 := ApplyOrder(s1, o2, p2).0;
    assert s2.holdings[symbol] == BoughtHolding(Some(Holding(q1, p1)), o2, p2);
    SecondBuyHolding(symbol, q1, p1, q2, p2);
  }

  lemma SecondBuyHolding(symbol: string, q1: Quantity, p1: real, q2: Quantity, p2: real)
    ensures BoughtHolding(Some(Holding(q1, p1)), TradeRequest(symbol, Buy, q2), p2)
         == Holding(q1 + q2, (p1 * q1 as real + p2 * q2 as real) / (q1 + q2) as real)
  {
  }

  /** Buying shares of a symbol not yet held and selling them again at the same price restores cash and holdings. */
  lemma BuyThenSellRestores(s: LedgerState, order: TradeRequest, price: real)
    requires PositiveQuantities(s.holdings)
    requires order.side == Buy && order.symbol !in s.holdings && !CannotAfford(s, order, price)
    ensures var s1 := ApplyOrder(s, order, price).0;
      var (s2, outcome) := ApplyOrder(s1, order.(side := Sell), price);
      && outcome.Executed?
      && s2.balance == s.balance
      && s2.holdings == s.holdings
      && |s2.transactions| == |s.transactions| + 2
  {
    var s1 := ApplyOrder(s, order, price).0;
    assert s1.holdings == s.holdings[order.symbol := Holding(order.quantity, price)];
    assert s1.holdings - {order.symbol} == s.holdings;
  }

  // ---------------------------------------------------------------------------
  // Conservation of value
  // ---------------------------------------------------------------------------

  /** The sum of `f` over the holdings, in an arbitrary order. */
  ghost function SumOver(holdings: map<string, Holding>, f: (string, Holding) -> real): real
    decreases |holdings|
  {
    if holdings == map[] then 0.0
    else
      var k :| k in holdings;
      f(k, holdings[k]) + SumOver(holdings - {k}, f)
  }

  /** The sum may take any holding out first. */
  lemma {:induction false} SumOverRemove(holdings: map<string, Holding>, k: string, f: (string, Holding) -> real)
    requires k in holdings
    ensures SumOver(holdings, f) == f(k, holdings[k]) + SumOver(holdings - {k}, f)
    decreases |holdings|
  {
    var j :| j in holdings && SumOver(holdings, f) == f(j, holdings[j]) + SumOver(holdings - {j}, f);
    if j != k {
      var rest := holdings - {j} - {k};
      assert holdings - {k} - {j} == rest;
      SumOverRemove(holdings - {j}, k, f);
      SumOverRemove(holdings - {k}, j, f);
    }
  }

  /** The contribution of the entry for `k` to the sum, zero when there is none. */
  ghost function EntryAt(holdings: map<string, Holding>, k: string, f: (string, Holding) -> real): real {
    if k in holdings then f(k, holdings[k]) else 0.0
  }

  /** Two holdings maps that differ at most at `k` have sums that differ by their entries at `k`. */
  lemma SumOverChangeAt(h: map<string, Holding>, h': map<string, Holding>, k: string, f: (string, Holding) -> real)
    requires h' - {k} == h - {k}
    ensures SumOver(h', f) - EntryAt(h', k, f) == SumOver(h, f) - EntryAt(h, k, f)
  {
    if k in h {
      SumOverRemove(h, k, f);
    } else {
      assert h - {k} == h;
    }
    if k in h' {
      SumOverRemove(h', k, f);
    } else {
      assert h' - {k} == h';
    }
  }

  function CostOf(symbol: string, h: Holding): real {
    h.quantity as real * h.averagePrice
  }

  /** What the held shares cost, at their average prices. */
  ghost function CostBasis(holdings: map<string, Holding>): real {
    SumOver(holdings, CostOf)
  }

  /** What the held shares are worth at the prices `mark` quotes. */
  ghost function MarketValue(holdings: map<string, Holding>, mark: string -> real): real {
    SumOver(holdings, (symbol: string, h: Holding) => h.quantity as real * mark(symbol))
  }

  /** The gain a sell realises over the average price; buys and rejected orders realise none. */
  function RealizedGain(s: LedgerState, order: TradeRequest, price: real): real {
    if order.side == Sell && !CannotDeliver(s, order) then
      (price - s.holdings[order.symbol].averagePrice) * order.quantity as real
    else 0.0
  }

  /** A buy on an existing holding moves its cost from the cash to the cost basis. */
  lemma BuyCostIdentity(balance: real, h: Holding, order: TradeRequest, price: real)
    requires h.quantity > 0
    ensures balance - TotalCost(order, price) + CostOf(order.symbol, BoughtHolding(Some(h), order, price))
         == balance + CostOf(order.symbol, h)
  {
    BoughtHoldingBasis(h, order, price);
  }

  /** A sell turns the sold shares' cost basis into cash, plus the realised gain. */
  lemma SellCostIdentity(balance: real, h: Holding, order: TradeRequest, price: real)
    requires h.quantity >= order.quantity
    ensures balance + TotalCost(order, price) + CostOf(order.symbol, Holding(h.quantity - order.quantity, h.averagePrice))
         == balance + CostOf(order.symbol, h) + (price - h.averagePrice) * order.quantity as real
  {
    ScaleDifference(h.quantity, order.quantity, h.averagePrice);
  }

  /** The cost of the held shares of the order's symbol changes by the cash paid, less the realised gain. */
  lemma CostAtSymbol(s: LedgerState, order: TradeRequest, price: real)
    requires PositiveQuantities(s.holdings)
    ensures var s' := ApplyOrder(s, order, price).0;
      s'.balance + EntryAt(s'.holdings, order.symbol, CostOf)
      == s.balance + EntryAt(s.holdings, order.symbol, CostOf) + RealizedGain(s, order, price)
  {
    var k := order.symbol;
    if k in s.holdings && !CannotAfford(s, order, price) && !CannotDeliver(s, order) {
      var h := s.holdings[k];
      if order.side == Buy {
        BuyCostIdentity(s.balance, h, order, price);
      } else {
        SellCostIdentity(s.balance, h, order, price);
      }
    }
  }

  /**
   * Cash plus cost basis is unchanged by a buy or a rejected order, and a
   * sell adds to it exactly the realised gain.
   */
  lemma CostBasisConservation(s: LedgerState, order: TradeRequest, price: real)
    requires PositiveQuantities(s.holdings)
    ensures var s' := ApplyOrder(s, order, price).0;
      s'.balance + CostBasis(s'.holdings) == s.balance + CostBasis(s.holdings) + RealizedGain(s, order, price)
  {
    var s' := ApplyOrder(s, order, price).0;
    SumOverChangeAt(s.holdings, s'.holdings, order.symbol, CostOf);
    CostAtSymbol(s, order, price);
  }

  /** A buy at the mark moves its cost from the cash into the marked value. */
  lemma BuyMarkIdentity(balance: real, q: int, order: TradeRequest, price: real)
    ensures balance - TotalCost(order, price) + (q + order.quantity) as real * price == balance + q as real * price
  {
    ScaleDifference(q + order.quantity, order.quantity, price);
  }

  /** A sell at the mark moves the marked value of the sold shares into the cash. */
  lemma SellMarkIdentity(balance: real, q: int, order: TradeRequest, price: real)
    ensures balance + TotalCost(order, price) + (q - order.quantity) as real * price == balance + q as real * price
  {
    ScaleDifference(q, order.quantity, price);
  }

  /** The market value of the order's symbol changes by exactly the cash paid or received. */
  lemma MarkAtSymbol(s: LedgerState, order: TradeRequest, mark: string -> real)
    requires PositiveQuantities(s.holdings)
    ensures var f := (symbol: string, h: Holding) => h.quantity as real * mark(symbol);
      var s' := ApplyOrder(s, order, mark(order.symbol)).0;
      s'.balance + EntryAt(s'.holdings, order.symbol, f) == s.balance + EntryAt(s.holdings, order.symbol, f)
  {
    var price := mark(order.symbol);
    var q := if order.symbol in s.holdings then s.holdings[order.symbol].quantity else 0;
    if order.side == Buy {
      BuyMarkIdentity(s.balance, q, order, price);
    } else {
      SellMarkIdentity(s.balance, q, order, price);
    }
  }

  /**
   * Trading at the price the valuation uses neither creates nor destroys
   * value: cash plus the market value of the holdings is unchanged.
   */
  lemma TradeAtMarkConservesEquity(s: LedgerState, order: TradeRequest, mark: string -> real)
    requires PositiveQuantities(s.holdings)
    ensures var s' := ApplyOrder(s, order, mark(order.symbol)).0;
      s'.balance + MarketValue(s'.holdings, mark) == s.balance + MarketValue(s.holdings, mark)
  {
    var s' := ApplyOrder(s, order, mark(order.symbol)).0;
    var f := (symbol: string, h: Holding) => h.quantity as real * mark(symbol);
    SumOverChangeAt(s.holdings, s'.holdings, order.symbol, f);
    MarkAtSymbol(s, order, mark);
  }

  // ---------------------------------------------------------------------------
  // The stored rows of one user
  // ---------------------------------------------------------------------------

  /** The user's balance, portfolio rows and transaction rows, updated in place by the trade route. */
  class Account {
    var balance: real
    var holdings: map<string, Holding>
    var transactions: seq<Transaction>

    /** A freshly registered user: the default balance, nothing held, no trades. */
    constructor ()
      ensures balance == InitialBalance && holdings == map[] && transactions == []
      ensures Valid()
    {
      balance := InitialBalance;
      holdings := map[];
      transactions := [];
    }

    function State(): LedgerState
      reads this
    {
      LedgerState(balance, holdings, transactions)
    }

    ghost predicate Valid()
      reads this
    {
      ValidState(State())
    }

    /**
     * Executes one validated order at `price`, rejecting it before any row
     * is written when the user cannot pay or cannot deliver.
     */
    method Execute(order: TradeRequest, price: real) returns (outcome: Outcome)
      requires PositiveQuantities(holdings)
      modifies this
      ensures (State(), outcome) == ApplyOrder(old(State()), order, price)
      ensures old(Valid()) && price > 0.0 ==> Valid()
    {
      if Valid() && price > 0.0 {
        ApplyOrderPreservesValid(State(), order, price);
      }
      var totalCost := TotalCost(order, price);
      if order.side == Buy {
        if balance < totalCost {
          return Rejected(InsufficientFunds);
        }
        balance := balance - totalCost;
        if order.symbol in holdings {
          var existing := holdings[order.symbol];
          var totalQty := existing.quantity + order.quantity;
          var totalCostBasis := existing.averagePrice * existing.quantity as real + totalCost;
          var newAvgPrice := totalCostBasis / totalQty as real;
          holdings := holdings[order.symbol := Holding(totalQty, newAvgPrice)];
          assert Holding(totalQty, newAvgPrice) == BoughtHolding(Lookup(old(holdings), order.symbol), order, price);
        } else {
          holdings := holdings[order.symbol := Holding(order.quantity, price)];
        }
      } else {
        if order.symbol !in holdings || holdings[order.symbol].quantity < order.quantity {
          return Rejected(InsufficientStock);
        }
        var existing := holdings[order.symbol];
        balance := balance + totalCost;
        var newQty := existing.quantity - order.quantity;
        if newQty == 0 {
          holdings := holdings - {order.symbol};
        } else {
          holdings := holdings[order.symbol := Holding(newQty, existing.averagePrice)];
        }
      }
      var tx := Transaction(order.symbol, order.side, order.quantity, price);
      transactions := transactions + [tx];
      outcome := Executed(tx);
      assert holdings == ApplyOrder(old(State()), order, price).0.holdings;
      assert balance == ApplyOrder(old(State()), order, price).0.balance;
    }
  }
}
