/**
 * The simulated portfolio (src/hooks/usePortfolio.ts): market buys and sells
 * against the cash balance and the holdings, with the weighted average cost
 * on a buy, the removal of a holding sold out, and the valuation of the
 * holdings at the current quotes. Amounts are exact reals.
 */
module Portfolio {
  import opened Common

  datatype Holding = Holding(id: string, symbol: string, shares: real, averageCost: real)

  datatype Account = Account(id: string, cash: real, holdings: seq<Holding>)

  datatype Side = Buy | Sell

  datatype Trade = Trade(symbol: string, side: Side, orderType: string, shares: real, price: real)

  /** The row recorded in the trade history. */
  datatype TradeRecord = TradeRecord(symbol: string, side: Side, orderType: string, shares: real, price: real, totalValue: real)

  datatype TradeOutcome = Rejected | Executed(account: Account, record: TradeRecord)

  /** A trade's total value, `shares * price`. */
  function TradeValue(t: Trade): real {
    t.shares * t.price
  }

  /** Every stored holding has a positive number of shares: a sold-out holding is deleted. */
  predicate Wf(a: Account) {
    forall i :: 0 <= i < |a.holdings| ==> a.holdings[i].shares > 0.0
  }

  /** `holdings.find(h => h.symbol === symbol)`: the index of the first holding of the symbol. */
  function FindHolding(hs: seq<Holding>, symbol: string): (r: Option<nat>)
    ensures r.Some? ==> r.value < |hs| && hs[r.value].symbol == symbol
                        && forall j :: 0 <= j < r.value ==> hs[j].symbol != symbol
    ensures r.None? ==> forall j :: 0 <= j < |hs| ==> hs[j].symbol != symbol
  {
    if |hs| == 0 then None
    else if hs[0].symbol == symbol then Some(0)
    else
      var r := FindHolding(hs[1..], symbol);
      if r.Some? then Some(r.value + 1) else None
  }

  function RemoveAt(hs: seq<Holding>, k: nat): (r: seq<Holding>)
    requires k < |hs|
    ensures |r| == |hs| - 1
    ensures forall j :: 0 <= j < k ==> r[j] == hs[j]
    ensures forall j :: k <= j < |r| ==> r[j] == hs[j + 1]
  {
    hs[..k] + hs[k + 1..]
  }

  /** The holdings of `symbol`, in order. */
  function OfSymbol(hs: seq<Holding>, symbol: string): seq<Holding> {
    if |hs| == 0 then []
    else OfSymbol(hs[..|hs| - 1], symbol) + (if hs[|hs| - 1].symbol == symbol then [hs[|hs| - 1]] else [])
  }

  /** Replacing a holding of another symbol by one of another symbol leaves the holdings of `symbol` alone. */
  lemma {:induction false} OfSymbolUpdate(hs: seq<Holding>, k: nat, h: Holding, symbol: string)
    requires k < |hs| && hs[k].symbol != symbol && h.symbol != symbol
    ensures OfSymbol(hs[k := h], symbol) == OfSymbol(hs, symbol)
    decreases |hs|
  {
    var n := |hs| - 1;
    if k < n {
      assert hs[k := h][..n] == hs[..n][k := h];
      OfSymbolUpdate(hs[..n], k, h, symbol);
    } else {
      assert hs[k := h][..n] == hs[..n];
    }
  }

  /** Removing a holding of another symbol leaves the holdings of `symbol` alone. */
  lemma {:induction false} OfSymbolRemove(hs: seq<Holding>, k: nat, symbol: string)
    requires k < |hs| && hs[k].symbol != symbol
    ensures OfSymbol(RemoveAt(hs, k), symbol) == OfSymbol(hs, symbol)
    decreases |hs|
  {
    var n := |hs| - 1;
    var r := RemoveAt(hs, k);
    if k == n {
      assert r == hs[..n];
    } else {
      assert r[..|r| - 1] == RemoveAt(hs[..n], k);
      assert r[|r| - 1] == hs[n];
      OfSymbolRemove(hs[..n], k, symbol);
    }
  }

  /** A holding's cost basis, `shares * averageCost`. */
  function Cost(h: Holding): real {
    h.shares * h.averageCost
  }

  /**
   * A holding grown by `q` shares bought at `p`: the new average cost is the
   * weighted average, so the cost basis grows by exactly what was paid.
   */
  function Grow(h: Holding, q: real, p: real): (r: Holding)
    requires h.shares > 0.0 && q >= 0.0
    ensures r.id == h.id && r.symbol == h.symbol
    ensures r.shares == h.shares + q
    ensures Cost(r) == Cost(h) + q * p
  {
    var n := h.shares + q;
    h.(shares := n, averageCost := (Cost(h) + q * p) / n)
  }

  /** The holdings after a buy: the first holding of the symbol grows at the weighted average cost, or a new one is added. */
  function HoldingsAfterBuy(hs: seq<Holding>, t: Trade, newHoldingId: string): (r: seq<Holding>)
    requires forall i :: 0 <= i < |hs| ==> hs[i].shares > 0.0
    requires t.shares >= 0.0
    ensures FindHolding(hs, t.symbol).Some? ==> |r| == |hs|
    ensures FindHolding(hs, t.symbol).None? ==> |r| == |hs| + 1 && r[|hs|].symbol == t.symbol
    ensures forall symbol :: symbol != t.symbol ==> OfSymbol(r, symbol) == OfSymbol(hs, symbol)
  {
    var k := FindHolding(hs, t.symbol);
    if k.Some? then
      var h := Grow(hs[k.value], t.shares, t.price);
      OtherSymbolsAfterUpdate(hs, k.value, h);
      hs[k.value := h]
    else
      var h := Holding(newHoldingId, t.symbol, t.shares, t.price);
      OtherSymbolsAfterAppend(hs, h);
      hs + [h]
  }

  lemma OtherSymbolsAfterUpdate(hs: seq<Holding>, k: nat, h: Holding)
    requires k < |hs| && h.symbol == hs[k].symbol
    ensures forall symbol :: symbol != h.symbol ==> OfSymbol(hs[k := h], symbol) == OfSymbol(hs, symbol)
  {
    forall symbol | symbol != h.symbol
      ensures OfSymbol(hs[k := h], symbol) == OfSymbol(hs, symbol)
    {
      OfSymbolUpdate(hs, k, h, symbol);
    }
  }

  lemma OtherSymbolsAfterAppend(hs: seq<Holding>, h: Holding)
    ensures forall symbol :: symbol != h.symbol ==> OfSymbol(hs + [h], symbol) == OfSymbol(hs, symbol)
  {
    assert (hs + [h])[..|hs|] == hs;
  }

  lemma OtherSymbolsAfterRemove(hs: seq<Holding>, k: nat)
    requires k < |hs|
    ensures forall symbol :: symbol != hs[k].symbol ==> OfSymbol(RemoveAt(hs, k), symbol) == OfSymbol(hs, symbol)
  {
    forall symbol | symbol != hs[k].symbol
      ensures OfSymbol(RemoveAt(hs, k), symbol) == OfSymbol(hs, symbol)
    {
      OfSymbolRemove(hs, k, symbol);
    }
  }

  /** A holding with `q` shares sold: fewer shares, the same average cost. */
  function Shrink(h: Holding, q: real): (r: Holding)
    ensures r.id == h.id && r.symbol == h.symbol && r.averageCost == h.averageCost
    ensures r.shares == h.shares - q
    ensures Cost(r) == Cost(h) - q * h.averageCost
  {
    h.(shares := h.shares - q)
  }

  /** The holdings after a sell from holding `k`: it shrinks, or is deleted when nothing is left. */
  function HoldingsAfterSell(hs: seq<Holding>, t: Trade, k: nat): (r: seq<Holding>)
    requires k < |hs|
    ensures hs[k].shares <= t.shares ==> r == RemoveAt(hs, k)
    ensures hs[k].shares > t.shares ==> |r| == |hs| && r[k].shares == hs[k].shares - t.shares
    ensures forall symbol :: symbol != hs[k].symbol ==> OfSymbol(r, symbol) == OfSymbol(hs, symbol)
  {
    if hs[k].shares - t.shares <= 0.0 then
      OtherSymbolsAfterRemove(hs, k);
      RemoveAt(hs, k)
    else
      OtherSymbolsAfterUpdate(hs, k, Shrink(hs[k], t.shares));
      hs[k := Shrink(hs[k], t.shares)]
  }

  /** The row recorded in the history for a trade. */
  function RecordOf(t: Trade): TradeRecord {
    TradeRecord(t.symbol, t.side, t.orderType, t.shares, t.price, TradeValue(t))
  }

  /**
   * The buy branch of `executeTrade`: a buy costing more than the cash is
   * refused; otherwise the cash pays for it and the first holding of the
   * symbol grows at the weighted average cost, or a new holding is added at
   * the trade price.
   */
  function BuyStep(a: Account, t: Trade, newHoldingId: string): (r: TradeOutcome)
    requires Wf(a) && t.shares >= 0.0
    ensures r.Rejected? <==> TradeValue(t) > a.cash
    ensures r.Executed? ==>
              && r.account == Account(a.id, a.cash - TradeValue(t), HoldingsAfterBuy(a.holdings, t, newHoldingId))
              && r.record == RecordOf(t)
  {
    if TradeValue(t) > a.cash then Rejected
    else Executed(Account(a.id, a.cash - TradeValue(t), HoldingsAfterBuy(a.holdings, t, newHoldingId)), RecordOf(t))
  }

  /**
   * The sell branch of `executeTrade`: a sell of more shares than the first
   * holding of the symbol has, or of a symbol not held, is refused; otherwise
   * the cash receives the proceeds and that holding shrinks, or is deleted
   * when nothing is left.
   */
  function SellStep(a: Account, t: Trade): (r: TradeOutcome)
    ensures r.Rejected? <==>
              var k := FindHolding(a.holdings, t.symbol);
              k.None? || a.holdings[k.value].shares < t.shares
    ensures r.Executed? ==>
              && FindHolding(a.holdings, t.symbol).Some?
              && a.holdings[FindHolding(a.holdings, t.symbol).value].shares >= t.shares
              && r.account == Account(a.id, a.cash + TradeValue(t),
                                      HoldingsAfterSell(a.holdings, t, FindHolding(a.holdings, t.symbol).value))
              && r.record == RecordOf(t)
  {
    var k := FindHolding(a.holdings, t.symbol);
    if k.None? || a.holdings[k.value].shares < t.shares then Rejected
    else Executed(Account(a.id, a.cash + TradeValue(t), HoldingsAfterSell(a.holdings, t, k.value)), RecordOf(t))
  }

  /**
   * `executeTrade`: without a signed-in user or a loaded account nothing
   * happens; otherwise a buy or a sell step runs. Every executed trade moves
   * its value between cash and holdings and is recorded.
   */
  function ExecuteTrade(signedIn: bool, account: Option<Account>, t: Trade, newHoldingId: string): (r: TradeOutcome)
    requires account.Some? ==> Wf(account.value)
    requires t.side == Buy ==> t.shares >= 0.0
    ensures !signedIn || account.None? ==> r.Rejected?
    ensures signedIn && account.Some? && t.side == Buy ==> r == BuyStep(account.value, t, newHoldingId)
    ensures signedIn && account.Some? && t.side == Sell ==> r == SellStep(account.value, t)
    ensures r.Executed? ==>
              && r.account.id == account.value.id
              && (t.side == Buy ==> r.account.cash == account.value.cash - TradeValue(t))
              && (t.side == Sell ==> r.account.cash == account.value.cash + TradeValue(t))
              && r.record == TradeRecord(t.symbol, t.side, t.orderType, t.shares, t.price, TradeValue(t))
    ensures r.Executed? ==>
              forall symbol :: symbol != t.symbol ==> OfSymbol(r.account.holdings, symbol) == OfSymbol(account.value.holdings, symbol)
  {
    if !signedIn || account.None? then Rejected
    else if t.side == Buy then BuyStep(account.value, t, newHoldingId)
    else SellStep(account.value, t)
  }

  // ---------------------------------------------------------------------------
  // Sums over the holdings

  function Sum(xs: seq<real>): real {
    if |xs| == 0 then 0.0 else Sum(xs[..|xs| - 1]) + xs[|xs| - 1]
  }

  lemma {:induction false} SumAppend(xs: seq<real>, x: real)
    ensures Sum(xs + [x]) == Sum(xs) + x
  {
    assert (xs + [x])[..|xs|] == xs;
  }

  lemma {:induction false} SumUpdate(xs: seq<real>, k: nat, x: real)
    requires k < |xs|
    ensures Sum(xs[k := x]) == Sum(xs) - xs[k] + x
    decreases |xs|
  {
    var n := |xs| - 1;
    if k < n {
      assert xs[k := x][..n] == xs[..n][k := x];
      SumUpdate(xs[..n], k, x);
    } else {
      assert xs[k := x][..n] == xs[..n];
    }
  }

  lemma {:induction false} SumRemove(xs: seq<real>, k: nat)
    requires k < |xs|
    ensures Sum(xs[..k] + xs[k + 1..]) == Sum(xs) - xs[k]
    decreases |xs|
  {
    var n := |xs| - 1;
    if k == n {
      assert xs[..k] + xs[k + 1..] == xs[..n];
    } else {
      var ys := xs[..k] + xs[k + 1..];
      assert ys[..|ys| - 1] == xs[..n][..k] + xs[..n][k + 1..];
      assert ys[|ys| - 1] == xs[n];
      SumRemove(xs[..n], k);
    }
  }

  /** The shares of `symbol`, over every holding of it. */
  function SharesOf(hs: seq<Holding>, symbol: string): seq<real> {
    seq(|hs|, i requires 0 <= i < |hs| => if hs[i].symbol == symbol then hs[i].shares else 0.0)
  }

  /** The cost basis of every holding. */
  function Costs(hs: seq<Holding>): seq<real> {
    seq(|hs|, i requires 0 <= i < |hs| => Cost(hs[i]))
  }

  lemma CostsUpdate(hs: seq<Holding>, k: nat, h: Holding)
    requires k < |hs|
    ensures Costs(hs[k := h]) == Costs(hs)[k := Cost(h)]
  {
    var l, r := Costs(hs[k := h]), Costs(hs)[k := Cost(h)];
    forall i | 0 <= i < |l|
      ensures l[i] == r[i]
    {
      if i != k {
        assert hs[k := h][i] == hs[i];
      }
    }
  }

  lemma CostsAppend(hs: seq<Holding>, h: Holding)
    ensures Costs(hs + [h]) == Costs(hs) + [Cost(h)]
  {
    var l, r := Costs(hs + [h]), Costs(hs) + [Cost(h)];
    forall i | 0 <= i < |l|
      ensures l[i] == r[i]
    {
      if i < |hs| {
        assert (hs + [h])[i] == hs[i];
      }
    }
  }

  lemma CostsRemove(hs: seq<Holding>, k: nat)
    requires k < |hs|
    ensures Costs(hs[..k] + hs[k + 1..]) == Costs(hs)[..k] + Costs(hs)[k + 1..]
  {
    var l, r := Costs(hs[..k] + hs[k + 1..]), Costs(hs)[..k] + Costs(hs)[k + 1..];
    forall i | 0 <= i < |l|
      ensures l[i] == r[i]
    {
      if i < k {
        assert (hs[..k] + hs[k + 1..])[i] == hs[i];
      } else {
        assert (hs[..k] + hs[k + 1..])[i] == hs[i + 1];
      }
    }
  }

  /** Replacing one holding changes the cost basis by the difference of the two holdings' costs. */
  lemma CostsAfterUpdate(hs: seq<Holding>, k: nat, h: Holding)
    requires k < |hs|
    ensures Sum(Costs(hs[k := h])) == Sum(Costs(hs)) - Cost(hs[k]) + Cost(h)
  {
    CostsUpdate(hs, k, h);
    SumUpdate(Costs(hs), k, Cost(h));
  }

  /** Replacing a holding of `symbol` by one with `n` shares changes the symbol's shares accordingly. */
  lemma SharesAfterUpdate(hs: seq<Holding>, k: nat, h: Holding, symbol: string)
    requires k < |hs| && hs[k].symbol == symbol && h.symbol == symbol
    ensures Sum(SharesOf(hs[k := h], symbol)) == Sum(SharesOf(hs, symbol)) - hs[k].shares + h.shares
  {
    assert SharesOf(hs[k := h], symbol) == SharesOf(hs, symbol)[k := h.shares];
    SumUpdate(SharesOf(hs, symbol), k, h.shares);
  }

  /** A buy adds the trade's value to the cost basis. */
  lemma BuyCostsSum(hs: seq<Holding>, t: Trade, newHoldingId: string, r: seq<Holding>)
    requires forall i :: 0 <= i < |hs| ==> hs[i].shares > 0.0
    requires t.shares >= 0.0 && r == HoldingsAfterBuy(hs, t, newHoldingId)
    ensures Sum(Costs(r)) == Sum(Costs(hs)) + TradeValue(t)
  {
    var k := FindHolding(hs, t.symbol);
    if k.Some? {
      var h' := Grow(hs[k.value], t.shares, t.price);
      CostsAfterUpdate(hs, k.value, h');
    } else {
      var h' := Holding(newHoldingId, t.symbol, t.shares, t.price);
      assert Cost(h') == TradeValue(t);
      CostsAppend(hs, h');
      SumAppend(Costs(hs), Cost(h'));
    }
  }

  /** A buy adds the bought shares to the symbol's shares. */
  lemma BuySharesSum(hs: seq<Holding>, t: Trade, newHoldingId: string, r: seq<Holding>)
    requires forall i :: 0 <= i < |hs| ==> hs[i].shares > 0.0
    requires t.shares >= 0.0 && r == HoldingsAfterBuy(hs, t, newHoldingId)
    ensures Sum(SharesOf(r, t.symbol)) == Sum(SharesOf(hs, t.symbol)) + t.shares
  {
    var k := FindHolding(hs, t.symbol);
    if k.Some? {
      var h' := Grow(hs[k.value], t.shares, t.price);
      SharesAfterUpdate(hs, k.value, h', t.symbol);
    } else {
      var h' := Holding(newHoldingId, t.symbol, t.shares, t.price);
      assert SharesOf(hs + [h'], t.symbol) == SharesOf(hs, t.symbol) + [t.shares];
      SumAppend(SharesOf(hs, t.symbol), t.shares);
    }
  }

  /**
   * Buying moves money from cash into cost basis and adds the bought shares:
   * cash plus total cost basis is unchanged, and the shares held of the
   * symbol grow by exactly the shares bought.
   */
  lemma BuyConservesValue(a: Account, t: Trade, newHoldingId: string)
    requires Wf(a) && t.shares >= 0.0
    requires BuyStep(a, t, newHoldingId).Executed?
    ensures var b := BuyStep(a, t, newHoldingId).account;
            && b.cash + Sum(Costs(b.holdings)) == a.cash + Sum(Costs(a.holdings))
            && Sum(SharesOf(b.holdings, t.symbol)) == Sum(SharesOf(a.holdings, t.symbol)) + t.shares
  {
    var b := BuyStep(a, t, newHoldingId).account;
    BuyCostsSum(a.holdings, t, newHoldingId, b.holdings);
    BuySharesSum(a.holdings, t, newHoldingId, b.holdings);
  }

  lemma SharesRemove(hs: seq<Holding>, k: nat, symbol: string)
    requires k < |hs|
    ensures SharesOf(hs[..k] + hs[k + 1..], symbol) == SharesOf(hs, symbol)[..k] + SharesOf(hs, symbol)[k + 1..]
  {
    var l, r := SharesOf(hs[..k] + hs[k + 1..], symbol), SharesOf(hs, symbol)[..k] + SharesOf(hs, symbol)[k + 1..];
    forall i | 0 <= i < |l|
      ensures l[i] == r[i]
    {
      if i < k {
        assert (hs[..k] + hs[k + 1..])[i] == hs[i];
      } else {
        assert (hs[..k] + hs[k + 1..])[i] == hs[i + 1];
      }
    }
  }

  /** Selling out a holding removes its shares. */
  lemma SellOutShares(hs: seq<Holding>, k: nat, symbol: string)
    requires k < |hs| && hs[k].symbol == symbol
    ensures Sum(SharesOf(RemoveAt(hs, k), symbol)) == Sum(SharesOf(hs, symbol)) - hs[k].shares
  {
    SharesRemove(hs, k, symbol);
    SumRemove(SharesOf(hs, symbol), k);
  }

  /** Selling out a holding removes its cost. */
  lemma SellOutCosts(hs: seq<Holding>, k: nat)
    requires k < |hs|
    ensures Sum(Costs(RemoveAt(hs, k))) == Sum(Costs(hs)) - Cost(hs[k])
  {
    CostsRemove(hs, k);
    SumRemove(Costs(hs), k);
  }

  /** A sell from holding `k` of the symbol removes the sold shares. */
  lemma SellSharesAt(hs: seq<Holding>, t: Trade, k: nat, r: seq<Holding>)
    requires k < |hs| && hs[k].symbol == t.symbol && hs[k].shares >= t.shares
    requires r == HoldingsAfterSell(hs, t, k)
    ensures Sum(SharesOf(r, t.symbol)) == Sum(SharesOf(hs, t.symbol)) - t.shares
  {
    if hs[k].shares - t.shares <= 0.0 {
      assert r == RemoveAt(hs, k);
      SellOutShares(hs, k, t.symbol);
    } else {
      SharesAfterUpdate(hs, k, Shrink(hs[k], t.shares), t.symbol);
    }
  }

  /** A sell from holding `k` of the symbol removes the sold shares' cost at the average cost. */
  lemma SellCostsAt(hs: seq<Holding>, t: Trade, k: nat, r: seq<Holding>)
    requires k < |hs| && hs[k].symbol == t.symbol && hs[k].shares >= t.shares
    requires r == HoldingsAfterSell(hs, t, k)
    ensures Sum(Costs(r)) == Sum(Costs(hs)) - t.shares * hs[k].averageCost
  {
    if hs[k].shares - t.shares <= 0.0 {
      assert hs[k].shares == t.shares;
      assert Cost(hs[k]) == t.shares * hs[k].averageCost;
      assert r == RemoveAt(hs, k);
      SellOutCosts(hs, k);
    } else {
      CostsAfterUpdate(hs, k, Shrink(hs[k], t.shares));
    }
  }

  /** The same for the holding the sell step picks, the symbol's first. */
  lemma SellSharesSum(hs: seq<Holding>, t: Trade, k: nat, r: seq<Holding>)
    requires FindHolding(hs, t.symbol) == Some(k) && hs[k].shares >= t.shares
    requires r == HoldingsAfterSell(hs, t, k)
    ensures Sum(SharesOf(r, t.symbol)) == Sum(SharesOf(hs, t.symbol)) - t.shares
  {
    SellSharesAt(hs, t, k, r);
  }

  lemma SellCostsSum(hs: seq<Holding>, t: Trade, k: nat, r: seq<Holding>)
    requires FindHolding(hs, t.symbol) == Some(k) && hs[k].shares >= t.shares
    requires r == HoldingsAfterSell(hs, t, k)
    ensures Sum(Costs(r)) == Sum(Costs(hs)) - t.shares * hs[k].averageCost
  {
    SellCostsAt(hs, t, k, r);
  }

  /** Selling removes exactly the sold shares from the shares held of the symbol. */
  lemma SellRemovesShares(a: Account, t: Trade)
    requires SellStep(a, t).Executed?
    ensures Sum(SharesOf(SellStep(a, t).account.holdings, t.symbol)) == Sum(SharesOf(a.holdings, t.symbol)) - t.shares
  {
    var k := FindHolding(a.holdings, t.symbol).value;
    SellSharesSum(a.holdings, t, k, SellStep(a, t).account.holdings);
  }

  /**
   * Selling removes the sold shares' cost from the cost basis, at the average
   * cost of the holding `k` the sell step picks.
   */
  lemma SellRemovesCost(a: Account, t: Trade, k: nat)
    requires SellStep(a, t).Executed?
    requires FindHolding(a.holdings, t.symbol) == Some(k)
    ensures Sum(Costs(SellStep(a, t).account.holdings)) == Sum(Costs(a.holdings)) - t.shares * a.holdings[k].averageCost
  {
    SellCostsSum(a.holdings, t, k, SellStep(a, t).account.holdings);
  }

  /** Trades of positive size keep every stored holding positive. */
  lemma TradePreservesWf(signedIn: bool, a: Account, t: Trade, newHoldingId: string)
    requires Wf(a) && t.shares > 0.0
    requires ExecuteTrade(signedIn, Some(a), t, newHoldingId).Executed?
    ensures Wf(ExecuteTrade(signedIn, Some(a), t, newHoldingId).account)
  {
  }

  /** A buy never overdraws: with a non-negative balance before, the balance after is non-negative. */
  lemma BuyNeverOverdraws(signedIn: bool, a: Account, t: Trade, newHoldingId: string)
    requires Wf(a) && t.side == Buy && t.shares >= 0.0 && a.cash >= 0.0
    requires ExecuteTrade(signedIn, Some(a), t, newHoldingId).Executed?
    ensures ExecuteTrade(signedIn, Some(a), t, newHoldingId).account.cash >= 0.0
  {
  }

  // ---------------------------------------------------------------------------
  // Valuation

  datatype Quote = Quote(symbol: string, price: real)

  /** `mockStocks.find(...)?.price || averageCost`: the quote, or the average cost when unquoted or quoted at 0. */
  function CurrentPrice(quotes: seq<Quote>, h: Holding): (p: real)
    ensures (forall q :: q in quotes ==> q.symbol != h.symbol) ==> p == h.averageCost
    ensures p == h.averageCost || exists q :: q in quotes && q.symbol == h.symbol && q.price == p && p != 0.0
  {
    if |quotes| == 0 then h.averageCost
    else if quotes[0].symbol == h.symbol then OrReal(Some(quotes[0].price), h.averageCost)
    else CurrentPrice(quotes[1..], h)
  }

  datatype Valued = Valued(holding: Holding, currentPrice: real, totalValue: real, pnl: real, pnlPercent: real)

  function Value(quotes: seq<Quote>, h: Holding): (v: Valued)
    ensures v.holding == h
    ensures v.totalValue == h.shares * v.currentPrice
    ensures v.pnl == h.shares * (v.currentPrice - h.averageCost)
    ensures Cost(h) > 0.0 ==> v.pnlPercent * Cost(h) == v.pnl * 100.0
    ensures Cost(h) <= 0.0 ==> v.pnlPercent == 0.0
  {
    var price := CurrentPrice(quotes, h);
    var totalValue := h.shares * price;
    var basis := Cost(h);
    var pnl := totalValue - basis;
    Valued(h, price, totalValue, pnl, if basis > 0.0 then pnl / basis * 100.0 else 0.0)
  }

  /** An unquoted holding is valued at cost: no profit, no loss. */
  lemma UnquotedHasNoPnl(quotes: seq<Quote>, h: Holding)
    requires forall q :: q in quotes ==> q.symbol != h.symbol
    ensures Value(quotes, h).pnl == 0.0 && Value(quotes, h).pnlPercent == 0.0
  {
  }

  /** With shares held, a holding is in profit exactly when its price is above its average cost. */
  lemma ProfitIffAboveCost(quotes: seq<Quote>, h: Holding)
    requires h.shares > 0.0
    ensures Value(quotes, h).pnl > 0.0 <==> Value(quotes, h).currentPrice > h.averageCost
  {
  }

  datatype Summary = Summary(cash: real, valued: seq<Valued>, totalValue: real, totalPnl: real, totalPnlPercent: real)

  function Values(vs: seq<Valued>): seq<real> {
    seq(|vs|, i requires 0 <= i < |vs| => vs[i].totalValue)
  }

  function Pnls(vs: seq<Valued>): seq<real> {
    seq(|vs|, i requires 0 <= i < |vs| => vs[i].pnl)
  }

  /** The portfolio summary: cash plus market value, and the profit against the total cost basis. */
  function Summarize(quotes: seq<Quote>, a: Account): (s: Summary)
    ensures |s.valued| == |a.holdings|
    ensures forall i :: 0 <= i < |s.valued| ==> s.valued[i] == Value(quotes, a.holdings[i])
    ensures s.totalValue == a.cash + Sum(Values(s.valued))
    ensures s.totalPnl == Sum(Values(s.valued)) - Sum(Costs(a.holdings))
    ensures Sum(Costs(a.holdings)) > 0.0 ==> s.totalPnlPercent * Sum(Costs(a.holdings)) == s.totalPnl * 100.0
  {
    var valued := seq(|a.holdings|, i requires 0 <= i < |a.holdings| => Value(quotes, a.holdings[i]));
    var worth := Sum(Values(valued));
    var cost := Sum(Costs(a.holdings));
    var pnl := worth - cost;
    Summary(a.cash, valued, a.cash + worth, pnl, if cost > 0.0 then pnl / cost * 100.0 else 0.0)
  }

  /** The summed differences equal the difference of the sums. */
  lemma {:induction false} SumDifference(xs: seq<real>, ys: seq<real>, ds: seq<real>)
    requires |xs| == |ys| == |ds|
    requires forall i :: 0 <= i < |ds| ==> ds[i] == xs[i] - ys[i]
    ensures Sum(ds) == Sum(xs) - Sum(ys)
    decreases |ds|
  {
    if |ds| > 0 {
      var n := |ds| - 1;
      SumDifference(xs[..n], ys[..n], ds[..n]);
    }
  }

  /** The total profit is the sum of the holdings' profits. */
  lemma TotalPnlIsSumOfPnls(quotes: seq<Quote>, a: Account)
    ensures var s := Summarize(quotes, a);
            s.totalPnl == Sum(Pnls(s.valued))
  {
    var s := Summarize(quotes, a);
    SumDifference(Values(s.valued), Costs(a.holdings), Pnls(s.valued));
  }
}
