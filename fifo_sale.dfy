/**
 * The first-in-first-out sale performed by `DatabaseHelper.liquidateStock`, as a function on
 * the stocks table: the lots of the sold symbol are visited in id order and each gives up
 * units until the order is filled; every unit sold brings in the lot's own mark price and
 * realises the mark minus the lot's basis for the day (the price paid for a lot bought on the
 * sale's day, the previous close otherwise). `RemoveEmpty` is the clean-up statement that
 * deletes zero-quantity rows afterwards.
 */
module FifoSale {
  import opened Tables
  import opened LotQueries

  /** The lots after the sale (zero-quantity rows still present), the amount sold and the realised change. */
  datatype Sale = Sale(lots: seq<Lot>, proceeds: real, change: real)

  function Min(a: nat, b: nat): (m: nat)
    ensures m <= a && m <= b && (m == a || m == b)
  {
    if a <= b then a else b
  }

  /** The sum of `k` units at `p` each, added one unit at a time as the sale loop does. */
  function Units(k: nat, p: real): real
    decreases k
  {
    if k == 0 then 0.0 else Units(k - 1, p) + p
  }

  /** What one unit of `lot` sold on `latestDate` is measured against for the day's change. */
  function Basis(lot: Lot, previousClose: real, latestDate: string): real {
    if lot.date == latestDate then lot.pricePaid else previousClose
  }

  /** Sell `n` units of `symbol`, oldest lot first. */
  function FifoSell(lots: seq<Lot>, symbol: string, n: nat, previousClose: real, latestDate: string): (sale: Sale)
    ensures |sale.lots| == |lots|
    decreases |lots|
  {
    if lots == [] || n == 0 then Sale(lots, 0.0, 0.0)
    else
      var head := lots[0];
      if head.symbol != symbol then
        var rest := FifoSell(lots[1..], symbol, n, previousClose, latestDate);
        Sale([head] + rest.lots, rest.proceeds, rest.change)
      else
        var k := Min(head.quantity, n);
        var rest := FifoSell(lots[1..], symbol, n - k, previousClose, latestDate);
        Sale([head.(quantity := head.quantity - k)] + rest.lots,
             Units(k, head.currentPrice) + rest.proceeds,
             Units(k, head.currentPrice - Basis(head, previousClose, latestDate)) + rest.change)
  }

  /** `DELETE FROM stocks WHERE quantity = 0`: every zero-quantity row goes, of any symbol. */
  function RemoveEmpty(lots: seq<Lot>): (kept: seq<Lot>)
    ensures NoEmptyLots(kept)
    ensures |kept| <= |lots|
    decreases |lots|
  {
    if lots == [] then []
    else if lots[0].quantity == 0 then RemoveEmpty(lots[1..])
    else [lots[0]] + RemoveEmpty(lots[1..])
  }

  // ---------------------------------------------------------------------------------------
  // Arithmetic of unit sums

  /** `k` units at `p` are worth `k * p`. */
  lemma {:induction false} UnitsIsProduct(k: nat, p: real)
    ensures Units(k, p) == (k as real) * p
    decreases k
  {
    if k > 0 {
      UnitsIsProduct(k - 1, p);
      assert ((k - 1) as real) * p + p == (k as real) * p;
    }
  }

  lemma {:induction false} UnitsAdd(a: nat, b: nat, p: real)
    ensures Units(a + b, p) == Units(a, p) + Units(b, p)
    decreases b
  {
    if b > 0 {
      UnitsAdd(a, b - 1, p);
      assert Units(a + b, p) == Units(a + (b - 1), p) + p;
    }
  }

  lemma {:induction false} UnitsDiff(k: nat, x: real, y: real)
    ensures Units(k, x - y) == Units(k, x) - Units(k, y)
    decreases k
  {
    if k > 0 {
      UnitsDiff(k - 1, x, y);
    }
  }

  /** Selling `k` of a lot's units removes `k` units' worth of its cost and of its value. */
  lemma {:induction false} LotAfterSelling(l: Lot, k: nat)
    requires k <= l.quantity
    ensures LotCost(l) == LotCost(l.(quantity := l.quantity - k)) + Units(k, l.pricePaid)
    ensures LotValue(l) == LotValue(l.(quantity := l.quantity - k)) + Units(k, l.currentPrice)
  {
    var left := l.quantity - k;
    UnitsAdd(left, k, l.pricePaid);
    UnitsAdd(left, k, l.currentPrice);
    UnitsIsProduct(l.quantity, l.pricePaid);
    UnitsIsProduct(left, l.pricePaid);
    UnitsIsProduct(l.quantity, l.currentPrice);
    UnitsIsProduct(left, l.currentPrice);
  }

  // ---------------------------------------------------------------------------------------
  // What a sale does

  /**
   * A sale only lowers quantities: lot `i` keeps every other column, gives up no more than
   * it held, and is untouched when it belongs to another symbol.
   */
  lemma {:induction false} SaleShape(lots: seq<Lot>, symbol: string, n: nat, previousClose: real, latestDate: string,
                                     i: nat)
    requires i < |lots|
    ensures var after := FifoSell(lots, symbol, n, previousClose, latestDate).lots;
            after[i] == lots[i].(quantity := after[i].quantity) &&
            after[i].quantity <= lots[i].quantity &&
            (lots[i].symbol != symbol ==> after[i] == lots[i])
    decreases i
  {
    if n != 0 && i > 0 {
      var m := if lots[0].symbol == symbol then n - Min(lots[0].quantity, n) else n;
      SaleShape(lots[1..], symbol, m, previousClose, latestDate, i - 1);
    }
  }

  /** Conservation: the sale removes `n` shares, or every share when fewer than `n` are held. */
  lemma {:induction false} SaleConservesShares(lots: seq<Lot>, symbol: string, n: nat, previousClose: real, latestDate: string)
    ensures ShareCount(lots, symbol)
              == ShareCount(FifoSell(lots, symbol, n, previousClose, latestDate).lots, symbol)
                 + Min(n, ShareCount(lots, symbol))
    decreases |lots|
  {
    if lots != [] && n != 0 {
      var head := lots[0];
      var sale := FifoSell(lots, symbol, n, previousClose, latestDate);
      var m := if head.symbol == symbol then n - Min(head.quantity, n) else n;
      var rest := FifoSell(lots[1..], symbol, m, previousClose, latestDate);
      SaleConservesShares(lots[1..], symbol, m, previousClose, latestDate);
      assert sale.lots[1..] == rest.lots;
    }
  }

  /** Two ledgers agree on the shares, cost, value and rows of `other`. */
  predicate SameHoldings(x: seq<Lot>, y: seq<Lot>, other: string) {
    ShareCount(x, other) == ShareCount(y, other) && StockCost(x, other) == StockCost(y, other) &&
    StockEquity(x, other) == StockEquity(y, other) && RowCount(x, other) == RowCount(y, other)
  }

  /** Ledgers whose first rows agree on `other`, and whose tails agree on it, agree on it. */
  lemma {:induction false} SameHoldingsStep(x: seq<Lot>, y: seq<Lot>, other: string)
    requires x != [] && y != [] && (x[0] == y[0] || (x[0].symbol != other && y[0].symbol != other))
    requires SameHoldings(x[1..], y[1..], other)
    ensures SameHoldings(x, y, other)
  {
  }

  /** The lots of every other symbol keep their shares, cost, value and rows. */
  lemma {:induction false} SaleKeepsOtherSymbols(lots: seq<Lot>, symbol: string, n: nat, previousClose: real,
                                                 latestDate: string, other: string)
    requires other != symbol
    ensures var after := FifoSell(lots, symbol, n, previousClose, latestDate).lots;
            ShareCount(after, other) == ShareCount(lots, other) &&
            StockCost(after, other) == StockCost(lots, other) &&
            StockEquity(after, other) == StockEquity(lots, other) &&
            RowCount(after, other) == RowCount(lots, other)
    decreases |lots|
  {
    if lots != [] && n != 0 {
      var head := lots[0];
      var after := FifoSell(lots, symbol, n, previousClose, latestDate).lots;
      if head.symbol == symbol {
        SellAtHead(lots, symbol, n, previousClose, latestDate);
        SaleKeepsOtherSymbols(lots[1..], symbol, n - Min(head.quantity, n), previousClose, latestDate, other);
      } else {
        SellPastHead(lots, symbol, n, previousClose, latestDate);
        SaleKeepsOtherSymbols(lots[1..], symbol, n, previousClose, latestDate, other);
      }
      SameHoldingsStep(after, lots, other);
    }
  }

  /** The amount sold is exactly the market value taken out of the symbol's lots. */
  lemma {:induction false} ProceedsAreEquitySold(lots: seq<Lot>, symbol: string, n: nat, previousClose: real,
                                                 latestDate: string)
    ensures var sale := FifoSell(lots, symbol, n, previousClose, latestDate);
            sale.proceeds == StockEquity(lots, symbol) - StockEquity(sale.lots, symbol)
    decreases |lots|
  {
    if lots != [] && n != 0 {
      var head := lots[0];
      var sale := FifoSell(lots, symbol, n, previousClose, latestDate);
      var m := if head.symbol == symbol then n - Min(head.quantity, n) else n;
      var rest := FifoSell(lots[1..], symbol, m, previousClose, latestDate);
      ProceedsAreEquitySold(lots[1..], symbol, m, previousClose, latestDate);
      assert sale.lots[1..] == rest.lots;
      if head.symbol == symbol {
        LotAfterSelling(head, Min(head.quantity, n));
      }
    }
  }

  /** A sale that touches nothing when nothing is to be sold. */
  lemma {:induction false} SaleOfNothing(lots: seq<Lot>, symbol: string, previousClose: real, latestDate: string)
    ensures FifoSell(lots, symbol, 0, previousClose, latestDate) == Sale(lots, 0.0, 0.0)
  {
  }

  /**
   * The order stops where it is filled: a lot is left as it was when the lots of the symbol
   * before it already hold the `n` shares sold.
   */
  lemma {:induction false} UntouchedOnceFilled(lots: seq<Lot>, symbol: string, n: nat, previousClose: real,
                                               latestDate: string, j: nat)
    requires j < |lots| && n <= ShareCount(lots[..j], symbol)
    ensures FifoSell(lots, symbol, n, previousClose, latestDate).lots[j] == lots[j]
    decreases j
  {
    if n > 0 {
      var head := lots[0];
      assert j > 0;
      assert lots[..j][0] == head && lots[..j][1..] == lots[1..][..j - 1];
      var m := if head.symbol == symbol then n - Min(head.quantity, n) else n;
      UntouchedOnceFilled(lots[1..], symbol, m, previousClose, latestDate, j - 1);
      if head.symbol == symbol {
        SellAtHead(lots, symbol, n, previousClose, latestDate);
      } else {
        SellPastHead(lots, symbol, n, previousClose, latestDate);
      }
      var sale := FifoSell(lots, symbol, n, previousClose, latestDate);
      assert sale.lots[j] == sale.lots[1..][j - 1];
    }
  }

  /** A lot gives up shares only when something is left to sell. */
  lemma {:induction false} TouchedOnlyWhenSelling(lots: seq<Lot>, symbol: string, n: nat, previousClose: real, latestDate: string,
                               j: nat)
    requires j < |lots|
    requires FifoSell(lots, symbol, n, previousClose, latestDate).lots[j].quantity < lots[j].quantity
    ensures n > 0
  {
  }

  /**
   * First in, first out: when a lot of the symbol gives up shares, every older lot `i` of
   * the symbol has been emptied.
   */
  lemma {:induction false} SaleIsFifo(lots: seq<Lot>, symbol: string, n: nat, previousClose: real, latestDate: string,
                                      i: nat, j: nat)
    requires i < j < |lots| && lots[i].symbol == symbol
    requires FifoSell(lots, symbol, n, previousClose, latestDate).lots[j].quantity < lots[j].quantity
    ensures FifoSell(lots, symbol, n, previousClose, latestDate).lots[i].quantity == 0
    decreases i
  {
    TouchedOnlyWhenSelling(lots, symbol, n, previousClose, latestDate, j);
    var head := lots[0];
    var tl := lots[1..];
    var after := FifoSell(lots, symbol, n, previousClose, latestDate).lots;
    var m := if head.symbol == symbol then n - Min(head.quantity, n) else n;
    var rest := FifoSell(tl, symbol, m, previousClose, latestDate).lots;
    assert after[1..] == rest;
    assert rest[j - 1] == after[j] && tl[j - 1] == lots[j];
    if i == 0 {
      TouchedOnlyWhenSelling(tl, symbol, m, previousClose, latestDate, j - 1);
    } else {
      assert rest[i - 1] == after[i] && tl[i - 1] == lots[i];
      SaleIsFifo(tl, symbol, m, previousClose, latestDate, i - 1, j - 1);
    }
  }

  /** How the units a sale takes split between the first lot and the rest. */
  lemma {:induction false} MinSplit(q: nat, r: nat, n: nat)
    requires n > 0
    ensures Min(n, q + r) == Min(q, n) + Min(n - Min(q, n), r)
  {
  }

  /**
   * When every lot of the symbol was bought on the sale's day, the realised change is the
   * amount sold minus the cost of the shares sold.
   */
  lemma {:induction false} ChangeOfTodaysLots(lots: seq<Lot>, symbol: string, n: nat, previousClose: real,
                                              latestDate: string)
    requires forall i :: 0 <= i < |lots| && lots[i].symbol == symbol ==> lots[i].date == latestDate
    ensures var sale := FifoSell(lots, symbol, n, previousClose, latestDate);
            sale.change == sale.proceeds - (StockCost(lots, symbol) - StockCost(sale.lots, symbol))
    decreases |lots|
  {
    if lots != [] && n != 0 {
      var head := lots[0];
      var sale := FifoSell(lots, symbol, n, previousClose, latestDate);
      var m := if head.symbol == symbol then n - Min(head.quantity, n) else n;
      var rest := FifoSell(lots[1..], symbol, m, previousClose, latestDate);
      assert forall i :: 0 <= i < |lots[1..]| ==> lots[1..][i] == lots[i + 1];
      ChangeOfTodaysLots(lots[1..], symbol, m, previousClose, latestDate);
      assert sale.lots[1..] == rest.lots;
      if head.symbol == symbol {
        var k := Min(head.quantity, n);
        LotAfterSelling(head, k);
        UnitsDiff(k, head.currentPrice, head.pricePaid);
        assert Basis(head, previousClose, latestDate) == head.pricePaid;
      }
    }
  }

  /**
   * When no lot of the symbol was bought on the sale's day, the realised change is the amount
   * sold minus the previous close for every share sold.
   */
  lemma {:induction false} ChangeOfEarlierLots(lots: seq<Lot>, symbol: string, n: nat, previousClose: real,
                                               latestDate: string)
    requires forall i :: 0 <= i < |lots| && lots[i].symbol == symbol ==> lots[i].date != latestDate
    ensures var sale := FifoSell(lots, symbol, n, previousClose, latestDate);
            sale.change == sale.proceeds - Units(Min(n, ShareCount(lots, symbol)), previousClose)
    decreases |lots|
  {
    if lots != [] && n != 0 {
      var head := lots[0];
      var sale := FifoSell(lots, symbol, n, previousClose, latestDate);
      var m := if head.symbol == symbol then n - Min(head.quantity, n) else n;
      var rest := FifoSell(lots[1..], symbol, m, previousClose, latestDate);
      assert forall i :: 0 <= i < |lots[1..]| ==> lots[1..][i] == lots[i + 1];
      ChangeOfEarlierLots(lots[1..], symbol, m, previousClose, latestDate);
      if head.symbol == symbol {
        var k := Min(head.quantity, n);
        var r := ShareCount(lots[1..], symbol);
        UnitsDiff(k, head.currentPrice, previousClose);
        MinSplit(head.quantity, r, n);
        UnitsAdd(k, Min(m, r), previousClose);
        assert Basis(head, previousClose, latestDate) == previousClose;
      }
    }
  }

  /** When every lot of the symbol carries the mark `price`, the amount sold is shares sold times `price`. */
  lemma {:induction false} ProceedsAtOneMark(lots: seq<Lot>, symbol: string, n: nat, previousClose: real,
                                             latestDate: string, price: real)
    requires MarkedAt(lots, symbol, price)
    ensures FifoSell(lots, symbol, n, previousClose, latestDate).proceeds
              == Units(Min(n, ShareCount(lots, symbol)), price)
    decreases |lots|
  {
    if lots != [] && n != 0 {
      var head := lots[0];
      var m := if head.symbol == symbol then n - Min(head.quantity, n) else n;
      assert MarkedAt(lots[1..], symbol, price) by {
        assert forall i :: 0 <= i < |lots[1..]| ==> lots[1..][i] == lots[i + 1];
      }
      ProceedsAtOneMark(lots[1..], symbol, m, previousClose, latestDate, price);
      if head.symbol == symbol {
        var r := ShareCount(lots[1..], symbol);
        MinSplit(head.quantity, r, n);
        UnitsAdd(Min(head.quantity, n), Min(m, r), price);
        assert head.currentPrice == price;
      }
    }
  }

  /** One step of the sale at a lot of the sold symbol. */
  lemma {:induction false} SellAtHead(lots: seq<Lot>, symbol: string, n: nat, previousClose: real, latestDate: string)
    requires lots != [] && n > 0 && lots[0].symbol == symbol
    ensures var head := lots[0];
            var k := Min(head.quantity, n);
            var rest := FifoSell(lots[1..], symbol, n - k, previousClose, latestDate);
            var sale := FifoSell(lots, symbol, n, previousClose, latestDate);
            sale.lots[0] == head.(quantity := head.quantity - k) && sale.lots[1..] == rest.lots &&
            sale.proceeds == Units(k, head.currentPrice) + rest.proceeds &&
            sale.change == Units(k, head.currentPrice - Basis(head, previousClose, latestDate)) + rest.change
  {
  }

  /** One step of the sale at a lot of another symbol. */
  lemma {:induction false} SellPastHead(lots: seq<Lot>, symbol: string, n: nat, previousClose: real, latestDate: string)
    requires lots != [] && lots[0].symbol != symbol
    ensures var rest := FifoSell(lots[1..], symbol, n, previousClose, latestDate);
            var sale := FifoSell(lots, symbol, n, previousClose, latestDate);
            sale.lots[0] == lots[0] && sale.lots[1..] == rest.lots &&
            sale.proceeds == rest.proceeds && sale.change == rest.change
  {
  }

  // ---------------------------------------------------------------------------------------
  // The clean-up

  /** Deleting zero-quantity rows changes no share count, cost, equity or total equity. */
  lemma {:induction false} RemoveEmptyKeepsAggregates(lots: seq<Lot>, symbol: string)
    ensures ShareCount(RemoveEmpty(lots), symbol) == ShareCount(lots, symbol)
    ensures StockCost(RemoveEmpty(lots), symbol) == StockCost(lots, symbol)
    ensures StockEquity(RemoveEmpty(lots), symbol) == StockEquity(lots, symbol)
    ensures TotalEquity(RemoveEmpty(lots)) == TotalEquity(lots)
    decreases |lots|
  {
    if lots != [] {
      RemoveEmptyKeepsAggregates(lots[1..], symbol);
      if lots[0].quantity > 0 {
        var kept := RemoveEmpty(lots);
        assert kept[0] == lots[0] && kept[1..] == RemoveEmpty(lots[1..]);
      }
    }
  }

  /** The clean-up keeps exactly the rows that hold shares. */
  lemma {:induction false} RemoveEmptyMembers(lots: seq<Lot>, l: Lot)
    ensures l in RemoveEmpty(lots) <==> l in lots && l.quantity > 0
    decreases |lots|
  {
    if lots != [] {
      RemoveEmptyMembers(lots[1..], l);
      assert lots == [lots[0]] + lots[1..];
    }
  }

  /** A table without zero-quantity rows is left as it is; so a second clean-up changes nothing. */
  lemma {:induction false} RemoveEmptyOfNoEmpty(lots: seq<Lot>)
    requires NoEmptyLots(lots)
    ensures RemoveEmpty(lots) == lots
    decreases |lots|
  {
    if lots != [] {
      assert NoEmptyLots(lots[1..]) by {
        assert forall i :: 0 <= i < |lots[1..]| ==> lots[1..][i] == lots[i + 1];
      }
      RemoveEmptyOfNoEmpty(lots[1..]);
    }
  }

  lemma {:induction false} RemoveEmptyIdempotent(lots: seq<Lot>)
    ensures RemoveEmpty(RemoveEmpty(lots)) == RemoveEmpty(lots)
  {
    RemoveEmptyOfNoEmpty(RemoveEmpty(lots));
  }

  /** The rows that stay keep their relative order, so ids stay ascending. */
  lemma {:induction false} RemoveEmptyKeepsOrder(lots: seq<Lot>)
    requires IdsAscending(lots)
    ensures IdsAscending(RemoveEmpty(lots))
    decreases |lots|
  {
    if lots != [] {
      var tl := lots[1..];
      assert IdsAscending(tl) by {
        assert forall i :: 0 <= i < |tl| ==> tl[i] == lots[i + 1];
      }
      RemoveEmptyKeepsOrder(tl);
      if lots[0].quantity > 0 {
        var kept := RemoveEmpty(lots);
        var rest := RemoveEmpty(tl);
        assert kept == [lots[0]] + rest;
        forall j | 0 <= j < |rest| ensures lots[0].id < rest[j].id {
          RemoveEmptyMembers(tl, rest[j]);
          var k :| 0 <= k < |tl| && tl[k] == rest[j];
          assert tl[k] == lots[k + 1];
        }
      }
    }
  }

  lemma {:induction false} RemoveEmptyCons(head: Lot, rest: seq<Lot>)
    ensures RemoveEmpty([head] + rest) == if head.quantity == 0 then RemoveEmpty(rest) else [head] + RemoveEmpty(rest)
  {
    assert ([head] + rest)[1..] == rest;
  }

  /** A sale passes over a zero-quantity first lot. */
  lemma {:induction false} SellPastEmptyHead(lots: seq<Lot>, symbol: string, n: nat, previousClose: real, latestDate: string)
    requires lots != [] && lots[0].quantity == 0
    ensures var rest := FifoSell(lots[1..], symbol, n, previousClose, latestDate);
            var sale := FifoSell(lots, symbol, n, previousClose, latestDate);
            sale.lots == [lots[0]] + rest.lots && sale.proceeds == rest.proceeds && sale.change == rest.change
  {
    if n > 0 && lots[0].symbol == symbol {
      SellAtHead(lots, symbol, n, previousClose, latestDate);
      var sale := FifoSell(lots, symbol, n, previousClose, latestDate);
      assert sale.lots == [sale.lots[0]] + sale.lots[1..];
    } else if n > 0 {
      SellPastHead(lots, symbol, n, previousClose, latestDate);
      var sale := FifoSell(lots, symbol, n, previousClose, latestDate);
      assert sale.lots == [sale.lots[0]] + sale.lots[1..];
    }
  }

  /**
   * Zero-quantity rows play no part in a sale: cleaning up before the sale and again after it
   * leaves the same table, amount sold and change as cleaning up after it only.
   */
  lemma {:induction false} CleanupBeforeSale(lots: seq<Lot>, symbol: string, n: nat, previousClose: real,
                                             latestDate: string)
    ensures var cleaned := FifoSell(RemoveEmpty(lots), symbol, n, previousClose, latestDate);
            var direct := FifoSell(lots, symbol, n, previousClose, latestDate);
            RemoveEmpty(cleaned.lots) == RemoveEmpty(direct.lots) &&
            cleaned.proceeds == direct.proceeds && cleaned.change == direct.change
    decreases |lots|, 1
  {
    if lots == [] || n == 0 {
      RemoveEmptyIdempotent(lots);
    } else {
      var head := lots[0];
      var tl := lots[1..];
      if head.quantity == 0 {
        assert RemoveEmpty(lots) == RemoveEmpty(tl);
        CleanupBeforeSale(tl, symbol, n, previousClose, latestDate);
        SellPastEmptyHead(lots, symbol, n, previousClose, latestDate);
        RemoveEmptyCons(head, FifoSell(tl, symbol, n, previousClose, latestDate).lots);
      } else {
        CleanupAroundKeptHead(lots, symbol, n, previousClose, latestDate);
      }
    }
  }

  /** Two tables with the same first lot take the same first step of a sale. */
  lemma {:induction false} SameHeadSameStep(x: seq<Lot>, y: seq<Lot>, symbol: string, n: nat, previousClose: real, latestDate: string)
    requires x != [] && y != [] && x[0] == y[0] && n > 0
    ensures var m := if x[0].symbol == symbol then n - Min(x[0].quantity, n) else n;
            var sx := FifoSell(x, symbol, n, previousClose, latestDate);
            var sy := FifoSell(y, symbol, n, previousClose, latestDate);
            var rx := FifoSell(x[1..], symbol, m, previousClose, latestDate);
            var ry := FifoSell(y[1..], symbol, m, previousClose, latestDate);
            sx.lots[0] == sy.lots[0] && sx.lots[1..] == rx.lots && sy.lots[1..] == ry.lots &&
            sx.proceeds - rx.proceeds == sy.proceeds - ry.proceeds &&
            sx.change - rx.change == sy.change - ry.change
  {
    if x[0].symbol == symbol {
      SellAtHead(x, symbol, n, previousClose, latestDate);
      SellAtHead(y, symbol, n, previousClose, latestDate);
    } else {
      SellPastHead(x, symbol, n, previousClose, latestDate);
      SellPastHead(y, symbol, n, previousClose, latestDate);
    }
  }

  /** `CleanupBeforeSale` when the first lot holds shares. */
  lemma {:induction false} CleanupAroundKeptHead(lots: seq<Lot>, symbol: string, n: nat, previousClose: real,
                                                 latestDate: string)
    requires lots != [] && n != 0 && lots[0].quantity > 0
    ensures var cleaned := FifoSell(RemoveEmpty(lots), symbol, n, previousClose, latestDate);
            var direct := FifoSell(lots, symbol, n, previousClose, latestDate);
            RemoveEmpty(cleaned.lots) == RemoveEmpty(direct.lots) &&
            cleaned.proceeds == direct.proceeds && cleaned.change == direct.change
    decreases |lots|, 0
  {
    var m := if lots[0].symbol == symbol then n - Min(lots[0].quantity, n) else n;
    CleanupBeforeSale(lots[1..], symbol, m, previousClose, latestDate);
    CleanupStep(lots, symbol, n, previousClose, latestDate);
    CleanupStepTotals(lots, symbol, n, previousClose, latestDate);
  }

  /** The step of `CleanupAroundKeptHead` at the first lot, for the table left. */
  lemma {:induction false} CleanupStep(lots: seq<Lot>, symbol: string, n: nat, previousClose: real, latestDate: string)
    requires lots != [] && n != 0 && lots[0].quantity > 0
    requires var m := if lots[0].symbol == symbol then n - Min(lots[0].quantity, n) else n;
             RemoveEmpty(FifoSell(RemoveEmpty(lots[1..]), symbol, m, previousClose, latestDate).lots)
               == RemoveEmpty(FifoSell(lots[1..], symbol, m, previousClose, latestDate).lots)
    ensures RemoveEmpty(FifoSell(RemoveEmpty(lots), symbol, n, previousClose, latestDate).lots)
              == RemoveEmpty(FifoSell(lots, symbol, n, previousClose, latestDate).lots)
  {
    var head := lots[0];
    var tl := lots[1..];
    var kept := RemoveEmpty(lots);
    assert kept == [head] + RemoveEmpty(tl) && kept[0] == head && kept[1..] == RemoveEmpty(tl);
    var m := if head.symbol == symbol then n - Min(head.quantity, n) else n;
    var direct := FifoSell(lots, symbol, n, previousClose, latestDate).lots;
    var cleaned := FifoSell(kept, symbol, n, previousClose, latestDate).lots;
    var rd := FifoSell(tl, symbol, m, previousClose, latestDate).lots;
    var rc := FifoSell(RemoveEmpty(tl), symbol, m, previousClose, latestDate).lots;
    SameHeadSameStep(lots, kept, symbol, n, previousClose, latestDate);
    assert direct == [direct[0]] + rd;
    assert cleaned == [cleaned[0]] + rc;
    RemoveEmptyCons(direct[0], rd);
    RemoveEmptyCons(cleaned[0], rc);
  }

  /** The step of `CleanupAroundKeptHead` at the first lot, for the amount sold and the change. */
  lemma {:induction false} CleanupStepTotals(lots: seq<Lot>, symbol: string, n: nat, previousClose: real, latestDate: string)
    requires lots != [] && n != 0 && lots[0].quantity > 0
    requires var m := if lots[0].symbol == symbol then n - Min(lots[0].quantity, n) else n;
             var cleaned := FifoSell(RemoveEmpty(lots[1..]), symbol, m, previousClose, latestDate);
             var direct := FifoSell(lots[1..], symbol, m, previousClose, latestDate);
             cleaned.proceeds == direct.proceeds && cleaned.change == direct.change
    ensures var cleaned := FifoSell(RemoveEmpty(lots), symbol, n, previousClose, latestDate);
            var direct := FifoSell(lots, symbol, n, previousClose, latestDate);
            cleaned.proceeds == direct.proceeds && cleaned.change == direct.change
  {
    var kept := RemoveEmpty(lots);
    assert kept == [lots[0]] + RemoveEmpty(lots[1..]) && kept[0] == lots[0] && kept[1..] == RemoveEmpty(lots[1..]);
    SameHeadSameStep(lots, kept, symbol, n, previousClose, latestDate);
  }

  /**
   * A sale followed by the clean-up keeps the ids in ascending order and hands out no new
   * id: every remaining lot's id was below `bound` before.
   */
  lemma {:induction false} SaleKeepsIds(lots: seq<Lot>, symbol: string, n: nat, previousClose: real, latestDate: string, bound: nat)
    requires IdsAscending(lots) && forall i :: 0 <= i < |lots| ==> lots[i].id < bound
    ensures var kept := RemoveEmpty(FifoSell(lots, symbol, n, previousClose, latestDate).lots);
            IdsAscending(kept) && forall i :: 0 <= i < |kept| ==> kept[i].id < bound
  {
    var after := FifoSell(lots, symbol, n, previousClose, latestDate).lots;
    forall i | 0 <= i < |after| ensures after[i].id == lots[i].id {
      SaleShape(lots, symbol, n, previousClose, latestDate, i);
    }
    RemoveEmptyKeepsOrder(after);
    var kept := RemoveEmpty(after);
    forall j | 0 <= j < |kept| ensures kept[j].id < bound {
      RemoveEmptyMembers(after, kept[j]);
      var k :| 0 <= k < |after| && after[k] == kept[j];
    }
  }

  // ---------------------------------------------------------------------------------------
  // Worked examples

  /**
   * Lots of 3 shares at 10 and 2 shares at 20; selling 4 empties the first lot, leaves 1
   * share in the second, and the remaining cost is 20.
   */
  lemma {:induction false} FifoExample()
    ensures var l1 := Lot(1, "Acme", "ACME", 3, 10.0, 10.0, "May 1st, 2024");
            var l2 := Lot(2, "Acme", "ACME", 2, 20.0, 20.0, "May 2nd, 2024");
            var sale := FifoSell([l1, l2], "ACME", 4, 20.0, "May 3rd, 2024");
            sale.lots == [l1.(quantity := 0), l2.(quantity := 1)] &&
            RemoveEmpty(sale.lots) == [l2.(quantity := 1)] &&
            StockCost(RemoveEmpty(sale.lots), "ACME") == 20.0
  {
    var l1 := Lot(1, "Acme", "ACME", 3, 10.0, 10.0, "May 1st, 2024");
    var l2 := Lot(2, "Acme", "ACME", 2, 20.0, 20.0, "May 2nd, 2024");
    assert [l1, l2][1..] == [l2];
    assert [l2][1..] == [];
  }

  /**
   * A share bought today at 10 and marked at 12 realises +2; a share bought earlier, with a
   * previous close of 15 and a mark of 12, realises -3.
   */
  lemma {:induction false} ChangeExample()
    ensures FifoSell([Lot(1, "Acme", "ACME", 1, 10.0, 12.0, "May 3rd, 2024")], "ACME", 1, 15.0,
                     "May 3rd, 2024").change == 2.0
    ensures FifoSell([Lot(1, "Acme", "ACME", 1, 10.0, 12.0, "May 2nd, 2024")], "ACME", 1, 15.0,
                     "May 3rd, 2024").change == -3.0
  {
    var today := Lot(1, "Acme", "ACME", 1, 10.0, 12.0, "May 3rd, 2024");
    var earlier := Lot(1, "Acme", "ACME", 1, 10.0, 12.0, "May 2nd, 2024");
    assert [today][1..] == [] && [earlier][1..] == [];
    assert "May 2nd, 2024" != "May 3rd, 2024" by {
      assert "May 2nd, 2024"[4] != "May 3rd, 2024"[4];
    }
  }
}
