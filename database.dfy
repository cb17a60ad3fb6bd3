/**
 * `DatabaseHelper`: PocketProfit's SQLite store, as an object holding its tables. The
 * stocks table is a sequence of lots in ascending id order with the next auto-increment id
 * beside it; the transactions table is an append-only sequence of records; the daily
 * profit log holds at most one entry. The read-only queries are the functions of
 * `LotQueries`, `TransactionLog` and `ProfitRecord.StoredProfit`, applied to these fields.
 */
module Database {
  import opened Wrappers
  import opened Tables
  import opened LotQueries
  import opened FifoSale
  import opened ProfitRecord

  /** The units a liquidation request takes: a count below one never reaches zero in the loop, so every share goes. */
  function SaleSize(owned: nat, sharesToSell: int): (n: nat)
    ensures sharesToSell >= 1 ==> n == sharesToSell
    ensures sharesToSell < 1 ==> n == owned
  {
    if sharesToSell >= 1 then sharesToSell else owned
  }

  /** `SharesBoughtToday` over a suffix of the table, one lot at a time. */
  lemma {:induction false} SharesBoughtFrom(lots: seq<Lot>, i: nat, symbol: string, date: string)
    requires i < |lots|
    ensures var l := lots[i];
            SharesBoughtToday(lots[i..], symbol, date)
              == (if l.symbol == symbol && l.date == date then Repeat(l.pricePaid, l.quantity) else [])
                 + SharesBoughtToday(lots[i + 1..], symbol, date)
  {
    assert lots[i..][0] == lots[i] && lots[i..][1..] == lots[i + 1..];
  }

  /** The inner loop of `getSharesBoughtToday`: push `price` once per share, `quantity` times. */
  method PushPrice(stack: seq<real>, price: real, quantity: nat) returns (pushed: seq<real>)
    ensures pushed == stack + Repeat(price, quantity)
  {
    pushed := stack;
    var left := quantity;
    while left != 0
      invariant 0 <= left <= quantity
      invariant pushed == stack + Repeat(price, quantity - left)
      decreases left
    {
      pushed := pushed + [price];
      left := left - 1;
    }
  }

  /** Pushing one lot's prices keeps the stack a prefix of the whole answer. */
  lemma {:induction false} PushedInOrder(start: seq<real>, here: seq<real>, pushed: seq<real>, rest: seq<real>)
    requires pushed == start + here
    ensures pushed + rest == start + (here + rest)
  {
  }

  /** On reaching a lot of the sold symbol, the loop still has units to sell and the lot has some. */
  lemma {:induction false} LiquidationReachesLot(lots: seq<Lot>, i: nat, symbol: string, sharesToSell: int, remaining: nat)
    requires NoEmptyLots(lots) && i < |lots| && lots[i].symbol == symbol
    requires sharesToSell >= 1 ==> remaining > 0
    requires sharesToSell < 1 ==> remaining == ShareCount(lots[i..], symbol)
    ensures lots[i].quantity > 0 && remaining > 0
    ensures ShareCount(lots[i..], symbol) == lots[i].quantity + ShareCount(lots[i + 1..], symbol)
  {
    assert lots[i..][0] == lots[i] && lots[i..][1..] == lots[i + 1..];
  }

  /**
   * One step of the outer loop at a lot of the sold symbol: it is left with `left` units and
   * `rem` of the `r` units still to sell remain, because the lot ran out or the order was filled.
   */
  lemma {:induction false} LiquidationStepAt(lots: seq<Lot>, i: nat, symbol: string, r: nat, rem: nat, left: nat,
                          previousClose: real, latestDate: string)
    requires i < |lots| && lots[i].symbol == symbol && r > 0
    requires left <= lots[i].quantity && r == rem + (lots[i].quantity - left) && (rem == 0 || left == 0)
    ensures var l := lots[i];
            var sale := FifoSell(lots[i..], symbol, r, previousClose, latestDate);
            var rest := FifoSell(lots[i + 1..], symbol, rem, previousClose, latestDate);
            sale.lots == [l.(quantity := left)] + rest.lots &&
            sale.proceeds == Units(l.quantity - left, l.currentPrice) + rest.proceeds &&
            sale.change == Units(l.quantity - left, l.currentPrice - Basis(l, previousClose, latestDate)) + rest.change
  {
    assert lots[i..][0] == lots[i] && lots[i..][1..] == lots[i + 1..];
    assert Min(lots[i].quantity, r) == lots[i].quantity - left;
    SellAtHead(lots[i..], symbol, r, previousClose, latestDate);
    var sale := FifoSell(lots[i..], symbol, r, previousClose, latestDate);
    assert sale.lots == [sale.lots[0]] + sale.lots[1..];
  }

  /** One step of the outer loop at a lot of another symbol. */
  lemma {:induction false} LiquidationStepPast(lots: seq<Lot>, i: nat, symbol: string, r: nat, previousClose: real, latestDate: string)
    requires i < |lots| && lots[i].symbol != symbol
    ensures var sale := FifoSell(lots[i..], symbol, r, previousClose, latestDate);
            var rest := FifoSell(lots[i + 1..], symbol, r, previousClose, latestDate);
            sale.lots == [lots[i]] + rest.lots && sale.proceeds == rest.proceeds && sale.change == rest.change
    ensures ShareCount(lots[i..], symbol) == ShareCount(lots[i + 1..], symbol)
  {
    assert lots[i..][0] == lots[i] && lots[i..][1..] == lots[i + 1..];
    SellPastHead(lots[i..], symbol, r, previousClose, latestDate);
    var sale := FifoSell(lots[i..], symbol, r, previousClose, latestDate);
    assert sale.lots == [sale.lots[0]] + sale.lots[1..];
  }

  /** The working table is the visited rows followed by the unvisited ones. */
  lemma {:induction false} RowSplit(prefix: seq<Lot>, x: Lot, lots: seq<Lot>, i: nat, tail: seq<Lot>)
    requires i < |lots|
    ensures (prefix + lots[i..])[|prefix| := x] == (prefix + [x]) + lots[i + 1..]
    ensures prefix + lots[i..] == (prefix + [lots[i]]) + lots[i + 1..]
    ensures (prefix + [x]) + tail == prefix + ([x] + tail)
  {
    assert lots[i..] == [lots[i]] + lots[i + 1..];
  }

  /** A running sum that with the rest makes the total still does after taking one term of the rest. */
  lemma {:induction false} SumCarried(sum: real, term: real, rest: real, next: real, total: real)
    requires sum + rest == total && rest == term + next
    ensures (sum + term) + next == total
  {
  }

  /**
   * The outer loop's account of the sale: the rows written so far, the amount sold and the
   * day's change, each followed by what selling the `remaining` units from row `i` on does,
   * make up the whole sale `total`.
   */
  ghost predicate Accounted(lots: seq<Lot>, i: nat, symbol: string, remaining: nat, previousClose: real,
                            latestDate: string, prefix: seq<Lot>, sold: real, changed: real, total: Sale)
    requires i <= |lots|
  {
    var rest := FifoSell(lots[i..], symbol, remaining, previousClose, latestDate);
    prefix + rest.lots == total.lots && sold + rest.proceeds == total.proceeds && changed + rest.change == total.change
  }

  /**
   * What selling from one lot of `q` units leaves of the `r` units still to sell: the lot ran
   * out or the order was filled, and the loop's two readings of the order stay in step.
   */
  lemma {:induction false} LotOutcome(q: nat, left: nat, sharesToSell: int, toSell: int, toSellLeft: int,
                                      filled: bool, r: nat, restCount: nat)
    requires q > 0 && r > 0 && left <= q
    requires sharesToSell >= 1 ==> toSell == r
    requires sharesToSell < 1 ==> toSell < 1 && r == q + restCount
    requires toSell >= 1 ==> q - left == Min(q, toSell) && toSellLeft == toSell - (q - left) && (filled <==> toSellLeft == 0)
    requires toSell < 1 ==> left == 0 && !filled && toSellLeft == toSell - q
    ensures q - left <= r
    ensures var rem := r - (q - left);
            (rem == 0 || left == 0) &&
            (sharesToSell >= 1 ==> toSellLeft == rem && (filled <==> rem == 0)) &&
            (sharesToSell < 1 ==> !filled && toSellLeft < 1 && rem == restCount)
  {
  }

  /** A step of the outer loop at a lot of the sold symbol keeps the account. */
  lemma {:induction false} StepAtKeepsTotal(lots: seq<Lot>, i: nat, l: Lot, symbol: string, r: nat, rem: nat, left: nat,
                                            previousClose: real, latestDate: string, prefix: seq<Lot>,
                                            sold: real, amount: real, changed: real, change: real, total: Sale)
    requires i < |lots| && l == lots[i] && l.symbol == symbol && r > 0
    requires left <= l.quantity && r == rem + (l.quantity - left) && (rem == 0 || left == 0)
    requires amount == Units(l.quantity - left, l.currentPrice)
    requires change == Units(l.quantity - left, l.currentPrice - Basis(l, previousClose, latestDate))
    requires Accounted(lots, i, symbol, r, previousClose, latestDate, prefix, sold, changed, total)
    ensures Accounted(lots, i + 1, symbol, rem, previousClose, latestDate, prefix + [l.(quantity := left)],
                      sold + amount, changed + change, total)
  {
    var rest := FifoSell(lots[i..], symbol, r, previousClose, latestDate);
    var next := FifoSell(lots[i + 1..], symbol, rem, previousClose, latestDate);
    LiquidationStepAt(lots, i, symbol, r, rem, left, previousClose, latestDate);
    RowSplit(prefix, lots[i].(quantity := left), lots, i, next.lots);
    SumCarried(sold, amount, rest.proceeds, next.proceeds, total.proceeds);
    SumCarried(changed, change, rest.change, next.change, total.change);
  }

  /** A step of the outer loop at a lot of another symbol keeps the account. */
  lemma {:induction false} StepPastKeepsTotal(lots: seq<Lot>, i: nat, symbol: string, r: nat, previousClose: real,
                                              latestDate: string, prefix: seq<Lot>, sold: real, changed: real, total: Sale)
    requires i < |lots| && lots[i].symbol != symbol
    requires Accounted(lots, i, symbol, r, previousClose, latestDate, prefix, sold, changed, total)
    ensures Accounted(lots, i + 1, symbol, r, previousClose, latestDate, prefix + [lots[i]], sold, changed, total)
    ensures ShareCount(lots[i..], symbol) == ShareCount(lots[i + 1..], symbol)
  {
    var next := FifoSell(lots[i + 1..], symbol, r, previousClose, latestDate);
    LiquidationStepPast(lots, i, symbol, r, previousClose, latestDate);
    RowSplit(prefix, lots[i], lots, i, next.lots);
  }

  /** When the loop stops, the rest of the sale sells nothing, so the account is the sale. */
  lemma {:induction false} LiquidationEnds(lots: seq<Lot>, i: nat, symbol: string, remaining: nat, previousClose: real,
                                           latestDate: string, prefix: seq<Lot>, sold: real, changed: real, total: Sale)
    requires i <= |lots| && (remaining == 0 || i == |lots|)
    requires Accounted(lots, i, symbol, remaining, previousClose, latestDate, prefix, sold, changed, total)
    ensures prefix + lots[i..] == total.lots && sold == total.proceeds && changed == total.change
  {
  }

  /**
   * The inner loop of `liquidateStock` at one lot of the sold symbol: sell one unit at a time
   * at the lot's mark until the lot is empty or the order is filled, adding up the amount sold
   * and the day's change. Returns the units left in the lot, the two sums and the order still open.
   */
  method SellFromLot(lot: Lot, toSell: int, previousClose: real, latestDate: string)
    returns (left: nat, amount: real, change: real, toSellLeft: int, filled: bool)
    ensures left <= lot.quantity
    ensures toSell >= 1 ==> lot.quantity - left == Min(lot.quantity, toSell) &&
                            toSellLeft == toSell - (lot.quantity - left) && (filled <==> toSellLeft == 0)
    ensures toSell < 1 ==> left == 0 && !filled && toSellLeft == toSell - lot.quantity
    ensures amount == Units(lot.quantity - left, lot.currentPrice)
    ensures change == Units(lot.quantity - left, lot.currentPrice - Basis(lot, previousClose, latestDate))
  {
    var quantity := lot.quantity;
    var price := lot.currentPrice;
    var pricePaid := lot.pricePaid;
    var date := lot.date;
    ghost var basis := Basis(lot, previousClose, latestDate);
    filled := false;
    amount := 0.0;
    change := 0.0;
    toSellLeft := toSell;
    while !filled && quantity != 0
      invariant 0 <= quantity <= lot.quantity
      invariant toSellLeft == toSell - (lot.quantity - quantity)
      invariant amount == Units(lot.quantity - quantity, price)
      invariant change == Units(lot.quantity - quantity, price - basis)
      invariant toSell >= 1 ==> lot.quantity - quantity <= toSell && (filled <==> toSellLeft == 0)
      invariant toSell < 1 ==> !filled
      decreases quantity
    {
      UnitsAdd(lot.quantity - quantity, 1, price);
      UnitsAdd(lot.quantity - quantity, 1, price - basis);
      if date == latestDate {
        change := change + (price - pricePaid);
      } else {
        change := change + (price - previousClose);
      }
      amount := amount + price;
      quantity := quantity - 1;
      toSellLeft := toSellLeft - 1;
      if toSellLeft == 0 {
        filled := true;
      }
    }
    left := quantity;
  }

  /**
   * The outer loop of `liquidateStock` over the working copy of the stocks table: visit the
   * lots in id order until the order is filled, selling from each lot of `symbol` and writing
   * its new quantity back. A `sharesToSell` below one is never filled, so every share goes.
   */
  method SellOldestFirst(lots: seq<Lot>, symbol: string, sharesToSell: int, previousClose: real, latestDate: string)
    returns (table: seq<Lot>, amountSold: real, amountChangedToday: real)
    requires NoEmptyLots(lots)
    ensures var sale := FifoSell(lots, symbol, SaleSize(ShareCount(lots, symbol), sharesToSell), previousClose, latestDate);
            table == sale.lots && amountSold == sale.proceeds && amountChangedToday == sale.change
  {
    ghost var total := FifoSell(lots, symbol, SaleSize(ShareCount(lots, symbol), sharesToSell), previousClose, latestDate);
    ghost var remaining: nat := SaleSize(ShareCount(lots, symbol), sharesToSell);
    ghost var prefix: seq<Lot> := [];
    table := lots;
    var done := false;
    amountChangedToday := 0.0;
    amountSold := 0.0;
    var toSell := sharesToSell;
    var i := 0;
    while !done && i < |lots|
      invariant 0 <= i <= |lots| && |prefix| == i
      invariant table == prefix + lots[i..]
      invariant Accounted(lots, i, symbol, remaining, previousClose, latestDate, prefix, amountSold, amountChangedToday, total)
      invariant sharesToSell >= 1 ==> toSell == remaining && (done <==> remaining == 0)
      invariant sharesToSell < 1 ==> !done && toSell < 1 && remaining == ShareCount(lots[i..], symbol)
      decreases |lots| - i
    {
      var lot := table[i];
      assert lot == lots[i] by {
        assert table[i] == (prefix + lots[i..])[|prefix|];
      }
      if lot.symbol == symbol {
        LiquidationReachesLot(lots, i, symbol, sharesToSell, remaining);
        var left, amount, change, toSellLeft, filled := SellFromLot(lot, toSell, previousClose, latestDate);
        ghost var r0 := remaining;
        LotOutcome(lot.quantity, left, sharesToSell, toSell, toSellLeft, filled, r0, ShareCount(lots[i + 1..], symbol));
        remaining := r0 - (lot.quantity - left);
        assert Accounted(lots, i + 1, symbol, remaining, previousClose, latestDate, prefix + [lot.(quantity := left)],
                         amountSold + amount, amountChangedToday + change, total) by {
          StepAtKeepsTotal(lots, i, lot, symbol, r0, remaining, left, previousClose, latestDate,
                           prefix, amountSold, amount, amountChangedToday, change, total);
        }
        assert table[i := lot.(quantity := left)] == (prefix + [lot.(quantity := left)]) + lots[i + 1..] by {
          RowSplit(prefix, lot.(quantity := left), lots, i, []);
        }
        table := table[i := lot.(quantity := left)];
        amountSold := amountSold + amount;
        amountChangedToday := amountChangedToday + change;
        toSell := toSellLeft;
        done := filled;
        prefix := prefix + [lot.(quantity := left)];
      } else {
        StepPastKeepsTotal(lots, i, symbol, remaining, previousClose, latestDate, prefix, amountSold,
                           amountChangedToday, total);
        assert table == (prefix + [lot]) + lots[i + 1..] by {
          RowSplit(prefix, lot, lots, i, []);
        }
        prefix := prefix + [lot];
      }
      i := i + 1;
    }
    LiquidationEnds(lots, i, symbol, remaining, previousClose, latestDate, prefix, amountSold,
                    amountChangedToday, total);
  }

  class DatabaseHelper {
    var stocks: seq<Lot>
    var nextLotId: nat
    var transactions: seq<TransactionRecord>
    var profitLog: Option<ProfitEntry>

    /** Lots are in id order, every id was handed out already, and no lot is empty. */
    ghost predicate Valid()
      reads this
    {
      IdsAscending(stocks) && NoEmptyLots(stocks) && nextLotId >= 1 &&
      forall i :: 0 <= i < |stocks| ==> stocks[i].id < nextLotId
    }

    /** A freshly created database: every table empty. */
    constructor ()
      ensures Valid()
      ensures stocks == [] && transactions == [] && profitLog == None && nextLotId == 1
    {
      stocks := [];
      nextLotId := 1;
      transactions := [];
      profitLog := None;
    }

    /** `clearTables`: drop and re-create every table, which also restarts the id counter. */
    method ClearTables()
      modifies this
      ensures Valid()
      ensures stocks == [] && transactions == [] && profitLog == None && nextLotId == 1
    {
      stocks := [];
      nextLotId := 1;
      transactions := [];
      profitLog := None;
    }

    /** `logTransaction`: append one record to the transactions table. */
    method LogTransaction(name: string, symbol: string, orderType: string, quantity: int, price: real,
                          date: string) returns (ok: bool)
      modifies this
      ensures ok
      ensures transactions == old(transactions) + [TransactionRecord(name, symbol, orderType, quantity, price, date)]
      ensures stocks == old(stocks) && nextLotId == old(nextLotId) && profitLog == old(profitLog)
    {
      transactions := transactions + [TransactionRecord(name, symbol, orderType, quantity, price, date)];
      ok := true;
    }

    /** `stockPurchase`: insert a new lot with the next id, after every existing lot. */
    method StockPurchase(name: string, symbol: string, quantity: int, price: real, currentPrice: real,
                         date: string) returns (ok: bool)
      requires Valid() && quantity >= 1
      modifies this
      ensures Valid() && ok
      ensures stocks == old(stocks) + [Lot(old(nextLotId), name, symbol, quantity, price, currentPrice, date)]
      ensures nextLotId == old(nextLotId) + 1
      ensures transactions == old(transactions) && profitLog == old(profitLog)
      ensures ShareCount(stocks, symbol) == ShareCount(old(stocks), symbol) + quantity
    {
      var lot := Lot(nextLotId, name, symbol, quantity, price, currentPrice, date);
      AggregatesOfInsert(stocks, lot, symbol);
      stocks := stocks + [lot];
      nextLotId := nextLotId + 1;
      ok := true;
    }

    /** `updateCurrentPrice`: every lot of `symbol` takes the mark `latestPrice`, unless it is 0. */
    method UpdateCurrentPrice(symbol: string, latestPrice: real)
      requires Valid()
      modifies this
      ensures Valid()
      ensures stocks == Repriced(old(stocks), symbol, latestPrice)
      ensures nextLotId == old(nextLotId) && transactions == old(transactions) && profitLog == old(profitLog)
    {
      ghost var before := stocks;
      stocks := Repriced(stocks, symbol, latestPrice);
      forall i | 0 <= i < |stocks|
        ensures stocks[i] == before[i].(currentPrice := stocks[i].currentPrice)
      {
        if latestPrice != 0.0 {
          MarkedAtIndex(before, symbol, latestPrice, i);
        }
      }
    }

    /** `logTodaysStockSaleProfit`: post a sale's realised change for `date`. */
    method LogTodaysStockSaleProfit(date: string, value: real)
      modifies this
      ensures profitLog == LoggedProfit(old(profitLog), date, value)
      ensures stocks == old(stocks) && nextLotId == old(nextLotId) && transactions == old(transactions)
    {
      match profitLog
      case None =>
        profitLog := Some(ProfitEntry(date, value));
      case Some(e) =>
        if e.date == date {
          profitLog := Some(ProfitEntry(e.date, e.value + value));
        } else {
          profitLog := Some(ProfitEntry(date, value));
        }
    }

    /** `getTodaysStockSaleProfit(date)`: the day's realised figure, resetting a stale record. */
    method GetTodaysStockSaleProfit(date: string) returns (value: real)
      modifies this
      ensures value == ProfitOn(old(profitLog), date).value
      ensures profitLog == ProfitOn(old(profitLog), date).after
      ensures stocks == old(stocks) && nextLotId == old(nextLotId) && transactions == old(transactions)
    {
      value := 0.0;
      match profitLog
      case None =>
      case Some(e) =>
        if e.date == date {
          value := e.value;
        } else {
          profitLog := Some(ProfitEntry(date, 0.0));
        }
    }

    /**
     * `getSharesBoughtToday`: scan the lots of `symbol` bought on `date`, pushing each one's
     * price paid once per remaining share; the stack is read bottom first.
     */
    method GetSharesBoughtToday(symbol: string, date: string) returns (prices: seq<real>)
      ensures prices == SharesBoughtToday(stocks, symbol, date)
    {
      var lots := stocks;
      prices := [];
      var i := 0;
      while i < |lots|
        invariant 0 <= i <= |lots|
        invariant prices + SharesBoughtToday(lots[i..], symbol, date) == SharesBoughtToday(lots, symbol, date)
        decreases |lots| - i
      {
        var lot := lots[i];
        ghost var start := prices;
        ghost var here := if lot.symbol == symbol && lot.date == date then Repeat(lot.pricePaid, lot.quantity) else [];
        if lot.symbol == symbol && lot.date == date {
          prices := PushPrice(prices, lot.pricePaid, lot.quantity);
        }
        SharesBoughtFrom(lots, i, symbol, date);
        PushedInOrder(start, here, prices, SharesBoughtToday(lots[i + 1..], symbol, date));
        i := i + 1;
      }
      assert lots[|lots|..] == [];
    }

    /**
     * `liquidateStock`: when at least `sharesToSell` shares are held, sell them oldest lot
     * first, one unit at a time, writing each visited lot's new quantity back; then delete
     * the emptied rows, post the realised change for `latestDate` and return the amount sold.
     * With fewer shares held nothing happens and 0 is returned.
     */
    method LiquidateStock(symbol: string, sharesToSell: int, previousClose: real, latestDate: string)
      returns (amountSold: real)
      requires Valid()
      modifies this
      ensures Valid()
      ensures nextLotId == old(nextLotId) && transactions == old(transactions)
      ensures ShareCount(old(stocks), symbol) < sharesToSell ==>
                amountSold == 0.0 && stocks == old(stocks) && profitLog == old(profitLog)
      ensures ShareCount(old(stocks), symbol) >= sharesToSell ==>
                var sale := FifoSell(old(stocks), symbol, SaleSize(ShareCount(old(stocks), symbol), sharesToSell),
                                     previousClose, latestDate);
                stocks == RemoveEmpty(sale.lots) && amountSold == sale.proceeds &&
                profitLog == LoggedProfit(old(profitLog), latestDate, sale.change)
    {
      var lots := stocks;
      var sharesOwned := ShareCount(lots, symbol);
      if sharesOwned < sharesToSell {
        return 0.0;
      }
      SaleKeepsIds(lots, symbol, SaleSize(sharesOwned, sharesToSell), previousClose, latestDate, nextLotId);
      var table, amountChangedToday;
      table, amountSold, amountChangedToday := SellOldestFirst(lots, symbol, sharesToSell, previousClose, latestDate);
      stocks := RemoveEmpty(table);
      LogTodaysStockSaleProfit(latestDate, amountChangedToday);
    }
  }
}
