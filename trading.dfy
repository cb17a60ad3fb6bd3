/**
 * The order screen `StockTransactionActivity`: the share count typed on its numeric keypad,
 * and `executeTrade`, which checks a buy or sell order against the rules in their order and
 * then drives the database and the preferences store. The prices read back from the screen's
 * text and today's date are parameters.
 */
module Trading {
  import opened Wrappers
  import opened JavaText
  import opened Tables
  import opened LotQueries
  import opened FifoSale
  import opened ProfitRecord
  import opened TransactionLog
  import opened Database
  import opened Util

  /** The share count wraps before it reaches this bound. */
  const MAX: int := 10000000

  /** The resource names of the digit keys, by digit. */
  const DIGIT_KEYS: seq<string> := ["zero", "one", "two", "three", "four", "five", "six", "seven", "eight", "nine"]

  /** The digit of a keypad key, or -1 for any other key (the backspace). */
  function KeyDigit(id: string): (digit: int)
    ensures -1 <= digit <= 9
    ensures digit >= 0 ==> DIGIT_KEYS[digit] == id
    ensures digit == -1 <==> id !in DIGIT_KEYS
  {
    if id == "zero" then 0
    else if id == "one" then 1
    else if id == "two" then 2
    else if id == "three" then 3
    else if id == "four" then 4
    else if id == "five" then 5
    else if id == "six" then 6
    else if id == "seven" then 7
    else if id == "eight" then 8
    else if id == "nine" then 9
    else -1
  }

  /** The share count after one key: backspace drops the last digit, a digit is appended unless that reaches MAX. */
  function NextShares(shares: int, digit: int): (next: int)
    ensures digit == -1 && shares >= 0 ==> 0 <= next && next * 10 <= shares < next * 10 + 10
    ensures 0 <= digit <= 9 ==> next % 10 == digit
  {
    if digit == -1 then JavaDiv(shares, 10)
    else if shares * 10 + digit >= MAX then digit
    else shares * 10 + digit
  }

  /** The share count after typing `digits` (-1 for backspace) from `shares`. */
  function Typed(shares: int, digits: seq<int>): int
    decreases |digits|
  {
    if digits == [] then shares else NextShares(Typed(shares, digits[..|digits| - 1]), digits[|digits| - 1])
  }

  /** The number a sequence of decimal digits writes, most significant first. */
  function DecimalValue(digits: seq<int>): int
    decreases |digits|
  {
    if digits == [] then 0 else DecimalValue(digits[..|digits| - 1]) * 10 + digits[|digits| - 1]
  }

  predicate AllDecimalDigits(digits: seq<int>) {
    forall i :: 0 <= i < |digits| ==> 0 <= digits[i] <= 9
  }

  /** Why an order is turned down. */
  datatype Rejection = ZeroShares | InsufficientFunds | NoSharesHeld | MoreThanHeld

  datatype Verdict = Filled | Rejected(reason: Rejection)

  /** The checks of a buy order, in order: at least one share, then enough cash for the total. */
  function BuyVerdict(shares: int, cashOnHand: real, total: real): (v: Verdict)
    ensures v == Filled <==> shares != 0 && cashOnHand >= total
    ensures v == Rejected(ZeroShares) <==> shares == 0
  {
    if shares == 0 then Rejected(ZeroShares)
    else if cashOnHand >= total then Filled
    else Rejected(InsufficientFunds)
  }

  /** The checks of a sell order, in order: some shares held, at least one entered, no more than held. */
  function SellVerdict(sharesAvailable: int, shares: int): (v: Verdict)
    ensures v == Filled <==> sharesAvailable != 0 && shares != 0 && shares <= sharesAvailable
    ensures v == Rejected(NoSharesHeld) <==> sharesAvailable == 0
  {
    if sharesAvailable == 0 then Rejected(NoSharesHeld)
    else if shares == 0 then Rejected(ZeroShares)
    else if shares > sharesAvailable then Rejected(MoreThanHeld)
    else Filled
  }

  class StockTransactionActivity {
    var isBuyOrder: bool
    var symbol: string
    var date: string
    var previousClose: real
    var shares: int

    /** The share count typed so far stays below MAX. */
    ghost predicate Valid()
      reads this
    {
      0 <= shares < MAX
    }

    /** `onCreate`: the order's side, symbol, market date and previous close come from the intent. */
    constructor (isBuyOrder: bool, symbol: string, date: string, previousClose: real)
      ensures Valid() && shares == 0
      ensures this.isBuyOrder == isBuyOrder && this.symbol == symbol && this.date == date
      ensures this.previousClose == previousClose
    {
      this.isBuyOrder := isBuyOrder;
      this.symbol := symbol;
      this.date := date;
      this.previousClose := previousClose;
      shares := 0;
    }

    /** `keypadClick`: apply one key to the share count. */
    method KeypadClick(id: string)
      requires Valid()
      modifies this
      ensures Valid()
      ensures shares == NextShares(old(shares), KeyDigit(id))
      ensures isBuyOrder == old(isBuyOrder) && symbol == old(symbol) && date == old(date)
      ensures previousClose == old(previousClose)
    {
      var nextDigit := KeyDigit(id);
      KeypadKeepsBound(shares, nextDigit);
      if nextDigit == -1 {
        shares := JavaDiv(shares, 10);
      } else {
        shares := shares * 10 + nextDigit;
        if shares >= MAX {
          shares := nextDigit;
        }
      }
    }

    /**
     * `executeTrade` with the price and total read from the screen and today's date. A buy
     * that passes its checks inserts a lot, takes the symbol off the watchlist, debits the
     * total and logs "Market Buy"; the confetti shows when the history was empty. A sell
     * that passes its checks liquidates the shares oldest lot first, credits the amount the
     * liquidation returned and logs "Market Sell". A rejected order changes nothing.
     */
    method ExecuteTrade(db: DatabaseHelper, prefs: Preferences, name: string, price: real, total: real,
                        today: string) returns (verdict: Verdict, confetti: bool)
      requires Valid() && db.Valid()
      modifies db, prefs
      ensures db.Valid()
      ensures verdict.Rejected? ==> !confetti && unchanged(db) && unchanged(prefs)
      ensures isBuyOrder ==> verdict == BuyVerdict(shares, old(prefs.Cash()), total)
      ensures isBuyOrder && verdict == Filled ==>
                db.stocks == old(db.stocks) + [Lot(old(db.nextLotId), name, symbol, shares, price, price, today)] &&
                db.nextLotId == old(db.nextLotId) + 1 && db.profitLog == old(db.profitLog) &&
                db.transactions == old(db.transactions) + [TransactionRecord(name, symbol, "Market Buy", shares, price, today)] &&
                prefs.watchlist == old(prefs.watchlist) - {symbol} && prefs.dateJoined == old(prefs.dateJoined) &&
                prefs.cash == Some(old(prefs.Cash()) - total) &&
                (confetti <==> old(db.transactions) == []) &&
                ShareCount(db.stocks, symbol) == ShareCount(old(db.stocks), symbol) + shares
      ensures !isBuyOrder ==> !confetti && verdict == SellVerdict(ShareCount(old(db.stocks), symbol), shares)
      ensures !isBuyOrder && verdict == Filled ==>
                var sale := FifoSell(old(db.stocks), symbol, shares, previousClose, date);
                db.stocks == RemoveEmpty(sale.lots) && db.nextLotId == old(db.nextLotId) &&
                db.profitLog == LoggedProfit(old(db.profitLog), date, sale.change) &&
                db.transactions == old(db.transactions) + [TransactionRecord(name, symbol, "Market Sell", shares, price, today)] &&
                prefs.watchlist == old(prefs.watchlist) && prefs.dateJoined == old(prefs.dateJoined) &&
                prefs.cash == Some(old(prefs.Cash()) + sale.proceeds) &&
                ShareCount(db.stocks, symbol) == ShareCount(old(db.stocks), symbol) - shares
    {
      confetti := false;
      if isBuyOrder {
        var cashOnHand := prefs.GetCashAvailable();
        if shares == 0 {
          verdict := Rejected(ZeroShares);
        } else if cashOnHand >= total {
          var success := db.StockPurchase(name, symbol, shares, price, price, today);
          if success {
            confetti := IsTransactionHistoryEmpty(db.transactions);
            var onWatchlist := prefs.CurrentlyOnWatchlist(symbol);
            if onWatchlist {
              prefs.UpdateWatchList(symbol);
            }
            prefs.UpdateCashAvailable(-total);
            var logged := db.LogTransaction(name, symbol, "Market Buy", shares, price, today);
          }
          verdict := Filled;
        } else {
          verdict := Rejected(InsufficientFunds);
        }
      } else {
        var sharesAvailable := ShareCount(db.stocks, symbol);
        if sharesAvailable == 0 {
          verdict := Rejected(NoSharesHeld);
        } else if shares == 0 {
          verdict := Rejected(ZeroShares);
        } else if shares > ShareCount(db.stocks, symbol) {
          verdict := Rejected(MoreThanHeld);
        } else {
          SellFilledSellsExactly(db.stocks, symbol, shares, previousClose, date);
          var amountSold := db.LiquidateStock(symbol, shares, previousClose, date);
          prefs.UpdateCashAvailable(amountSold);
          var logged := db.LogTransaction(name, symbol, "Market Sell", shares, price, today);
          verdict := Filled;
        }
      }
    }
  }

  // ---------------------------------------------------------------------------------------
  // Lemmas

  /** Every key keeps the share count in [0, MAX). */
  lemma {:induction false} KeypadKeepsBound(shares: int, digit: int)
    requires 0 <= shares < MAX && -1 <= digit <= 9
    ensures 0 <= NextShares(shares, digit) < MAX
  {
  }

  /** A digit key appends the digit while the count has fewer than seven digits, and restarts at the digit after that. */
  lemma {:induction false} DigitKey(shares: int, digit: int)
    requires 0 <= shares < MAX && 0 <= digit <= 9
    ensures shares < 1000000 ==> NextShares(shares, digit) == shares * 10 + digit
    ensures shares >= 1000000 ==> NextShares(shares, digit) == digit
  {
  }

  /** Backspace undoes a digit that was appended. */
  lemma {:induction false} BackspaceUndoesDigit(shares: int, digit: int)
    requires 0 <= shares < 1000000 && 0 <= digit <= 9
    ensures NextShares(NextShares(shares, digit), -1) == shares
  {
    assert JavaDiv(shares * 10 + digit, 10) == shares;
  }

  /** Typing the digits of a number below MAX on a fresh screen gives that number. */
  lemma {:induction false} TypedDigitsGiveTheirValue(digits: seq<int>)
    requires AllDecimalDigits(digits) && DecimalValue(digits) < MAX
    ensures Typed(0, digits) == DecimalValue(digits)
    decreases |digits|
  {
    if digits != [] {
      var front := digits[..|digits| - 1];
      assert AllDecimalDigits(front);
      assert 0 <= DecimalValue(front) by {
        DecimalValueIsNatural(front);
      }
      TypedDigitsGiveTheirValue(front);
    }
  }

  lemma {:induction false} DecimalValueIsNatural(digits: seq<int>)
    requires AllDecimalDigits(digits)
    ensures DecimalValue(digits) >= 0
    decreases |digits|
  {
    if digits != [] {
      var front := digits[..|digits| - 1];
      assert AllDecimalDigits(front);
      DecimalValueIsNatural(front);
    }
  }

  /** A filled sell order sells exactly the entered shares and leaves every other symbol's holding. */
  lemma {:induction false} SellFilledSellsExactly(lots: seq<Lot>, symbol: string, shares: int, previousClose: real, latestDate: string)
    requires shares >= 0 && SellVerdict(ShareCount(lots, symbol), shares) == Filled
    ensures SaleSize(ShareCount(lots, symbol), shares) == shares
    ensures ShareCount(RemoveEmpty(FifoSell(lots, symbol, shares, previousClose, latestDate).lots), symbol)
              == ShareCount(lots, symbol) - shares
    ensures forall other :: other != symbol ==>
              ShareCount(RemoveEmpty(FifoSell(lots, symbol, shares, previousClose, latestDate).lots), other)
                == ShareCount(lots, other)
  {
    var after := FifoSell(lots, symbol, shares, previousClose, latestDate).lots;
    SaleConservesShares(lots, symbol, shares, previousClose, latestDate);
    RemoveEmptyKeepsAggregates(after, symbol);
    forall other | other != symbol
      ensures ShareCount(RemoveEmpty(after), other) == ShareCount(lots, other)
    {
      SaleKeepsOtherSymbols(lots, symbol, shares, previousClose, latestDate, other);
      RemoveEmptyKeepsAggregates(after, other);
    }
  }
}
