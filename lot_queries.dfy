/**
 * The read-only queries of DatabaseHelper over the `stocks` table: share counts, cost,
 * equity, average cost, marks, ownership and the per-symbol groupings. Each is a function
 * of the table (a sequence of lots in ascending id order).
 *
 * An aggregate over no rows is an SQL NULL, which the cursor reads back as 0; so the
 * share count, cost, equity and average cost of a symbol that is not owned are all 0.
 */
module LotQueries {
  import opened Wrappers
  import opened Tables

  /** `getShareCount`: SUM(quantity) over the lots of `symbol`. */
  function ShareCount(lots: seq<Lot>, symbol: string): nat
    decreases |lots|
  {
    if lots == [] then 0
    else (if lots[0].symbol == symbol then lots[0].quantity else 0) + ShareCount(lots[1..], symbol)
  }

  /** What a lot cost: quantity * price paid. */
  function LotCost(l: Lot): real {
    (l.quantity as real) * l.pricePaid
  }

  /** What a lot is worth at its mark: quantity * current price. */
  function LotValue(l: Lot): real {
    (l.quantity as real) * l.currentPrice
  }

  /** `getStockCost`: SUM(quantity * price paid) over the lots of `symbol`. */
  function StockCost(lots: seq<Lot>, symbol: string): real
    decreases |lots|
  {
    if lots == [] then 0.0
    else
      (if lots[0].symbol == symbol then LotCost(lots[0]) else 0.0)
      + StockCost(lots[1..], symbol)
  }

  /** `getStockEquity`: SUM(quantity * current price) over the lots of `symbol`. */
  function StockEquity(lots: seq<Lot>, symbol: string): real
    decreases |lots|
  {
    if lots == [] then 0.0
    else
      (if lots[0].symbol == symbol then LotValue(lots[0]) else 0.0)
      + StockEquity(lots[1..], symbol)
  }

  /** `getTotalEquity`: SUM(quantity * current price) over every lot. */
  function TotalEquity(lots: seq<Lot>): real
    decreases |lots|
  {
    if lots == [] then 0.0
    else LotValue(lots[0]) + TotalEquity(lots[1..])
  }

  /**
   * `getAverageCost`: SUM(quantity * price paid) / SUM(quantity). SQLite yields NULL when
   * there are no rows or the divisor is 0, and the cursor reads NULL as 0.
   */
  function AverageCost(lots: seq<Lot>, symbol: string): (average: real)
    ensures ShareCount(lots, symbol) > 0 ==>
              average * (ShareCount(lots, symbol) as real) == StockCost(lots, symbol)
    ensures ShareCount(lots, symbol) == 0 ==> average == 0.0
  {
    var count := ShareCount(lots, symbol);
    if count == 0 then 0.0 else StockCost(lots, symbol) / (count as real)
  }

  /** COUNT(*) of the lots of `symbol`. */
  function RowCount(lots: seq<Lot>, symbol: string): (count: nat)
    ensures count > 0 <==> exists i :: 0 <= i < |lots| && lots[i].symbol == symbol
    decreases |lots|
  {
    if lots == [] then 0
    else
      var rest := RowCount(lots[1..], symbol);
      assert forall i :: 1 <= i < |lots| ==> lots[i] == lots[1..][i - 1];
      (if lots[0].symbol == symbol then 1 else 0) + rest
  }

  /** `userOwns`: some row of the stocks table has this symbol. */
  function UserOwns(lots: seq<Lot>, symbol: string): (owns: bool)
    ensures owns <==> exists i :: 0 <= i < |lots| && lots[i].symbol == symbol
  {
    RowCount(lots, symbol) > 0
  }

  /**
   * `getCurrentPrice`: the mark of a lot of `symbol`, or -1 when there is none. The query
   * groups by (symbol, current price) without ordering, so which lot's mark comes first is
   * unspecified; the model takes the oldest lot's.
   */
  function CurrentPrice(lots: seq<Lot>, symbol: string): (price: real)
    ensures !UserOwns(lots, symbol) ==> price == -1.0
    ensures UserOwns(lots, symbol) ==>
              exists i :: 0 <= i < |lots| && lots[i].symbol == symbol && lots[i].currentPrice == price
    decreases |lots|
  {
    if lots == [] then -1.0
    else if lots[0].symbol == symbol then lots[0].currentPrice
    else
      var p := CurrentPrice(lots[1..], symbol);
      assert forall i :: 1 <= i < |lots| ==> lots[i] == lots[1..][i - 1];
      p
  }

  /**
   * `getCompanyName`: the name column of a lot of `symbol` (LIMIT 1, no ordering: the model
   * takes the oldest lot's), or null when the symbol is not owned.
   */
  function CompanyName(lots: seq<Lot>, symbol: string): (name: Option<string>)
    ensures name.None? <==> !UserOwns(lots, symbol)
    ensures name.Some? ==>
              exists i :: 0 <= i < |lots| && lots[i].symbol == symbol && lots[i].name == name.value
    decreases |lots|
  {
    if lots == [] then None
    else if lots[0].symbol == symbol then Some(lots[0].name)
    else
      var n := CompanyName(lots[1..], symbol);
      assert forall i :: 1 <= i < |lots| ==> lots[i] == lots[1..][i - 1];
      n
  }

  /**
   * `getStocksOwned`: GROUP BY symbol with SUM(quantity * current price), as a map from
   * each owned symbol to its equity.
   */
  function StocksOwned(lots: seq<Lot>): (owned: map<string, real>)
    ensures forall s :: s in owned <==> UserOwns(lots, s)
    ensures forall s :: s in owned ==> owned[s] == StockEquity(lots, s)
    decreases |lots|
  {
    if lots == [] then map[]
    else
      var rest := StocksOwned(lots[1..]);
      var l := lots[0];
      var before := if l.symbol in rest then rest[l.symbol] else 0.0;
      OwnedStep(lots, rest);
      rest[l.symbol := LotValue(l) + before]
  }

  /** Adding the first lot's value to its symbol's entry turns the map of the rest into the map of all lots. */
  lemma {:induction false} OwnedStep(lots: seq<Lot>, rest: map<string, real>)
    requires lots != []
    requires forall s :: s in rest <==> UserOwns(lots[1..], s)
    requires forall s :: s in rest ==> rest[s] == StockEquity(lots[1..], s)
    ensures var l := lots[0];
            var owned := rest[l.symbol := LotValue(l) + (if l.symbol in rest then rest[l.symbol] else 0.0)];
            (forall s :: s in owned <==> UserOwns(lots, s)) &&
            (forall s :: s in owned ==> owned[s] == StockEquity(lots, s))
  {
    var l := lots[0];
    forall s ensures UserOwns(lots, s) <==> s == l.symbol || UserOwns(lots[1..], s) {
      assert RowCount(lots, s) == (if l.symbol == s then 1 else 0) + RowCount(lots[1..], s);
    }
    if !UserOwns(lots[1..], l.symbol) {
      UnownedAggregatesAreZero(lots[1..], l.symbol);
    }
  }

  /** The (symbol, current price) groups of the stocks table, each once, in order of first lot. */
  function MarkGroups(lots: seq<Lot>): (groups: seq<(string, real)>)
    ensures forall g :: g in groups <==>
              exists i :: 0 <= i < |lots| && (lots[i].symbol, lots[i].currentPrice) == g
    ensures forall i, j :: 0 <= i < j < |groups| ==> groups[i] != groups[j]
    decreases |lots|
  {
    if lots == [] then []
    else
      var front := lots[..|lots| - 1];
      var rest := MarkGroups(front);
      var last := lots[|lots| - 1];
      var g := (last.symbol, last.currentPrice);
      assert forall i :: 0 <= i < |front| ==> lots[i] == front[i];
      if g in rest then rest else rest + [g]
  }

  /**
   * `getAllStockSymbols`: GROUP BY (symbol, current price), so a symbol is listed once per
   * distinct mark among its lots. ORDER BY _id over groups is not pinned by SQLite; the model
   * lists groups in the order of their first lot.
   */
  function AllStockSymbols(lots: seq<Lot>): (symbols: seq<string>)
    ensures forall s :: s in symbols <==> UserOwns(lots, s)
    ensures |symbols| == |MarkGroups(lots)|
    ensures forall i :: 0 <= i < |symbols| ==> symbols[i] == MarkGroups(lots)[i].0
  {
    var groups := MarkGroups(lots);
    var symbols := seq(|groups|, i requires 0 <= i < |groups| => groups[i].0);
    assert forall s :: s in symbols <==> UserOwns(lots, s) by {
      forall s ensures s in symbols <==> UserOwns(lots, s) {
        if UserOwns(lots, s) {
          var i :| 0 <= i < |lots| && lots[i].symbol == s;
          var g := (lots[i].symbol, lots[i].currentPrice);
          assert g in groups;
          var k :| 0 <= k < |groups| && groups[k] == g;
          assert symbols[k] == s;
        }
        if s in symbols {
          var k :| 0 <= k < |symbols| && symbols[k] == s;
          assert groups[k] in groups;
        }
      }
    }
    symbols
  }

  /** `n` copies of `x`: what `getSharesBoughtToday` pushes for one lot. */
  function Repeat(x: real, n: nat): (r: seq<real>)
    ensures |r| == n && forall i :: 0 <= i < n ==> r[i] == x
    decreases n
  {
    if n == 0 then [] else Repeat(x, n - 1) + [x]
  }

  /** The number of remaining shares of `symbol` bought on `date` at price `price`. */
  function UnitsBoughtAt(lots: seq<Lot>, symbol: string, date: string, price: real): nat
    decreases |lots|
  {
    if lots == [] then 0
    else
      var l := lots[0];
      (if l.symbol == symbol && l.date == date && l.pricePaid == price then l.quantity else 0)
      + UnitsBoughtAt(lots[1..], symbol, date, price)
  }

  /**
   * `getSharesBoughtToday`: the price paid of each lot of `symbol` bought on `date`, once per
   * remaining share, in scan order (bottom of the stack first).
   */
  function SharesBoughtToday(lots: seq<Lot>, symbol: string, date: string): (prices: seq<real>)
    ensures |prices| <= ShareCount(lots, symbol)
    ensures forall p :: multiset(prices)[p] == UnitsBoughtAt(lots, symbol, date, p)
    decreases |lots|
  {
    if lots == [] then []
    else
      var l := lots[0];
      var here := if l.symbol == symbol && l.date == date then Repeat(l.pricePaid, l.quantity) else [];
      var rest := SharesBoughtToday(lots[1..], symbol, date);
      assert forall p :: multiset(here)[p] == (if l.symbol == symbol && l.date == date && l.pricePaid == p then l.quantity else 0) by {
        forall p {
          RepeatMultiplicity(l.pricePaid, l.quantity, p);
        }
      }
      here + rest
  }

  /** `updateCurrentPrice` on the table: every lot of `symbol` takes the mark `price`. */
  function Marked(lots: seq<Lot>, symbol: string, price: real): (marked: seq<Lot>)
    ensures |marked| == |lots|
    decreases |lots|
  {
    if lots == [] then []
    else
      [if lots[0].symbol == symbol then lots[0].(currentPrice := price) else lots[0]]
      + Marked(lots[1..], symbol, price)
  }

  /** The UPDATE of `updateCurrentPrice`: its WHERE clause skips a zero price entirely. */
  function Repriced(lots: seq<Lot>, symbol: string, price: real): (repriced: seq<Lot>)
    ensures |repriced| == |lots|
    ensures forall i :: 0 <= i < |lots| ==>
              repriced[i] == if price != 0.0 && lots[i].symbol == symbol then lots[i].(currentPrice := price) else lots[i]
  {
    assert price != 0.0 ==> forall i :: 0 <= i < |lots| ==>
             Marked(lots, symbol, price)[i] == if lots[i].symbol == symbol then lots[i].(currentPrice := price) else lots[i] by {
      forall i | 0 <= i < |lots|
        ensures Marked(lots, symbol, price)[i] == if lots[i].symbol == symbol then lots[i].(currentPrice := price) else lots[i]
      {
        MarkedAtIndex(lots, symbol, price, i);
      }
    }
    if price == 0.0 then lots else Marked(lots, symbol, price)
  }

  /** Every lot of `symbol` carries the mark `price`. */
  predicate MarkedAt(lots: seq<Lot>, symbol: string, price: real) {
    forall i :: 0 <= i < |lots| && lots[i].symbol == symbol ==> lots[i].currentPrice == price
  }

  // ---------------------------------------------------------------------------------------
  // Lemmas

  lemma {:induction false} RepeatMultiplicity(x: real, n: nat, p: real)
    ensures multiset(Repeat(x, n))[p] == if x == p then n else 0
    decreases n
  {
    if n > 0 {
      RepeatMultiplicity(x, n - 1, p);
      assert Repeat(x, n) == Repeat(x, n - 1) + [x];
    }
  }

  /**
   * The documented -1 of getStockEquity, getStockCost and getAverageCost cannot occur: for a
   * symbol with no lots the aggregate queries read back 0.
   */
  lemma {:induction false} UnownedAggregatesAreZero(lots: seq<Lot>, symbol: string)
    requires !UserOwns(lots, symbol)
    ensures ShareCount(lots, symbol) == 0
    ensures StockCost(lots, symbol) == 0.0
    ensures StockEquity(lots, symbol) == 0.0
    ensures AverageCost(lots, symbol) == 0.0
    decreases |lots|
  {
    if lots != [] {
      assert RowCount(lots, symbol) == (if lots[0].symbol == symbol then 1 else 0) + RowCount(lots[1..], symbol);
      UnownedAggregatesAreZero(lots[1..], symbol);
    }
  }

  /** With no empty lots (the state after every cleanup), owning a symbol means holding shares of it. */
  lemma {:induction false} OwnsIffShares(lots: seq<Lot>, symbol: string)
    requires NoEmptyLots(lots)
    ensures UserOwns(lots, symbol) <==> ShareCount(lots, symbol) > 0
    decreases |lots|
  {
    if lots != [] {
      assert RowCount(lots, symbol) == (if lots[0].symbol == symbol then 1 else 0) + RowCount(lots[1..], symbol);
      assert NoEmptyLots(lots[1..]) by {
        forall i | 0 <= i < |lots[1..]| ensures lots[1..][i].quantity > 0 {
          assert lots[1..][i] == lots[i + 1];
        }
      }
      OwnsIffShares(lots[1..], symbol);
    }
  }

  /** Every aggregate of the table distributes over concatenation of its rows. */
  lemma {:induction false} AggregatesOfConcat(a: seq<Lot>, b: seq<Lot>, symbol: string)
    ensures ShareCount(a + b, symbol) == ShareCount(a, symbol) + ShareCount(b, symbol)
    ensures StockCost(a + b, symbol) == StockCost(a, symbol) + StockCost(b, symbol)
    ensures StockEquity(a + b, symbol) == StockEquity(a, symbol) + StockEquity(b, symbol)
    ensures TotalEquity(a + b) == TotalEquity(a) + TotalEquity(b)
    ensures RowCount(a + b, symbol) == RowCount(a, symbol) + RowCount(b, symbol)
    decreases |a|
  {
    if a == [] {
      assert a + b == b;
    } else {
      assert (a + b)[1..] == a[1..] + b;
      AggregatesOfConcat(a[1..], b, symbol);
    }
  }

  /** A new lot adds its quantity, cost and value to its own symbol's aggregates only. */
  lemma {:induction false} AggregatesOfInsert(lots: seq<Lot>, lot: Lot, symbol: string)
    ensures ShareCount(lots + [lot], symbol)
              == ShareCount(lots, symbol) + (if lot.symbol == symbol then lot.quantity else 0)
    ensures StockCost(lots + [lot], symbol)
              == StockCost(lots, symbol) + (if lot.symbol == symbol then LotCost(lot) else 0.0)
    ensures StockEquity(lots + [lot], symbol)
              == StockEquity(lots, symbol) + (if lot.symbol == symbol then LotValue(lot) else 0.0)
    ensures TotalEquity(lots + [lot]) == TotalEquity(lots) + LotValue(lot)
    ensures UserOwns(lots + [lot], symbol) <==> UserOwns(lots, symbol) || lot.symbol == symbol
  {
    AggregatesOfConcat(lots, [lot], symbol);
    assert [lot][1..] == [];
  }

  lemma {:induction false} MulMonotone(a: real, x: real, y: real)
    requires a >= 0.0 && x <= y
    ensures a * x <= a * y
  {
  }

  lemma {:induction false} MulStrict(a: real, x: real, y: real)
    requires a > 0.0 && x < y
    ensures x * a < y * a
  {
  }

  lemma {:induction false} Distribute(a: real, x: real, y: real)
    ensures a * (x + y) == a * x + a * y
  {
  }

  /** One lot's step of `CostAtLeast`: a lower bound on its price carries over to its cost. */
  lemma {:induction false} LowerBoundStep(q: nat, p: real, lo: real, rest: nat, c: real, total: nat, cost: real)
    requires total == q + rest && cost == (q as real) * p + c
    requires lo <= p && lo * (rest as real) <= c
    ensures lo * (total as real) <= cost
  {
    MulMonotone(q as real, lo, p);
    Distribute(lo, q as real, rest as real);
  }

  /** One lot's step of `CostAtMost`: an upper bound on its price carries over to its cost. */
  lemma {:induction false} UpperBoundStep(q: nat, p: real, hi: real, rest: nat, c: real, total: nat, cost: real)
    requires total == q + rest && cost == (q as real) * p + c
    requires p <= hi && c <= hi * (rest as real)
    ensures cost <= hi * (total as real)
  {
    MulMonotone(q as real, p, hi);
    Distribute(hi, q as real, rest as real);
  }

  /** The inductive step of `CostAtLeast`, for a first lot of `symbol`. */
  lemma {:induction false} CostAtLeastStep(lots: seq<Lot>, symbol: string, lo: real)
    requires lots != [] && lots[0].symbol == symbol && lo <= lots[0].pricePaid
    requires lo * (ShareCount(lots[1..], symbol) as real) <= StockCost(lots[1..], symbol)
    ensures lo * (ShareCount(lots, symbol) as real) <= StockCost(lots, symbol)
  {
    LowerBoundStep(lots[0].quantity, lots[0].pricePaid, lo, ShareCount(lots[1..], symbol),
                   StockCost(lots[1..], symbol), ShareCount(lots, symbol), StockCost(lots, symbol));
  }

  /** The inductive step of `CostAtMost`, for a first lot of `symbol`. */
  lemma {:induction false} CostAtMostStep(lots: seq<Lot>, symbol: string, hi: real)
    requires lots != [] && lots[0].symbol == symbol && lots[0].pricePaid <= hi
    requires StockCost(lots[1..], symbol) <= hi * (ShareCount(lots[1..], symbol) as real)
    ensures StockCost(lots, symbol) <= hi * (ShareCount(lots, symbol) as real)
  {
    UpperBoundStep(lots[0].quantity, lots[0].pricePaid, hi, ShareCount(lots[1..], symbol),
                   StockCost(lots[1..], symbol), ShareCount(lots, symbol), StockCost(lots, symbol));
  }

  /** A lower bound on every price paid bounds the cost of the symbol from below. */
  lemma {:induction false} CostAtLeast(lots: seq<Lot>, symbol: string, lo: real)
    requires forall i :: 0 <= i < |lots| && lots[i].symbol == symbol ==> lo <= lots[i].pricePaid
    ensures lo * (ShareCount(lots, symbol) as real) <= StockCost(lots, symbol)
    decreases |lots|
  {
    if lots != [] {
      assert forall i :: 0 <= i < |lots[1..]| ==> lots[1..][i] == lots[i + 1];
      CostAtLeast(lots[1..], symbol, lo);
      if lots[0].symbol == symbol {
        CostAtLeastStep(lots, symbol, lo);
      } else {
        assert ShareCount(lots, symbol) == ShareCount(lots[1..], symbol);
        assert StockCost(lots, symbol) == StockCost(lots[1..], symbol);
      }
    }
  }

  /** An upper bound on every price paid bounds the cost of the symbol from above. */
  lemma {:induction false} CostAtMost(lots: seq<Lot>, symbol: string, hi: real)
    requires forall i :: 0 <= i < |lots| && lots[i].symbol == symbol ==> lots[i].pricePaid <= hi
    ensures StockCost(lots, symbol) <= hi * (ShareCount(lots, symbol) as real)
    decreases |lots|
  {
    if lots != [] {
      assert forall i :: 0 <= i < |lots[1..]| ==> lots[1..][i] == lots[i + 1];
      CostAtMost(lots[1..], symbol, hi);
      if lots[0].symbol == symbol {
        CostAtMostStep(lots, symbol, hi);
      } else {
        assert ShareCount(lots, symbol) == ShareCount(lots[1..], symbol);
        assert StockCost(lots, symbol) == StockCost(lots[1..], symbol);
      }
    }
  }

  /** A quotient of bounded numerator lies between the bounds' quotients. */
  lemma {:induction false} QuotientBetween(n: real, c: real, lo: real, hi: real)
    requires n > 0.0 && lo * n <= c <= hi * n
    ensures lo <= c / n <= hi
  {
    var avg := c / n;
    assert avg * n == c;
    if avg < lo {
      MulStrict(n, avg, lo);
    }
    if avg > hi {
      MulStrict(n, hi, avg);
    }
  }

  /** Bounds on the cost basis, per share, bound the average cost. */
  lemma {:induction false} AverageFromBounds(lots: seq<Lot>, symbol: string, lo: real, hi: real)
    requires ShareCount(lots, symbol) > 0
    requires lo * (ShareCount(lots, symbol) as real) <= StockCost(lots, symbol)
    requires StockCost(lots, symbol) <= hi * (ShareCount(lots, symbol) as real)
    ensures lo <= AverageCost(lots, symbol) <= hi
  {
    var n := ShareCount(lots, symbol) as real;
    assert AverageCost(lots, symbol) == StockCost(lots, symbol) / n;
    QuotientBetween(n, StockCost(lots, symbol), lo, hi);
  }

  /** The average cost of an owned symbol lies between its lowest and highest price paid. */
  lemma {:induction false} AverageCostBetween(lots: seq<Lot>, symbol: string, lo: real, hi: real)
    requires ShareCount(lots, symbol) > 0
    requires forall i :: 0 <= i < |lots| && lots[i].symbol == symbol ==> lo <= lots[i].pricePaid <= hi
    ensures lo <= AverageCost(lots, symbol) <= hi
  {
    CostAtLeast(lots, symbol, lo);
    CostAtMost(lots, symbol, hi);
    AverageFromBounds(lots, symbol, lo, hi);
  }

  /** Repricing rewrites the mark of exactly the lots of `symbol`. */
  lemma {:induction false} MarkedAtIndex(lots: seq<Lot>, symbol: string, price: real, i: nat)
    requires i < |lots|
    ensures Marked(lots, symbol, price)[i]
              == (if lots[i].symbol == symbol then lots[i].(currentPrice := price) else lots[i])
    decreases i
  {
    if i > 0 {
      MarkedAtIndex(lots[1..], symbol, price, i - 1);
    }
  }

  /** The first lot and the rest of a repriced table. */
  lemma {:induction false} MarkedHead(lots: seq<Lot>, symbol: string, price: real)
    requires lots != []
    ensures var m := Marked(lots, symbol, price);
            m[0] == (if lots[0].symbol == symbol then lots[0].(currentPrice := price) else lots[0]) &&
            m[1..] == Marked(lots[1..], symbol, price)
  {
  }

  /** Repricing keeps the share count and the row count of every symbol. */
  lemma {:induction false} MarkedKeepsCounts(lots: seq<Lot>, symbol: string, price: real, other: string)
    ensures ShareCount(Marked(lots, symbol, price), other) == ShareCount(lots, other)
    ensures RowCount(Marked(lots, symbol, price), other) == RowCount(lots, other)
    decreases |lots|
  {
    if lots != [] {
      MarkedKeepsCounts(lots[1..], symbol, price, other);
      MarkedHead(lots, symbol, price);
    }
  }

  /** Repricing keeps the cost basis of every symbol. */
  lemma {:induction false} MarkedKeepsCost(lots: seq<Lot>, symbol: string, price: real, other: string)
    ensures StockCost(Marked(lots, symbol, price), other) == StockCost(lots, other)
    decreases |lots|
  {
    if lots != [] {
      MarkedKeepsCost(lots[1..], symbol, price, other);
      MarkedHead(lots, symbol, price);
      var m := Marked(lots, symbol, price);
      assert LotCost(m[0]) == LotCost(lots[0]);
    }
  }

  /** Repricing one symbol keeps the equity of every other symbol. */
  lemma {:induction false} MarkedKeepsOtherEquity(lots: seq<Lot>, symbol: string, price: real, other: string)
    requires other != symbol
    ensures StockEquity(Marked(lots, symbol, price), other) == StockEquity(lots, other)
    decreases |lots|
  {
    if lots != [] {
      MarkedKeepsOtherEquity(lots[1..], symbol, price, other);
      MarkedHead(lots, symbol, price);
    }
  }

  /** Repricing changes marks only: quantities, costs and ownership of every symbol stay. */
  lemma {:induction false} MarkedKeepsHoldings(lots: seq<Lot>, symbol: string, price: real, other: string)
    ensures ShareCount(Marked(lots, symbol, price), other) == ShareCount(lots, other)
    ensures StockCost(Marked(lots, symbol, price), other) == StockCost(lots, other)
    ensures RowCount(Marked(lots, symbol, price), other) == RowCount(lots, other)
    ensures other != symbol ==> StockEquity(Marked(lots, symbol, price), other) == StockEquity(lots, other)
  {
    MarkedKeepsCounts(lots, symbol, price, other);
    MarkedKeepsCost(lots, symbol, price, other);
    if other != symbol {
      MarkedKeepsOtherEquity(lots, symbol, price, other);
    }
  }

  /** When every lot of an owned symbol carries one mark, that mark is its current price. */
  lemma {:induction false} CurrentPriceAtOneMark(lots: seq<Lot>, symbol: string, price: real)
    requires UserOwns(lots, symbol) && MarkedAt(lots, symbol, price)
    ensures CurrentPrice(lots, symbol) == price
  {
    var i :| 0 <= i < |lots| && lots[i].symbol == symbol && lots[i].currentPrice == CurrentPrice(lots, symbol);
  }

  /** Repricing with `price` leaves every lot of the symbol marked at `price`. */
  lemma {:induction false} MarkedMarks(lots: seq<Lot>, symbol: string, price: real)
    ensures MarkedAt(Marked(lots, symbol, price), symbol, price)
  {
    var m := Marked(lots, symbol, price);
    forall i | 0 <= i < |m| && m[i].symbol == symbol ensures m[i].currentPrice == price {
      MarkedAtIndex(lots, symbol, price, i);
    }
  }

  /** After repricing with a non-zero price, every lot of the symbol carries that mark. */
  lemma {:induction false} RepricedMarks(lots: seq<Lot>, symbol: string, price: real)
    requires price != 0.0
    ensures MarkedAt(Repriced(lots, symbol, price), symbol, price)
    ensures UserOwns(lots, symbol) ==> CurrentPrice(Repriced(lots, symbol, price), symbol) == price
  {
    MarkedKeepsCounts(lots, symbol, price, symbol);
    MarkedMarks(lots, symbol, price);
    if UserOwns(lots, symbol) {
      CurrentPriceAtOneMark(Marked(lots, symbol, price), symbol, price);
    }
  }

  /** No single lot of a symbol holds more shares than the symbol's total. */
  lemma {:induction false} LotWithinCount(lots: seq<Lot>, symbol: string, i: nat)
    requires i < |lots| && lots[i].symbol == symbol
    ensures lots[i].quantity <= ShareCount(lots, symbol)
    decreases i
  {
    if i > 0 {
      assert lots[1..][i - 1] == lots[i];
      LotWithinCount(lots[1..], symbol, i - 1);
    }
  }

  /** The equity of a symbol whose lots all carry one mark is its share count times that mark. */
  lemma {:induction false} EquityAtOneMark(lots: seq<Lot>, symbol: string, price: real)
    requires MarkedAt(lots, symbol, price)
    ensures StockEquity(lots, symbol) == (ShareCount(lots, symbol) as real) * price
    decreases |lots|
  {
    if lots != [] {
      assert forall i :: 1 <= i < |lots| ==> lots[i] == lots[1..][i - 1];
      EquityAtOneMark(lots[1..], symbol, price);
      var rest := ShareCount(lots[1..], symbol) as real;
      if lots[0].symbol == symbol {
        var q := lots[0].quantity as real;
        assert (q + rest) * price == q * price + rest * price;
      }
    }
  }

  /**
   * When all lots of an owned symbol carry one mark (as after `updateCurrentPrice` with a
   * non-zero price), `getAllStockSymbols` lists that symbol exactly once.
   */
  lemma {:induction false} ListedOnceAtOneMark(lots: seq<Lot>, symbol: string, price: real)
    requires UserOwns(lots, symbol) && MarkedAt(lots, symbol, price)
    ensures exists i :: 0 <= i < |AllStockSymbols(lots)| && AllStockSymbols(lots)[i] == symbol
    ensures forall i, j ::
              (0 <= i < |AllStockSymbols(lots)| && 0 <= j < |AllStockSymbols(lots)|
               && AllStockSymbols(lots)[i] == symbol && AllStockSymbols(lots)[j] == symbol) ==> i == j
  {
    var symbols := AllStockSymbols(lots);
    var groups := MarkGroups(lots);
    assert symbol in symbols;
    forall i, j | 0 <= i < |symbols| && 0 <= j < |symbols| && symbols[i] == symbol && symbols[j] == symbol
      ensures i == j
    {
      assert groups[i] in groups && groups[j] in groups;
      var a :| 0 <= a < |lots| && (lots[a].symbol, lots[a].currentPrice) == groups[i];
      var b :| 0 <= b < |lots| && (lots[b].symbol, lots[b].currentPrice) == groups[j];
      assert groups[i] == (symbol, price) == groups[j];
    }
  }
}
