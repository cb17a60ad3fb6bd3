/**
 * The read queries of DatabaseHelper over the append-only `transactions` table, which is
 * kept as a sequence of records in ascending `_id` (insertion) order.
 */
module TransactionLog {
  import opened Tables

  /** `getAllTransactions()`: every record, newest first (ORDER BY _id DESC). */
  function AllTransactions(log: seq<TransactionRecord>): (rows: seq<TransactionRecord>)
    ensures |rows| == |log|
    ensures forall i :: 0 <= i < |log| ==> rows[i] == log[|log| - 1 - i]
    decreases |log|
  {
    if log == [] then [] else [log[|log| - 1]] + AllTransactions(log[..|log| - 1])
  }

  /** `getAllTransactions(symbol)`: the records of `symbol`, newest first. */
  function AllTransactionsFor(log: seq<TransactionRecord>, symbol: string): (rows: seq<TransactionRecord>)
    ensures forall r :: r in rows <==> r in log && r.symbol == symbol
    ensures |rows| <= |log|
    decreases |log|
  {
    if log == [] then []
    else
      var last := log[|log| - 1];
      var rest := AllTransactionsFor(log[..|log| - 1], symbol);
      assert log == log[..|log| - 1] + [last];
      if last.symbol == symbol then [last] + rest else rest
  }

  /** `inStockTransactionHistory`: COUNT(*) of the records of `symbol` is positive. */
  function InStockTransactionHistory(log: seq<TransactionRecord>, symbol: string): (found: bool)
    ensures found <==> exists i :: 0 <= i < |log| && log[i].symbol == symbol
  {
    var rows := AllTransactionsFor(log, symbol);
    assert (exists i :: 0 <= i < |log| && log[i].symbol == symbol) ==> |rows| > 0 by {
      if i :| 0 <= i < |log| && log[i].symbol == symbol {
        assert log[i] in rows;
      }
    }
    assert |rows| > 0 ==> exists i :: 0 <= i < |log| && log[i].symbol == symbol by {
      if |rows| > 0 {
        assert rows[0] in log;
      }
    }
    |rows| > 0
  }

  /** `isTransactionHistoryEmpty`: COUNT(*) of the table is zero. */
  function IsTransactionHistoryEmpty(log: seq<TransactionRecord>): (empty: bool)
    ensures empty <==> AllTransactions(log) == []
  {
    |log| == 0
  }

  /** The records of `rows` whose symbol is `symbol`, in order. */
  function Filtered(rows: seq<TransactionRecord>, symbol: string): seq<TransactionRecord>
    decreases |rows|
  {
    if rows == [] then []
    else (if rows[0].symbol == symbol then [rows[0]] else []) + Filtered(rows[1..], symbol)
  }

  // ---------------------------------------------------------------------------------------
  // Lemmas

  /** A record just appended is the first one both listings show. */
  lemma {:induction false} AppendedShownFirst(log: seq<TransactionRecord>, r: TransactionRecord)
    ensures AllTransactions(log + [r])[0] == r
    ensures AllTransactionsFor(log + [r], r.symbol)[0] == r
    ensures AllTransactions(log + [r])[1..] == AllTransactions(log)
    ensures AllTransactionsFor(log + [r], r.symbol)[1..] == AllTransactionsFor(log, r.symbol)
  {
    assert (log + [r])[..|log|] == log;
  }

  /** Appending a record of another symbol leaves the per-symbol listing as it was. */
  lemma {:induction false} AppendOtherSymbol(log: seq<TransactionRecord>, r: TransactionRecord, symbol: string)
    requires r.symbol != symbol
    ensures AllTransactionsFor(log + [r], symbol) == AllTransactionsFor(log, symbol)
    ensures InStockTransactionHistory(log + [r], symbol) == InStockTransactionHistory(log, symbol)
  {
    assert (log + [r])[..|log|] == log;
  }

  /** The per-symbol listing is the full listing filtered to the symbol, in the same order. */
  lemma {:induction false} ListingForIsFiltered(log: seq<TransactionRecord>, symbol: string)
    ensures AllTransactionsFor(log, symbol) == Filtered(AllTransactions(log), symbol)
    decreases |log|
  {
    if log != [] {
      var front := log[..|log| - 1];
      ListingForIsFiltered(front, symbol);
      var all := AllTransactions(log);
      assert all == [log[|log| - 1]] + AllTransactions(front);
      assert all[1..] == AllTransactions(front);
    }
  }
}
