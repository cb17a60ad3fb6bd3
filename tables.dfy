/**
 * The rows of PocketProfit's SQLite tables (DatabaseTables.java), as values. A table is
 * modelled as a sequence of rows in ascending `_id` order, so sequence order is insertion
 * order.
 */
module Tables {

  /**
   * A row of the `stocks` table: one purchase lot that is not yet fully sold. `id` is the
   * auto-increment key, `pricePaid` the `price` column (cost per share), `currentPrice` the
   * mark price used for the lot's market value, and `date` the purchase day as written by
   * `Util.getTodaysDate` (compared by string equality only).
   */
  datatype Lot = Lot(
    id: nat,
    name: string,
    symbol: string,
    quantity: nat,
    pricePaid: real,
    currentPrice: real,
    date: string)

  /** A row of the append-only `transactions` table. */
  datatype TransactionRecord = TransactionRecord(
    name: string,
    symbol: string,
    orderType: string,
    quantity: int,
    price: real,
    date: string)

  /** The single row the `dailyTransactionLog` table can hold: a day and its realised P&L. */
  datatype ProfitEntry = ProfitEntry(date: string, value: real)

  /** Lots are kept oldest first: strictly ascending auto-increment ids. */
  predicate IdsAscending(lots: seq<Lot>) {
    forall i, j :: 0 <= i < j < |lots| ==> lots[i].id < lots[j].id
  }

  /** No row of the stocks table holds zero shares. */
  predicate NoEmptyLots(lots: seq<Lot>) {
    forall i :: 0 <= i < |lots| ==> lots[i].quantity > 0
  }
}
