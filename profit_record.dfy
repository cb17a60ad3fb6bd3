/**
 * The one-row `dailyTransactionLog` table that holds the realised profit or loss of the
 * day's sales, and the two ways it rolls over to a new day: posting a sale's change for a
 * new day starts that day at the change (`LoggedProfit`), while reading a new day's figure
 * starts that day at zero (`ProfitRead`).
 */
module ProfitRecord {
  import opened Wrappers
  import opened Tables

  /** The record after `logTodaysStockSaleProfit(date, value)`. */
  function LoggedProfit(rec: Option<ProfitEntry>, date: string, value: real): (after: Option<ProfitEntry>)
    ensures after.Some? && after.value.date == date
    ensures after.value.value == if rec.Some? && rec.value.date == date then rec.value.value + value else value
  {
    match rec
    case None => Some(ProfitEntry(date, value))
    case Some(e) => if e.date == date then Some(ProfitEntry(date, e.value + value)) else Some(ProfitEntry(date, value))
  }

  /** What `getTodaysStockSaleProfit(date)` returns, and the record it leaves. */
  datatype ProfitRead = ProfitRead(value: real, after: Option<ProfitEntry>)

  /** `getTodaysStockSaleProfit(date)`: the day's figure, resetting a stale record to zero. */
  function ProfitOn(rec: Option<ProfitEntry>, date: string): (read: ProfitRead)
    ensures rec.None? ==> read == ProfitRead(0.0, None)
    ensures rec.Some? && rec.value.date == date ==> read == ProfitRead(rec.value.value, rec)
    ensures rec.Some? && rec.value.date != date ==> read == ProfitRead(0.0, Some(ProfitEntry(date, 0.0)))
  {
    match rec
    case None => ProfitRead(0.0, None)
    case Some(e) => if e.date == date then ProfitRead(e.value, rec) else ProfitRead(0.0, Some(ProfitEntry(date, 0.0)))
  }

  /** `getTodaysStockSaleProfit()`: the stored figure, whatever its day, or 0 when there is none. */
  function StoredProfit(rec: Option<ProfitEntry>): (value: real)
    ensures rec.None? ==> value == 0.0
    ensures rec.Some? ==> value == rec.value.value
  {
    match rec
    case None => 0.0
    case Some(e) => e.value
  }

  // ---------------------------------------------------------------------------------------
  // Properties of the two roll-overs

  /** Posting twice on one day posts the sum. */
  lemma {:induction false} LogAccumulates(rec: Option<ProfitEntry>, date: string, a: real, b: real)
    ensures LoggedProfit(LoggedProfit(rec, date, a), date, b) == LoggedProfit(rec, date, a + b)
  {
  }

  /** Posting on a day other than the stored one forgets the stored day. */
  lemma {:induction false} LogOnNewDayForgets(rec: Option<ProfitEntry>, date: string, value: real)
    requires rec.None? || rec.value.date != date
    ensures LoggedProfit(rec, date, value) == Some(ProfitEntry(date, value))
  {
  }

  /** After a post, reading the same day returns the stored figure and changes nothing. */
  lemma {:induction false} ReadAfterLog(rec: Option<ProfitEntry>, date: string, value: real)
    ensures var logged := LoggedProfit(rec, date, value);
            ProfitOn(logged, date) == ProfitRead(StoredProfit(logged), logged)
  {
  }

  /** A read that rolls the record over, followed by a post, is the post alone. */
  lemma {:induction false} RolloverThenLog(rec: Option<ProfitEntry>, date: string, value: real)
    requires rec.Some?
    ensures LoggedProfit(ProfitOn(rec, date).after, date, value) == LoggedProfit(rec, date, value)
  {
  }

  /** Reading twice on one day is reading once. */
  lemma {:induction false} ReadIsIdempotent(rec: Option<ProfitEntry>, date: string)
    ensures ProfitOn(ProfitOn(rec, date).after, date) == ProfitOn(rec, date)
  {
  }

  /** A read leaves the record absent or dated the day read, with the figure it returned. */
  lemma {:induction false} ReadLeavesDay(rec: Option<ProfitEntry>, date: string)
    ensures var read := ProfitOn(rec, date);
            read.after.None? || (read.after.value.date == date && read.after.value.value == read.value)
    ensures ProfitOn(rec, date).value == StoredProfit(ProfitOn(rec, date).after)
  {
  }

  /** A nonzero figure for a day can only come from a record of that day. */
  lemma {:induction false} NonzeroReadIsThatDay(rec: Option<ProfitEntry>, date: string)
    requires ProfitOn(rec, date).value != 0.0
    ensures rec.Some? && rec.value.date == date
  {
  }

  /** The worked example: a figure of 50 for May 1st reads as 0 on May 2nd and is reset. */
  lemma {:induction false} RolloverExample()
    ensures ProfitOn(Some(ProfitEntry("May 1st, 2024", 50.0)), "May 2nd, 2024")
              == ProfitRead(0.0, Some(ProfitEntry("May 2nd, 2024", 0.0)))
  {
    assert "May 1st, 2024"[4] != "May 2nd, 2024"[4];
  }
}
