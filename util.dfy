/**
 * The deterministic helpers of `Util`: day-of-month suffixes, the app's date format and the
 * normalisation of market dates into it, the 24-hour to 12-hour clock conversion, the unit
 * chosen for volumes and market caps, and the small read-modify-write operations on the
 * preferences store (cash balance, watchlist, date joined). The calendar is not read here:
 * today's month name, day and year are parameters.
 */
module Util {
  import opened Wrappers
  import opened JavaText
  import opened LotQueries
  import opened Database

  /** The cash balance of a new portfolio, and of one whose balance was never written. */
  const STARTING_VALUE: real := 15000.0

  /** What the date-joined preference reads as before it has been written. */
  const NOT_SET: string := "Date joined not set."

  // ---------------------------------------------------------------------------------------
  // Dates

  /** `getDayOfMonthSuffix`: "th" for 11 to 13, otherwise by the last digit (Java `%`). */
  function DayOfMonthSuffix(dayOfMonth: int): (suffix: string)
    ensures suffix in {"st", "nd", "rd", "th"}
  {
    if 11 <= dayOfMonth <= 13 then "th"
    else
      var last := JavaRem(dayOfMonth, 10);
      if last == 1 then "st" else if last == 2 then "nd" else if last == 3 then "rd" else "th"
  }

  /** The English ordinal suffix of `n`, decided by its last two digits. */
  function OrdinalSuffix(n: nat): string {
    if 11 <= n % 100 <= 13 then "th"
    else if n % 10 == 1 then "st" else if n % 10 == 2 then "nd" else if n % 10 == 3 then "rd" else "th"
  }

  /** `getTodaysDate`: "Month D<suffix>, YYYY" for the given calendar fields. */
  function TodaysDate(month: string, dayOfMonth: int, year: int): (date: string)
    ensures |date| > 0 && IsDigit(date[|date| - 1])
  {
    var y := IntToString(year);
    month + " " + IntToString(dayOfMonth) + DayOfMonthSuffix(dayOfMonth) + ", " + y
  }

  /**
   * `normalizeDate`: a date without the current year is taken to be a time of the current
   * trading day and becomes today's date; otherwise "Month D, YYYY" becomes
   * "Month D<suffix>, YYYY". A string of another shape throws.
   */
  function NormalizeDate(date: string, month: string, dayOfMonth: int, year: int): (r: Result<string>)
    ensures !Contains(date, IntToString(year)) ==> r == Ok(TodaysDate(month, dayOfMonth, year))
    ensures Contains(date, IntToString(year)) ==>
              var split := Split(date, ' ');
              (|split| < 3 ==> r == Thrown) &&
              (|split| >= 2 && IndexOf(split[1], ',') < 0 ==> r == Thrown) &&
              (|split| >= 2 && IndexOf(split[1], ',') >= 0 && ParseInt(split[1][..IndexOf(split[1], ',')]).None? ==>
                 r == Thrown)
  {
    if !Contains(date, IntToString(year)) then Ok(TodaysDate(month, dayOfMonth, year))
    else
      var split := Split(date, ' ');
      if |split| < 2 then Thrown
      else
        var piece := split[1];
        var comma := IndexOf(piece, ',');
        if comma < 0 then Thrown
        else
          match ParseInt(piece[..comma])
          case None => Thrown
          case Some(day) =>
            if |split| < 3 then Thrown
            else Ok(split[0] + " " + IntToString(day) + DayOfMonthSuffix(day) + ", " + split[2])
  }

  // ---------------------------------------------------------------------------------------
  // 24-hour to 12-hour clock

  /**
   * `convertMilitaryToStandard` as written: null stays null; "HH:MM" keeps its minutes and
   * marks "00" as 12 AM, every hour starting with 1 or 2 as PM (subtracting 12 above 12), and
   * every other hour as AM. A string without ':' or with a one-character hour throws.
   */
  function MilitaryToStandardAsWritten(time: Option<string>): (r: Result<Option<string>>)
    ensures time.None? ==> r == Ok(None)
  {
    match time
    case None => Ok(None)
    case Some(t) =>
      var split := Split(t, ':');
      if |split| < 2 then Thrown
      else
        var hour := split[0];
        var minutes := split[1];
        if |hour| < 2 then Thrown
        else if hour[..2] == "00" then Ok(Some("12" + ":" + minutes + " " + "AM"))
        else if hour[0] == '1' || hour[0] == '2' then
          match ParseInt(hour)
          case None => Thrown
          case Some(h) => Ok(Some((if h > 12 then IntToString(h - 12) else hour) + ":" + minutes + " " + "PM"))
        else Ok(Some(hour + ":" + minutes + " " + "AM"))
  }

  /** The conversion as evidently intended: the same steps, with PM from hour 12 on. */
  function MilitaryToStandard(time: Option<string>): (r: Result<Option<string>>)
    ensures time.None? ==> r == Ok(None)
  {
    match time
    case None => Ok(None)
    case Some(t) =>
      var split := Split(t, ':');
      if |split| < 2 then Thrown
      else
        var hour := split[0];
        var minutes := split[1];
        if |hour| < 2 then Thrown
        else if hour[..2] == "00" then Ok(Some("12" + ":" + minutes + " " + "AM"))
        else if hour[0] == '1' || hour[0] == '2' then
          match ParseInt(hour)
          case None => Thrown
          case Some(h) =>
            Ok(Some((if h > 12 then IntToString(h - 12) else hour) + ":" + minutes + " " + (if h >= 12 then "PM" else "AM")))
        else Ok(Some(hour + ":" + minutes + " " + "AM"))
  }

  /** The two-digit hour of a 24-hour clock reading. */
  function TwoDigitHour(h: nat): (s: string)
    requires h < 24
    ensures |s| == 2 && AllDigits(s)
  {
    if h < 10 then ['0', DigitChar(h)] else [DigitChar(h / 10), DigitChar(h % 10)]
  }

  /** The 12-hour reading of hour `h`: 12 for midnight and noon, AM before noon, PM from noon on. */
  function StandardClock(h: nat, minutes: string): string
    requires h < 24
  {
    var hour := if h == 0 then "12" else if h > 12 then IntToString(h - 12) else TwoDigitHour(h);
    hour + ":" + minutes + " " + (if h < 12 then "AM" else "PM")
  }

  // ---------------------------------------------------------------------------------------
  // Units of large numbers

  /** A formatted figure: the digits unchanged, or a mantissa with a unit letter. */
  datatype Abbreviated = Plain(text: string) | Scaled(mantissa: real, units: string)

  /** The divisor a unit letter stands for. */
  function UnitScale(units: string): real {
    if units == "K" then 1000.0
    else if units == "M" then 1000000.0
    else if units == "B" then 1000000000.0
    else if units == "T" then 1000000000000.0
    else 1.0
  }

  /** The rank of a unit letter, from none (0) up to trillions (4). */
  function UnitRank(f: Abbreviated): nat {
    if f.Plain? then 0
    else if f.units == "K" then 1 else if f.units == "M" then 2 else if f.units == "B" then 3 else 4
  }

  /**
   * `formatVolume`'s unit selection: below a thousand the number as it is; otherwise the
   * volume over the largest of a thousand, a million and a billion it reaches, with K, M or B.
   */
  function FormatVolume(volume: int): (f: Abbreviated)
    ensures f.Plain? <==> volume < 1000
    ensures f.Plain? ==> f.text == IntToString(volume)
    ensures f.Scaled? ==> f.units in {"K", "M", "B"} && f.mantissa * UnitScale(f.units) == volume as real
    ensures f.Scaled? ==> 1.0 <= f.mantissa && (f.units != "B" ==> f.mantissa < 1000.0)
  {
    if volume >= 1000000000 then Scaled(volume as real / 1000000000.0, "B")
    else if volume >= 1000000 then Scaled(volume as real / 1000000.0, "M")
    else if volume >= 1000 then Scaled(volume as real / 1000.0, "K")
    else Plain(IntToString(volume))
  }

  /**
   * `formatMarketCap`'s unit selection: the market cap over a trillion, a billion or a
   * million, the largest it reaches (a million below that), with T, B or M.
   */
  function FormatMarketCap(marketCap: real): (f: Abbreviated)
    ensures f.Scaled? && f.units in {"M", "B", "T"} && f.mantissa * UnitScale(f.units) == marketCap
    ensures f.units == "T" <==> marketCap >= 1000000000000.0
    ensures f.units != "T" ==> f.mantissa < 1000.0
    ensures f.units != "M" ==> 1.0 <= f.mantissa
  {
    if marketCap >= 1000000000000.0 then Scaled(marketCap / 1000000000000.0, "T")
    else if marketCap >= 1000000000.0 then Scaled(marketCap / 1000000000.0, "B")
    else Scaled(marketCap / 1000000.0, "M")
  }

  /** The watchlist after `updateWatchList(symbol)`: the symbol's membership flips. */
  function Toggled(watchlist: set<string>, symbol: string): (after: set<string>)
    ensures symbol in after <==> symbol !in watchlist
    ensures forall s :: s != symbol ==> (s in after <==> s in watchlist)
  {
    if symbol in watchlist then watchlist - {symbol} else watchlist + {symbol}
  }

  /** The date-joined preference after `setDateJoined` on `today`. */
  function JoinedAfter(stored: Option<string>, today: string): (after: Option<string>)
    ensures stored.GetOr(NOT_SET) == NOT_SET ==> after == Some(today)
    ensures stored.GetOr(NOT_SET) != NOT_SET ==> after == stored
  {
    if stored.GetOr(NOT_SET) == NOT_SET then Some(today) else stored
  }

  // ---------------------------------------------------------------------------------------
  // The preferences store

  /**
   * The shared preferences: the cash balance, the set of watched symbols and the date the
   * user joined, each absent until first written.
   */
  class Preferences {
    var cash: Option<real>
    var watchlist: set<string>
    var dateJoined: Option<string>

    /** A store where nothing was written yet. */
    constructor ()
      ensures cash == None && watchlist == {} && dateJoined == None
    {
      cash := None;
      watchlist := {};
      dateJoined := None;
    }

    /** The cash balance as read, with the starting value for a balance never written. */
    function Cash(): real
      reads this
    {
      cash.GetOr(STARTING_VALUE)
    }

    /** `getCashAvailable`. */
    method GetCashAvailable() returns (value: real)
      ensures cash.None? ==> value == STARTING_VALUE
      ensures cash.Some? ==> value == cash.value
    {
      value := STARTING_VALUE;
      if cash.Some? {
        value := cash.value;
      }
    }

    /** `getPortfolioValue`: cash plus the equity of every lot in the database. */
    method GetPortfolioValue(db: DatabaseHelper) returns (value: real)
      ensures value == Cash() + TotalEquity(db.stocks)
    {
      var cashValue := GetCashAvailable();
      value := cashValue + TotalEquity(db.stocks);
    }

    /** `updateCashAvailable`: add a positive or negative change to the balance. */
    method UpdateCashAvailable(change: real)
      modifies this
      ensures cash == Some(old(Cash()) + change)
      ensures watchlist == old(watchlist) && dateJoined == old(dateJoined)
    {
      var cashValue := GetCashAvailable();
      cash := Some(cashValue + change);
    }

    /** `resetCashAvailable`: write the starting value back. */
    method ResetCashAvailable()
      modifies this
      ensures cash == Some(STARTING_VALUE)
      ensures watchlist == old(watchlist) && dateJoined == old(dateJoined)
    {
      cash := Some(STARTING_VALUE);
    }

    /** `getWatchlist`. */
    method GetWatchlist() returns (symbols: set<string>)
      ensures symbols == watchlist
    {
      symbols := watchlist;
    }

    /** `clearWatchlist`: write an empty set. */
    method ClearWatchlist()
      modifies this
      ensures watchlist == {}
      ensures cash == old(cash) && dateJoined == old(dateJoined)
    {
      watchlist := {};
    }

    /** `updateWatchList`: copy the set, remove the symbol if present or add it, write it back. */
    method UpdateWatchList(symbol: string)
      modifies this
      ensures watchlist == Toggled(old(watchlist), symbol)
      ensures cash == old(cash) && dateJoined == old(dateJoined)
    {
      var copy := watchlist;
      if symbol in copy {
        copy := copy - {symbol};
      } else {
        copy := copy + {symbol};
      }
      watchlist := copy;
    }

    /** `currentlyOnWatchlist`. */
    method CurrentlyOnWatchlist(symbol: string) returns (on: bool)
      ensures on <==> symbol in watchlist
    {
      on := symbol in watchlist;
    }

    /** `setDateJoined`: write today's date only while the preference still reads as unset. */
    method SetDateJoined(month: string, dayOfMonth: int, year: int)
      modifies this
      ensures dateJoined == JoinedAfter(old(dateJoined), TodaysDate(month, dayOfMonth, year))
      ensures cash == old(cash) && watchlist == old(watchlist)
    {
      if dateJoined.GetOr(NOT_SET) == NOT_SET {
        dateJoined := Some(TodaysDate(month, dayOfMonth, year));
      }
    }

    /** `getDateJoined`: the stored date, or today's date while none was written. */
    method GetDateJoined(month: string, dayOfMonth: int, year: int) returns (date: string)
      ensures dateJoined.Some? ==> date == dateJoined.value
      ensures dateJoined.None? ==> date == TodaysDate(month, dayOfMonth, year)
    {
      date := dateJoined.GetOr(TodaysDate(month, dayOfMonth, year));
    }
  }

  // ---------------------------------------------------------------------------------------
  // Lemmas

  /** For every day the suffix is the English ordinal one (up to 110, where 111 would differ). */
  lemma {:induction false} SuffixIsOrdinal(dayOfMonth: int)
    requires 0 <= dayOfMonth <= 110
    ensures DayOfMonthSuffix(dayOfMonth) == OrdinalSuffix(dayOfMonth)
  {
  }

  /** The suffixes of the days of a month, by day. */
  lemma {:induction false} SuffixTable(dayOfMonth: int)
    requires 1 <= dayOfMonth <= 31
    ensures DayOfMonthSuffix(dayOfMonth) == "st" <==> dayOfMonth in {1, 21, 31}
    ensures DayOfMonthSuffix(dayOfMonth) == "nd" <==> dayOfMonth in {2, 22}
    ensures DayOfMonthSuffix(dayOfMonth) == "rd" <==> dayOfMonth in {3, 23}
  {
  }

  /** A date in today's format splits at its spaces into month, "D<suffix>," and year. */
  lemma {:induction false} TodaysDateFields(month: string, dayOfMonth: int, year: int)
    requires ' ' !in month
    ensures Split(TodaysDate(month, dayOfMonth, year), ' ')
              == [month, IntToString(dayOfMonth) + DayOfMonthSuffix(dayOfMonth) + ",", IntToString(year)]
  {
    var day := IntToString(dayOfMonth) + DayOfMonthSuffix(dayOfMonth) + ",";
    var y := IntToString(year);
    IntToStringHasNoSeparator(dayOfMonth, ' ');
    IntToStringHasNoSeparator(year, ' ');
    assert TodaysDate(month, dayOfMonth, year) == month + [' '] + day + [' '] + y;
    SplitOfThree(month, day, y, ' ');
  }

  /** A written-out date never reads as the unset marker, so the first `setDateJoined` sticks. */
  lemma {:induction false} TodaysDateIsSet(month: string, dayOfMonth: int, year: int)
    ensures TodaysDate(month, dayOfMonth, year) != NOT_SET
  {
    var date := TodaysDate(month, dayOfMonth, year);
    assert !IsDigit(NOT_SET[|NOT_SET| - 1]);
  }

  /** A market date "Month D, YYYY" of the current year normalises to today's format for that day. */
  lemma {:induction false} NormalizeMarketDate(month: string, dayOfMonth: int, year: int, todayMonth: string, today: int)
    requires ' ' !in month && INT_MIN <= dayOfMonth <= INT_MAX
    ensures NormalizeDate(month + " " + IntToString(dayOfMonth) + ", " + IntToString(year), todayMonth, today, year)
              == Ok(TodaysDate(month, dayOfMonth, year))
  {
    var d := IntToString(dayOfMonth);
    var y := IntToString(year);
    var date := month + " " + d + ", " + y;
    assert date == (month + " " + d + ", ") + y;
    ContainsSuffix(month + " " + d + ", ", y);
    IntToStringHasNoSeparator(dayOfMonth, ' ');
    IntToStringHasNoSeparator(dayOfMonth, ',');
    IntToStringHasNoSeparator(year, ' ');
    assert date == month + [' '] + (d + [',']) + [' '] + y;
    SplitOfThree(month, d + [','], y, ' ');
    var piece := d + [','];
    assert IndexOf(piece, ',') == |d|;
    assert piece[..|d|] == d;
    ParseIntOfIntToString(dayOfMonth);
  }

  /** The example of the source's comment: "September 18, 2020" becomes "September 18th, 2020". */
  lemma {:induction false} NormalizeExample(todayMonth: string, today: int)
    ensures NormalizeDate("September 18, 2020", todayMonth, today, 2020) == Ok("September 18th, 2020")
  {
    var d := IntToString(18);
    assert d == "18" by {
      assert NatToString(18) == NatToString(1) + [DigitChar(8)];
    }
    var y := IntToString(2020);
    assert y == "2020" by {
      assert NatToString(2020) == NatToString(202) + [DigitChar(0)];
      assert NatToString(202) == NatToString(20) + [DigitChar(2)];
      assert NatToString(20) == NatToString(2) + [DigitChar(0)];
    }
    assert DayOfMonthSuffix(18) == "th";
    assert "September 18, 2020" == "September" + " " + d + ", " + y;
    assert TodaysDate("September", 18, 2020) == "September 18th, 2020";
    NormalizeMarketDate("September", 18, 2020, todayMonth, today);
  }

  /** The fields `convertMilitaryToStandard` reads off a clock reading "HH:mm". */
  lemma {:induction false} ClockFields(h: nat, minutes: string)
    requires h < 24 && ':' !in minutes && minutes != ""
    ensures var hour := TwoDigitHour(h);
            Split(hour + ":" + minutes, ':') == [hour, minutes] &&
            (hour[..2] == "00" <==> h == 0) &&
            (hour[0] == '1' || hour[0] == '2' <==> h >= 10) &&
            (h >= 10 ==> ParseInt(hour) == Some(h) && hour == IntToString(h))
  {
    var hour := TwoDigitHour(h);
    assert ':' !in hour by { assert AllDigits(hour); }
    assert hour + ":" + minutes == hour + [':'] + minutes;
    SplitOfTwo(hour, minutes, ':');
    if h >= 10 {
      assert hour == NatToString(h);
      ParseIntOfIntToString(h);
    } else {
      assert hour[0] == '0';
      assert h != 0 ==> hour[1] != '0';
    }
  }

  /** The corrected conversion gives the 12-hour reading of every hour of the day. */
  lemma {:induction false} MilitaryToStandardIsClock(h: nat, minutes: string)
    requires h < 24 && ':' !in minutes && minutes != ""
    ensures MilitaryToStandard(Some(TwoDigitHour(h) + ":" + minutes)) == Ok(Some(StandardClock(h, minutes)))
  {
    ClockFields(h, minutes);
  }

  /** As written, the conversion agrees with the intended one on every hour but 10 and 11. */
  lemma {:induction false} AsWrittenAgreesOutsideTenAndEleven(h: nat, minutes: string)
    requires h < 24 && h != 10 && h != 11 && ':' !in minutes && minutes != ""
    ensures MilitaryToStandardAsWritten(Some(TwoDigitHour(h) + ":" + minutes))
              == MilitaryToStandard(Some(TwoDigitHour(h) + ":" + minutes))
  {
    ClockFields(h, minutes);
  }

  /** As written, 10 and 11 in the morning come out as PM. */
  lemma {:induction false} AsWrittenMarksMorningAsPM(h: nat, minutes: string)
    requires 10 <= h <= 11 && ':' !in minutes && minutes != ""
    ensures MilitaryToStandardAsWritten(Some(TwoDigitHour(h) + ":" + minutes))
              == Ok(Some(TwoDigitHour(h) + ":" + minutes + " PM"))
    ensures StandardClock(h, minutes) == TwoDigitHour(h) + ":" + minutes + " AM"
  {
    ClockFields(h, minutes);
    var hour := TwoDigitHour(h);
    assert hour + ":" + minutes + " " + "PM" == hour + ":" + minutes + " PM";
    assert hour + ":" + minutes + " " + "AM" == hour + ":" + minutes + " AM";
  }

  /** A larger volume never takes a smaller unit. */
  lemma {:induction false} VolumeUnitsAreMonotone(v: int, w: int)
    requires v <= w
    ensures UnitRank(FormatVolume(v)) <= UnitRank(FormatVolume(w))
  {
  }

  /** Toggling a symbol twice leaves the watchlist as it was. */
  lemma {:induction false} ToggleTwice(watchlist: set<string>, symbol: string)
    ensures Toggled(Toggled(watchlist, symbol), symbol) == watchlist
  {
  }

  /** A second `setDateJoined` changes nothing once a date is written. */
  lemma {:induction false} SetDateJoinedOnce(stored: Option<string>, first: string, second: string)
    requires first != NOT_SET
    ensures JoinedAfter(JoinedAfter(stored, first), second) == JoinedAfter(stored, first)
  {
  }
}
