/** Which rows make which column of a bar, by their field names and times. */
module BarFields {
  import opened Wrappers
  import opened Clock
  import opened Sequences
  import opened Records
  import opened BarBuilding
  import Resolver
  import Text
  import F = FactorBacktest

  /** A row of the instrument and time whose field is the column's, with the frequency's prefix or bare. */
  predicate Fills(r: PITRow, prefix: string, i: string, t: Time, column: string) {
    r.instrumentId == i && r.eventTime == t && r.value.Some? && (r.field == prefix + "." + column || r.field == column)
  }

  /** The value of the last such row. */
  function LastFilled(rows: seq<PITRow>, prefix: string, i: string, t: Time, column: string): Option<real> {
    if rows == [] then None
    else if Fills(rows[|rows| - 1], prefix, i, t, column) then rows[|rows| - 1].value
    else LastFilled(rows[..|rows| - 1], prefix, i, t, column)
  }

  lemma {:induction false} BareName(field: string, prefix: string, column: string)
    requires '.' !in column
    ensures Text.RemovePrefix(field, prefix + ".") == column <==> field == prefix + "." + column || field == column
  {
    var p := prefix + ".";
    assert p[|prefix|] == '.';
    if p <= field {
      assert field == p + field[|p|..];
      assert (p + column)[|p|..] == column;
      assert field[|prefix|] == '.';
      assert field[|prefix|] in field;
    }
  }

  /** The columns and their names. */
  predicate Names(f: BarField, column: string) {
    || (f == Open && column == "open") || (f == High && column == "high") || (f == Low && column == "low")
    || (f == Close && column == "close") || (f == Volume && column == "volume")
  }

  lemma {:induction false} FieldOfIff(field: string, prefix: string, f: BarField, column: string)
    requires Names(f, column)
    ensures FieldOf(field, prefix) == Some(f) <==> field == prefix + "." + column || field == column
  {
    assert "open"[0] != "high"[0] && "open"[0] != "low"[0] && "open"[0] != "close"[0] && "open"[0] != "volume"[0];
    assert "high"[0] != "low"[0] && "high"[0] != "close"[0] && "high"[0] != "volume"[0];
    assert "low"[0] != "close"[0] && "low"[0] != "volume"[0] && "close"[0] != "volume"[0];
    BareName(field, prefix, column);
  }

  lemma {:induction false} LastFilledIs(rows: seq<PITRow>, prefix: string, i: string, t: Time, f: BarField, column: string)
    requires Names(f, column)
    ensures LastField(rows, prefix, Slot(i, t), f) == LastFilled(rows, prefix, i, t, column)
  {
    if rows != [] {
      FieldOfIff(rows[|rows| - 1].field, prefix, f, column);
      LastFilledIs(rows[..|rows| - 1], prefix, i, t, f, column);
    }
  }

  /** There is a bar iff some row gives a close; a column no row gives takes the close, the volume zero. */
  lemma {:induction false} BarFromRows(rows: seq<PITRow>, prefix: string, i: string, t: Time)
    ensures var close := LastFilled(rows, prefix, i, t, "close");
            var bar := BarAt(rows, prefix, Slot(i, t));
            && (bar.Some? <==> close.Some?)
            && (bar.Some? ==>
                  && bar.value.timestamp == t && bar.value.close == close.value
                  && bar.value.open == Otherwise(LastFilled(rows, prefix, i, t, "open"), close.value)
                  && bar.value.high == Otherwise(LastFilled(rows, prefix, i, t, "high"), close.value)
                  && bar.value.low == Otherwise(LastFilled(rows, prefix, i, t, "low"), close.value)
                  && bar.value.volume == Otherwise(LastFilled(rows, prefix, i, t, "volume"), 0.0)
                  && bar.value.extra == map[] && bar.value.tradingDate == None)
  {
    LastFilledIs(rows, prefix, i, t, Close, "close");
    LastFilledIs(rows, prefix, i, t, Open, "open");
    LastFilledIs(rows, prefix, i, t, High, "high");
    LastFilledIs(rows, prefix, i, t, Low, "low");
    LastFilledIs(rows, prefix, i, t, Volume, "volume");
  }

  function Otherwise(o: Option<real>, d: real): real {
    if o.Some? then o.value else d
  }

  /** A backtest reads the rows from the start of its first day to the end of its last. */
  lemma {:induction false} WindowByTime(q: F.Request, rows: seq<PITRow>, r: PITRow)
    ensures r in F.WindowRows(q, rows) <==>
              && r in rows
              && (q.start.Some? ==> q.start.value * 86_400_000_000 <= r.eventTime)
              && (q.end.Some? ==> r.eventTime < (q.end.value + 1) * 86_400_000_000)
  {
    DayAndMinute(r.eventTime);
  }

  lemma {:induction false} FilledIff(rows: seq<PITRow>, prefix: string, i: string, t: Time, column: string)
    ensures LastFilled(rows, prefix, i, t, column).Some? <==> exists r :: r in rows && Fills(r, prefix, i, t, column)
  {
    if rows != [] {
      SplitLast(rows);
      FilledIff(rows[..|rows| - 1], prefix, i, t, column);
    }
  }

  /** A row gives a close of the instrument at the time, under the given name or the bare one. */
  predicate GivesClose(r: PITRow, i: string, t: Time, name: string) {
    r.instrumentId == i && r.eventTime == t && r.value.Some? && (r.field == name || r.field == "close")
  }

  /** A daily backtest has a bar exactly where a row of its window gives an end-of-day close, a five-minute one
      exactly where a row gives a minute close. */
  lemma {:induction false} BarsOfFrequency(q: F.Request, rows: seq<PITRow>, i: string, t: Time, name: string)
    requires (q.frequency == F.Daily && name == "market.eod.close") || (q.frequency == F.FiveMinute && name == "market.minute.close")
    ensures BarAt(F.WindowRows(q, rows), F.Prefix(q.frequency), Slot(i, t)).Some?
            <==> exists r :: r in F.WindowRows(q, rows) && GivesClose(r, i, t, name)
  {
    var prefix := F.Prefix(q.frequency);
    assert prefix + "." + "close" == name;
    BarFromRows(F.WindowRows(q, rows), prefix, i, t);
    FilledIff(F.WindowRows(q, rows), prefix, i, t, "close");
    forall r: PITRow ensures Fills(r, prefix, i, t, "close") <==> GivesClose(r, i, t, name) {
    }
  }

  /** A bar built from rows is rejected iff a price or the volume is negative, or the high is below the low. */
  lemma {:induction false} RejectedIff(b: Resolver.Bar)
    requires b.tradingDate.None?
    ensures !b.Valid() <==> b.open < 0.0 || b.high < 0.0 || b.low < 0.0 || b.close < 0.0 || b.volume < 0.0 || b.high < b.low
  {
  }
}
