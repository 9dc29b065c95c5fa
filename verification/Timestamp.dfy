/**
 The timestamp text of runtime metadata: printed in the form of section 5.6 of
 RFC 3339 and parsed back leniently.
 */
module Timestamp {
  import opened Prelude
  import opened Calendar
  import opened Text

  const SECS_PER_DAY: int := 86400

  /** The text of six fields. */
  function Render(d: Date, h: nat, mi: nat, s: nat): string
    requires d.year >= 0 && d.month >= 0 && d.day >= 0
  {
    Padded(d.year, 4) + ['-'] + Padded(d.month, 2) + ['-'] + Padded(d.day, 2) + ['T']
    + Padded(h, 2) + [':'] + Padded(mi, 2) + [':'] + Padded(s, 2) + ['Z']
  }

  /** `chrono_now_iso8601`, with the clock reading as parameter. */
  function Format(now: nat): string
    requires now < TWO_64
  {
    var rem := now % SECS_PER_DAY;
    DayRoundTrip(now / SECS_PER_DAY);
    Render(DaysToYmd(now / SECS_PER_DAY), rem / 3600, rem % 3600 / 60, rem % 60)
  }

  /** `filter_map(|p| p.parse().ok())`. */
  function ParsedOnly(parts: seq<string>): seq<nat> {
    if parts == [] then []
    else
      var rest := ParsedOnly(parts[1..]);
      match ParseUnsigned(parts[0], TWO_64)
      case Some(n) => [n] + rest
      case None => rest
  }

  /** `parse_iso8601_to_unix`. */
  function Parse(s: string): Option<nat> {
    var parts := Split(s, 'T');
    if |parts| != 2 then None
    else
      var date := ParsedOnly(Split(parts[0], '-'));
      var time := ParsedOnly(Split(TrimEnd(parts[1], 'Z'), ':'));
      if |date| != 3 || |time| != 3 then None
      else
        var days := YmdToDays(date[0], date[1], date[2]);
        Some(WrapU64(days * 86400 + time[0] * 3600 + time[1] * 60 + time[2]))
  }

  // ------------------------------------------------------------------

  /** Three numerals joined by a separator split and parse back to their numbers. */
  lemma ThreeFields(a: nat, wa: nat, b: nat, wb: nat, c: nat, wc: nat, sep: char)
    requires !IsDigit(sep) && a < TWO_64 && b < TWO_64 && c < TWO_64
    ensures var s := Padded(a, wa) + [sep] + Padded(b, wb) + [sep] + Padded(c, wc);
            ParsedOnly(Split(s, sep)) == [a, b, c]
  {
    var x, y, z := Padded(a, wa), Padded(b, wb), Padded(c, wc);
    var s := x + [sep] + y + [sep] + z;
    assert Split(s, sep) == [x, y, z] by {
      assert s == x + [sep] + (y + [sep] + z);
      SplitField(x, sep, y + [sep] + z);
      SplitField(y, sep, z);
      SplitLast(z, sep);
    }
    ParsePadded(a, wa, TWO_64);
    ParsePadded(b, wb, TWO_64);
    ParsePadded(c, wc, TWO_64);
    assert [z][1..] == [] && ParsedOnly([z]) == [c];
    assert [y, z][1..] == [z] && ParsedOnly([y, z]) == [b, c];
    assert [x, y, z][1..] == [y, z];
  }

  /** The date and the time of a rendered timestamp come apart again. */
  lemma SplitRender(date: string, time: string)
    requires 'T' !in date && 'T' !in time
    requires time != "" && IsDigit(time[|time| - 1])
    ensures Split(date + ['T'] + (time + ['Z']), 'T') == [date, time + ['Z']]
    ensures TrimEnd(time + ['Z'], 'Z') == time
  {
    SplitField(date, 'T', time + ['Z']);
    SplitLast(time + ['Z'], 'T');
    assert (time + ['Z'])[..|time|] == time;
  }

  lemma NoT(x: string, y: string, z: string, sep: char)
    requires AllDigits(x) && AllDigits(y) && AllDigits(z) && z != "" && sep != 'T'
    ensures var s := x + [sep] + y + [sep] + z;
            'T' !in s && IsDigit(s[|s| - 1])
  {
  }

  /** Parsing rendered fields reads the same six fields back. */
  lemma ParseRender(d: Date, h: nat, mi: nat, s: nat)
    requires 0 <= d.year < TWO_64 && 0 <= d.month < TWO_64 && 0 <= d.day < TWO_64
    requires h < TWO_64 && mi < TWO_64 && s < TWO_64
    ensures Parse(Render(d, h, mi, s)) ==
            Some(WrapU64(YmdToDays(d.year, d.month, d.day) * 86400 + h * 3600 + mi * 60 + s))
  {
    hide YmdToDays, Padded, ParsedOnly, Split, TrimEnd, WrapU64;
    var date := Padded(d.year, 4) + ['-'] + Padded(d.month, 2) + ['-'] + Padded(d.day, 2);
    var time := Padded(h, 2) + [':'] + Padded(mi, 2) + [':'] + Padded(s, 2);
    NoT(Padded(d.year, 4), Padded(d.month, 2), Padded(d.day, 2), '-');
    NoT(Padded(h, 2), Padded(mi, 2), Padded(s, 2), ':');
    assert Render(d, h, mi, s) == date + ['T'] + (time + ['Z']);
    SplitRender(date, time);
    ThreeFields(d.year, 4, d.month, 2, d.day, 2, '-');
    ThreeFields(h, 2, mi, 2, s, 2, ':');
  }

  lemma ClockFields(t: nat)
    ensures var rem := t % SECS_PER_DAY;
            t / SECS_PER_DAY * 86400 + rem / 3600 * 3600 + rem % 3600 / 60 * 60 + rem % 60 == t
  {
  }

  /** Every second the clock can report survives printing and parsing. */
  lemma ParseFormat(t: nat)
    requires t < TWO_64
    ensures Parse(Format(t)) == Some(t)
  {
    hide Parse, Render, DaysToYmd, YmdToDays;
    var days, rem := t / SECS_PER_DAY, t % SECS_PER_DAY;
    DayRoundTrip(days);
    ClockFields(t);
    ParseRender(DaysToYmd(days), rem / 3600, rem % 3600 / 60, rem % 60);
  }

  /**
   Every timestamp with a valid date from the epoch on and a valid time of day
   parses to the seconds the calendar gives it, and printing those seconds
   gives the text back.
   */
  lemma FormatParse(d: Date, h: nat, mi: nat, s: nat, t: nat)
    requires ValidDate(d) && !Before(d, EPOCH) && h < 24 && mi < 60 && s < 60
    requires t == DayNumber(d) * SECS_PER_DAY + h * 3600 + mi * 60 + s && t < TWO_64
    ensures DayNumber(d) >= 0 && CivilDate(DayNumber(d)) == d
    ensures Parse(Render(d, h, mi, s)) == Some(t)
    ensures Format(t) == Render(d, h, mi, s)
  {
    hide Parse, Render, DaysToYmd, YmdToDays, DayNumber;
    var n := DayNumber(d);
    CivilDateReaches(d);
    YearBounds(d);
    DateRoundTrip(d);
    DaysToYmdIsCivil(n);
    var rem := h * 3600 + mi * 60 + s;
    assert t / SECS_PER_DAY == n && t % SECS_PER_DAY == rem;
    assert rem / 3600 == h && rem % 3600 / 60 == mi && rem % 60 == s;
    ParseRender(d, h, mi, s);
  }

  /** Up to the year 9999 the text has the twenty characters and the field order of RFC 3339. */
  lemma RenderShape(d: Date, h: nat, mi: nat, s: nat)
    requires 0 <= d.year < 10000 && 0 <= d.month < 100 && 0 <= d.day < 100 && h < 100 && mi < 100 && s < 100
    ensures var x := Render(d, h, mi, s);
            && |x| == 20
            && AllDigits(x[0..4]) && AllDigits(x[5..7]) && AllDigits(x[8..10])
            && AllDigits(x[11..13]) && AllDigits(x[14..16]) && AllDigits(x[17..19])
            && x[4] == '-' && x[7] == '-' && x[10] == 'T' && x[13] == ':' && x[16] == ':' && x[19] == 'Z'
            && Value(x[0..4]) == d.year && Value(x[5..7]) == d.month && Value(x[8..10]) == d.day
            && Value(x[11..13]) == h && Value(x[14..16]) == mi && Value(x[17..19]) == s
  {
    hide Padded, Value, AllDigits;
    assert Pow10(4) == 10000 && Pow10(2) == 100;
    PaddedLength(d.year, 4);
    PaddedLength(d.month, 2);
    PaddedLength(d.day, 2);
    PaddedLength(h, 2);
    PaddedLength(mi, 2);
    PaddedLength(s, 2);
    var x := Render(d, h, mi, s);
    assert x[0..4] == Padded(d.year, 4);
    assert x[5..7] == Padded(d.month, 2);
    assert x[8..10] == Padded(d.day, 2);
    assert x[11..13] == Padded(h, 2);
    assert x[14..16] == Padded(mi, 2);
    assert x[17..19] == Padded(s, 2);
  }

  // ------------------------------------------------------------------
  // Every text there is
  // ------------------------------------------------------------------

  /** Filtering keeps the fields that spell a `u64`, in order, and drops the others. */
  lemma {:induction false} NumbersKept(before: seq<string>, field: string, after: seq<string>)
    ensures var kept := ParsedOnly(before + [field] + after);
            && (forall n: nat :: n < TWO_64 && Spells(field, n) ==> kept == ParsedOnly(before) + [n] + ParsedOnly(after))
            && ((forall n: nat :: n < TWO_64 ==> !Spells(field, n)) ==> kept == ParsedOnly(before) + ParsedOnly(after))
  {
    hide ParseUnsigned, Spells;
    var all := before + [field] + after;
    if before == [] {
      assert all[1..] == after;
      forall n: nat
        ensures ParseUnsigned(field, TWO_64) == Some(n) <==> n < TWO_64 && Spells(field, n)
      {
        ParseUnsignedMeans(field, TWO_64, n);
      }
    } else {
      assert all[1..] == before[1..] + [field] + after;
      NumbersKept(before[1..], field, after);
    }
  }

  /**
   What any text with one `T` parses to, from its fields: three numbers on each
   side, between any others that are no numbers, and any number of `Z` at the end.
   */
  lemma ParseMeans(date: seq<string>, time: seq<string>, zs: nat)
    requires date != [] && NoneHolds(date, '-') && NoneHolds(date, 'T')
    requires time != [] && NoneHolds(time, ':') && NoneHolds(time, 'T') && !EndsWith(time[|time| - 1], 'Z')
    ensures var d, t := ParsedOnly(date), ParsedOnly(time);
            Parse(Join(date, '-') + ['T'] + (Join(time, ':') + seq(zs, _ => 'Z'))) ==
            if |d| == 3 && |t| == 3
            then Some(WrapU64(YmdToDays(d[0], d[1], d[2]) * 86400 + t[0] * 3600 + t[1] * 60 + t[2]))
            else None
  {
    hide YmdToDays, ParsedOnly, Split, TrimEnd, Join, WrapU64, NoneHolds;
    var a, b := Join(date, '-'), Join(time, ':') + seq(zs, _ => 'Z');
    JoinHolds(date, '-', 'T');
    JoinHolds(time, ':', 'T');
    SplitField(a, 'T', b);
    SplitLast(b, 'T');
    JoinEnds(time, ':', 'Z');
    TrimAll(Join(time, ':'), 'Z', zs);
    SplitJoin(date, '-');
    SplitJoin(time, ':');
  }

  lemma TwoHalves(s: string) returns (a: string, b: string)
    requires multiset(s)['T'] == 1
    ensures s == a + ['T'] + b && 'T' !in a && 'T' !in b
  {
    hide Split;
    var parts := Split(s, 'T');
    SplitCount(s, 'T');
    SplitNoneHolds(s, 'T', 'T');
    JoinSplit(s, 'T');
    a, b := parts[0], parts[1];
  }

  /** Every text with one `T` has such fields. */
  lemma FieldsOf(s: string) returns (date: seq<string>, time: seq<string>, zs: nat)
    requires multiset(s)['T'] == 1
    ensures date != [] && NoneHolds(date, '-') && NoneHolds(date, 'T')
    ensures time != [] && NoneHolds(time, ':') && NoneHolds(time, 'T') && !EndsWith(time[|time| - 1], 'Z')
    ensures s == Join(date, '-') + ['T'] + (Join(time, ':') + seq(zs, _ => 'Z'))
  {
    hide Split, TrimEnd, NoneHolds, Join;
    var a, b := TwoHalves(s);
    zs := TrimmedOff(b, 'Z');
    var rest := TrimEnd(b, 'Z');
    date, time := Split(a, '-'), Split(rest, ':');
    SplitNoneHolds(a, '-', '-');
    SplitNoneHolds(a, '-', 'T');
    SplitNoneHolds(rest, ':', ':');
    SplitNoneHolds(rest, ':', 'T');
    SplitEnds(rest, ':', 'Z');
    JoinSplit(a, '-');
    JoinSplit(rest, ':');
  }

  /** A text with no `T` or with several does not parse. */
  lemma ParseNeedsOneT(s: string)
    ensures multiset(s)['T'] != 1 ==> Parse(s) == None
  {
    SplitCount(s, 'T');
  }
}
