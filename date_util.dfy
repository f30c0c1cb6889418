/** `YYYY-MM-DD` day strings read and written in local time (`parseLocalDate`,
    `getTodayLocal`). */
module DateUtil {
  import opened Wrappers
  import opened Text
  import opened Calendar

  /** `s.padStart(2, '0')`. */
  function PadStart2(s: string): (r: string)
    ensures |s| >= 2 ==> r == s
    ensures |s| < 2 ==> |r| == 2 && r[2 - |s|..] == s && (|s| == 0 ==> r[0] == '0') && r[0] == '0'
  {
    if |s| >= 2 then s else if |s| == 1 then "0" + s else "00"
  }

  /** The day string `getTodayLocal` writes for year `y`, 1-based month `m` and day `d`:
      the year as `String` writes it, then month and day padded to two digits. */
  function FormatLocalDate(y: int, m: int, d: int): string {
    IntToString(y) + "-" + PadStart2(IntToString(m)) + "-" + PadStart2(IntToString(d))
  }

  /** `getTodayLocal()` when the clock reads the local time value `now`. */
  function TodayLocal(now: int): string {
    var n := DayOfTime(now);
    FormatLocalDate(YearOf(n), MonthOf(n) + 1, DateOf(n))
  }

  /** `s.split([sep])`: the pieces between separators, as many as separators plus one. */
  function Split(s: string, sep: char): (parts: seq<string>)
    ensures |parts| >= 1
    ensures forall i | 0 <= i < |parts| :: sep !in parts[i]
    decreases |s|
  {
    if sep !in s then [s]
    else
      var i := FirstIndex(s, sep);
      [s[..i]] + Split(s[i + 1..], sep)
  }

  function FirstIndex(s: string, c: char): (i: nat)
    requires c in s
    ensures i < |s| && s[i] == c && c !in s[..i]
  {
    if s[0] == c then 0 else
      assert c in s[1..] by {
        var k :| 0 <= k < |s| && s[k] == c;
        assert s[1..][k - 1] == c;
      }
      var j := FirstIndex(s[1..], c);
      assert s[..j + 1] == [s[0]] + s[1..][..j];
      1 + j
  }

  lemma SplitPiece(a: string, sep: char, b: string)
    requires sep !in a
    ensures Split(a + [sep] + b, sep) == [a] + Split(b, sep)
  {
    var s := a + [sep] + b;
    assert s[|a|] == sep;
    var i := FirstIndex(s, sep);
    assert s[..|a|] == a && s[|a| + 1..] == b;
  }

  /** `Number(s)` for a piece of a day string: surrounding white space is ignored, an empty
      piece reads as 0, and digits read as their value; None stands for NaN. */
  function NumberOf(s: string): (r: Option<int>)
    ensures AllDigits(s) && s != [] ==> r == Some(DigitsValue(s))
    ensures AllWhiteSpace(s) ==> r == Some(0)
    ensures r.Some? ==> r.value >= 0
  {
    var t := Trim(s);
    if AllDigits(s) && s != [] then
      DigitsTrimmed(s);
      Some(DigitsValue(t))
    else if t == [] then Some(0)
    else if AllDigits(t) then Some(DigitsValue(t))
    else None
  }

  lemma DigitsTrimmed(s: string)
    requires AllDigits(s) && s != []
    ensures Trim(s) == s
  {
    assert TrimStart(s) == s;
    assert TrimEnd(s) == s;
  }

  /** The year, 1-based month and day `parseLocalDate` reads: None when one of the three is
      missing or is not a number. */
  function ParseFields(s: string): (r: Option<(int, int, int)>)
    ensures r.Some? ==> |Split(s, '-')| >= 3
  {
    var parts := Split(s, '-');
    if |parts| < 3 then None
    else
      match (NumberOf(parts[0]), NumberOf(parts[1]), NumberOf(parts[2]))
      case (Some(y), Some(m), Some(d)) => Some((y, m, d))
      case _ => None
  }

  /** `parseLocalDate(s).getTime()`: local midnight of the fields read from `s`, with the month
      made 0-based and the `Date` constructor's rules applied (a year 0 to 99 means 19xx, and
      out-of-range months and days carry over). None stands for an invalid date. */
  function ParseLocalDate(s: string): (r: Option<int>)
    ensures r.Some? <==> ParseFields(s).Some?
    ensures r.Some? ==> TimeWithinDay(r.value) == 0
  {
    match ParseFields(s)
    case Some((y, m, d)) =>
      DayOfMakeDate(MakeDay(FullYear(y), m - 1, d), 0);
      Some(MakeDate(MakeDay(FullYear(y), m - 1, d), MakeTime(0, 0, 0, 0)))
    case None => None
  }

  lemma PaddedDigits(n: nat)
    ensures AllDigits(PadStart2(NatToString(n)))
    ensures '-' !in PadStart2(NatToString(n))
    ensures DigitsValue(PadStart2(NatToString(n))) == n
  {
    var s := NatToString(n);
    NatToStringRoundTrip(n);
    if |s| == 1 {
      var p := PadStart2(s);
      assert p == "0" + s;
      assert p[..1] == "0";
    }
  }

  /** Reading the fields of a formatted day gives back the numbers it was written from. */
  lemma ParseFormattedFields(y: nat, m: nat, d: nat)
    ensures ParseFields(FormatLocalDate(y, m, d)) == Some((y, m, d))
  {
    var ys, ms, ds := NatToString(y), PadStart2(NatToString(m)), PadStart2(NatToString(d));
    NatToStringRoundTrip(y);
    PaddedDigits(m);
    PaddedDigits(d);
    assert FormatLocalDate(y, m, d) == ys + "-" + ms + "-" + ds;
    SplitFormatted(ys, ms, ds);
    ParseFieldsOf(ys + "-" + ms + "-" + ds, ys, ms, ds);
  }

  lemma ParseFieldsOf(s: string, ys: string, ms: string, ds: string)
    requires Split(s, '-') == [ys, ms, ds]
    requires AllDigits(ys) && AllDigits(ms) && AllDigits(ds) && ys != [] && ms != [] && ds != []
    ensures ParseFields(s) == Some((DigitsValue(ys), DigitsValue(ms), DigitsValue(ds)))
  {
  }

  lemma SplitFormatted(ys: string, ms: string, ds: string)
    requires AllDigits(ys) && '-' !in ms && '-' !in ds
    ensures Split(ys + "-" + ms + "-" + ds, '-') == [ys, ms, ds]
  {
    assert '-' !in ys;
    assert ys + "-" + ms + "-" + ds == ys + ['-'] + (ms + ['-'] + ds);
    SplitPiece(ys, '-', ms + ['-'] + ds);
    SplitPiece(ms, '-', ds);
  }

  /** The round trip of `getTodayLocal` and `parseLocalDate`: for a year from 100 on and a
      valid month and day, parsing the formatted string gives local midnight of that very day. */
  lemma FormatThenParse(y: int, m: int, d: int)
    requires y >= 100 && 1 <= m <= 12 && 1 <= d <= DaysInMonth(y, m - 1)
    ensures ParseLocalDate(FormatLocalDate(y, m, d)) == Some(MakeDate(MakeDay(y, m - 1, d), 0))
    ensures var n := DayOfTime(ParseLocalDate(FormatLocalDate(y, m, d)).value);
      YearOf(n) == y && MonthOf(n) + 1 == m && DateOf(n) == d
  {
    ParseFormattedFields(y, m, d);
    MakeDayFields(y, m - 1, d);
    DayOfMakeDate(MakeDay(y, m - 1, d), 0);
  }

  /** Today's string, read back, is midnight of today (for years from 100 on). */
  lemma TodayParsesToToday(now: int)
    requires YearOf(DayOfTime(now)) >= 100
    ensures ParseLocalDate(TodayLocal(now)) == Some(MakeDate(DayOfTime(now), 0))
  {
    var n := DayOfTime(now);
    var y, m, d := YearOf(n), MonthOf(n) + 1, DateOf(n);
    assert TodayLocal(now) == FormatLocalDate(y, m, d);
    FieldsRebuildDay(n);
    assert MakeDay(y, m - 1, d) == n;
    FormatThenParse(y, m, d);
  }

  /** With a four-digit year and a month and day below 100 the string is `YYYY-MM-DD`. */
  lemma FormatShape(y: int, m: int, d: int)
    requires 1000 <= y <= 9999 && 1 <= m <= 12 && 1 <= d <= 31
    ensures |FormatLocalDate(y, m, d)| == 10
    ensures FormatLocalDate(y, m, d)[4] == '-' && FormatLocalDate(y, m, d)[7] == '-'
  {
    assert Pow10(3) == 1000 && Pow10(4) == 10000;
    NatToStringLength(y, 3);
    if m >= 10 {
      assert Pow10(1) == 10 && Pow10(2) == 100;
      NatToStringLength(m, 1);
    }
    if d >= 10 {
      assert Pow10(1) == 10 && Pow10(2) == 100;
      NatToStringLength(d, 1);
    }
  }
}
