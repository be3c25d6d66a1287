/** ISO-8601 rendering and reading of `Calendar.DateTime` values:
    `datetime.isoformat()` (no microseconds), `strftime("%Y-%m-%d %H:%M:%S")`,
    and the date-time parser the code calls (`parse_time`,
    `ciso8601.parse_datetime`, `dateutil.parser.parse`), modelled on the two
    forms the program itself produces: `YYYY-MM-DD` and
    `YYYY-MM-DDTHH:MM:SS`. */
module IsoTime {
  import opened Wrappers
  import opened Calendar
  import opened Strings

  function DatePart(d: Date): string {
    ZeroPadded(if d.year >= 0 then d.year else 0, 4) + "-"
      + ZeroPadded(if d.month >= 0 then d.month else 0, 2) + "-"
      + ZeroPadded(if d.day >= 0 then d.day else 0, 2)
  }

  function TimePart(t: DateTime): string {
    ZeroPadded(if t.hour >= 0 then t.hour else 0, 2) + ":"
      + ZeroPadded(if t.minute >= 0 then t.minute else 0, 2) + ":"
      + ZeroPadded(if t.second >= 0 then t.second else 0, 2)
  }

  /** `t.isoformat(sep)`; `sep` is `'T'` for `isoformat()` and `' '` for the
      `strftime("%Y-%m-%d %H:%M:%S")` display format. */
  function Format(t: DateTime, sep: char): (s: string)
    ensures ValidDateTime(t) ==> |s| == 19
    ensures ValidDateTime(t) ==>
              s[4] == '-' && s[7] == '-' && s[10] == sep && s[13] == ':' && s[16] == ':'
  {
    var s := DatePart(t.date) + [sep] + TimePart(t);
    if ValidDateTime(t) then FormatWidths(t); s else s
  }

  function IsoFormat(t: DateTime): string {
    Format(t, 'T')
  }

  lemma FormatWidths(t: DateTime)
    requires ValidDateTime(t)
    ensures |ZeroPadded(t.date.year, 4)| == 4
    ensures |ZeroPadded(t.date.month, 2)| == 2 && |ZeroPadded(t.date.day, 2)| == 2
    ensures |ZeroPadded(t.hour, 2)| == 2 && |ZeroPadded(t.minute, 2)| == 2
    ensures |ZeroPadded(t.second, 2)| == 2
  {
    assert Pow10(2) == 100 && Pow10(4) == 10000;
    ZeroPaddedWidth(t.date.year, 4);
    ZeroPaddedWidth(t.date.month, 2);
    ZeroPaddedWidth(t.date.day, 2);
    ZeroPaddedWidth(t.hour, 2);
    ZeroPaddedWidth(t.minute, 2);
    ZeroPaddedWidth(t.second, 2);
  }

  /** The decimal value of `s[i..j]`, if those characters are all digits. */
  function FieldAt(s: string, i: nat, j: nat): Option<nat>
    requires i <= j <= |s|
  {
    if AllDigits(s[i..j]) then Some(ParseDigits(s[i..j])) else None
  }

  /** Reads `YYYY-MM-DD` as midnight of that day and `YYYY-MM-DDxHH:MM:SS`
      (`x` being `'T'` or a space) as that instant; anything else, or fields
      that do not name a real instant, is a `ValueError`. */
  function Parse(s: string): (r: Result<DateTime>)
    ensures r.Ok? ==> ValidDateTime(r.value)
    ensures r.Ok? && |s| == 10 ==> IsMidnight(r.value)
  {
    if (|s| != 10 && |s| != 19) || s[4] != '-' || s[7] != '-' then
      Err(ValueError("unknown string format"))
    else
      var y := FieldAt(s, 0, 4);
      var m := FieldAt(s, 5, 7);
      var d := FieldAt(s, 8, 10);
      if y.None? || m.None? || d.None? then Err(ValueError("unknown string format"))
      else if !ValidDate(Date(y.value, m.value, d.value)) then
        Err(ValueError("day is out of range for month"))
      else if |s| == 10 then
        Ok(Midnight(Date(y.value, m.value, d.value)))
      else if (s[10] != 'T' && s[10] != ' ') || s[13] != ':' || s[16] != ':' then
        Err(ValueError("unknown string format"))
      else
        var hh := FieldAt(s, 11, 13);
        var mm := FieldAt(s, 14, 16);
        var ss := FieldAt(s, 17, 19);
        if hh.None? || mm.None? || ss.None? then Err(ValueError("unknown string format"))
        else
          var t := DateTime(Date(y.value, m.value, d.value), hh.value, mm.value, ss.value);
          if ValidDateTime(t) then Ok(t) else Err(ValueError("hour must be in 0..23"))
  }

  lemma FieldOfPadded(s: string, i: nat, p: string, n: nat, w: nat)
    requires i + w <= |s| && s[i..i + w] == p && p == ZeroPadded(n, w)
    ensures FieldAt(s, i, i + w) == Some(n)
  {
    ParseZeroPadded(n, w);
  }

  /** The three fields of `a x b y c`. */
  lemma Fields3(a: string, x: char, b: string, y: char, c: string)
    ensures var p := a + [x] + b + [y] + c;
            && p[..|a|] == a && p[|a| + 1..|a| + 1 + |b|] == b && p[|a| + |b| + 2..] == c
  {
    var p := a + [x] + b + [y] + c;
    assert p == a + ([x] + b + [y] + c);
  }

  lemma DatePartSlices(d: Date)
    requires ValidDate(d)
    ensures var p := DatePart(d);
            && |p| == 10 && p[0..4] == ZeroPadded(d.year, 4)
            && p[5..7] == ZeroPadded(d.month, 2) && p[8..10] == ZeroPadded(d.day, 2)
  {
    FormatWidths(Midnight(d));
    Fields3(ZeroPadded(d.year, 4), '-', ZeroPadded(d.month, 2), '-', ZeroPadded(d.day, 2));
  }

  lemma TimePartSlices(t: DateTime)
    requires ValidDateTime(t)
    ensures var p := TimePart(t);
            && |p| == 8 && p[0..2] == ZeroPadded(t.hour, 2)
            && p[3..5] == ZeroPadded(t.minute, 2) && p[6..8] == ZeroPadded(t.second, 2)
  {
    FormatWidths(t);
    Fields3(ZeroPadded(t.hour, 2), ':', ZeroPadded(t.minute, 2), ':', ZeroPadded(t.second, 2));
  }

  /** Where each field sits in a rendered instant. */
  lemma FormatSlices(t: DateTime, sep: char)
    requires ValidDateTime(t)
    ensures var s := Format(t, sep);
            && s[0..4] == ZeroPadded(t.date.year, 4) && s[5..7] == ZeroPadded(t.date.month, 2)
            && s[8..10] == ZeroPadded(t.date.day, 2) && s[11..13] == ZeroPadded(t.hour, 2)
            && s[14..16] == ZeroPadded(t.minute, 2) && s[17..19] == ZeroPadded(t.second, 2)
  {
    DatePartSlices(t.date);
    TimePartSlices(t);
    var s := Format(t, sep);
    var dp, tp := DatePart(t.date), TimePart(t);
    assert s[..10] == dp;
    assert s[11..] == tp;
    assert s[0..4] == dp[0..4];
    assert s[5..7] == dp[5..7];
    assert s[8..10] == dp[8..10];
    assert s[11..13] == tp[0..2];
    assert s[14..16] == tp[3..5];
    assert s[17..19] == tp[6..8];
  }

  /** Reading a rendered instant gives the instant back, whichever separator
      was used. */
  lemma ParseFormat(t: DateTime, sep: char)
    requires ValidDateTime(t)
    requires sep == 'T' || sep == ' '
    ensures Parse(Format(t, sep)) == Ok(t)
  {
    var s := Format(t, sep);
    FormatSlices(t, sep);
    FieldOfPadded(s, 0, ZeroPadded(t.date.year, 4), t.date.year, 4);
    FieldOfPadded(s, 5, ZeroPadded(t.date.month, 2), t.date.month, 2);
    FieldOfPadded(s, 8, ZeroPadded(t.date.day, 2), t.date.day, 2);
    FieldOfPadded(s, 11, ZeroPadded(t.hour, 2), t.hour, 2);
    FieldOfPadded(s, 14, ZeroPadded(t.minute, 2), t.minute, 2);
    FieldOfPadded(s, 17, ZeroPadded(t.second, 2), t.second, 2);
    ParseFields(s, t);
  }

  /** A 19-character string with the separators in place and fields that
      read as a valid instant is read as that instant. */
  lemma ParseFields(s: string, t: DateTime)
    requires |s| == 19 && s[4] == '-' && s[7] == '-' && (s[10] == 'T' || s[10] == ' ')
    requires s[13] == ':' && s[16] == ':'
    requires FieldAt(s, 0, 4) == Some(t.date.year) && FieldAt(s, 5, 7) == Some(t.date.month)
    requires FieldAt(s, 8, 10) == Some(t.date.day) && FieldAt(s, 11, 13) == Some(t.hour)
    requires FieldAt(s, 14, 16) == Some(t.minute) && FieldAt(s, 17, 19) == Some(t.second)
    requires ValidDateTime(t)
    ensures Parse(s) == Ok(t)
  {
  }

  /** Reading the date part alone gives midnight of that day. */
  lemma ParseDatePart(d: Date)
    requires ValidDate(d)
    ensures Parse(DatePart(d)) == Ok(Midnight(d))
  {
    var t := Midnight(d);
    FormatWidths(t);
    var s := DatePart(d);
    var y, mo, dd := ZeroPadded(d.year, 4), ZeroPadded(d.month, 2), ZeroPadded(d.day, 2);
    assert s == y + "-" + mo + "-" + dd;
    assert s[0..4] == y;
    assert s[5..7] == mo;
    assert s[8..10] == dd;
    FieldOfPadded(s, 0, y, d.year, 4);
    FieldOfPadded(s, 5, mo, d.month, 2);
    FieldOfPadded(s, 8, dd, d.day, 2);
  }

  lemma DigitsHaveNo(s: string, c: char)
    requires AllDigits(s) && !IsDigit(c)
    ensures c !in s
  {
  }

  /** A rendered instant never contains a character that is neither a digit
      nor one of its separators, so it can be delimited by `/`. */
  lemma FormatHasNoSlash(t: DateTime, sep: char)
    requires ValidDateTime(t) && sep != '/'
    ensures '/' !in Format(t, sep)
  {
    DigitsHaveNo(ZeroPadded(t.date.year, 4), '/');
    DigitsHaveNo(ZeroPadded(t.date.month, 2), '/');
    DigitsHaveNo(ZeroPadded(t.date.day, 2), '/');
    DigitsHaveNo(ZeroPadded(t.hour, 2), '/');
    DigitsHaveNo(ZeroPadded(t.minute, 2), '/');
    DigitsHaveNo(ZeroPadded(t.second, 2), '/');
  }
}
