/**
 * Subtitle timestamps. A time in seconds is split the way the Python code
 * does it with float floor division, floored modulo and `int()`:
 *
 *   hours = int(t // 3600), minutes = int((t % 3600) // 60),
 *   secs = int(t % 60), fraction = int((t % 1) * units)
 *
 * with 100 units per second for ASS (`H:MM:SS.cc`) and 1000 for SubRip
 * (`HH:MM:SS,mmm`). Times are exact reals here, so the fraction is the
 * exact truncation rather than the float one.
 */
module TimeFormat {
  import opened Wrappers
  import opened Text

  /** Python `int(x)` on a float: truncation toward zero. */
  function Trunc(x: real): (r: int)
    ensures x >= 0.0 ==> r as real <= x < r as real + 1.0
    ensures x < 0.0 ==> r as real - 1.0 < x <= r as real
  {
    if x >= 0.0 then x.Floor else -((-x).Floor)
  }

  /** Python float `x // d`. */
  function FloorDiv(x: real, d: real): real
    requires d != 0.0
  {
    (x / d).Floor as real
  }

  /** Python float `x % d`: the remainder takes the sign of `d`. */
  function FloorMod(x: real, d: real): real
    requires d != 0.0
  {
    x - d * FloorDiv(x, d)
  }

  /** The four numeric fields of a timestamp. */
  datatype Clock = Clock(hours: int, minutes: int, seconds: int, fraction: int)

  /** `int(t // 3600)` */
  function Hours(t: real): int {
    Trunc(FloorDiv(t, 3600.0))
  }

  /** `int((t % 3600) // 60)` */
  function Minutes(t: real): int {
    Trunc(FloorDiv(FloorMod(t, 3600.0), 60.0))
  }

  /** `int(t % 60)` */
  function Seconds(t: real): int {
    Trunc(FloorMod(t, 60.0))
  }

  /** `int((t % 1) * units)` */
  function Fraction(t: real, unitsPerSecond: nat): int {
    Trunc(FloorMod(t, 1.0) * unitsPerSecond as real)
  }

  /** The fields of `t`, the fraction counted in `unitsPerSecond`. */
  function ClockOf(t: real, unitsPerSecond: nat): Clock {
    Clock(Hours(t), Minutes(t), Seconds(t), Fraction(t, unitsPerSecond))
  }

  lemma FloorShift(x: real, n: int)
    ensures (x - n as real).Floor == x.Floor - n
  {
  }

  lemma FloorQuotient(x: real, d: int)
    requires d > 0
    ensures (x / d as real).Floor == x.Floor / d
  {
    var f := x.Floor;
    var q := f / d;
    var y := x / d as real;
    assert y * d as real == x;
    assert (q * d) as real <= f as real <= x;
    assert x < (f + 1) as real <= (q * d + d) as real;
    assert (q * d) as real == q as real * d as real;
    assert (q * d + d) as real == (q + 1) as real * d as real;
    assert q as real <= y;
    assert y < (q + 1) as real;
  }

  lemma IntegerDigits(f: int)
    ensures 3600 * (f / 3600) + 60 * ((f % 3600) / 60) + f % 60 == f
    ensures 0 <= (f % 3600) / 60 < 60
  {
    var a := f / 3600;
    var b := f % 3600;
    var m := b / 60;
    var e := b % 60;
    assert f == 3600 * a + 60 * m + e;
    assert f == 60 * (60 * a + m) + e;
    assert f % 60 == e;
  }

  lemma HoursField(t: real)
    ensures Hours(t) == t.Floor / 3600
  {
    FloorQuotient(t, 3600);
  }

  lemma MinutesField(t: real)
    ensures Minutes(t) == (t.Floor % 3600) / 60
  {
    var f := t.Floor;
    var h := f / 3600;
    FloorQuotient(t, 3600);
    assert FloorMod(t, 3600.0) == t - (3600 * h) as real;
    FloorShift(t, 3600 * h);
    FloorQuotient(t - (3600 * h) as real, 60);
  }

  lemma SecondsField(t: real)
    ensures Seconds(t) == t.Floor % 60
  {
    var f := t.Floor;
    FloorQuotient(t, 60);
    assert FloorMod(t, 60.0) == t - (60 * (f / 60)) as real;
    FloorShift(t, 60 * (f / 60));
  }

  lemma FloorModOne(t: real)
    ensures FloorMod(t, 1.0) == t - t.Floor as real
  {
    assert t / 1.0 == t;
  }

  /** The sub-second part of `t`, and the whole units it holds when counted in hundredths. */
  lemma Centiseconds(t: real)
    ensures Fraction(t, 100) == (t * 100.0).Floor - 100 * t.Floor
  {
    FloorModOne(t);
    var y := FloorMod(t, 1.0) * 100.0;
    assert y == t * 100.0 - (100 * t.Floor) as real;
    FloorShift(t * 100.0, 100 * t.Floor);
    assert Trunc(y) == y.Floor;
  }

  /** The same in thousandths. */
  lemma Milliseconds(t: real)
    ensures Fraction(t, 1000) == (t * 1000.0).Floor - 1000 * t.Floor
  {
    FloorModOne(t);
    var y := FloorMod(t, 1.0) * 1000.0;
    assert y == t * 1000.0 - (1000 * t.Floor) as real;
    FloorShift(t * 1000.0, 1000 * t.Floor);
    assert Trunc(y) == y.Floor;
  }

  lemma FractionField(t: real, u: nat)
    requires u == 100 || u == 1000
    ensures Fraction(t, u) == (t * u as real).Floor - u * t.Floor
    ensures 0 <= Fraction(t, u) < u
  {
    if u == 100 {
      Centiseconds(t);
    } else {
      Milliseconds(t);
    }
  }

  /**
   * Minutes and seconds lie in 0..59 and the fraction in 0..units-1; the
   * whole fields add up to the whole seconds of `t` and the fraction is the
   * truncated sub-second part, so `ClockOf` loses exactly what lies below
   * one unit. This holds for negative times too (only `hours` goes negative).
   */
  lemma ClockOfDecomposes(t: real, unitsPerSecond: nat)
    requires unitsPerSecond == 100 || unitsPerSecond == 1000
    ensures var c := ClockOf(t, unitsPerSecond);
      && 0 <= c.minutes < 60 && 0 <= c.seconds < 60 && 0 <= c.fraction < unitsPerSecond
      && 3600 * c.hours + 60 * c.minutes + c.seconds == t.Floor
      && c.fraction == (t * unitsPerSecond as real).Floor - unitsPerSecond * t.Floor
  {
    HoursField(t);
    MinutesField(t);
    SecondsField(t);
    FractionField(t, unitsPerSecond);
    IntegerDigits(t.Floor);
  }

  /** `H:MM:SS<sep>F`: hours and fraction zero-padded to the given widths, minutes and seconds to two. */
  function FormatClock(c: Clock, hourWidth: nat, fracSep: char, fracWidth: nat): string {
    FormatInt(c.hours, hourWidth) + ":" + FormatInt(c.minutes, 2) + ":" + FormatInt(c.seconds, 2)
      + [fracSep] + FormatInt(c.fraction, fracWidth)
  }

  /** A clock read as a count of units. */
  function ClockUnits(c: Clock, unitsPerSecond: int): int {
    ((c.hours * 60 + c.minutes) * 60 + c.seconds) * unitsPerSecond + c.fraction
  }

  /** ASS `H:MM:SS.cc`: hours unpadded, the other fields two digits. */
  function SecondsToAssTime(t: real): string {
    FormatClock(ClockOf(t, 100), 0, '.', 2)
  }

  /** SubRip `HH:MM:SS,mmm`: hours padded to two digits, milliseconds to three. */
  function SecondsToSrtTime(t: real): string {
    FormatClock(ClockOf(t, 1000), 2, ',', 3)
  }

  /**
   * Reads a timestamp back as a whole number of units:
   * `H:M:S<fracSep>F` means `((H * 60 + M) * 60 + S) * units + F`.
   */
  function ParseTimestamp(s: string, fracSep: char, unitsPerSecond: int): Option<int> {
    var parts := Split(s, ':');
    if |parts| != 3 then None
    else
      var last := Split(parts[2], fracSep);
      if |last| != 2 then None
      else
        match (ParseInt(parts[0]), ParseInt(parts[1]), ParseInt(last[0]), ParseInt(last[1]))
        case (Some(h), Some(m), Some(sec), Some(f)) => Some(ClockUnits(Clock(h, m, sec, f), unitsPerSecond))
        case _ => None
  }

  lemma SplitFields(hs: string, ms: string, tail: string)
    requires ':' !in hs && ':' !in ms && ':' !in tail
    ensures Split(hs + ":" + ms + ":" + tail, ':') == [hs, ms, tail]
  {
    Join3(hs, ms, tail, ":");
    SplitJoin([hs, ms, tail], ':');
  }

  lemma SplitFraction(ss: string, fs: string, fracSep: char)
    requires fracSep !in ss && fracSep !in fs
    ensures Split(ss + [fracSep] + fs, fracSep) == [ss, fs]
  {
    assert Join([ss, fs], [fracSep]) == ss + [fracSep] + fs;
    SplitJoin([ss, fs], fracSep);
  }

  lemma SplitTimestamp(hs: string, ms: string, ss: string, fs: string, fracSep: char)
    requires ':' !in hs && ':' !in ms && ':' !in ss && ':' !in fs && fracSep !in ss && fracSep !in fs
    requires fracSep != ':'
    ensures var parts := Split(hs + ":" + ms + ":" + ss + [fracSep] + fs, ':');
      parts == [hs, ms, ss + [fracSep] + fs] && Split(parts[2], fracSep) == [ss, fs]
  {
    var tail := ss + [fracSep] + fs;
    assert ':' !in tail;
    assert hs + ":" + ms + ":" + ss + [fracSep] + fs == hs + ":" + ms + ":" + tail;
    SplitFields(hs, ms, tail);
    SplitFraction(ss, fs, fracSep);
  }

  lemma TimestampRoundTrip(c: Clock, hourWidth: nat, fracSep: char, fracWidth: nat, unitsPerSecond: int)
    requires fracSep != ':' && !IsDigit(fracSep) && fracSep != '-'
    ensures ParseTimestamp(FormatClock(c, hourWidth, fracSep, fracWidth), fracSep, unitsPerSecond) ==
      Some(ClockUnits(c, unitsPerSecond))
  {
    var hs, ms, ss, fs := FormatInt(c.hours, hourWidth), FormatInt(c.minutes, 2), FormatInt(c.seconds, 2),
      FormatInt(c.fraction, fracWidth);
    CleanField(c.hours, hourWidth, fracSep);
    CleanField(c.minutes, 2, fracSep);
    CleanField(c.seconds, 2, fracSep);
    CleanField(c.fraction, fracWidth, fracSep);
    ParseFields(hs, ms, ss, fs, fracSep, unitsPerSecond, c);
  }

  /** A field of a timestamp: free of both separators and read back as `n`. */
  predicate ReadsAs(field: string, n: int, fracSep: char) {
    ':' !in field && fracSep !in field && ParseInt(field) == Some(n)
  }

  /** A formatted field holds neither separator and reads back as its value. */
  lemma CleanField(n: int, width: nat, fracSep: char)
    requires fracSep != ':' && !IsDigit(fracSep) && fracSep != '-'
    ensures ReadsAs(FormatInt(n, width), n, fracSep)
  {
    FormatIntHasNo(n, width, ':');
    FormatIntHasNo(n, width, fracSep);
    FormatIntRoundTrip(n, width);
  }

  lemma ParseFields(hs: string, ms: string, ss: string, fs: string, fracSep: char, unitsPerSecond: int, c: Clock)
    requires fracSep != ':'
    requires ReadsAs(hs, c.hours, fracSep) && ReadsAs(ms, c.minutes, fracSep)
    requires ReadsAs(ss, c.seconds, fracSep) && ReadsAs(fs, c.fraction, fracSep)
    ensures ParseTimestamp(hs + ":" + ms + ":" + ss + [fracSep] + fs, fracSep, unitsPerSecond) ==
      Some(ClockUnits(c, unitsPerSecond))
  {
    SplitTimestamp(hs, ms, ss, fs, fracSep);
  }

  /** The fields of `ClockOf(t, u)`, counted in units, are `t` truncated to whole units. */
  lemma ClockOfUnits(t: real, u: nat)
    requires u == 100 || u == 1000
    ensures ClockUnits(ClockOf(t, u), u) == (t * u as real).Floor
  {
    var c := ClockOf(t, u);
    var whole := (c.hours * 60 + c.minutes) * 60 + c.seconds;
    assert whole == t.Floor && c.fraction == (t * u as real).Floor - u * t.Floor by {
      ClockOfDecomposes(t, u);
    }
    assert ClockUnits(c, u) == whole * u + c.fraction;
  }

  lemma AssTimeParses(t: real)
    ensures ParseTimestamp(SecondsToAssTime(t), '.', 100) == Some(ClockUnits(ClockOf(t, 100), 100))
  {
    TimestampRoundTrip(ClockOf(t, 100), 0, '.', 2, 100);
  }

  lemma SrtTimeParses(t: real)
    ensures ParseTimestamp(SecondsToSrtTime(t), ',', 1000) == Some(ClockUnits(ClockOf(t, 1000), 1000))
  {
    TimestampRoundTrip(ClockOf(t, 1000), 2, ',', 3, 1000);
  }

  lemma Centiunits(t: real)
    ensures ClockUnits(ClockOf(t, 100), 100) == (t * 100.0).Floor
  {
    ClockOfUnits(t, 100);
  }

  lemma Milliunits(t: real)
    ensures ClockUnits(ClockOf(t, 1000), 1000) == (t * 1000.0).Floor
  {
    ClockOfUnits(t, 1000);
  }

  /** An ASS timestamp reads back as the time truncated to whole centiseconds. */
  lemma AssTimeRoundTrip(t: real)
    ensures ParseTimestamp(SecondsToAssTime(t), '.', 100) == Some((t * 100.0).Floor)
  {
    AssTimeParses(t);
    Centiunits(t);
  }

  /** A SubRip timestamp reads back as the time truncated to whole milliseconds. */
  lemma SrtTimeRoundTrip(t: real)
    ensures ParseTimestamp(SecondsToSrtTime(t), ',', 1000) == Some((t * 1000.0).Floor)
  {
    SrtTimeParses(t);
    Milliunits(t);
  }

  /**
   * A clock whose fields are in range is laid out at fixed positions: the
   * hours field, `:MM:SS` with two digits each, the separator and exactly
   * `fracWidth` fraction digits.
   */
  lemma ClockLayout(c: Clock, hourWidth: nat, fracSep: char, fracWidth: nat)
    requires 0 <= c.minutes < 60 && 0 <= c.seconds < 60
    requires fracWidth > 0 && 0 <= c.fraction < Pow10(fracWidth)
    ensures var s := FormatClock(c, hourWidth, fracSep, fracWidth);
      var k := |FormatInt(c.hours, hourWidth)|;
      && |s| == k + 7 + fracWidth
      && s[..k] == FormatInt(c.hours, hourWidth)
      && s[k] == ':' && s[k + 3] == ':' && s[k + 6] == fracSep
      && s[k + 1..k + 3] == FormatInt(c.minutes, 2) && IsDigits(s[k + 1..k + 3])
      && s[k + 4..k + 6] == FormatInt(c.seconds, 2) && IsDigits(s[k + 4..k + 6])
      && s[k + 7..] == FormatInt(c.fraction, fracWidth) && IsDigits(s[k + 7..])
  {
    assert Pow10(2) == 100;
    FormatIntWidth(c.minutes, 2);
    FormatIntWidth(c.seconds, 2);
    FormatIntWidth(c.fraction, fracWidth);
    var h := FormatInt(c.hours, hourWidth);
    var m := FormatInt(c.minutes, 2);
    var sec := FormatInt(c.seconds, 2);
    var f := FormatInt(c.fraction, fracWidth);
    FieldsAt(h, m, sec, f, fracSep);
  }

  /** Four fields and three separators, located. */
  lemma FieldsAt(h: string, m: string, sec: string, f: string, fracSep: char)
    requires |m| == 2 && |sec| == 2
    ensures var s := h + ":" + m + ":" + sec + [fracSep] + f; var k := |h|;
      && |s| == k + 7 + |f| && s[..k] == h
      && s[k] == ':' && s[k + 1..k + 3] == m && s[k + 3] == ':' && s[k + 4..k + 6] == sec
      && s[k + 6] == fracSep && s[k + 7..] == f
  {
  }

  /**
   * ASS `H:MM:SS.cc`: minutes, seconds and centiseconds exactly two digits
   * each, the hours unpadded (no leading zero unless the hour is 0), so a
   * time under ten hours takes ten characters.
   */
  lemma AssTimeLayout(t: real)
    ensures var c := ClockOf(t, 100); var hh := FormatInt(c.hours, 0);
      var s := SecondsToAssTime(t); var k := |hh|;
      && |s| == k + 9 && s[..k] == hh
      && s[k] == ':' && s[k + 3] == ':' && s[k + 6] == '.'
      && IsDigits(s[k + 1..k + 3]) && IsDigits(s[k + 4..k + 6]) && IsDigits(s[k + 7..])
    ensures t >= 0.0 ==> var hh := FormatInt(ClockOf(t, 100).hours, 0);
      IsDigits(hh) && (hh[0] == '0' ==> ClockOf(t, 100).hours == 0)
    ensures 0.0 <= t < 36000.0 ==> |SecondsToAssTime(t)| == 10
  {
    var c := ClockOf(t, 100);
    ClockOfDecomposes(t, 100);
    assert Pow10(2) == 100;
    ClockLayout(c, 0, '.', 2);
    if t >= 0.0 {
      assert c.hours >= 0;
      FormatIntUnpadded(c.hours);
      if t < 36000.0 {
        assert c.hours < 10;
      }
    }
  }

  /**
   * SubRip `HH:MM:SS,mmm`: below 100 hours every time takes twelve
   * characters, digits everywhere except the separators at 2, 5 and 8.
   */
  lemma SrtTimeLayout(t: real)
    requires 0.0 <= t < 360000.0
    ensures var s := SecondsToSrtTime(t);
      && |s| == 12 && s[2] == ':' && s[5] == ':' && s[8] == ','
      && forall i :: 0 <= i < 12 && i != 2 && i != 5 && i != 8 ==> IsDigit(s[i])
  {
    var c := ClockOf(t, 1000);
    ClockOfDecomposes(t, 1000);
    assert 0 <= c.hours < 100;
    assert Pow10(2) == 100 && Pow10(3) == 1000;
    FormatIntWidth(c.hours, 2);
    ClockLayout(c, 2, ',', 3);
    var s := SecondsToSrtTime(t);
    assert s[..2] == FormatInt(c.hours, 2);
    forall i | 0 <= i < 12 && i != 2 && i != 5 && i != 8
      ensures IsDigit(s[i])
    {
      if i < 2 {
        assert s[i] == s[..2][i];
      } else if i < 5 {
        assert s[i] == s[3..5][i - 3];
      } else if i < 8 {
        assert s[i] == s[6..8][i - 6];
      } else {
        assert s[i] == s[9..][i - 9];
      }
    }
  }

  /** Timestamps are made of digits, a sign and the separators only. */
  lemma TimestampCharacters(t: real)
    ensures forall ch :: ch in SecondsToAssTime(t) ==> IsDigit(ch) || ch in "-:."
    ensures forall ch :: ch in SecondsToSrtTime(t) ==> IsDigit(ch) || ch in "-:,"
  {
  }

  lemma ExampleClocks()
    ensures ClockOf(0.0, 100) == Clock(0, 0, 0, 0)
    ensures ClockOf(0.0, 1000) == Clock(0, 0, 0, 0)
    ensures ClockOf(3725.456, 100) == Clock(1, 2, 5, 45)
    ensures ClockOf(3725.456, 1000) == Clock(1, 2, 5, 456)
  {
    ZeroClocks();
    SampleClocks();
  }

  lemma ZeroClocks()
    ensures ClockOf(0.0, 100) == Clock(0, 0, 0, 0)
    ensures ClockOf(0.0, 1000) == Clock(0, 0, 0, 0)
  {
    WholeFieldsOf(0.0, 0, 0, 0, 0);
    Centiseconds(0.0);
    Milliseconds(0.0);
  }

  lemma SampleClocks()
    ensures ClockOf(3725.456, 100) == Clock(1, 2, 5, 45)
    ensures ClockOf(3725.456, 1000) == Clock(1, 2, 5, 456)
  {
    assert 3725.456.Floor == 3725;
    WholeFieldsOf(3725.456, 3725, 1, 2, 5);
    assert (3725.456 * 100.0).Floor == 372545 by {
      assert 3725.456 * 100.0 == 372545.6;
    }
    Centiseconds(3725.456);
    assert (3725.456 * 1000.0).Floor == 3725456 by {
      assert 3725.456 * 1000.0 == 3725456.0;
    }
    Milliseconds(3725.456);
  }

  lemma WholeFieldsOf(t: real, whole: int, h: int, m: int, sec: int)
    requires t.Floor == whole && h == whole / 3600 && m == (whole % 3600) / 60 && sec == whole % 60
    ensures Hours(t) == h && Minutes(t) == m && Seconds(t) == sec
  {
    HoursField(t);
    MinutesField(t);
    SecondsField(t);
  }

  /** The numerals the worked examples need. */
  lemma ExampleNumerals()
    ensures FormatInt(0, 0) == "0" && FormatInt(1, 0) == "1"
    ensures FormatInt(0, 2) == "00" && FormatInt(2, 2) == "02" && FormatInt(5, 2) == "05"
    ensures FormatInt(45, 2) == "45"
    ensures FormatInt(0, 3) == "000" && FormatInt(456, 3) == "456" && FormatInt(1, 2) == "01"
  {
    assert NatToDecimal(0) == "0";
    assert NatToDecimal(1) == "1";
    assert NatToDecimal(2) == "2";
    assert NatToDecimal(5) == "5";
    assert NatToDecimal(4) == "4";
    assert NatToDecimal(45) == "45";
    assert NatToDecimal(456) == "456";
    assert Zeros(1) == "0";
    assert Zeros(2) == "00";
    assert Zeros(3) == "000";
  }

  /** The worked examples in ASS form: zero, and 3725.456 s truncated (not rounded). */
  lemma AssTimeExamples()
    ensures SecondsToAssTime(0.0) == "0:00:00.00"
    ensures SecondsToAssTime(3725.456) == "1:02:05.45"
  {
    ExampleClocks();
    ExampleNumerals();
    assert SecondsToAssTime(0.0) == "0" + ":" + "00" + ":" + "00" + "." + "00";
    assert SecondsToAssTime(3725.456) == "1" + ":" + "02" + ":" + "05" + "." + "45";
  }

  /** The same examples in SubRip form. */
  lemma SrtTimeExamples()
    ensures SecondsToSrtTime(0.0) == "00:00:00,000"
    ensures SecondsToSrtTime(3725.456) == "01:02:05,456"
  {
    ExampleClocks();
    ExampleNumerals();
    assert SecondsToSrtTime(0.0) == "00" + ":" + "00" + ":" + "00" + "," + "000";
    assert SecondsToSrtTime(3725.456) == "01" + ":" + "02" + ":" + "05" + "," + "456";
  }

  /** The five-second mark the fallback files use. */
  lemma FiveSecondTimes()
    ensures SecondsToAssTime(5.0) == "0:00:05.00"
    ensures SecondsToSrtTime(5.0) == "00:00:05,000"
  {
    WholeFieldsOf(5.0, 5, 0, 0, 5);
    Centiseconds(5.0);
    Milliseconds(5.0);
    ExampleNumerals();
    assert SecondsToAssTime(5.0) == "0" + ":" + "00" + ":" + "05" + "." + "00";
    assert SecondsToSrtTime(5.0) == "00" + ":" + "00" + ":" + "05" + "," + "000";
  }
}
