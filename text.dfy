/**
 * The string helpers the subtitle code takes from Python's `str`:
 * `sep.join(parts)`, `s.split(c)`, `s.strip()`, `s.upper()`, and integer
 * formatting with `f"{n}"` / `f"{n:0Wd}"`. Each comes with the partner that
 * pins it down: `Split` undoes `Join`, `ParseInt` undoes `FormatInt`.
 */
module Text {
  import opened Wrappers

  // ---------------------------------------------------------------------
  // Joining and splitting
  // ---------------------------------------------------------------------

  /** Python `sep.join(parts)`. */
  function Join(parts: seq<string>, sep: string): string
    decreases |parts|
  {
    if |parts| == 0 then ""
    else if |parts| == 1 then parts[0]
    else parts[0] + sep + Join(parts[1..], sep)
  }

  /** Python `s.split(c)` for a one-character separator: never empty. */
  function Split(s: string, c: char): (r: seq<string>)
    ensures |r| >= 1
    decreases |s|
  {
    if |s| == 0 then [""]
    else
      var rest := Split(s[1..], c);
      if s[0] == c then [""] + rest else [[s[0]] + rest[0]] + rest[1..]
  }

  /** The text before the first `c` and the text after it, if `c` occurs. */
  function SplitFirst(s: string, c: char): Option<(string, string)>
    decreases |s|
  {
    if |s| == 0 then None
    else if s[0] == c then Some(("", s[1..]))
    else
      match SplitFirst(s[1..], c)
      case None => None
      case Some(pair) => Some(([s[0]] + pair.0, pair.1))
  }

  /** `[f(x) for x in xs]`. */
  function Map<X, Y>(xs: seq<X>, f: X -> Y): seq<Y>
  {
    if |xs| == 0 then [] else Map(xs[..|xs| - 1], f) + [f(xs[|xs| - 1])]
  }

  lemma {:induction false} MapAt<X, Y>(xs: seq<X>, f: X -> Y)
    ensures |Map(xs, f)| == |xs|
    ensures forall i :: 0 <= i < |xs| ==> Map(xs, f)[i] == f(xs[i])
  {
    if |xs| > 0 {
      var init := xs[..|xs| - 1];
      MapAt(init, f);
      assert forall i :: 0 <= i < |init| ==> init[i] == xs[i];
    }
  }

  /** Joining a non-empty list after a non-empty list. */
  lemma {:induction false} JoinAppend(a: seq<string>, b: seq<string>, sep: string)
    requires |a| > 0 && |b| > 0
    ensures Join(a + b, sep) == Join(a, sep) + sep + Join(b, sep)
    decreases |a|
  {
    if |a| == 1 {
      assert (a + b)[1..] == b;
    } else {
      assert (a + b)[1..] == a[1..] + b;
      JoinAppend(a[1..], b, sep);
    }
  }

  lemma Join3(a: string, b: string, c: string, sep: string)
    ensures Join([a, b, c], sep) == a + sep + b + sep + c
  {
    assert [a, b, c][1..] == [b, c];
    assert [b, c][1..] == [c];
    assert Join([c], sep) == c;
    assert Join([b, c], sep) == b + sep + Join([c], sep);
  }

  /** A prefix without the separator sticks to the first field. */
  lemma {:induction false} SplitThrough(p: string, t: string, c: char)
    requires c !in p
    ensures Split(p + t, c) == [p + Split(t, c)[0]] + Split(t, c)[1..]
    decreases |p|
  {
    var st := Split(t, c);
    if |p| == 0 {
      assert p + t == t;
      assert p + st[0] == st[0];
      assert st == [st[0]] + st[1..];
    } else {
      assert (p + t)[0] == p[0];
      assert (p + t)[1..] == p[1..] + t;
      SplitThrough(p[1..], t, c);
      assert [p[0]] + (p[1..] + st[0]) == p + st[0];
    }
  }

  /** `Split` undoes `Join` when no part holds the separator. */
  lemma {:induction false} SplitJoin(parts: seq<string>, c: char)
    requires |parts| > 0
    requires forall i :: 0 <= i < |parts| ==> c !in parts[i]
    ensures Split(Join(parts, [c]), c) == parts
    decreases |parts|
  {
    if |parts| == 1 {
      SplitThrough(parts[0], "", c);
      assert parts[0] + "" == parts[0];
      assert Split("", c) == [""];
    } else {
      var rest := Join(parts[1..], [c]);
      SplitJoin(parts[1..], c);
      assert Join(parts, [c]) == parts[0] + ([c] + rest);
      SplitThrough(parts[0], [c] + rest, c);
      assert ([c] + rest)[0] == c && ([c] + rest)[1..] == rest;
      assert Split([c] + rest, c) == [""] + parts[1..];
      assert parts[0] + "" == parts[0];
      assert parts == [parts[0]] + parts[1..];
    }
  }

  /** `Split` on a first character and the rest. */
  lemma SplitCons(x: char, rest: string, c: char)
    ensures Split([x] + rest, c) ==
      if x == c then [""] + Split(rest, c) else [[x] + Split(rest, c)[0]] + Split(rest, c)[1..]
  {
    assert ([x] + rest)[0] == x && ([x] + rest)[1..] == rest;
  }

  /** Fields gained in front of a concatenation of field lists. */
  lemma FieldsInFront(x: char, c: char, ra: seq<string>, rt: seq<string>)
    requires |ra| > 0
    ensures (if x == c then [""] + (ra + rt) else [[x] + (ra + rt)[0]] + (ra + rt)[1..]) ==
      (if x == c then [""] + ra else [[x] + ra[0]] + ra[1..]) + rt
  {
    if x != c {
      assert (ra + rt)[1..] == ra[1..] + rt;
    }
  }

  lemma SplitAroundStep(x: char, a: string, u: string, c: char)
    requires |u| > 0 && u[0] == c
    requires Split(a + u, c) == Split(a, c) + Split(u[1..], c)
    ensures Split([x] + (a + u), c) == Split([x] + a, c) + Split(u[1..], c)
  {
    SplitCons(x, a + u, c);
    SplitCons(x, a, c);
    FieldsInFront(x, c, Split(a, c), Split(u[1..], c));
  }

  /** Splitting at one occurrence of the separator splits the two sides apart. */
  lemma {:induction false} SplitAround(a: string, u: string, c: char)
    requires |u| > 0 && u[0] == c
    ensures Split(a + u, c) == Split(a, c) + Split(u[1..], c)
    decreases |a|
  {
    if |a| == 0 {
      assert a + u == [c] + u[1..];
      SplitCons(c, u[1..], c);
    } else {
      SplitAround(a[1..], u, c);
      SplitAroundStep(a[0], a[1..], u, c);
      assert a + u == [a[0]] + (a[1..] + u);
      assert a == [a[0]] + a[1..];
    }
  }

  /** A joined list, the separator and more text: the parts, then the fields of the rest. */
  lemma SplitJoinThen(parts: seq<string>, t: string, c: char)
    requires |parts| > 0
    requires forall i :: 0 <= i < |parts| ==> c !in parts[i]
    ensures Split(Join(parts, [c]) + [c] + t, c) == parts + Split(t, c)
  {
    SplitAround(Join(parts, [c]), [c] + t, c);
    assert Join(parts, [c]) + [c] + t == Join(parts, [c]) + ([c] + t);
    assert ([c] + t)[1..] == t;
    SplitJoin(parts, c);
  }

  /** Joining onto a first part. */
  lemma JoinCons(a: string, rest: seq<string>, sep: string)
    ensures Join([a] + rest, sep) == if |rest| == 0 then a else a + sep + Join(rest, sep)
  {
    assert ([a] + rest)[1..] == rest;
  }

  /** A character in neither the parts nor the separator is not in their join. */
  lemma {:induction false} JoinHasNo(parts: seq<string>, sep: string, c: char)
    requires c !in sep
    requires forall i :: 0 <= i < |parts| ==> c !in parts[i]
    ensures c !in Join(parts, sep)
    decreases |parts|
  {
    if |parts| > 1 {
      JoinHasNo(parts[1..], sep, c);
    }
  }

  /** `Join` undoes `Split`: splitting loses nothing. */
  lemma {:induction false} JoinSplit(s: string, c: char)
    ensures Join(Split(s, c), [c]) == s
    decreases |s|
  {
    if |s| > 0 {
      var rest := Split(s[1..], c);
      JoinSplit(s[1..], c);
      if s[0] == c {
        assert Join([""] + rest, [c]) == "" + [c] + Join(rest, [c]);
        assert s == [s[0]] + s[1..];
      } else if |rest| == 1 {
        assert s == [s[0]] + s[1..];
      } else {
        var parts := [[s[0]] + rest[0]] + rest[1..];
        assert parts[1..] == rest[1..];
        assert Join(rest, [c]) == rest[0] + [c] + Join(rest[1..], [c]);
        assert s == [s[0]] + s[1..];
      }
    }
  }

  /** `SplitFirst` stops at the first separator. */
  lemma {:induction false} SplitFirstAt(a: string, b: string, c: char)
    requires c !in a
    ensures SplitFirst(a + [c] + b, c) == Some((a, b))
    decreases |a|
  {
    if |a| == 0 {
      assert a + [c] + b == [c] + b;
      assert ([c] + b)[1..] == b;
    } else {
      assert (a + [c] + b)[1..] == a[1..] + [c] + b;
      SplitFirstAt(a[1..], b, c);
      assert [a[0]] + a[1..] == a;
    }
  }

  // ---------------------------------------------------------------------
  // Counting lines
  // ---------------------------------------------------------------------

  /** How many of `lines` start with `prefix`. */
  function CountWithPrefix(lines: seq<string>, prefix: string): (n: nat)
    ensures n <= |lines|
    decreases |lines|
  {
    if |lines| == 0 then 0
    else (if prefix <= lines[0] then 1 else 0) + CountWithPrefix(lines[1..], prefix)
  }

  lemma {:induction false} CountWithPrefixAppend(a: seq<string>, b: seq<string>, prefix: string)
    ensures CountWithPrefix(a + b, prefix) == CountWithPrefix(a, prefix) + CountWithPrefix(b, prefix)
    decreases |a|
  {
    if |a| == 0 {
      assert a + b == b;
    } else {
      assert (a + b)[1..] == a[1..] + b;
      CountWithPrefixAppend(a[1..], b, prefix);
    }
  }

  /** Lines that all start with `prefix` are all counted. */
  lemma {:induction false} CountWithPrefixAll(lines: seq<string>, prefix: string)
    requires forall i :: 0 <= i < |lines| ==> prefix <= lines[i]
    ensures CountWithPrefix(lines, prefix) == |lines|
    decreases |lines|
  {
    if |lines| > 0 {
      CountWithPrefixAll(lines[1..], prefix);
    }
  }

  /** Lines none of which starts with `prefix` are not counted. */
  lemma {:induction false} CountWithPrefixNone(lines: seq<string>, prefix: string)
    requires forall i :: 0 <= i < |lines| ==> !(prefix <= lines[i])
    ensures CountWithPrefix(lines, prefix) == 0
    decreases |lines|
  {
    if |lines| > 0 {
      CountWithPrefixNone(lines[1..], prefix);
    }
  }

  // ---------------------------------------------------------------------
  // strip() and upper(), ASCII only
  // ---------------------------------------------------------------------

  /**
   * The ASCII characters Python's `str.strip()` removes: space, tab, line
   * feed, vertical tab, form feed, carriage return and the four separators
   * U+001C to U+001F.
   */
  predicate IsSpace(ch: char) {
    ch == ' ' || ch == '\t' || ch == '\n' || ch == '\r' || ch == '\U{000B}' || ch == '\U{000C}'
    || ch == '\U{001C}' || ch == '\U{001D}' || ch == '\U{001E}' || ch == '\U{001F}'
  }

  /** Drops leading whitespace. */
  function StripLeft(s: string): string
    decreases |s|
  {
    if |s| > 0 && IsSpace(s[0]) then StripLeft(s[1..]) else s
  }

  /** Drops trailing whitespace. */
  function StripRight(s: string): string
    decreases |s|
  {
    if |s| > 0 && IsSpace(s[|s| - 1]) then StripRight(s[..|s| - 1]) else s
  }

  /** `StripLeft` keeps a suffix that does not start with a space and drops only spaces. */
  lemma {:induction false} StripLeftSuffix(s: string)
    ensures var r := StripLeft(s);
      |r| <= |s| && r == s[|s| - |r|..] &&
      (forall k :: 0 <= k < |s| - |r| ==> IsSpace(s[k])) &&
      (|r| > 0 ==> !IsSpace(r[0]))
    decreases |s|
  {
    if |s| > 0 && IsSpace(s[0]) {
      StripLeftSuffix(s[1..]);
      var r := StripLeft(s);
      assert s[1..][|s| - 1 - |r|..] == s[|s| - |r|..];
      forall k | 0 <= k < |s| - |r|
        ensures IsSpace(s[k])
      {
        if k > 0 {
          assert s[k] == s[1..][k - 1];
        }
      }
    }
  }

  /** `StripRight` keeps a prefix that does not end with a space and drops only spaces. */
  lemma {:induction false} StripRightPrefix(s: string)
    ensures var r := StripRight(s);
      |r| <= |s| && r == s[..|r|] &&
      (forall k :: |r| <= k < |s| ==> IsSpace(s[k])) &&
      (|r| > 0 ==> !IsSpace(r[|r| - 1]))
    decreases |s|
  {
    if |s| > 0 && IsSpace(s[|s| - 1]) {
      StripRightPrefix(s[..|s| - 1]);
      var r := StripRight(s);
      assert s[..|s| - 1][..|r|] == s[..|r|];
      forall k | |r| <= k < |s|
        ensures IsSpace(s[k])
      {
        if k < |s| - 1 {
          assert s[k] == s[..|s| - 1][k];
        }
      }
    }
  }

  /** Python `s.strip()` on ASCII whitespace. */
  function Strip(s: string): string {
    StripRight(StripLeft(s))
  }

  /** `strip()` yields the empty string exactly when the text is blank. */
  lemma StripEmptyIffBlank(s: string)
    ensures Strip(s) == "" <==> forall k :: 0 <= k < |s| ==> IsSpace(s[k])
  {
    var l := StripLeft(s);
    StripLeftSuffix(s);
    StripRightPrefix(l);
    if Strip(s) == "" {
      assert |l| == 0;
    }
  }

  /** Stripping drops characters from the ends and adds none. */
  lemma StripHasNo(s: string, c: char)
    requires c !in s
    ensures c !in Strip(s)
  {
    var l := StripLeft(s);
    StripLeftSuffix(s);
    StripRightPrefix(l);
    assert forall k :: 0 <= k < |Strip(s)| ==> Strip(s)[k] == s[|s| - |l| + k];
  }

  /** A stripped text neither starts nor ends with whitespace, and stripping again changes nothing. */
  lemma StripTrimmed(s: string)
    ensures var r := Strip(s); |r| > 0 ==> !IsSpace(r[0]) && !IsSpace(r[|r| - 1])
    ensures Strip(Strip(s)) == Strip(s)
  {
    var l := StripLeft(s);
    var r := StripRight(l);
    StripLeftSuffix(s);
    StripRightPrefix(l);
    if |r| > 0 {
      assert r[0] == l[0];
      assert StripLeft(r) == r;
      assert StripRight(r) == r;
    } else {
      assert StripLeft(r) == r;
    }
  }

  function UpperChar(ch: char): char {
    if 'a' <= ch <= 'z' then (ch as int - 32) as char else ch
  }

  /** Python `s.upper()` restricted to ASCII letters. */
  function Upper(s: string): (r: string)
    ensures |r| == |s|
    ensures forall i :: 0 <= i < |s| ==> r[i] == UpperChar(s[i])
  {
    seq(|s|, i requires 0 <= i < |s| => UpperChar(s[i]))
  }

  lemma UpperThree(a: string, b: string, c: string)
    ensures Upper(a + b + c) == Upper(a) + Upper(b) + Upper(c)
  {
    UpperConcat(a + b, c);
    UpperConcat(a, b);
  }

  lemma UpperConcat(a: string, b: string)
    ensures Upper(a + b) == Upper(a) + Upper(b)
  {
    assert |Upper(a + b)| == |Upper(a) + Upper(b)|;
    forall i | 0 <= i < |a + b|
      ensures Upper(a + b)[i] == (Upper(a) + Upper(b))[i]
    {
      if i < |a| {
        assert (a + b)[i] == a[i];
      } else {
        assert (a + b)[i] == b[i - |a|];
      }
    }
  }

  // ---------------------------------------------------------------------
  // Decimal integers: f"{n}" and f"{n:0Wd}"
  // ---------------------------------------------------------------------

  predicate IsDigit(ch: char) {
    '0' <= ch <= '9'
  }

  predicate IsDigits(s: string) {
    forall i :: 0 <= i < |s| ==> IsDigit(s[i])
  }

  function DigitChar(d: nat): (ch: char)
    requires d < 10
    ensures IsDigit(ch)
  {
    ('0' as int + d) as char
  }

  /** The shortest decimal numeral of `n`. */
  function NatToDecimal(n: nat): (r: string)
    ensures |r| > 0 && IsDigits(r)
    decreases n
  {
    if n < 10 then [DigitChar(n)] else NatToDecimal(n / 10) + [DigitChar(n % 10)]
  }

  /** The value of a numeral (leading zeros allowed). */
  function DigitsValue(s: string): nat
    requires IsDigits(s)
    decreases |s|
  {
    if |s| == 0 then 0
    else DigitsValue(s[..|s| - 1]) * 10 + (s[|s| - 1] as int - '0' as int)
  }

  function Zeros(k: nat): (r: string)
    ensures |r| == k && IsDigits(r)
  {
    seq(k, _ => '0')
  }

  /** Left-pads a numeral with zeros to `width` characters. */
  function PadZeros(s: string, width: nat): (r: string)
    ensures |r| == if |s| >= width then |s| else width
  {
    if |s| >= width then s else Zeros(width - |s|) + s
  }

  /**
   * Python `format(n, "0Wd")` (`f"{n:0Wd}"`; width 0 is `str(n)`): a minus
   * sign for negatives, then digits zero-padded so the whole field is at
   * least `width` characters wide.
   */
  function FormatInt(n: int, width: nat): (r: string)
    ensures |r| > 0 && |r| >= width
    ensures (r[0] == '-') <==> n < 0
    ensures forall i :: 0 <= i < |r| ==> IsDigit(r[i]) || (i == 0 && r[i] == '-')
  {
    if n < 0 then "-" + PadZeros(NatToDecimal(-n), if width > 0 then width - 1 else 0)
    else PadZeros(NatToDecimal(n), width)
  }

  /** Numerals hold no separator character. */
  lemma FormatIntHasNo(n: int, width: nat, c: char)
    requires !IsDigit(c) && c != '-'
    ensures c !in FormatInt(n, width)
  {
  }

  /** Reads an optional minus sign and at least one digit. */
  function ParseInt(s: string): Option<int> {
    if |s| > 1 && s[0] == '-' && IsDigits(s[1..]) then Some(0 - DigitsValue(s[1..]))
    else if |s| > 0 && IsDigits(s) then Some(DigitsValue(s))
    else None
  }

  lemma {:induction false} DecimalValue(n: nat)
    ensures DigitsValue(NatToDecimal(n)) == n
    decreases n
  {
    if n >= 10 {
      var r := NatToDecimal(n);
      DecimalValue(n / 10);
      assert r[..|r| - 1] == NatToDecimal(n / 10);
    }
  }

  lemma {:induction false} ZerosValue(k: nat, s: string)
    requires IsDigits(s)
    ensures IsDigits(Zeros(k) + s)
    ensures DigitsValue(Zeros(k) + s) == DigitsValue(s)
    decreases |s|
  {
    var z := Zeros(k) + s;
    assert IsDigits(z);
    if |s| == 0 {
      assert z == Zeros(k);
      ZerosOnly(k);
    } else {
      assert z[..|z| - 1] == Zeros(k) + s[..|s| - 1];
      ZerosValue(k, s[..|s| - 1]);
    }
  }

  lemma {:induction false} ZerosOnly(k: nat)
    ensures DigitsValue(Zeros(k)) == 0
    decreases k
  {
    if k > 0 {
      assert Zeros(k)[..k - 1] == Zeros(k - 1);
      ZerosOnly(k - 1);
    }
  }

  lemma PadZerosValue(s: string, width: nat)
    requires IsDigits(s)
    ensures IsDigits(PadZeros(s, width))
    ensures DigitsValue(PadZeros(s, width)) == DigitsValue(s)
  {
    if |s| < width {
      ZerosValue(width - |s|, s);
    }
  }

  /** A numeral, with or without a minus sign in front, reads back as its value. */
  lemma ParseNumeral(digits: string)
    requires |digits| > 0 && IsDigits(digits)
    ensures ParseInt(digits) == Some(DigitsValue(digits))
    ensures ParseInt("-" + digits) == Some(0 - DigitsValue(digits))
  {
    assert ("-" + digits)[1..] == digits;
    assert digits[0] != '-';
  }

  /** `10^k`. */
  function Pow10(k: nat): (r: nat)
    ensures r > 0
  {
    if k == 0 then 1 else 10 * Pow10(k - 1)
  }

  /** A number below `10^k` needs at most `k` digits. */
  lemma {:induction false} DecimalLength(n: nat, k: nat)
    requires k > 0 && n < Pow10(k)
    ensures |NatToDecimal(n)| <= k
  {
    if n >= 10 {
      assert Pow10(k) == 10 * Pow10(k - 1);
      DecimalLength(n / 10, k - 1);
    }
  }

  /** The shortest numeral of a positive number does not start with `0`. */
  lemma {:induction false} DecimalLeading(n: nat)
    requires n > 0
    ensures NatToDecimal(n)[0] != '0'
  {
    if n >= 10 {
      DecimalLeading(n / 10);
    }
  }

  /** A number below `10^w` fills a field of width `w` exactly, its digits and padding zeros only. */
  lemma FormatIntWidth(n: int, w: nat)
    requires w > 0 && 0 <= n < Pow10(w)
    ensures |FormatInt(n, w)| == w && IsDigits(FormatInt(n, w))
  {
    DecimalLength(n, w);
  }

  /** Width 0 is the shortest numeral: no padding, and no leading zero unless the number is 0. */
  lemma FormatIntUnpadded(n: int)
    requires n >= 0
    ensures FormatInt(n, 0) == NatToDecimal(n)
    ensures FormatInt(n, 0)[0] == '0' ==> n == 0
    ensures n < 10 ==> |FormatInt(n, 0)| == 1
  {
    if n > 0 {
      DecimalLeading(n);
    }
  }

  /** `ParseInt` reads back every formatted integer, whatever the padding. */
  lemma FormatIntRoundTrip(n: int, width: nat)
    ensures ParseInt(FormatInt(n, width)) == Some(n)
  {
    if n < 0 {
      NegativeRoundTrip(n, width);
    } else {
      var digits := PadZeros(NatToDecimal(n), width);
      PadZerosValue(NatToDecimal(n), width);
      DecimalValue(n);
      ParseNumeral(digits);
    }
  }

  lemma NegativeRoundTrip(n: int, width: nat)
    requires n < 0
    ensures ParseInt(FormatInt(n, width)) == Some(n)
  {
    var w := if width > 0 then width - 1 else 0;
    var digits := PadZeros(NatToDecimal(-n), w);
    PadZerosValue(NatToDecimal(-n), w);
    DecimalValue(-n);
    ParseNumeral(digits);
    assert FormatInt(n, width) == "-" + digits;
  }
}
