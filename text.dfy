/** String helpers used by single.py: substring tests, `str.replace("http:", "https:")`,
    `str.lower()`, `str.zfill`, `str(int)`, `int(str)` and Python's string ordering. */
module Text {
  import opened Wrappers

  predicate IsPrefix(p: string, s: string) {
    |p| <= |s| && s[..|p|] == p
  }

  /** Python's `needle in hay` for two strings. */
  predicate Contains(hay: string, needle: string)
    decreases |hay|
  {
    IsPrefix(needle, hay) || (hay != [] && Contains(hay[1..], needle))
  }

  lemma ContainsCons(c: char, x: string, needle: string)
    ensures Contains([c] + x, needle) == (IsPrefix(needle, [c] + x) || Contains(x, needle))
  {
    assert ([c] + x)[1..] == x;
  }

  /** Every slice of a string is contained in it. */
  lemma {:induction false} ContainsSlice(hay: string, i: nat, j: nat)
    requires i <= j <= |hay|
    ensures Contains(hay, hay[i..j])
  {
    if i == 0 {
      assert IsPrefix(hay[i..j], hay);
    } else {
      var tail := hay[1..];
      assert tail[i - 1..j - 1] == hay[i..j];
      ContainsSlice(tail, i - 1, j - 1);
    }
  }

  // ---------------------------------------------------------------------------
  // url.replace("http:", "https:")

  /** Python's `s.replace("http:", "https:")`: a left-to-right scan replacing every
      non-overlapping occurrence. */
  function ForceHttps(s: string): string
    decreases |s|
  {
    if IsPrefix("http:", s) then "https:" + ForceHttps(s[5..])
    else if s == [] then []
    else [s[0]] + ForceHttps(s[1..])
  }

  /** When the result starts with a character other than 'h', that character was copied
      from the input and nothing was replaced at this position. */
  lemma ForceHttpsHead(x: string)
    requires ForceHttps(x) != [] && ForceHttps(x)[0] != 'h'
    ensures x != [] && x[0] == ForceHttps(x)[0]
    ensures ForceHttps(x) == [x[0]] + ForceHttps(x[1..])
  {
  }

  /** Prepending the replacement text "https:" creates no "http:". */
  lemma HttpsPrefixIsSafe(rest: string)
    requires !Contains(rest, "http:")
    ensures !Contains("https:" + rest, "http:")
  {
    var x5 := [':'] + rest;
    var x4 := ['s'] + x5;
    var x3 := ['p'] + x4;
    var x2 := ['t'] + x3;
    var x1 := ['t'] + x2;
    var x0 := ['h'] + x1;
    assert "https:" + rest == x0;
    ContainsCons(':', rest, "http:");
    assert !IsPrefix("http:", x5) by { assert x5[0] == ':'; }
    ContainsCons('s', x5, "http:");
    assert !IsPrefix("http:", x4) by { assert x4[0] == 's'; }
    ContainsCons('p', x4, "http:");
    assert !IsPrefix("http:", x3) by { assert x3[0] == 'p'; }
    ContainsCons('t', x3, "http:");
    assert !IsPrefix("http:", x2) by { assert x2[0] == 't'; }
    ContainsCons('t', x2, "http:");
    assert !IsPrefix("http:", x1) by { assert x1[0] == 't'; }
    ContainsCons('h', x1, "http:");
    assert !IsPrefix("http:", x0) by { assert x0[4] == 's'; }
  }

  /** An "http:" at the head of the output, behind a copied character, was already an
      "http:" at the head of the input. */
  lemma HeadMatchComesFromInput(s: string)
    requires s != [] && IsPrefix("http:", [s[0]] + ForceHttps(s[1..]))
    ensures IsPrefix("http:", s)
  {
    var rest := ForceHttps(s[1..]);
    assert ([s[0]] + rest)[..5] == "http:";
    assert rest[..4] == ([s[0]] + rest)[1..5];
    ForceHttpsHead(s[1..]);
    var r2 := ForceHttps(s[2..]);
    assert s[1..][1..] == s[2..];
    assert r2[..3] == rest[1..4];
    ForceHttpsHead(s[2..]);
    var r3 := ForceHttps(s[3..]);
    assert s[2..][1..] == s[3..];
    assert r3[..2] == r2[1..3];
    ForceHttpsHead(s[3..]);
    var r4 := ForceHttps(s[4..]);
    assert s[3..][1..] == s[4..];
    assert r4[..1] == r3[1..2];
    ForceHttpsHead(s[4..]);
    assert s[..5] == "http:";
  }

  /** After the replacement no "http:" is left anywhere in the string. */
  lemma {:induction false} ForceHttpsRemovesHttp(s: string)
    ensures !Contains(ForceHttps(s), "http:")
  {
    if IsPrefix("http:", s) {
      ForceHttpsRemovesHttp(s[5..]);
      HttpsPrefixIsSafe(ForceHttps(s[5..]));
    } else if s != [] {
      ForceHttpsRemovesHttp(s[1..]);
      if IsPrefix("http:", [s[0]] + ForceHttps(s[1..])) {
        HeadMatchComesFromInput(s);
      }
      ContainsCons(s[0], ForceHttps(s[1..]), "http:");
    }
  }

  /** A string without "http:" is left as it is. */
  lemma {:induction false} ForceHttpsKeepsSecure(s: string)
    requires !Contains(s, "http:")
    ensures ForceHttps(s) == s
  {
    if s != [] {
      assert !IsPrefix("http:", s);
      ForceHttpsKeepsSecure(s[1..]);
    }
  }

  /** Forcing the secure scheme twice is forcing it once. */
  lemma ForceHttpsIdempotent(s: string)
    ensures ForceHttps(ForceHttps(s)) == ForceHttps(s)
  {
    ForceHttpsRemovesHttp(s);
    ForceHttpsKeepsSecure(ForceHttps(s));
  }

  // ---------------------------------------------------------------------------
  // url.split("/")[-1]

  /** The text after the last '/', or the whole string when it has none. */
  function LastSegment(url: string): string
    decreases |url|
  {
    if url == [] then []
    else if url[|url| - 1] == '/' then []
    else LastSegment(url[..|url| - 1]) + [url[|url| - 1]]
  }

  /** The last segment is a suffix of the url, has no '/', and is preceded by a '/'
      unless it is the whole url: exactly what `url.split("/")[-1]` returns. */
  lemma {:induction false} LastSegmentIsFinalPart(url: string)
    ensures var seg := LastSegment(url);
      |seg| <= |url| && url[|url| - |seg|..] == seg && '/' !in seg &&
      (|seg| == |url| || url[|url| - |seg| - 1] == '/')
  {
    if url != [] && url[|url| - 1] != '/' {
      var init := url[..|url| - 1];
      LastSegmentIsFinalPart(init);
      var seg := LastSegment(init);
      assert url[|url| - |seg| - 1..] == init[|init| - |seg|..] + [url[|url| - 1]];
    }
  }

  // ---------------------------------------------------------------------------
  // str.lower() on ASCII letters

  function LowerChar(c: char): char {
    if 'A' <= c <= 'Z' then (c as int + 32) as char else c
  }

  function Lower(s: string): (r: string)
    ensures |r| == |s|
    ensures forall i :: 0 <= i < |s| ==> !('A' <= r[i] <= 'Z')
    ensures forall i :: 0 <= i < |s| && 'A' <= s[i] <= 'Z' ==> r[i] as int == s[i] as int + 32
    ensures forall i :: 0 <= i < |s| && !('A' <= s[i] <= 'Z') ==> r[i] == s[i]
  {
    seq(|s|, i requires 0 <= i < |s| => LowerChar(s[i]))
  }

  /** Text that is already lower case, such as every label `from_string` knows, is
      left as it is. */
  lemma LowerKeepsLowerCase(s: string)
    requires forall i :: 0 <= i < |s| ==> !('A' <= s[i] <= 'Z')
    ensures Lower(s) == s
  {
  }

  // ---------------------------------------------------------------------------
  // decimal digits, str(int), int(str)

  predicate IsDigit(c: char) { '0' <= c <= '9' }

  predicate AllDigits(s: string) { forall i :: 0 <= i < |s| ==> IsDigit(s[i]) }

  function DigitValue(c: char): nat requires IsDigit(c) { c as int - '0' as int }

  function DigitChar(d: nat): (c: char)
    requires d < 10
    ensures IsDigit(c) && DigitValue(c) == d
  {
    ('0' as int + d) as char
  }

  /** The value of a string of decimal digits, most significant first. */
  function DigitsValue(s: string): nat
    requires AllDigits(s)
    decreases |s|
  {
    if s == [] then 0 else DigitsValue(s[..|s| - 1]) * 10 + DigitValue(s[|s| - 1])
  }

  /** The shortest decimal rendering of a natural number. */
  function NatToString(n: nat): (r: string)
    ensures |r| >= 1 && AllDigits(r)
    decreases n
  {
    if n < 10 then [DigitChar(n)] else NatToString(n / 10) + [DigitChar(n % 10)]
  }

  /** Python's `str(n)` for an int. */
  function IntToString(n: int): string {
    if n < 0 then "-" + NatToString(-n) else NatToString(n)
  }

  lemma {:induction false} NatToStringValue(n: nat)
    ensures DigitsValue(NatToString(n)) == n
  {
    if n >= 10 {
      NatToStringValue(n / 10);
      var s := NatToString(n);
      assert s[..|s| - 1] == NatToString(n / 10);
    }
  }

  /** Python's `int(s)` restricted to an optional sign followed by one or more ASCII
      digits; None stands for the ValueError. */
  function ParseInt(s: string): (r: Option<int>)
    ensures r.Some? <==>
      ((|s| >= 1 && AllDigits(s)) || (|s| >= 2 && (s[0] == '-' || s[0] == '+') && AllDigits(s[1..])))
  {
    if |s| >= 1 && AllDigits(s) then Some(DigitsValue(s) as int)
    else if |s| >= 2 && s[0] == '-' && AllDigits(s[1..]) then Some(-(DigitsValue(s[1..]) as int))
    else if |s| >= 2 && s[0] == '+' && AllDigits(s[1..]) then Some(DigitsValue(s[1..]))
    else None
  }

  /** `int(str(n)) == n`. */
  lemma IntToStringRoundTrip(n: int)
    ensures ParseInt(IntToString(n)) == Some(n)
  {
    if n < 0 {
      NatToStringValue(-n);
      assert IntToString(n)[1..] == NatToString(-n);
    } else {
      NatToStringValue(n);
    }
  }

  // ---------------------------------------------------------------------------
  // str.zfill

  function Zeros(k: nat): (r: string)
    ensures |r| == k && forall i :: 0 <= i < k ==> r[i] == '0'
  {
    seq(k, _ => '0')
  }

  /** Python's `s.zfill(width)`: left-pad with '0' up to `width`, after a leading sign. */
  function ZFill(s: string, width: nat): (r: string)
    ensures |r| == if |s| >= width then |s| else width
    ensures |s| >= width ==> r == s
    ensures |s| < width && s != [] && (s[0] == '+' || s[0] == '-') ==>
      r[0] == s[0] && r[1..width - |s| + 1] == Zeros(width - |s|) && r[width - |s| + 1..] == s[1..]
    ensures |s| < width && !(s != [] && (s[0] == '+' || s[0] == '-')) ==>
      r[..width - |s|] == Zeros(width - |s|) && r[width - |s|..] == s
  {
    if |s| >= width then s
    else if s != [] && (s[0] == '+' || s[0] == '-') then [s[0]] + Zeros(width - |s|) + s[1..]
    else Zeros(width - |s|) + s
  }

  /** Leading zeros keep the value of a digit string. */
  lemma {:induction false} ZerosValue(k: nat, s: string)
    requires AllDigits(s)
    ensures AllDigits(Zeros(k) + s) && DigitsValue(Zeros(k) + s) == DigitsValue(s)
    decreases |s|
  {
    var z := Zeros(k) + s;
    if s == [] {
      assert z == Zeros(k);
      ZerosOnly(k);
    } else {
      ZerosValue(k, s[..|s| - 1]);
      assert z[..|z| - 1] == Zeros(k) + s[..|s| - 1];
    }
  }

  /** `int(s.zfill(w)) == int(s)` whenever `int(s)` succeeds. */
  lemma ZFillValue(s: string, width: nat)
    requires ParseInt(s).Some?
    ensures ParseInt(ZFill(s, width)) == ParseInt(s)
  {
    if |s| < width {
      var k := width - |s|;
      if s[0] == '+' || s[0] == '-' {
        var r := ZFill(s, width);
        assert r[1..] == Zeros(k) + s[1..];
        ZerosValue(k, s[1..]);
      } else {
        ZerosValue(k, s);
      }
    }
  }

  /** A digit string of at most `width` characters zero-fills to `width` digits of the
      same value. */
  lemma ZFillDigits(s: string, width: nat)
    requires AllDigits(s) && |s| <= width
    ensures var r := ZFill(s, width); |r| == width && AllDigits(r) && DigitsValue(r) == DigitsValue(s)
  {
    if |s| < width {
      ZerosValue(width - |s|, s);
    }
  }

  lemma {:induction false} ZerosOnly(k: nat)
    ensures AllDigits(Zeros(k)) && DigitsValue(Zeros(k)) == 0
  {
    if k > 0 {
      ZerosOnly(k - 1);
      assert Zeros(k)[..k - 1] == Zeros(k - 1);
    }
  }

  // ---------------------------------------------------------------------------
  // Python's `<` on strings: code point by code point, a proper prefix first

  predicate StrLt(a: string, b: string)
    decreases |a|
  {
    if b == [] then false
    else if a == [] then true
    else if a[0] != b[0] then a[0] < b[0]
    else StrLt(a[1..], b[1..])
  }

  lemma {:induction false} StrLtIrreflexive(a: string)
    ensures !StrLt(a, a)
  {
    if a != [] { StrLtIrreflexive(a[1..]); }
  }

  lemma {:induction false} StrLtAsymmetric(a: string, b: string)
    requires StrLt(a, b)
    ensures !StrLt(b, a)
  {
    if a != [] && a[0] == b[0] {
      StrLtAsymmetric(a[1..], b[1..]);
    }
  }

  lemma {:induction false} StrLtTransitive(a: string, b: string, c: string)
    requires StrLt(a, b) && StrLt(b, c)
    ensures StrLt(a, c)
  {
    if a != [] && a[0] == b[0] && b[0] == c[0] {
      StrLtTransitive(a[1..], b[1..], c[1..]);
    }
  }

  lemma {:induction false} StrLtTotal(a: string, b: string)
    requires a != b
    ensures StrLt(a, b) || StrLt(b, a)
  {
    if a != [] && b != [] && a[0] == b[0] {
      assert a == [a[0]] + a[1..] && b == [b[0]] + b[1..];
      StrLtTotal(a[1..], b[1..]);
    }
  }

  // ---------------------------------------------------------------------------
  // digit strings of equal length compare like their values

  function Pow10(n: nat): (p: nat)
    ensures p >= 1
  {
    if n == 0 then 1 else 10 * Pow10(n - 1)
  }

  lemma {:induction false} DigitsBound(s: string)
    requires AllDigits(s)
    ensures DigitsValue(s) < Pow10(|s|)
    decreases |s|
  {
    if s != [] {
      DigitsBound(s[..|s| - 1]);
    }
  }

  lemma {:induction false} DigitsConcat(a: string, b: string)
    requires AllDigits(a) && AllDigits(b)
    ensures AllDigits(a + b) && DigitsValue(a + b) == DigitsValue(a) * Pow10(|b|) + DigitsValue(b)
    decreases |b|
  {
    if b == [] {
      assert a + b == a;
    } else {
      var b' := b[..|b| - 1];
      DigitsConcat(a, b');
      assert (a + b)[..|a + b| - 1] == a + b';
      assert DigitsValue(a + b) == DigitsValue(a + b') * 10 + DigitValue(b[|b| - 1]);
      assert DigitsValue(b) == DigitsValue(b') * 10 + DigitValue(b[|b| - 1]);
      ShiftDigit(DigitsValue(a), Pow10(|b'|), DigitsValue(b'), DigitValue(b[|b| - 1]));
    }
  }

  lemma ShiftDigit(x: int, p: int, y: int, d: int)
    ensures (x * p + y) * 10 + d == x * (10 * p) + (y * 10 + d)
  {
  }

  lemma MulAtLeast(d: int, n: int)
    requires d >= 1 && n > 0
    ensures d * n >= n
  {
  }

  lemma MulSplit(x: int, d: int, n: int)
    ensures (x + d) * n == x * n + d * n
  {
  }

  /** Comparing `x * n + y` by value is comparing (x, y) lexicographically when both
      `y`s lie below `n`. */
  lemma LexBound(x1: int, y1: int, x2: int, y2: int, n: int)
    requires n > 0 && 0 <= y1 < n && 0 <= y2 < n
    ensures x1 * n + y1 < x2 * n + y2 <==> x1 < x2 || (x1 == x2 && y1 < y2)
  {
    if x1 < x2 {
      MulAtLeast(x2 - x1, n);
      MulSplit(x1, x2 - x1, n);
    } else if x2 < x1 {
      MulAtLeast(x1 - x2, n);
      MulSplit(x2, x1 - x2, n);
    }
  }

  /** On digit strings of one length, Python's string order is the order of their
      values. */
  lemma {:induction false} StrLtDigits(a: string, b: string)
    requires |a| == |b| && AllDigits(a) && AllDigits(b)
    ensures StrLt(a, b) <==> DigitsValue(a) < DigitsValue(b)
    decreases |a|
  {
    if a != [] {
      var n := |a| - 1;
      StrLtDigits(a[1..], b[1..]);
      assert a == [a[0]] + a[1..] && b == [b[0]] + b[1..];
      DigitsConcat([a[0]], a[1..]);
      DigitsConcat([b[0]], b[1..]);
      assert DigitsValue([a[0]]) == DigitValue(a[0]) by { assert [a[0]][..0] == []; }
      assert DigitsValue([b[0]]) == DigitValue(b[0]) by { assert [b[0]][..0] == []; }
      DigitsBound(a[1..]);
      DigitsBound(b[1..]);
      LexBound(DigitValue(a[0]), DigitsValue(a[1..]), DigitValue(b[0]), DigitsValue(b[1..]), Pow10(n));
    }
  }
}
