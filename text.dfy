/** Character classes and string helpers shared by the parsers: Python's
    notion of whitespace, ASCII digits, `str.strip`, `str.lower` and the
    decimal spellings that `float()` and `pd.to_numeric` read. */
module Text {
  import opened Wrappers

  /** The characters for which Python's `str.isspace()` holds; `str.strip()`
      removes these, and `\s` in a `str` pattern matches exactly these. */
  predicate IsSpace(c: char) {
    || c == ' '
    || '\t' <= c <= '\r'
    || '\U{1C}' <= c <= '\U{1F}'
    || c == '\U{85}' || c == '\U{A0}' || c == '\U{1680}'
    || '\U{2000}' <= c <= '\U{200A}'
    || c == '\U{2028}' || c == '\U{2029}' || c == '\U{202F}'
    || c == '\U{205F}' || c == '\U{3000}'
  }

  /** `\d`, restricted to the ASCII digits. */
  predicate IsDigit(c: char) {
    '0' <= c <= '9'
  }

  predicate AllDigits(s: string) {
    forall k :: 0 <= k < |s| ==> IsDigit(s[k])
  }

  /** Length of the longest run of digits starting at `i`: what a greedy
      `\d*` consumes there. */
  function DigitRun(s: string, i: nat): (n: nat)
    requires i <= |s|
    ensures i + n <= |s|
    ensures i + n == |s| || !IsDigit(s[i + n])
    decreases |s| - i
  {
    if i < |s| && IsDigit(s[i]) then 1 + DigitRun(s, i + 1) else 0
  }

  /** Length of the longest run of whitespace starting at `i`: what a greedy
      `\s*` consumes there. */
  function SpaceRun(s: string, i: nat): (n: nat)
    requires i <= |s|
    ensures i + n <= |s|
    ensures i + n == |s| || !IsSpace(s[i + n])
    decreases |s| - i
  {
    if i < |s| && IsSpace(s[i]) then 1 + SpaceRun(s, i + 1) else 0
  }

  /** Everything a digit run covers is a digit. */
  lemma {:induction false} DigitRunDigits(s: string, i: nat)
    requires i <= |s|
    ensures forall k :: i <= k < i + DigitRun(s, i) ==> IsDigit(s[k])
    decreases |s| - i
  {
    if i < |s| && IsDigit(s[i]) {
      DigitRunDigits(s, i + 1);
    }
  }

  /** The run itself, cut out, is all digits. */
  lemma {:induction false} DigitRunSlice(s: string, i: nat)
    requires i <= |s|
    ensures AllDigits(s[i..i + DigitRun(s, i)])
  {
    var t := s[i..i + DigitRun(s, i)];
    DigitRunDigits(s, i);
    forall k | 0 <= k < |t| ensures IsDigit(t[k]) {
      assert t[k] == s[i + k];
    }
  }

  /** Everything a whitespace run covers is whitespace. */
  lemma {:induction false} SpaceRunSpaces(s: string, i: nat)
    requires i <= |s|
    ensures forall k :: i <= k < i + SpaceRun(s, i) ==> IsSpace(s[k])
    decreases |s| - i
  {
    if i < |s| && IsSpace(s[i]) {
      SpaceRunSpaces(s, i + 1);
    }
  }

  /** The value of a string of decimal digits. */
  function DigitsValue(s: string): nat
    requires AllDigits(s)
  {
    if |s| == 0 then 0
    else DigitsValue(s[..|s| - 1]) * 10 + (s[|s| - 1] as int - '0' as int)
  }

  function Pow10(n: nat): (p: nat)
    ensures p >= 1
  {
    if n == 0 then 1 else 10 * Pow10(n - 1)
  }

  /** The unsigned decimal spellings `\d+(\.\d*)?` and `\.\d+`. */
  function ParseUnsigned(s: string): (r: Option<real>)
    ensures r.Some? ==> r.value >= 0.0
    ensures r.Some? && AllDigits(s) ==> r.value == DigitsValue(s) as real
  {
    var d := DigitRun(s, 0);
    DigitRunDigits(s, 0);
    if d == |s| then
      if d > 0 then Some(DigitsValue(s) as real) else None
    else if s[d] == '.' then
      var f := DigitRun(s, d + 1);
      DigitRunDigits(s, d + 1);
      if d + 1 + f == |s| && d + f > 0 then
        Some(DigitsValue(s[..d]) as real + DigitsValue(s[d + 1..]) as real / Pow10(f) as real)
      else None
    else None
  }

  /** What Python's `float()` (and `pd.to_numeric`) make of a decimal
      spelling with an optional sign; `None` where they would raise or
      produce NaN. Exponents, `inf`, `nan` and underscores are not read. */
  function ParseDecimal(s: string): (r: Option<real>)
    ensures |s| > 0 && s[0] == '-' ==> r.Some? ==> r.value <= 0.0
    ensures |s| > 0 && s[0] == '+' ==> r.Some? ==> r.value >= 0.0
    ensures |s| > 0 && s[0] != '-' && s[0] != '+' ==> r == ParseUnsigned(s)
  {
    if |s| > 0 && s[0] == '-' then
      match ParseUnsigned(s[1..])
      case Some(v) => Some(-v)
      case None => None
    else if |s| > 0 && s[0] == '+' then ParseUnsigned(s[1..])
    else ParseUnsigned(s)
  }

  /** A run of digits reads as its value. */
  lemma {:induction false} ParseUnsignedDigits(ds: string)
    requires |ds| > 0 && AllDigits(ds)
    ensures ParseUnsigned(ds) == Some(DigitsValue(ds) as real)
  {
    DigitRunToEnd(ds, 0);
  }

  /** Digits followed by `.5` read as their value and a half. */
  lemma {:induction false} ParseUnsignedHalf(ds: string)
    requires |ds| > 0 && AllDigits(ds)
    ensures ParseUnsigned(ds + ".5") == Some(DigitsValue(ds) as real + 0.5)
  {
    var s := ds + ".5";
    var d := |ds|;
    assert s[..d] == ds && s[d] == '.' && s[d + 1..] == "5";
    DigitRunExact(s, 0, d);
    DigitRunExact(s, d + 1, |s|);
    assert DigitsValue("5") == 5;
  }

  /** A spelling with an optional leading sign reads as its unsigned part,
      negated after a `-`. */
  lemma {:induction false} ParseDecimalSigned(t: string, a: nat, body: string, v: real)
    requires a <= 1 && |t| == a + |body| && t[a..] == body && ParseUnsigned(body) == Some(v)
    requires a == 1 ==> t[0] == '+' || t[0] == '-'
    requires a == 0 ==> |body| > 0 && body[0] != '+' && body[0] != '-'
    ensures ParseDecimal(t) == Some(if a == 1 && t[0] == '-' then -v else v)
  {
    if a == 0 {
      assert t == body;
    } else {
      assert t[1..] == body;
    }
  }

  /** Python's `int()` on a string of ASCII digits; `None` where it would
      raise `ValueError` (signs and surrounding whitespace are not read). */
  function ParseInt(s: string): (r: Option<nat>)
    ensures r.Some? <==> |s| > 0 && AllDigits(s)
  {
    if |s| > 0 && AllDigits(s) then Some(DigitsValue(s)) else None
  }

  function DigitChar(d: nat): (c: char)
    requires d < 10
    ensures IsDigit(c) && c as int - '0' as int == d
  {
    ('0' as int + d) as char
  }

  /** `str(n)` for a natural number: its decimal digits, most significant first. */
  function Numeral(n: nat): (s: string)
    ensures |s| > 0 && AllDigits(s)
    ensures |s| > 1 ==> s[0] != '0'
    decreases n
  {
    if n < 10 then [DigitChar(n)] else Numeral(n / 10) + [DigitChar(n % 10)]
  }

  /** `int(str(n)) == n`: reading back a written number gives the number. */
  lemma {:induction false} ParseIntNumeral(n: nat)
    ensures ParseInt(Numeral(n)) == Some(n)
    decreases n
  {
    var s := Numeral(n);
    if n < 10 {
      assert s[..0] == [] && DigitsValue(s) == DigitsValue(s[..0]) * 10 + (s[0] as int - '0' as int);
    } else {
      ParseIntNumeral(n / 10);
      assert s[..|s| - 1] == Numeral(n / 10);
    }
  }

  /** `str.strip()`: the slice of `s` left after dropping leading and
      trailing whitespace. */
  function Strip(s: string): (r: string)
    ensures |r| <= |s|
    ensures |r| > 0 ==> !IsSpace(r[0]) && !IsSpace(r[|r| - 1])
  {
    var lo := SpaceRun(s, 0);
    var hi := TrailingStart(s, lo, |s|);
    s[lo..hi]
  }

  /** The index where the trailing whitespace of `s[..hi]` begins, not before `lo`. */
  function TrailingStart(s: string, lo: nat, hi: nat): (t: nat)
    requires lo <= hi <= |s|
    ensures lo <= t <= hi
    ensures t == lo || !IsSpace(s[t - 1])
    decreases hi
  {
    if hi == lo then lo
    else if IsSpace(s[hi - 1]) then TrailingStart(s, lo, hi - 1)
    else hi
  }

  /** Everything from the cut to `hi` is whitespace. */
  lemma {:induction false} TrailingSpaces(s: string, lo: nat, hi: nat)
    requires lo <= hi <= |s|
    ensures forall k :: TrailingStart(s, lo, hi) <= k < hi ==> IsSpace(s[k])
    decreases hi
  {
    if hi > lo && IsSpace(s[hi - 1]) {
      TrailingSpaces(s, lo, hi - 1);
    }
  }

  /** An ASCII capital letter. */
  predicate IsUpper(c: char) {
    'A' <= c <= 'Z'
  }

  /** A capital becomes the same letter in lower case; anything else is kept. */
  function LowerChar(c: char): (d: char)
    ensures !IsUpper(d)
    ensures IsUpper(c) ==> 'a' <= d <= 'z' && d as int - 'a' as int == c as int - 'A' as int
    ensures !IsUpper(c) ==> d == c
  {
    if 'A' <= c <= 'Z' then (c as int + 32) as char else c
  }

  /** `str.lower()`, on the ASCII letters: no capital is left, every other
      character stays where it was, and a capital becomes its own letter
      in lower case. */
  function Lower(s: string): (r: string)
    ensures |r| == |s|
    ensures forall k :: 0 <= k < |r| ==> !IsUpper(r[k])
    ensures forall k :: 0 <= k < |s| && !IsUpper(s[k]) ==> r[k] == s[k]
    ensures forall k :: 0 <= k < |s| && IsUpper(s[k]) ==>
              'a' <= r[k] <= 'z' && r[k] as int - 'a' as int == s[k] as int - 'A' as int
  {
    seq(|s|, k requires 0 <= k < |s| => LowerChar(s[k]))
  }

  /** A digit run read inside a suffix is the same run. */
  lemma {:induction false} DigitRunShift(s: string, j: nat, i: nat)
    requires j + i <= |s|
    ensures DigitRun(s[j..], i) == DigitRun(s, j + i)
    decreases |s| - j - i
  {
    if j + i < |s| {
      assert s[j..][i] == s[j + i];
      if IsDigit(s[j + i]) {
        DigitRunShift(s, j, i + 1);
      }
    }
  }

  /** Over a tail of digits the run reaches the end. */
  lemma {:induction false} DigitRunToEnd(s: string, i: nat)
    requires i <= |s| && forall k :: i <= k < |s| ==> IsDigit(s[k])
    ensures DigitRun(s, i) == |s| - i
    decreases |s| - i
  {
    if i < |s| {
      DigitRunToEnd(s, i + 1);
    }
  }

  /** `str.split(sep)`: the pieces between the separators, in order. */
  function Split(s: string, sep: char): (r: seq<string>)
    ensures |r| >= 1
  {
    if |s| == 0 then [""]
    else
      var rest := Split(s[..|s| - 1], sep);
      var c := s[|s| - 1];
      if c == sep then rest + [""]
      else rest[..|rest| - 1] + [rest[|rest| - 1] + [c]]
  }

  /** A string without the separator is one piece. */
  lemma {:induction false} SplitWithoutSep(a: string, sep: char)
    requires forall k :: 0 <= k < |a| ==> a[k] != sep
    ensures Split(a, sep) == [a]
  {
    if |a| > 0 {
      var n := |a| - 1;
      SplitWithoutSep(a[..n], sep);
      assert a[..n] + [a[n]] == a;
    }
  }

  /** One more character either starts a new piece or extends the last. */
  lemma {:induction false} SplitSnoc(t: string, c: char, sep: char)
    ensures var r := Split(t, sep);
            Split(t + [c], sep) == if c == sep then r + [""] else r[..|r| - 1] + [r[|r| - 1] + [c]]
  {
    assert (t + [c])[..|t|] == t;
  }

  /** Extending the last piece of `y` commutes with prefixing `x`. */
  lemma {:induction false} SplitSnocConcat(x: seq<string>, y: seq<string>, c: char, sep: char)
    requires |y| >= 1
    ensures x + (if c == sep then y + [""] else y[..|y| - 1] + [y[|y| - 1] + [c]])
            == (var r := x + y; if c == sep then r + [""] else r[..|r| - 1] + [r[|r| - 1] + [c]])
  {
    assert (x + y)[..|x + y| - 1] == x + y[..|y| - 1];
  }

  /** Splitting at a separator splits the two sides independently. */
  lemma {:induction false} SplitAtSep(a: string, b: string, sep: char)
    ensures Split(a + [sep] + b, sep) == Split(a, sep) + Split(b, sep)
    decreases |b|
  {
    if |b| == 0 {
      assert a + [sep] + b == a + [sep];
      SplitSnoc(a, sep, sep);
    } else {
      var n := |b| - 1;
      var b0, c := b[..n], b[n];
      var a0 := a + [sep] + b0;
      assert b == b0 + [c];
      assert a + [sep] + b == a0 + [c];
      SplitAtSep(a, b0, sep);
      SplitSnoc(a0, c, sep);
      SplitSnoc(b0, c, sep);
      SplitSnocConcat(Split(a, sep), Split(b0, sep), c, sep);
    }
  }

  /** What `\d+-\d+` matches in full: a won-lost record or a projected score. */
  predicate IsDigitPair(s: string) {
    var k := DigitRun(s, 0);
    0 < k && k + 1 < |s| && s[k] == '-' && AllDigits(s[k + 1..])
  }

  /** `\d+-\d+` at `a`, each run taken longest (a `-` or the next token
      must follow it): where the match ends. */
  function DigitPairAt(s: string, a: nat): (e: Option<nat>)
    requires a <= |s|
    ensures e.Some? ==> a < e.value <= |s|
    ensures e.Some? ==> e.value == |s| || !IsDigit(s[e.value])
  {
    var d1 := DigitRun(s, a);
    if d1 > 0 && a + d1 < |s| && s[a + d1] == '-' then
      var d2 := DigitRun(s, a + d1 + 1);
      if d2 > 0 then Some(a + d1 + 1 + d2) else None
    else None
  }

  /** What `DigitPairAt` finds is a digit pair. */
  lemma {:induction false} DigitPairAtSound(s: string, a: nat)
    requires a <= |s| && DigitPairAt(s, a).Some?
    ensures IsDigitPair(s[a..DigitPairAt(s, a).value])
  {
    var d1 := DigitRun(s, a);
    var d2 := DigitRun(s, a + d1 + 1);
    DigitRunDigits(s, a + d1 + 1);
    DigitRunSliceAt(s, a, a + d1 + 1 + d2, 0);
  }

  /** Digit runs inside a slice are those of the whole string, cut at the
      slice's end. */
  lemma {:induction false} DigitRunSliceAt(s: string, a: nat, b: nat, i: nat)
    requires a <= b <= |s| && i <= b - a
    ensures DigitRun(s[a..b], i) == if a + i + DigitRun(s, a + i) <= b then DigitRun(s, a + i) else b - a - i
    decreases b - a - i
  {
    if i < b - a {
      DigitRunSliceAt(s, a, b, i + 1);
    }
  }

  /** What `\d+\.?\d*` (equally `\d+(\.\d*)?`) matches in full. */
  predicate IsUnsignedDecimal(s: string) {
    var d := DigitRun(s, 0);
    d > 0 && (d == |s| || (s[d] == '.' && AllDigits(s[d + 1..])))
  }

  /** Every such spelling is a number, and never a negative one. */
  lemma {:induction false} UnsignedDecimalParses(s: string)
    requires IsUnsignedDecimal(s)
    ensures ParseDecimal(s).Some? && ParseDecimal(s).value >= 0.0
  {
    var d := DigitRun(s, 0);
    if d < |s| {
      forall k | d + 1 <= k < |s| ensures IsDigit(s[k]) {
        assert s[k] == s[d + 1..][k - d - 1];
      }
      DigitRunToEnd(s, d + 1);
    }
  }

  /** The slice `s[i..e]` read by the greedy `\d+\.?\d*` at `i` is such a spelling. */
  lemma {:induction false} UnsignedDecimalSlice(s: string, i: nat, p: nat, e: nat)
    requires i < p <= e <= |s| && p == i + DigitRun(s, i)
    requires e == p || (s[p] == '.' && e == p + 1 + DigitRun(s, p + 1))
    ensures IsUnsignedDecimal(s[i..e])
  {
    var t := s[i..e];
    DigitRunSliceAt(s, i, e, 0);
    assert DigitRun(t, 0) == p - i;
    if e != p {
      DigitRunDigits(s, p + 1);
      assert t[p - i] == '.';
      assert t[p - i + 1..] == s[p + 1..e];
    }
  }

  /** `str.replace(c, t)` for a one-character pattern: every `c` becomes `t`. */
  function ReplaceChar(s: string, c: char, t: string): (r: string)
    ensures (forall k :: 0 <= k < |s| ==> s[k] != c) ==> r == s
  {
    if |s| == 0 then []
    else ReplaceChar(s[..|s| - 1], c, t) + (if s[|s| - 1] == c then t else [s[|s| - 1]])
  }

  /** With a one-character replacement the string keeps its length and
      changes position by position. */
  lemma {:induction false} ReplaceCharPointwise(s: string, c: char, d: char)
    ensures |ReplaceChar(s, c, [d])| == |s|
    ensures forall k :: 0 <= k < |s| ==> ReplaceChar(s, c, [d])[k] == if s[k] == c then d else s[k]
  {
    if |s| > 0 {
      ReplaceCharPointwise(s[..|s| - 1], c, d);
    }
  }

  /** `str.strip()` leaves alone a string that neither starts nor ends with whitespace. */
  lemma {:induction false} StripTrimmed(s: string)
    requires |s| > 0 ==> !IsSpace(s[0]) && !IsSpace(s[|s| - 1])
    ensures Strip(s) == s
  {
    if |s| > 0 {
      assert SpaceRun(s, 0) == 0;
      assert TrailingStart(s, 0, |s|) == |s|;
    }
  }

  /** Lower-casing twice is lower-casing once. */
  lemma {:induction false} LowerIdempotent(s: string)
    ensures Lower(Lower(s)) == Lower(s)
  {
    LowerFixed(Lower(s));
  }

  /** A string without capitals is its own lower-case form. */
  lemma {:induction false} LowerFixed(s: string)
    requires forall k :: 0 <= k < |s| ==> !IsUpper(s[k])
    ensures Lower(s) == s
  {
    assert forall k :: 0 <= k < |s| ==> Lower(s)[k] == s[k];
  }

  /** A whitespace run that stops at a non-space (or the end) is what
      `SpaceRun` measures. */
  lemma {:induction false} SpaceRunExact(s: string, i: nat, j: nat)
    requires i <= j <= |s| && (forall k :: i <= k < j ==> IsSpace(s[k]))
    requires j == |s| || !IsSpace(s[j])
    ensures SpaceRun(s, i) == j - i && i + SpaceRun(s, i) == j
    decreases j - i
  {
    if i < j {
      SpaceRunExact(s, i + 1, j);
    }
  }

  /** A digit run that stops at a non-digit (or the end) is what
      `DigitRun` measures. */
  lemma {:induction false} DigitRunExact(s: string, i: nat, j: nat)
    requires i <= j <= |s| && (forall k :: i <= k < j ==> IsDigit(s[k]))
    requires j == |s| || !IsDigit(s[j])
    ensures DigitRun(s, i) == j - i
    decreases j - i
  {
    if i < j {
      DigitRunExact(s, i + 1, j);
    }
  }

  /** A digit pair at `a` that is not followed by a digit is found in full. */
  lemma {:induction false} DigitPairAtExact(s: string, a: nat, e: nat)
    requires a <= e <= |s| && IsDigitPair(s[a..e])
    requires e == |s| || !IsDigit(s[e])
    ensures DigitPairAt(s, a) == Some(e)
  {
    var x := s[a..e];
    var k := DigitRun(x, 0);
    DigitRunSliceAt(s, a, e, 0);
    assert DigitRun(s, a) == k;
    assert s[a + k] == x[k] == '-';
    forall j | a + k + 1 <= j < e ensures IsDigit(s[j]) {
      assert s[j] == x[k + 1..][j - a - k - 1];
    }
    DigitRunExact(s, a + k + 1, e);
  }

  /** A whitespace run down from `hi` that stops at a non-space (or at
      `lo`) is where `TrailingStart` puts the cut. */
  lemma {:induction false} TrailingStartExact(s: string, lo: nat, t: nat, hi: nat)
    requires lo <= t <= hi <= |s| && (forall k :: t <= k < hi ==> IsSpace(s[k]))
    requires t == lo || !IsSpace(s[t - 1])
    ensures TrailingStart(s, lo, hi) == t
    decreases hi
  {
    if t < hi {
      TrailingStartExact(s, lo, t, hi - 1);
    }
  }

  /** `str.strip()` of a string whose text runs from `lo` to `hi`, with only
      whitespace around it. */
  lemma {:induction false} StripExact(x: string, lo: nat, hi: nat)
    requires lo < hi <= |x| && !IsSpace(x[lo]) && !IsSpace(x[hi - 1])
    requires forall k :: 0 <= k < lo ==> IsSpace(x[k])
    requires forall k :: hi <= k < |x| ==> IsSpace(x[k])
    ensures Strip(x) == x[lo..hi]
  {
    SpaceRunExact(x, 0, lo);
    TrailingStartExact(x, lo, hi, |x|);
  }

  /** `str.strip()` of a string that is all whitespace is empty. */
  lemma {:induction false} StripAllSpace(x: string)
    requires forall k :: 0 <= k < |x| ==> IsSpace(x[k])
    ensures Strip(x) == ""
  {
    SpaceRunExact(x, 0, |x|);
  }

  /** `str.strip()` keeps something of a string that is not all whitespace. */
  lemma {:induction false} StripKeeps(x: string)
    requires SpaceRun(x, 0) < |x|
    ensures SpaceRun(x, 0) < TrailingStart(x, SpaceRun(x, 0), |x|)
  {
    StripBounds(x);
  }

  /** Where `str.strip()` cuts a string that is not all whitespace: the
      kept text starts and ends with a character that is not whitespace, and
      only whitespace is cut away on either side. */
  lemma {:induction false} StripBounds(x: string)
    requires SpaceRun(x, 0) < |x|
    ensures var lo := SpaceRun(x, 0); var hi := TrailingStart(x, lo, |x|);
            && lo < hi && !IsSpace(x[lo]) && !IsSpace(x[hi - 1])
            && (forall k :: 0 <= k < lo ==> IsSpace(x[k]))
            && (forall k :: hi <= k < |x| ==> IsSpace(x[k]))
  {
    var lo := SpaceRun(x, 0);
    SpaceRunSpaces(x, 0);
    TrailingSpaces(x, lo, |x|);
  }
}
