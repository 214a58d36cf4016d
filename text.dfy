/**
 * Character classes, stripping, splitting and decimal formatting as Python's
 * `str` does them, used by the transcriber, the lemmatiser and the deck
 * builder.  Strings are `seq<char>`.
 */
module Text {
  import opened Wrappers

  /** `str.isspace()` for one character: the set CPython's `strip`, `split`
      and the regular-expression class `\s` all use. */
  predicate IsSpace(c: char) {
    ('\U{0009}' <= c <= '\U{000D}') || ('\U{001C}' <= c <= '\U{0020}') ||
    c == '\U{0085}' || c == '\U{00A0}' || c == '\U{1680}' ||
    ('\U{2000}' <= c <= '\U{200A}') || c == '\U{2028}' || c == '\U{2029}' ||
    c == '\U{202F}' || c == '\U{205F}' || c == '\U{3000}'
  }

  /** An ASCII decimal digit. */
  predicate IsDigit(c: char) { '0' <= c <= '9' }

  predicate AllDigits(s: string) { forall i :: 0 <= i < |s| ==> IsDigit(s[i]) }

  predicate NoSpace(s: string) { forall i :: 0 <= i < |s| ==> !IsSpace(s[i]) }

  predicate AllSpace(s: string) { forall i :: 0 <= i < |s| ==> IsSpace(s[i]) }

  function DigitValue(c: char): nat
    requires IsDigit(c)
  {
    (c as int) - ('0' as int)
  }

  function DigitChar(d: nat): (c: char)
    requires d < 10
    ensures IsDigit(c) && DigitValue(c) == d
  {
    (('0' as int) + d) as char
  }

  // ---------------------------------------------------------------- stripping

  /** `s.lstrip()`: `s` without its leading spaces. */
  function LStrip(s: string): string {
    if s != [] && IsSpace(s[0]) then LStrip(s[1..]) else s
  }

  /** `s.rstrip()`: `s` without its trailing spaces. */
  function RStrip(s: string): string {
    if s != [] && IsSpace(s[|s| - 1]) then RStrip(s[..|s| - 1]) else s
  }

  /** `lstrip` keeps a suffix, drops only spaces and leaves no space in front. */
  lemma {:induction false} LStripFacts(s: string)
    ensures |LStrip(s)| <= |s| && LStrip(s) == s[|s| - |LStrip(s)|..]
    ensures AllSpace(s[..|s| - |LStrip(s)|])
    ensures LStrip(s) == [] || !IsSpace(LStrip(s)[0])
  {
    if s != [] && IsSpace(s[0]) {
      LStripFacts(s[1..]);
      var r := LStrip(s[1..]);
      assert s[1..][..|s| - 1 - |r|] == s[1..|s| - |r|];
      assert forall i :: 1 <= i < |s| - |r| ==> s[i] == s[1..][i - 1];
    }
  }

  /** `rstrip` keeps a prefix, drops only spaces and leaves no space at the end. */
  lemma {:induction false} RStripFacts(s: string)
    ensures |RStrip(s)| <= |s| && RStrip(s) == s[..|RStrip(s)|]
    ensures AllSpace(s[|RStrip(s)|..])
    ensures RStrip(s) == [] || !IsSpace(RStrip(s)[|RStrip(s)| - 1])
  {
    if s != [] && IsSpace(s[|s| - 1]) {
      RStripFacts(s[..|s| - 1]);
      var r := RStrip(s[..|s| - 1]);
      assert forall i :: |r| <= i < |s| - 1 ==> s[i] == s[..|s| - 1][i];
    }
  }

  /** Trailing spaces do not change what `rstrip()` keeps. */
  lemma {:induction false} RStripSpaces(b: string, w: string)
    requires AllSpace(w)
    ensures RStrip(b + w) == RStrip(b)
    decreases |w|
  {
    if w == [] {
      assert b + w == b;
    } else {
      var init := w[..|w| - 1];
      assert (b + w)[..|b + w| - 1] == b + init;
      assert (b + w)[|b + w| - 1] == w[|w| - 1];
      RStripSpaces(b, init);
    }
  }

  /** `rstrip()` of a string whose tail keeps something leaves the head alone. */
  lemma {:induction false} RStripKeepsHead(a: string, b: string)
    requires RStrip(b) != []
    ensures RStrip(a + b) == a + RStrip(b)
    decreases |b|
  {
    if IsSpace(b[|b| - 1]) {
      var init := b[..|b| - 1];
      assert (a + b)[..|a + b| - 1] == a + init;
      assert (a + b)[|a + b| - 1] == b[|b| - 1];
      RStripKeepsHead(a, init);
    } else {
      assert (a + b)[|a + b| - 1] == b[|b| - 1];
    }
  }

  /** `s.strip()`. */
  function Strip(s: string): string {
    RStrip(LStrip(s))
  }

  /** A string that neither starts nor ends with a space is its own `strip()`. */
  lemma {:induction false} StripOfTrimmed(s: string)
    requires s == [] || (!IsSpace(s[0]) && !IsSpace(s[|s| - 1]))
    ensures LStrip(s) == s && RStrip(s) == s && Strip(s) == s
  {
  }

  /** Spaces in front do not change what `strip()` keeps of the rest. */
  lemma {:induction false} LStripSkipsSpaces(w: string, s: string)
    requires AllSpace(w)
    ensures LStrip(w + s) == LStrip(s)
    decreases |w|
  {
    if w != [] {
      assert (w + s)[0] == w[0] && (w + s)[1..] == w[1..] + s;
      LStripSkipsSpaces(w[1..], s);
    } else {
      assert w + s == s;
    }
  }

  // ---------------------------------------------------------------- splitting

  /** Length of the run of spaces at the front of `s`. */
  function SpaceRun(s: string): (n: nat)
    ensures n <= |s|
  {
    if s != [] && IsSpace(s[0]) then 1 + SpaceRun(s[1..]) else 0
  }

  /** The run holds only spaces and stops at the first non-space. */
  lemma {:induction false} SpaceRunFacts(s: string)
    ensures var n := SpaceRun(s); AllSpace(s[..n]) && (n == |s| || !IsSpace(s[n]))
  {
    if s != [] && IsSpace(s[0]) {
      SpaceRunFacts(s[1..]);
      var n := SpaceRun(s);
      assert forall i :: 1 <= i < n ==> s[i] == s[1..][..n - 1][i - 1];
    }
  }

  /** Length of the run of non-space characters at the front of `s`. */
  function WordRun(s: string): (n: nat)
    ensures n <= |s| && NoSpace(s[..n]) && (n == |s| || IsSpace(s[n]))
  {
    if s != [] && !IsSpace(s[0]) then 1 + WordRun(s[1..]) else 0
  }

  /** `s.split()[0]`, or `None` where `s.split()` is empty (the source's
      `IndexError`). */
  function FirstWord(s: string): (r: Option<string>)
    ensures r.None? <==> AllSpace(s)
    ensures r.Some? ==>
      var k := SpaceRun(s);
      r.value != [] && NoSpace(r.value) && AllSpace(s[..k]) &&
      k + |r.value| <= |s| && s[k..k + |r.value|] == r.value &&
      (k + |r.value| == |s| || IsSpace(s[k + |r.value|]))
  {
    var k := SpaceRun(s);
    SpaceRunFacts(s);
    if k == |s| then
      assert s[..k] == s;
      None
    else
      assert !IsSpace(s[k]);
      var w := WordRun(s[k..]);
      assert w > 0;
      Some(s[k..][..w])
  }

  /** Length of the run of ASCII digits at the front of `s`. */
  function DigitRun(s: string): (n: nat)
    ensures n <= |s|
  {
    if s != [] && IsDigit(s[0]) then 1 + DigitRun(s[1..]) else 0
  }

  /** The run holds only digits and stops at the first non-digit. */
  lemma {:induction false} DigitRunFacts(s: string)
    ensures var n := DigitRun(s); AllDigits(s[..n]) && (n == |s| || !IsDigit(s[n]))
  {
    if s != [] && IsDigit(s[0]) {
      DigitRunFacts(s[1..]);
      var n := DigitRun(s);
      assert forall i :: 1 <= i < n ==> s[i] == s[1..][..n - 1][i - 1];
    }
  }

  /** A run of digits stops where the digits do. */
  lemma {:induction false} DigitRunOf(a: string, rest: string)
    requires AllDigits(a) && (rest == [] || !IsDigit(rest[0]))
    ensures DigitRun(a + rest) == |a|
  {
    var s := a + rest;
    var n := DigitRun(s);
    DigitRunFacts(s);
    assert forall i :: 0 <= i < n ==> IsDigit(s[i]) by {
      forall i | 0 <= i < n
        ensures IsDigit(s[i])
      {
        assert s[..n][i] == s[i];
      }
    }
    assert forall i :: 0 <= i < |a| ==> s[i] == a[i];
    assert |a| < |s| ==> s[|a|] == rest[0];
  }

  /** A run of spaces stops where the spaces do. */
  lemma {:induction false} SpaceRunOf(w: string, rest: string)
    requires AllSpace(w) && (rest == [] || !IsSpace(rest[0]))
    ensures SpaceRun(w + rest) == |w|
  {
    var s := w + rest;
    var n := SpaceRun(s);
    SpaceRunFacts(s);
    assert forall i :: 0 <= i < n ==> IsSpace(s[i]) by {
      forall i | 0 <= i < n
        ensures IsSpace(s[i])
      {
        assert s[..n][i] == s[i];
      }
    }
    assert forall i :: 0 <= i < |w| ==> s[i] == w[i];
    assert |w| < |s| ==> s[|w|] == rest[0];
  }

  /** `s.split()`: the maximal runs of non-space characters, in order. */
  function Words(s: string): seq<string>
    decreases |s|
  {
    var k := SpaceRun(s);
    if k == |s| then []
    else
      assert s[k..][0] == s[k];
      var w := WordRun(s[k..]);
      [s[k..][..w]] + Words(s[k + w..])
  }

  /** A run of non-space characters stops at the first space. */
  lemma {:induction false} WordRunOf(a: string, rest: string)
    requires NoSpace(a) && (rest == [] || IsSpace(rest[0]))
    ensures WordRun(a + rest) == |a|
  {
    var s := a + rest;
    var n := WordRun(s);
    assert forall i :: 0 <= i < n ==> !IsSpace(s[i]) by {
      forall i | 0 <= i < n
        ensures !IsSpace(s[i])
      {
        assert s[..n][i] == s[i];
      }
    }
    assert forall i :: 0 <= i < |a| ==> s[i] == a[i];
    assert |a| < |s| ==> s[|a|] == rest[0];
  }

  /** A word at the front is the first run. */
  lemma {:induction false} WordsCons(a: string, rest: string)
    requires a != [] && NoSpace(a) && (rest == [] || IsSpace(rest[0]))
    ensures Words(a + rest) == [a] + Words(rest)
  {
    var s := a + rest;
    assert s == [] + s && s[0] == a[0];
    SpaceRunOf([], s);
    WordRunOf(a, rest);
    assert s[0..] == s && s[0..][..|a|] == a && s[|a|..] == rest;
  }

  /** A space and then one word: that word is the only run. */
  lemma {:induction false} WordsOfSpaced(b: string)
    requires b != [] && NoSpace(b)
    ensures Words([' '] + b) == [b]
  {
    var t := [' '] + b;
    assert t[0] == ' ' && t[1..] == b;
    SpaceRunOf([' '], b);
    assert b == b + [];
    WordRunOf(b, []);
    assert t[1..][..|b|] == b && t[1 + |b|..] == [];
    assert Words([]) == [];
  }

  /** The runs of a string made of one word, a space and a second word. */
  lemma {:induction false} WordsOfPair(a: string, b: string)
    requires a != [] && NoSpace(a) && b != [] && NoSpace(b)
    ensures Words(a + [' '] + b) == [a, b]
  {
    var t := [' '] + b;
    assert a + [' '] + b == a + t && t[0] == ' ';
    WordsCons(a, t);
    WordsOfSpaced(b);
  }

  /** Index of the first `c` in `s`, or `|s|` when there is none. */
  function Find(s: string, c: char): (i: nat)
    ensures i <= |s| && (i < |s| ==> s[i] == c)
    ensures forall j :: 0 <= j < i ==> s[j] != c
  {
    if s == [] || s[0] == c then 0 else 1 + Find(s[1..], c)
  }

  /** `s.split(c)` for a one-character separator: the pieces between the
      separators, empty ones included, so there is always at least one. */
  function Fields(s: string, c: char): (r: seq<string>)
    ensures |r| >= 1
    decreases |s|
  {
    var i := Find(s, c);
    if i == |s| then [s] else [s[..i]] + Fields(s[i + 1..], c)
  }

  /** A piece free of the separator is split off whole. */
  lemma {:induction false} FieldsCons(a: string, c: char, b: string)
    requires c !in a
    ensures Fields(a + [c] + b, c) == [a] + Fields(b, c)
  {
    var s := a + [c] + b;
    var i := Find(s, c);
    assert s[|a|] == c;
    assert forall j :: 0 <= j < |a| ==> s[j] == a[j];
    assert i == |a|;
    assert s[..i] == a && s[i + 1..] == b;
  }

  lemma {:induction false} FieldsNone(a: string, c: char)
    requires c !in a
    ensures Fields(a, c) == [a]
  {
    assert forall j :: 0 <= j < |a| ==> a[j] != c;
  }

  /** `s.replace(a, b)` for single characters. */
  function Replace(s: string, a: char, b: char): (r: string)
    ensures |r| == |s|
    ensures forall i :: 0 <= i < |s| ==> r[i] == (if s[i] == a then b else s[i])
  {
    seq(|s|, i requires 0 <= i < |s| => if s[i] == a then b else s[i])
  }

  /** `int(s)`: surrounding spaces, an optional sign and at least one ASCII
      digit; anything else is the `ValueError`. */
  function IntOf(s: string): Option<int> {
    var t := Strip(s);
    if t == [] then None
    else
      var digits := if t[0] == '-' || t[0] == '+' then t[1..] else t;
      if digits != [] && AllDigits(digits) then
        var v: int := DigitsValue(digits);
        Some(if t[0] == '-' then -v else v)
      else None
  }

  /** A plain digit string reads as its value. */
  lemma {:induction false} IntOfDigits(d: string)
    requires d != [] && AllDigits(d)
    ensures IntOf(d) == Some(DigitsValue(d))
  {
    assert !IsSpace(d[0]) && !IsSpace(d[|d| - 1]);
    StripOfTrimmed(d);
  }

  /** `int(str(n)) == n`. */
  lemma {:induction false} IntOfNatToString(n: nat)
    ensures IntOf(NatToString(n)) == Some(n)
  {
    IntOfDigits(NatToString(n));
    NatToStringValue(n);
  }

  // --------------------------------------------------------- decimal numbers

  /** Python's `str(n)` for a non-negative integer. */
  function NatToString(n: nat): (s: string)
    ensures s != [] && AllDigits(s)
  {
    if n < 10 then [DigitChar(n)] else NatToString(n / 10) + [DigitChar(n % 10)]
  }

  /** The value of a string of decimal digits (`int(s)` on such a string). */
  function DigitsValue(s: string): nat
    requires AllDigits(s)
  {
    if s == [] then 0 else DigitsValue(s[..|s| - 1]) * 10 + DigitValue(s[|s| - 1])
  }

  function Pow10(k: nat): (p: nat)
    ensures p >= 1
  {
    if k == 0 then 1 else 10 * Pow10(k - 1)
  }

  function Zeros(k: nat): (s: string)
    ensures |s| == k && AllDigits(s)
  {
    if k == 0 then [] else Zeros(k - 1) + ['0']
  }

  /** Python's `f'{n:0{width}d}'` for a non-negative integer: the decimal
      digits of `n`, padded on the left with zeros up to `width`. */
  function ZeroPad(n: nat, width: nat): (s: string)
    ensures AllDigits(s)
  {
    var d := NatToString(n);
    if |d| < width then Zeros(width - |d|) + d else d
  }

  /** Reading back the decimal form gives the number. */
  lemma {:induction false} NatToStringValue(n: nat)
    ensures DigitsValue(NatToString(n)) == n
  {
    if n >= 10 {
      var s := NatToString(n);
      assert s[..|s| - 1] == NatToString(n / 10);
      NatToStringValue(n / 10);
    }
  }

  /** The decimal form of `n` has at most `k >= 1` digits exactly when
      `n < 10^k`. */
  lemma {:induction false} NatToStringLength(n: nat, k: nat)
    requires k >= 1
    ensures |NatToString(n)| <= k <==> n < Pow10(k)
  {
    if n >= 10 {
      assert |NatToString(n)| == |NatToString(n / 10)| + 1;
      if k == 1 {
        assert Pow10(1) == 10;
      } else {
        NatToStringLength(n / 10, k - 1);
        assert n < 10 * Pow10(k - 1) <==> n / 10 < Pow10(k - 1);
      }
    } else {
      assert Pow10(k) == 10 * Pow10(k - 1);
    }
  }

  lemma {:induction false} DigitsValueAppend(a: string, b: string)
    requires AllDigits(a) && AllDigits(b)
    ensures AllDigits(a + b)
    ensures DigitsValue(a + b) == DigitsValue(a) * Pow10(|b|) + DigitsValue(b)
    decreases |b|
  {
    if b != [] {
      var ab, init := a + b, b[..|b| - 1];
      assert ab[..|ab| - 1] == a + init;
      DigitsValueAppend(a, init);
      ShiftDigit(DigitsValue(a), DigitsValue(init), DigitValue(b[|b| - 1]), Pow10(|init|));
    } else {
      assert a + b == a;
    }
  }

  lemma {:induction false} ShiftDigit(va: nat, vi: nat, d: nat, p: nat)
    ensures (va * p + vi) * 10 + d == va * (p * 10) + (vi * 10 + d)
  {
  }

  lemma {:induction false} ZerosValue(k: nat)
    ensures DigitsValue(Zeros(k)) == 0
  {
    if k > 0 {
      assert Zeros(k)[..k - 1] == Zeros(k - 1);
      ZerosValue(k - 1);
    }
  }

  /** Zero padding keeps the value, and a number below `10^width` comes out
      exactly `width` characters long. */
  lemma {:induction false} ZeroPadValue(n: nat, width: nat)
    ensures DigitsValue(ZeroPad(n, width)) == n
    ensures |ZeroPad(n, width)| >= width
    ensures width >= 1 && n < Pow10(width) ==> |ZeroPad(n, width)| == width
  {
    ZeroPadDigits(n, width);
    if width >= 1 {
      NatToStringLength(n, width);
    }
  }

  /** Leading zeros do not change the value. */
  lemma {:induction false} ZeroPadDigits(n: nat, width: nat)
    ensures DigitsValue(ZeroPad(n, width)) == n
  {
    var d := NatToString(n);
    NatToStringValue(n);
    if |d| < width {
      var z := Zeros(width - |d|);
      DigitsValueAppend(z, d);
      ZerosValue(width - |d|);
      assert DigitsValue(z + d) == 0 * Pow10(|d|) + n;
    }
  }

  /** Distinct numbers give distinct zero-padded names. */
  lemma {:induction false} ZeroPadInjective(m: nat, n: nat, width: nat)
    requires ZeroPad(m, width) == ZeroPad(n, width)
    ensures m == n
  {
    ZeroPadValue(m, width);
    ZeroPadValue(n, width);
  }

  // ------------------------------------------------------------ lower-casing

  /** Lower-casing of one character; only the ASCII letters are mapped. */
  function LowerChar(c: char): char {
    if 'A' <= c <= 'Z' then ((c as int) + 32) as char else c
  }

  /** `s.lower()` restricted to ASCII case mapping. */
  function Lower(s: string): string {
    seq(|s|, i requires 0 <= i < |s| => LowerChar(s[i]))
  }

  predicate HasNoUpper(s: string) { forall i :: 0 <= i < |s| ==> !('A' <= s[i] <= 'Z') }

  /** Lower-casing leaves no ASCII upper-case letter and is idempotent. */
  lemma {:induction false} LowerIsLower(s: string)
    ensures HasNoUpper(Lower(s)) && Lower(Lower(s)) == Lower(s)
  {
  }

  // ------------------------------------------------------ universal newlines

  /** What reading `s` in text mode with universal newlines returns: every
      `\r\n` and every other `\r` becomes one `\n`. */
  function ReadText(s: string): (r: string)
    ensures '\r' !in r && |r| <= |s|
    decreases |s|
  {
    if s == [] then []
    else if s[0] == '\r' then "\n" + ReadText(if |s| > 1 && s[1] == '\n' then s[2..] else s[1..])
    else [s[0]] + ReadText(s[1..])
  }

  /** Text without a carriage return reads back unchanged; in particular
      reading is idempotent. */
  lemma {:induction false} ReadTextPlain(s: string)
    requires '\r' !in s
    ensures ReadText(s) == s
  {
    if s != [] {
      assert s[0] != '\r';
      assert '\r' !in s[1..] by {
        forall i | 0 <= i < |s| - 1
          ensures s[1..][i] != '\r'
        {
          assert s[1..][i] == s[i + 1];
        }
      }
      ReadTextPlain(s[1..]);
    }
  }

  /** A carriage return between two lines reads as a line break, so two of
      them read as a blank line. */
  lemma BlankLineFromReturns()
    ensures ReadText("a\r\rb") == "a\n\nb"
    ensures ReadText("a\r\n\r\nb") == "a\n\nb"
  {
    assert "a\r\rb"[1..] == "\r\rb";
    assert "\r\rb"[1..] == "\rb";
    assert "\rb"[1..] == "b";
    assert "a\r\n\r\nb"[1..] == "\r\n\r\nb";
    assert "\r\n\r\nb"[2..] == "\r\nb";
    assert "\r\nb"[2..] == "b";
  }
}
