/**
  * The Python `str` primitives the bot relies on, stated over `seq<char>`:
  * whitespace (`str.isspace`, the `\s` class of `re`), `strip`, `split`, `join`,
  * `startswith`, `str(int)`, `int(str)` and the plain decimal form accepted by `float(str)`.
  */
module PyStr {
  import opened Wrappers

  /** `c.isspace()`; the same set is the `\s` class of `re` on `str` patterns. */
  predicate IsSpace(c: char) {
    c == ' ' || ('\U{9}' <= c <= '\U{D}') || ('\U{1C}' <= c <= '\U{1F}')
    || c == '\U{85}' || c == '\U{A0}' || c == '\U{1680}'
    || ('\U{2000}' <= c <= '\U{200A}') || c == '\U{2028}' || c == '\U{2029}'
    || c == '\U{202F}' || c == '\U{205F}' || c == '\U{3000}'
  }

  /** An ASCII decimal digit. */
  predicate IsDigit(c: char) { '0' <= c <= '9' }

  predicate IsAsciiLetter(c: char) { 'a' <= c <= 'z' || 'A' <= c <= 'Z' }

  /** The class `[A-Za-z0-9]`. */
  predicate IsAsciiAlnum(c: char) { IsAsciiLetter(c) || IsDigit(c) }

  predicate AllDigits(s: string) { forall i :: 0 <= i < |s| ==> IsDigit(s[i]) }

  predicate NoSpace(s: string) { forall i :: 0 <= i < |s| ==> !IsSpace(s[i]) }

  /** `s.startswith(prefix)`. */
  predicate StartsWith(s: string, prefix: string) {
    |prefix| <= |s| && s[..|prefix|] == prefix
  }

  // ---------------------------------------------------------------- strip

  /** `s.lstrip()`: the suffix left after the leading whitespace. */
  function LStrip(s: string): (r: string)
    ensures |r| <= |s| && r == s[|s| - |r|..]
    ensures r == [] || !IsSpace(r[0])
    ensures forall i :: 0 <= i < |s| - |r| ==> IsSpace(s[i])
  {
    if s != [] && IsSpace(s[0]) then LStrip(s[1..]) else s
  }

  /** `s.rstrip()`: the prefix left before the trailing whitespace. */
  function RStrip(s: string): (r: string)
    ensures |r| <= |s| && r == s[..|r|]
    ensures r == [] || !IsSpace(r[|r| - 1])
    ensures forall i :: |r| <= i < |s| ==> IsSpace(s[i])
  {
    if s != [] && IsSpace(s[|s| - 1]) then RStrip(s[..|s| - 1]) else s
  }

  /** `s.strip()`. */
  function Strip(s: string): (r: string)
    ensures |r| <= |s|
    ensures r == [] || (!IsSpace(r[0]) && !IsSpace(r[|r| - 1]))
  {
    RStrip(LStrip(s))
  }

  /** `lstrip` removes exactly the leading whitespace run, whatever its length. */
  lemma {:induction false} LStripAt(s: string, n: nat)
    requires n <= |s|
    requires forall i :: 0 <= i < n ==> IsSpace(s[i])
    requires n < |s| ==> !IsSpace(s[n])
    ensures LStrip(s) == s[n..]
  {
    if n > 0 {
      LStripAt(s[1..], n - 1);
      assert s[1..][n - 1..] == s[n..];
    }
  }

  /** Text that neither starts nor ends with whitespace is its own `strip()`. */
  lemma StripUnchanged(s: string)
    requires s == [] || (!IsSpace(s[0]) && !IsSpace(s[|s| - 1]))
    ensures Strip(s) == s
  {
  }

  // ---------------------------------------------------------------- split / join

  /** Position of the first `c` in `s`. */
  function IndexOf(s: string, c: char): (i: nat)
    requires c in s
    ensures i < |s| && s[i] == c && c !in s[..i]
  {
    if s[0] == c then 0
    else
      var j := IndexOf(s[1..], c);
      assert s[..j + 1] == [s[0]] + s[1..][..j];
      j + 1
  }

  /** `s.split(c)` for a one-character separator: never empty. */
  function Split(s: string, c: char): (parts: seq<string>)
    ensures |parts| >= 1
    decreases |s|
  {
    if c in s then
      var i := IndexOf(s, c);
      [s[..i]] + Split(s[i + 1..], c)
    else [s]
  }

  /** `sep.join(parts)`. */
  function Join(parts: seq<string>, sep: string): string
  {
    if parts == [] then ""
    else if |parts| == 1 then parts[0]
    else parts[0] + sep + Join(parts[1..], sep)
  }

  lemma {:induction false} IndexOfAfterPrefix(a: string, c: char, b: string)
    requires c !in a
    ensures c in a + [c] + b && IndexOf(a + [c] + b, c) == |a|
  {
    assert (a + [c] + b)[|a|] == c;
    if a != [] {
      assert (a + [c] + b)[1..] == a[1..] + [c] + b;
      assert c !in a[1..] by { assert forall k :: 0 <= k < |a| - 1 ==> a[1..][k] == a[k + 1]; }
      IndexOfAfterPrefix(a[1..], c, b);
    }
  }

  /** No piece of a split holds the separator. */
  lemma {:induction false} SplitPiecesClean(s: string, c: char)
    ensures forall i :: 0 <= i < |Split(s, c)| ==> c !in Split(s, c)[i]
    decreases |s|
  {
    if c in s {
      var i := IndexOf(s, c);
      SplitPiecesClean(s[i + 1..], c);
    }
  }

  /** Splitting the joined text recovers the pieces, when no piece holds the separator. */
  lemma {:induction false} SplitJoin(parts: seq<string>, c: char)
    requires parts != []
    requires forall i :: 0 <= i < |parts| ==> c !in parts[i]
    ensures Split(Join(parts, [c]), c) == parts
  {
    if |parts| > 1 {
      var rest := Join(parts[1..], [c]);
      assert parts == [parts[0]] + parts[1..];
      SplitAfterPiece(parts[0], c, rest);
      assert Split(parts[0], c) == [parts[0]];
      SplitJoin(parts[1..], c);
    }
  }

  /** A split cuts at the first separator. */
  lemma SplitAt(s: string, c: char, i: nat)
    requires i < |s| && s[i] == c && c !in s[..i]
    ensures Split(s, c) == [s[..i]] + Split(s[i + 1..], c)
  {
    assert s == s[..i] + [c] + s[i + 1..];
    IndexOfAfterPrefix(s[..i], c, s[i + 1..]);
  }

  /** With no separator in `x`, the text after `x_` splits on its own. */
  lemma SplitAfterPiece(x: string, c: char, y: string)
    requires c !in x
    ensures Split(x + [c] + y, c) == Split(x, c) + Split(y, c)
  {
    var s := x + [c] + y;
    assert s[..|x|] == x && s[|x|] == c;
    SplitAt(s, c, |x|);
    assert s[|x| + 1..] == y;
  }

  /** Cutting `x_y` at the first separator of `x`. */
  lemma SplitThroughFirst(x: string, c: char, y: string) returns (x2: string)
    requires c in x
    ensures |x2| < |x|
    ensures Split(x, c) == [x[..IndexOf(x, c)]] + Split(x2, c)
    ensures Split(x + [c] + y, c) == [x[..IndexOf(x, c)]] + Split(x2 + [c] + y, c)
  {
    var s := x + [c] + y;
    var i := IndexOf(x, c);
    assert s[..i] == x[..i] && s[i] == c;
    SplitAt(s, c, i);
    SplitAt(x, c, i);
    x2 := x[i + 1..];
    assert s[i + 1..] == x2 + [c] + y;
  }

  /** `r + (p + q)` regrouped as `(r + p) + q`. */
  lemma Regroup<T>(whole: seq<T>, left: seq<T>, r: seq<T>, p: seq<T>, q: seq<T>)
    requires whole == r + (p + q) && left == r + p
    ensures whole == left + q
  {
    assert r + (p + q) == (r + p) + q;
  }

  /** Splitting at a separator between two texts splits each of them. */
  lemma {:induction false} SplitConcat(x: string, c: char, y: string)
    ensures Split(x + [c] + y, c) == Split(x, c) + Split(y, c)
    decreases |x|
  {
    if c in x {
      var x2 := SplitThroughFirst(x, c, y);
      SplitConcat(x2, c, y);
      Regroup(Split(x + [c] + y, c), Split(x, c), [x[..IndexOf(x, c)]], Split(x2, c), Split(y, c));
    } else {
      SplitAfterPiece(x, c, y);
    }
  }

  /** Joining the pieces of a split gives back the text. */
  lemma {:induction false} JoinSplit(s: string, c: char)
    ensures Join(Split(s, c), [c]) == s
    decreases |s|
  {
    if c in s {
      var i := IndexOf(s, c);
      var tail := Split(s[i + 1..], c);
      JoinSplit(s[i + 1..], c);
      var parts := [s[..i]] + tail;
      assert parts[1..] == tail;
      assert Join(parts, [c]) == s[..i] + [c] + Join(tail, [c]);
      assert s == s[..i] + [c] + s[i + 1..];
    }
  }

  // ---------------------------------------------------------------- words

  /** Length of the run of non-whitespace characters that starts `s`. */
  function WordLength(s: string): (n: nat)
    ensures n <= |s| && NoSpace(s[..n])
    ensures n < |s| ==> IsSpace(s[n])
    ensures s != [] && !IsSpace(s[0]) ==> n >= 1
  {
    if s == [] || IsSpace(s[0]) then 0
    else
      var m := WordLength(s[1..]);
      assert s[..m + 1] == [s[0]] + s[1..][..m];
      1 + m
  }

  /** `s.split()` without an argument: the maximal runs of non-whitespace characters. */
  function Words(s: string): (ws: seq<string>)
    ensures forall i :: 0 <= i < |ws| ==> ws[i] != [] && NoSpace(ws[i])
    decreases |s|
  {
    if s == [] then []
    else if IsSpace(s[0]) then Words(s[1..])
    else
      var n := WordLength(s);
      [s[..n]] + Words(s[n..])
  }

  // ---------------------------------------------------------------- numbers

  function DigitChar(d: nat): (c: char)
    requires d < 10
    ensures IsDigit(c)
  {
    ('0' as int + d) as char
  }

  function DigitValue(c: char): (d: nat)
    requires IsDigit(c)
    ensures d < 10
  {
    c as int - '0' as int
  }

  function Pow10(k: nat): (p: nat)
    ensures p >= 1
  {
    if k == 0 then 1 else 10 * Pow10(k - 1)
  }

  /** The decimal digits of `n` without leading zeros: Python `str(n)` for `n >= 0`. */
  function NatToDigits(n: nat): (s: string)
    ensures s != [] && AllDigits(s)
  {
    if n < 10 then [DigitChar(n)] else NatToDigits(n / 10) + [DigitChar(n % 10)]
  }

  /** The value of a string of decimal digits (most significant first). */
  function DigitsValue(s: string): nat
    requires AllDigits(s)
  {
    if s == [] then 0 else DigitsValue(s[..|s| - 1]) * 10 + DigitValue(s[|s| - 1])
  }

  lemma {:induction false} DigitsRoundTrip(n: nat)
    ensures DigitsValue(NatToDigits(n)) == n
  {
    if n >= 10 {
      DigitsRoundTrip(n / 10);
      var s := NatToDigits(n);
      assert s[..|s| - 1] == NatToDigits(n / 10);
    }
  }

  /** Python `str(n)`. */
  function IntToString(n: int): (s: string)
    ensures s != [] && !IsSpace(s[0]) && !IsSpace(s[|s| - 1]) && IsDigit(s[|s| - 1])
    ensures '_' !in s
  {
    if n < 0 then "-" + NatToDigits(-n) else NatToDigits(n)
  }

  /**
    * Python `int(s)` for text that is, after `strip()`, an optional sign and
    * one or more ASCII digits; `None` for any other text, including the
    * non-ASCII decimal digits and the `_`-grouped digits (`"1_0"`) that
    * Python accepts.
    */
  function ParseInt(s: string): (r: Option<int>)
    ensures r.Some? ==> Strip(s) != []
    ensures r.Some? && r.value < 0 ==> Strip(s)[0] == '-'
  {
    ParseSigned(Strip(s))
  }

  /** `int` on text with nothing left to strip. */
  function ParseSigned(t: string): Option<int>
  {
    if |t| > 1 && (t[0] == '-' || t[0] == '+') && AllDigits(t[1..]) then
      Some(if t[0] == '-' then -(DigitsValue(t[1..]) as int) else DigitsValue(t[1..]))
    else if t != [] && AllDigits(t) then Some(DigitsValue(t))
    else None
  }

  /** `int(str(n)) == n`. */
  lemma IntRoundTrip(n: int)
    ensures ParseInt(IntToString(n)) == Some(n)
  {
    if n < 0 {
      NegIntRoundTrip(n);
    } else {
      NatIntRoundTrip(n);
    }
  }

  /** `int` reads back a printed natural number. */
  lemma NatIntRoundTrip(n: nat)
    ensures ParseInt(IntToString(n)) == Some(n)
  {
    var s := IntToString(n);
    StripUnchanged(s);
    assert IsDigit(s[0]);
    DigitsRoundTrip(n);
  }

  /** `int` reads back a printed negative number. */
  lemma NegIntRoundTrip(n: int)
    requires n < 0
    ensures ParseInt(IntToString(n)) == Some(n)
  {
    var s, digits := IntToString(n), NatToDigits(-n);
    assert s[1..] == digits;
    DigitsRoundTrip(-n);
    assert DigitsValue(s[1..]) == -n;
    ParseMinusDigits(s);
    StripUnchanged(s);
    assert ParseInt(s) == ParseSigned(s);
  }

  /** A minus sign and digits is read as the negated digits. */
  lemma ParseMinusDigits(t: string)
    requires |t| > 1 && t[0] == '-' && AllDigits(t[1..])
    ensures ParseSigned(t) == Some(-(DigitsValue(t[1..]) as int))
  {
  }

  /**
    * Python `float(s)` on an unsigned plain decimal: `d+`, `d+.`, `.d+` or
    * `d+.d+` in ASCII digits; `None` for any other text.
    */
  function ParseDecimal(s: string): (r: Option<real>)
    ensures r.Some? ==> r.value >= 0.0
  {
    if s != [] && AllDigits(s) then Some(DigitsValue(s) as real)
    else if '.' in s then
      var i := IndexOf(s, '.');
      var whole, frac := s[..i], s[i + 1..];
      if (whole != [] || frac != []) && AllDigits(whole) && AllDigits(frac) then
        Some(DigitsValue(whole) as real + DigitsValue(frac) as real / Pow10(|frac|) as real)
      else None
    else None
  }

  /**
    * Python `float(s)` for text that is, after `strip()`, an optional sign and
    * a plain decimal; `None` where this model does not follow `float`
    * (exponents, `inf`, `nan`, underscores, non-ASCII digits) or where it raises.
    */
  function ParseFloat(s: string): (r: Option<real>)
    ensures r.Some? ==> Strip(s) != []
    ensures r.Some? && r.value < 0.0 ==> Strip(s)[0] == '-'
  {
    var t := Strip(s);
    if t == [] then None
    else if t[0] == '-' || t[0] == '+' then
      match ParseDecimal(t[1..])
      case Some(v) => Some(if t[0] == '-' then -v else v)
      case None => None
    else ParseDecimal(t)
  }

  /** `float(str(n)) == n` for a non-negative integer. */
  lemma DecimalOfNat(n: nat)
    ensures ParseDecimal(NatToDigits(n)) == Some(n as real)
    ensures ParseFloat(NatToDigits(n)) == Some(n as real)
  {
    var s := NatToDigits(n);
    assert IsDigit(s[0]) && IsDigit(s[|s| - 1]);
    StripUnchanged(s);
    DigitsRoundTrip(n);
    assert ParseDecimal(s) == Some(n as real);
  }

  /** A negative amount written with a minus sign parses to its negation. */
  lemma NegatedFloat(s: string, v: real)
    requires s != [] && !IsSpace(s[|s| - 1]) && ParseDecimal(s) == Some(v)
    ensures ParseFloat("-" + s) == Some(-v)
  {
    var t := "-" + s;
    assert t[1..] == s && t[0] == '-' && t[|t| - 1] == s[|s| - 1];
    StripUnchanged(t);
  }

  /** The last character of a printed natural number is a digit, so not whitespace. */
  lemma NatDigitsEndSolid(n: nat)
    ensures !IsSpace(NatToDigits(n)[|NatToDigits(n)| - 1])
  {
    var digits := NatToDigits(n);
    assert IsDigit(digits[|digits| - 1]);
  }

  /** `float("-" + str(n)) == -n`. */
  lemma NegatedNat(n: nat)
    ensures ParseFloat("-" + NatToDigits(n)) == Some(-(n as real))
  {
    NatDigitsEndSolid(n);
    DigitsRoundTrip(n);
    NegatedFloat(NatToDigits(n), n as real);
  }
}
