/**
 * The pieces of Python's string library the registration code relies on:
 * `str.strip()`, `str.split(sep)`, universal-newline translation on text
 * reads, `str(n)` / `int(s)` for counters and `format(n, '05X')`.
 */
module Text {
  import opened Common

  // ---------------------------------------------------------------------
  // Whitespace and str.strip()
  // ---------------------------------------------------------------------

  /** `str.isspace()` for one character: the set `str.strip()` removes. */
  predicate IsSpace(c: char) {
    || '\t' <= c <= '\r'
    || '\U{1C}' <= c <= ' '
    || c == '\U{85}' || c == '\U{A0}' || c == '\U{1680}'
    || '\U{2000}' <= c <= '\U{200A}'
    || c == '\U{2028}' || c == '\U{2029}' || c == '\U{202F}'
    || c == '\U{205F}' || c == '\U{3000}'
  }

  /** `s.lstrip()`: drops the leading whitespace and nothing else. */
  function TrimLeft(s: string): (r: string)
    ensures |r| <= |s|
    ensures r == [] || !IsSpace(r[0])
    decreases |s|
  {
    if |s| > 0 && IsSpace(s[0]) then TrimLeft(s[1..]) else s
  }

  /** `s.rstrip()`: drops the trailing whitespace and nothing else. */
  function TrimRight(s: string): (r: string)
    ensures |r| <= |s|
    ensures r == [] || !IsSpace(r[|r| - 1])
    decreases |s|
  {
    if |s| > 0 && IsSpace(s[|s| - 1]) then TrimRight(s[..|s| - 1]) else s
  }

  /** What `lstrip` keeps is a suffix of the text. */
  lemma {:induction false} TrimLeftSuffix(s: string)
    ensures TrimLeft(s) == s[|s| - |TrimLeft(s)|..]
    decreases |s|
  {
    if |s| > 0 && IsSpace(s[0]) {
      TrimLeftSuffix(s[1..]);
    }
  }

  /** What `rstrip` keeps is a prefix of the text. */
  lemma {:induction false} TrimRightPrefix(s: string)
    ensures TrimRight(s) == s[..|TrimRight(s)|]
    decreases |s|
  {
    if |s| > 0 && IsSpace(s[|s| - 1]) {
      TrimRightPrefix(s[..|s| - 1]);
    }
  }

  /** `s.strip()`. */
  function Strip(s: string): (r: string)
    ensures r == [] || (!IsSpace(r[0]) && !IsSpace(r[|r| - 1]))
  {
    TrimRightPrefix(TrimLeft(s));
    TrimRight(TrimLeft(s))
  }

  /** Only whitespace is dropped, from either end. */
  lemma {:induction false} TrimLeftDropsSpaces(s: string)
    ensures forall k :: 0 <= k < |s| - |TrimLeft(s)| ==> IsSpace(s[k])
    decreases |s|
  {
    if |s| > 0 && IsSpace(s[0]) {
      TrimLeftDropsSpaces(s[1..]);
    }
  }

  lemma {:induction false} TrimRightDropsSpaces(s: string)
    ensures forall k :: |TrimRight(s)| <= k < |s| ==> IsSpace(s[k])
    decreases |s|
  {
    if |s| > 0 && IsSpace(s[|s| - 1]) {
      TrimRightDropsSpaces(s[..|s| - 1]);
    }
  }

  /** Stripping keeps a piece of the text: no character is added. */
  lemma StripWithin(s: string)
    ensures forall c :: c in Strip(s) ==> c in s
  {
    var l := TrimLeft(s);
    TrimLeftSuffix(s);
    TrimRightPrefix(l);
    assert forall c :: c in TrimRight(l) ==> c in l;
  }

  /** Text that starts and ends with a non-space character is its own strip. */
  lemma StripUnchanged(s: string)
    requires s != [] && !IsSpace(s[0]) && !IsSpace(s[|s| - 1])
    ensures Strip(s) == s
  {
  }

  /** Leading blanks in front of text that starts with a non-space character all go. */
  lemma {:induction false} TrimLeftSpaces(p: string, x: string)
    requires forall k :: 0 <= k < |p| ==> IsSpace(p[k])
    requires x == [] || !IsSpace(x[0])
    ensures TrimLeft(p + x) == x
    decreases |p|
  {
    if p == [] {
      assert p + x == x;
    } else {
      assert (p + x)[1..] == p[1..] + x;
      TrimLeftSpaces(p[1..], x);
    }
  }

  /** Trailing blanks after text that ends with a non-space character all go. */
  lemma {:induction false} TrimRightSpaces(x: string, q: string)
    requires forall k :: 0 <= k < |q| ==> IsSpace(q[k])
    requires x == [] || !IsSpace(x[|x| - 1])
    ensures TrimRight(x + q) == x
    decreases |q|
  {
    if q == [] {
      assert x + q == x;
    } else {
      assert (x + q)[..|x + q| - 1] == x + q[..|q| - 1];
      TrimRightSpaces(x, q[..|q| - 1]);
    }
  }

  /** Stripping undoes blank padding on both sides. */
  lemma StripPadded(p: string, x: string, q: string)
    requires forall k :: 0 <= k < |p| ==> IsSpace(p[k])
    requires forall k :: 0 <= k < |q| ==> IsSpace(q[k])
    requires x != [] && !IsSpace(x[0]) && !IsSpace(x[|x| - 1])
    ensures Strip(p + x + q) == x
  {
    assert p + x + q == p + (x + q);
    TrimLeftSpaces(p, x + q);
    TrimRightSpaces(x, q);
  }

  /** Stripping stops at the last non-space character of a prefix. */
  lemma {:induction false} TrimRightAfter(p: string, s: string)
    requires p != [] && !IsSpace(p[|p| - 1])
    ensures TrimRight(p + s) == p + TrimRight(s)
    decreases |s|
  {
    if |s| > 0 && IsSpace(s[|s| - 1]) {
      assert (p + s)[..|p + s| - 1] == p + s[..|s| - 1];
      TrimRightAfter(p, s[..|s| - 1]);
    } else if |s| == 0 {
      assert p + s == p;
    }
  }

  // ---------------------------------------------------------------------
  // str.split(sep)
  // ---------------------------------------------------------------------

  /**
   * `s.split(sep)` for a one-character separator: always at least one
   * piece, and no piece contains the separator.
   */
  function Split(s: string, sep: char): (r: seq<string>)
    ensures |r| >= 1
    decreases |s|
  {
    if s == [] then [[]]
    else
      var rest := Split(s[1..], sep);
      if s[0] == sep then [[]] + rest
      else [[s[0]] + rest[0]] + rest[1..]
  }

  /** `sep.join(parts)`: the inverse of `Split`. */
  function Join(parts: seq<string>, sep: char): (r: string)
    requires |parts| >= 1
    decreases |parts|
  {
    if |parts| == 1 then parts[0] else parts[0] + [sep] + Join(parts[1..], sep)
  }

  /** No piece of a split contains the separator. */
  lemma {:induction false} SplitPiecesFree(s: string, sep: char)
    ensures forall i :: 0 <= i < |Split(s, sep)| ==> sep !in Split(s, sep)[i]
    decreases |s|
  {
    if s != [] {
      SplitPiecesFree(s[1..], sep);
      SplitCons(s[0], s[1..], sep);
      assert s == [s[0]] + s[1..];
    }
  }

  /** Joining the pieces of a split gives back the text. */
  lemma {:induction false} JoinSplit(s: string, sep: char)
    ensures Join(Split(s, sep), sep) == s
    decreases |s|
  {
    if s != [] {
      var rest := Split(s[1..], sep);
      JoinSplit(s[1..], sep);
      if s[0] == sep {
        assert ([[]] + rest)[1..] == rest;
      } else if |rest| == 1 {
        assert s == [s[0]] + rest[0];
      } else {
        var r := [[s[0]] + rest[0]] + rest[1..];
        assert r[1..] == rest[1..];
        assert Join(rest, sep) == rest[0] + [sep] + Join(rest[1..], sep);
      }
    }
  }

  /** Text without the separator is a single piece. */
  lemma {:induction false} SplitWithoutSep(s: string, sep: char)
    requires sep !in s
    ensures Split(s, sep) == [s]
    decreases |s|
  {
    if s != [] {
      SplitWithoutSep(s[1..], sep);
      assert [s[0]] + s[1..] == s;
    }
  }

  /** One step of `Split`: the first character either ends a piece or joins the first one. */
  lemma SplitCons(c: char, t: string, sep: char)
    ensures var r := Split(t, sep);
            Split([c] + t, sep) == if c == sep then [[]] + r else [[c] + r[0]] + r[1..]
  {
    assert ([c] + t)[1..] == t;
  }

  /** Splitting at one separator splits both sides independently. */
  lemma {:induction false} SplitAround(a: string, b: string, sep: char)
    ensures Split(a + [sep] + b, sep) == Split(a, sep) + Split(b, sep)
    decreases |a|
  {
    if a == [] {
      assert a + [sep] + b == [sep] + b;
      SplitCons(sep, b, sep);
    } else {
      SplitAround(a[1..], b, sep);
      SplitAroundStep(a[0], a[1..], b, sep);
      assert [a[0]] + a[1..] == a;
    }
  }

  /** The inductive step of `SplitAround`: one more character in front. */
  lemma SplitAroundStep(c: char, t: string, b: string, sep: char)
    requires Split(t + [sep] + b, sep) == Split(t, sep) + Split(b, sep)
    ensures Split([c] + t + [sep] + b, sep) == Split([c] + t, sep) + Split(b, sep)
  {
    assert [c] + t + [sep] + b == [c] + (t + [sep] + b);
    SplitCons(c, t + [sep] + b, sep);
    SplitCons(c, t, sep);
    ConsPiece(c, sep, Split(t, sep), Split(b, sep));
  }

  /** What `SplitCons` does to the front of `ra` it does to the front of `ra + rb`. */
  lemma ConsPiece(c: char, sep: char, ra: seq<string>, rb: seq<string>)
    requires |ra| >= 1
    ensures var r := ra + rb;
            (if c == sep then [[]] + r else [[c] + r[0]] + r[1..])
            == (if c == sep then [[]] + ra else [[c] + ra[0]] + ra[1..]) + rb
  {
    var r := ra + rb;
    if c != sep {
      assert r[0] == ra[0];
      assert r[1..] == ra[1..] + rb;
      assert [[c] + ra[0]] + (ra[1..] + rb) == ([[c] + ra[0]] + ra[1..]) + rb;
    } else {
      assert [[]] + (ra + rb) == ([[]] + ra) + rb;
    }
  }

  /** The separator-free text after the last separator is the last piece. */
  lemma LastPiece(a: string, b: string, sep: char)
    requires sep !in b
    ensures var r := Split(a + [sep] + b, sep); r[|r| - 1] == b
  {
    SplitAround(a, b, sep);
    SplitWithoutSep(b, sep);
  }

  /** A separator-free prefix that ends at a separator (or at the end) is the first piece. */
  lemma FirstPiece(a: string, b: string, sep: char)
    requires sep !in a
    requires b == [] || b[0] == sep
    ensures Split(a + b, sep)[0] == a
  {
    SplitWithoutSep(a, sep);
    if b == [] {
      assert a + b == a;
    } else {
      assert a + b == a + [sep] + b[1..];
      SplitAround(a, b[1..], sep);
    }
  }

  /** The first two pieces of text that begins with two separator-free runs. */
  lemma TwoPieces(a: string, b: string, rest: string, sep: char)
    requires sep !in a && sep !in b
    requires rest == [] || rest[0] == sep
    ensures var r := Split(a + [sep] + b + rest, sep); |r| >= 2 && r[0] == a && r[1] == b
  {
    assert a + [sep] + b + rest == a + [sep] + (b + rest);
    SplitAround(a, b + rest, sep);
    SplitWithoutSep(a, sep);
    FirstPiece(b, rest, sep);
  }

  /** Splitting the join of separator-free pieces gives the pieces back. */
  lemma {:induction false} SplitJoin(parts: seq<string>, sep: char)
    requires |parts| >= 1
    requires forall i :: 0 <= i < |parts| ==> sep !in parts[i]
    ensures Split(Join(parts, sep), sep) == parts
    decreases |parts|
  {
    if |parts| == 1 {
      SplitWithoutSep(parts[0], sep);
    } else {
      SplitJoin(parts[1..], sep);
      SplitAround(parts[0], Join(parts[1..], sep), sep);
      SplitWithoutSep(parts[0], sep);
      assert [parts[0]] + parts[1..] == parts;
    }
  }

  // ---------------------------------------------------------------------
  // Universal newlines: what a text-mode read returns
  // ---------------------------------------------------------------------

  /**
   * `open(path, 'r').read()` translates every "\r\n" and every lone "\r"
   * into "\n".
   */
  function Newlines(s: string): (r: string)
    decreases |s|
  {
    if s == [] then []
    else if s[0] == '\r' then
      "\n" + Newlines(if |s| > 1 && s[1] == '\n' then s[2..] else s[1..])
    else [s[0]] + Newlines(s[1..])
  }

  /** No carriage return survives the translation. */
  lemma {:induction false} NewlinesNoReturn(s: string)
    ensures '\r' !in Newlines(s)
    decreases |s|
  {
    if s != [] {
      if s[0] == '\r' {
        NewlinesNoReturn(if |s| > 1 && s[1] == '\n' then s[2..] else s[1..]);
      } else {
        NewlinesNoReturn(s[1..]);
      }
    }
  }

  /** Text without carriage returns reads back unchanged. */
  lemma {:induction false} NewlinesUnchanged(s: string)
    requires '\r' !in s
    ensures Newlines(s) == s
    decreases |s|
  {
    if s != [] {
      NewlinesUnchanged(s[1..]);
      assert s == [s[0]] + s[1..];
    }
  }

  /** A prefix without carriage returns passes through the translation untouched. */
  lemma {:induction false} NewlinesAfter(p: string, s: string)
    requires '\r' !in p
    ensures Newlines(p + s) == p + Newlines(s)
    decreases |p|
  {
    if p != [] {
      assert (p + s)[0] == p[0];
      assert (p + s)[1..] == p[1..] + s;
      NewlinesAfter(p[1..], s);
    } else {
      assert p + s == s;
    }
  }

  /**
   * Reading a text whose first line is clean keeps that line: the newline
   * translation and the strip only touch what follows it.
   */
  lemma ReadKeepsPrefix(p: string, rest: string)
    requires p != [] && !IsSpace(p[0]) && !IsSpace(p[|p| - 1]) && '\r' !in p
    ensures Strip(Newlines(p + rest)) == p + TrimRight(Newlines(rest))
  {
    NewlinesAfter(p, rest);
    var y := Newlines(rest);
    assert (p + y)[0] == p[0];
    assert TrimLeft(p + y) == p + y;
    TrimRightAfter(p, y);
  }

  /** After reading and right-stripping, text that began with a line break still does. */
  lemma StartsWithBreak(rest: string)
    requires rest == [] || rest[0] == '\n'
    ensures var r := TrimRight(Newlines(rest)); r == [] || r[0] == '\n'
  {
    TrimRightPrefix(Newlines(rest));
    if rest != [] {
      assert Newlines(rest) == "\n" + Newlines(rest[1..]);
    }
  }

  /** Translation distributes over a split point that does not cut a "\r\n" pair. */
  lemma {:induction false} NewlinesConcat(a: string, b: string)
    requires a == [] || a[|a| - 1] != '\r'
    ensures Newlines(a + b) == Newlines(a) + Newlines(b)
    decreases |a|
  {
    if a == [] {
      assert a + b == b;
    } else {
      var k := BreakWidth(a);
      NewlinesConcat(a[k..], b);
      NewlinesConcatStep(a, b);
    }
  }

  /** How many characters the first character of `s` and its pairing take up. */
  function BreakWidth(s: string): (k: nat)
    requires s != []
    ensures 1 <= k <= 2 && (k == 2 <==> s[0] == '\r' && |s| > 1 && s[1] == '\n')
  {
    if s[0] == '\r' && |s| > 1 && s[1] == '\n' then 2 else 1
  }

  /** One step of `NewlinesConcat`: the first character or pair translates alike in `a` and `a + b`. */
  lemma NewlinesConcatStep(a: string, b: string)
    requires a != [] && a[|a| - 1] != '\r'
    requires BreakWidth(a) <= |a|
    requires Newlines(a[BreakWidth(a)..] + b) == Newlines(a[BreakWidth(a)..]) + Newlines(b)
    ensures Newlines(a + b) == Newlines(a) + Newlines(b)
  {
    var k := BreakWidth(a);
    var head := if a[0] == '\r' then "\n" else [a[0]];
    var x, y := Newlines(a[k..]), Newlines(b);
    assert (a + b)[k..] == a[k..] + b;
    assert Newlines(a + b) == head + (x + y);
    assert Newlines(a) == head + x;
    ConcatAssoc(head, x, y);
  }

  /** Concatenation is associative. */
  lemma ConcatAssoc(h: string, x: string, y: string)
    ensures h + (x + y) == (h + x) + y
  {
  }

  // ---------------------------------------------------------------------
  // Decimal text: str(n) and int(s)
  // ---------------------------------------------------------------------

  /** An ASCII decimal digit. */
  predicate IsDigit(c: char) {
    '0' <= c <= '9'
  }

  predicate AllDigits(s: string) {
    forall i :: 0 <= i < |s| ==> IsDigit(s[i])
  }

  const Decimals := "0123456789"

  /** `str(n)` for a non-negative integer: digits only, no leading zeros. */
  function DecimalString(n: nat): (r: string)
    ensures r != []
    decreases n
  {
    if n < 10 then [Decimals[n]] else DecimalString(n / 10) + [Decimals[n % 10]]
  }

  /** `str(n)` is digits only, with no leading zero unless `n` is 0. */
  lemma {:induction false} DecimalDigits(n: nat)
    ensures AllDigits(DecimalString(n))
    ensures DecimalString(n)[0] != '0' || n == 0
    decreases n
  {
    if n >= 10 {
      DecimalDigits(n / 10);
    }
  }

  /** The value of a string of ASCII digits. */
  function DecimalValue(s: string): (r: nat)
    requires AllDigits(s)
    decreases |s|
  {
    if s == [] then 0
    else DecimalValue(s[..|s| - 1]) * 10 + ((s[|s| - 1] as int) - ('0' as int))
  }

  /** Reading back `str(n)` gives `n`. */
  lemma {:induction false} DecimalRoundTrip(n: nat)
    ensures AllDigits(DecimalString(n)) && DecimalValue(DecimalString(n)) == n
    decreases n
  {
    var s := DecimalString(n);
    DecimalDigits(n);
    if n >= 10 {
      DecimalRoundTrip(n / 10);
      assert s[..|s| - 1] == DecimalString(n / 10);
    }
  }

  /**
   * The information separators U+001C to U+001F: `str.strip()` removes
   * them, but `int()` does not skip them (it skips the ASCII blanks
   * `\t`-`\r` and space, and every non-ASCII character `str.isspace()`
   * accepts).
   */
  predicate IsSeparatorControl(c: char) {
    '\U{1C}' <= c <= '\U{1F}'
  }

  /**
   * `int(s)` restricted to unsigned ASCII decimal text: the whitespace
   * `int()` skips is ignored around the digits, and anything else, an
   * information separator included, makes the conversion fail (Python
   * raises ValueError). As the stripped text must be all digits, that is
   * the same as asking that no information separator occurs at all.
   */
  function ParseDecimal(s: string): (r: Option<nat>) {
    var t := Strip(s);
    if t != [] && AllDigits(t) && forall i :: 0 <= i < |s| ==> !IsSeparatorControl(s[i])
    then Some(DecimalValue(t))
    else None
  }

  /** An information separator anywhere in the text makes `int()` fail, though `strip()` would remove it. */
  lemma SeparatorNotANumber(s: string, i: nat)
    requires i < |s| && IsSeparatorControl(s[i])
    ensures IsSpace(s[i])
    ensures ParseDecimal(s) == None
  {
  }

  /** `int(str(n)) == n`. */
  lemma ParseDecimalString(n: nat)
    ensures ParseDecimal(DecimalString(n)) == Some(n)
  {
    var s := DecimalString(n);
    DecimalRoundTrip(n);
    StripUnchanged(s);
  }

  /** Text whose first non-blank character is not a digit is no number. */
  lemma NotANumber(c: char, s: string)
    requires !IsSpace(c) && !IsDigit(c)
    ensures ParseDecimal([c] + s) == None
  {
    assert TrimLeft([c] + s) == [c] + s;
    TrimRightPrefix([c] + s);
  }

  // ---------------------------------------------------------------------
  // Upper-case hexadecimal: format(n, 'X') and format(n, '05X')
  // ---------------------------------------------------------------------

  /** An upper-case hex digit, as `format(n, 'X')` writes them. */
  predicate IsHexDigit(c: char) {
    '0' <= c <= '9' || 'A' <= c <= 'F'
  }

  predicate AllHex(s: string) {
    forall i :: 0 <= i < |s| ==> IsHexDigit(s[i])
  }

  /** The digit for a value below 16: '0'..'9', then 'A'..'F'. */
  function HexDigit(d: nat): (c: char)
    requires d < 16
    ensures IsHexDigit(c)
  {
    if d < 10 then ('0' as int + d) as char else ('A' as int + d - 10) as char
  }

  /** `format(n, 'X')`: upper-case hex digits, no leading zeros. */
  function HexString(n: nat): (r: string)
    ensures r != []
    decreases n
  {
    if n < 16 then [HexDigit(n)] else HexString(n / 16) + [HexDigit(n % 16)]
  }

  /** `format(n, 'X')` uses upper-case hex digits only. */
  lemma {:induction false} HexDigitsOnly(n: nat)
    ensures AllHex(HexString(n))
    decreases n
  {
    if n >= 16 {
      HexDigitsOnly(n / 16);
    }
  }

  /** `format(n, 'X')` has no leading zero, except for 0 itself. */
  lemma {:induction false} HexNoLeadingZero(n: nat)
    ensures HexString(n)[0] != '0' || n == 0
    decreases n
  {
    if n >= 16 {
      HexNoLeadingZero(n / 16);
      assert HexString(n)[0] == HexString(n / 16)[0];
    }
  }

  /** The value of one hex digit: the inverse of `HexDigit`. */
  function HexDigitValue(c: char): (v: nat)
    requires IsHexDigit(c)
    ensures v < 16 && HexDigit(v) == c
  {
    if '0' <= c <= '9' then (c as int) - ('0' as int) else (c as int) - ('A' as int) + 10
  }

  /** The value of a string of hex digits. */
  function HexValue(s: string): (r: nat)
    requires AllHex(s)
    decreases |s|
  {
    if s == [] then 0 else HexValue(s[..|s| - 1]) * 16 + HexDigitValue(s[|s| - 1])
  }

  /** `c` repeated `n` times, as in Python's `c * n`. */
  function Repeat(c: char, n: nat): (r: string) {
    seq(n, _ => c)
  }

  /** The `05` of a format spec: left-pad with '0' up to width 5. */
  function ZeroPad5(s: string): (r: string) {
    if |s| < 5 then Repeat('0', 5 - |s|) + s else s
  }

  /** `format(n, '05X')`. */
  function Hex5(n: nat): (r: string)
  {
    ZeroPad5(HexString(n))
  }

  lemma {:induction false} HexRoundTrip(n: nat)
    ensures AllHex(HexString(n)) && HexValue(HexString(n)) == n
    decreases n
  {
    var s := HexString(n);
    HexDigitsOnly(n);
    if n >= 16 {
      HexRoundTrip(n / 16);
      assert s[..|s| - 1] == HexString(n / 16);
    } else {
      assert s[..0] == [];
    }
  }

  /** Leading zeros do not change a hex value. */
  lemma {:induction false} LeadingZeros(k: nat, s: string)
    requires AllHex(s)
    ensures AllHex(Repeat('0', k) + s) && HexValue(Repeat('0', k) + s) == HexValue(s)
    decreases |s|
  {
    var z := Repeat('0', k);
    if s == [] {
      assert z + s == z;
      ZerosValue(k);
    } else {
      var t := z + s;
      assert t[..|t| - 1] == z + s[..|s| - 1];
      LeadingZeros(k, s[..|s| - 1]);
    }
  }

  lemma {:induction false} ZerosValue(k: nat)
    ensures AllHex(Repeat('0', k)) && HexValue(Repeat('0', k)) == 0
    decreases k
  {
    if k > 0 {
      assert Repeat('0', k)[..k - 1] == Repeat('0', k - 1);
      ZerosValue(k - 1);
    }
  }

  /** The padded rendering still reads back as the counter: distinct counters render distinctly. */
  lemma Hex5RoundTrip(n: nat)
    ensures AllHex(Hex5(n)) && HexValue(Hex5(n)) == n
  {
    var s := HexString(n);
    HexRoundTrip(n);
    if |s| < 5 {
      LeadingZeros(5 - |s|, s);
    }
  }

  /** 16 to the power `k`. */
  function Pow16(k: nat): (p: nat)
    ensures p >= 1
  {
    if k == 0 then 1 else 16 * Pow16(k - 1)
  }

  /** A value below 16^k needs at most k hex digits. */
  lemma {:induction false} HexStringLength(n: nat, k: nat)
    requires 1 <= k && n < Pow16(k)
    ensures |HexString(n)| <= k
    decreases k
  {
    if n >= 16 {
      assert k >= 2;
      HexStringLength(n / 16, k - 1);
    }
  }

  /**
   * `format(n, '05X')` is at least five hex digits long, and exactly
   * five for every `n` below 0x100000.
   */
  lemma Hex5Length(n: nat)
    ensures |Hex5(n)| >= 5 && AllHex(Hex5(n))
    ensures n < 0x100000 ==> |Hex5(n)| == 5
  {
    Hex5RoundTrip(n);
    if n < 0x100000 {
      assert Pow16(5) == 0x100000;
      HexStringLength(n, 5);
    }
  }

  // ---------------------------------------------------------------------
  // ASCII lower-casing, as far as comparing with "yes" and "y" needs
  // ---------------------------------------------------------------------

  function LowerChar(c: char): (r: char) {
    if 'A' <= c <= 'Z' then ((c as int) + 32) as char else c
  }

  /** `str.lower()` on ASCII letters. */
  function Lower(s: string): (r: string) {
    seq(|s|, i requires 0 <= i < |s| => LowerChar(s[i]))
  }
}
