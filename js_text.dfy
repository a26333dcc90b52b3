/** The JavaScript string primitives the event form relies on: `String.prototype.trim`,
    the global `parseInt` (no radix argument), `String.prototype.padStart` and
    `String.prototype.split` on a one-character separator.

    Strings are sequences of Unicode characters. JavaScript counts a character
    outside the Basic Multilingual Plane as two code units, so its `length` can
    exceed `|s|` here; this never decides a padding in the form, whose padded parts
    start with a digit once they pass the range checks. */
module JsText {
  import opened Wrappers

  /** ECMAScript WhiteSpace and LineTerminator code points: what `trim` removes and
      what `parseInt` skips. */
  predicate IsSpace(c: char) {
    || c == '\t' || c == '\n' || c == '\U{000B}' || c == '\U{000C}' || c == '\r'
    || c == ' ' || c == '\U{00A0}' || c == '\U{1680}'
    || ('\U{2000}' <= c <= '\U{200A}')
    || c == '\U{2028}' || c == '\U{2029}' || c == '\U{202F}' || c == '\U{205F}'
    || c == '\U{3000}' || c == '\U{FEFF}'
  }

  /** The number of white-space characters at the start of `s`. */
  function LeadingSpace(s: string): (n: nat)
    ensures n <= |s|
    ensures forall i :: 0 <= i < n ==> IsSpace(s[i])
    ensures n < |s| ==> !IsSpace(s[n])
  {
    if s != [] && IsSpace(s[0]) then 1 + LeadingSpace(s[1..]) else 0
  }

  /** The number of white-space characters at the end of `s`. */
  function TrailingSpace(s: string): (n: nat)
    ensures n <= |s|
    ensures forall i :: |s| - n <= i < |s| ==> IsSpace(s[i])
    ensures n < |s| ==> !IsSpace(s[|s| - n - 1])
  {
    if s != [] && IsSpace(s[|s| - 1]) then 1 + TrailingSpace(s[..|s| - 1]) else 0
  }

  /** `s` with its leading white space removed. */
  function TrimStart(s: string): (r: string)
    ensures |r| <= |s| && r == s[|s| - |r|..]
    ensures forall i :: 0 <= i < |s| - |r| ==> IsSpace(s[i])
    ensures r == [] || !IsSpace(r[0])
  {
    s[LeadingSpace(s)..]
  }

  /** `s` with its trailing white space removed. */
  function TrimEnd(s: string): (r: string)
    ensures |r| <= |s| && r == s[..|r|]
    ensures forall i :: |r| <= i < |s| ==> IsSpace(s[i])
    ensures r == [] || !IsSpace(r[|r| - 1])
  {
    s[..|s| - TrailingSpace(s)]
  }

  /** `s.trim()`. */
  function Trim(s: string): string {
    TrimEnd(TrimStart(s))
  }

  /** `!s.trim()`: the string is empty once trimmed. */
  predicate IsBlank(s: string) {
    Trim(s) == []
  }

  /** A string is blank exactly when every character in it is white space. */
  lemma BlankIffAllSpace(s: string)
    ensures IsBlank(s) <==> forall i :: 0 <= i < |s| ==> IsSpace(s[i])
  {
    var t := TrimStart(s);
    if t != [] {
      assert s[|s| - |t|] == t[0];
      assert |TrimEnd(t)| > 0;
    }
  }

  /** Trimming keeps a contiguous slice of the input whose ends are not white space,
      and removes only white space around it. */
  lemma {:induction false} TrimIsSlice(s: string)
    ensures |s| - |TrimStart(s)| + |Trim(s)| <= |s|
    ensures Trim(s) == s[|s| - |TrimStart(s)|..|s| - |TrimStart(s)| + |Trim(s)|]
    ensures forall i :: 0 <= i < |s| - |TrimStart(s)| ==> IsSpace(s[i])
    ensures forall i :: |s| - |TrimStart(s)| + |Trim(s)| <= i < |s| ==> IsSpace(s[i])
  {
    SuffixThenPrefix(s, TrimStart(s), Trim(s));
  }

  /** A prefix `r` of a suffix `t` of `s` is the slice of `s` starting where `t`
      starts, and what `r` leaves of `t` lies at the end of `s`. */
  lemma SuffixThenPrefix(s: string, t: string, r: string)
    requires |t| <= |s| && t == s[|s| - |t|..]
    requires |r| <= |t| && r == t[..|r|]
    requires forall i :: |r| <= i < |t| ==> IsSpace(t[i])
    ensures r == s[|s| - |t|..|s| - |t| + |r|]
    ensures forall i :: |s| - |t| + |r| <= i < |s| ==> IsSpace(s[i])
  {
    var lo := |s| - |t|;
    assert s[lo..][..|r|] == s[lo..lo + |r|];
    forall i | lo + |r| <= i < |s| ensures IsSpace(s[i]) {
      assert s[i] == t[i - lo];
    }
  }

  // ---------------------------------------------------------------------------
  // parseInt
  // ---------------------------------------------------------------------------

  /** The value of `c` as a digit of radix up to 36, or 36 when it is not one. */
  function DigitValue(c: char): (v: nat)
    ensures v <= 36
  {
    if '0' <= c <= '9' then c as int - '0' as int
    else if 'a' <= c <= 'z' then c as int - 'a' as int + 10
    else if 'A' <= c <= 'Z' then c as int - 'A' as int + 10
    else 36
  }

  predicate IsDigit(c: char, radix: nat) {
    DigitValue(c) < radix
  }

  /** The length of the longest prefix of `s` made of radix-`radix` digits. */
  function DigitRun(s: string, radix: nat): (n: nat)
    ensures n <= |s|
    ensures forall i :: 0 <= i < n ==> IsDigit(s[i], radix)
    ensures n < |s| ==> !IsDigit(s[n], radix)
  {
    if s != [] && IsDigit(s[0], radix) then 1 + DigitRun(s[1..], radix) else 0
  }

  /** The number that the digit string `ds` denotes in radix `radix`. */
  function ValueOf(ds: string, radix: nat): nat {
    if ds == [] then 0 else ValueOf(ds[..|ds| - 1], radix) * radix + DigitValue(ds[|ds| - 1])
  }

  /** The longest run of radix-`radix` digits at the start of `body`, read as a
      number; `None` when there is no digit. */
  function ParseRun(body: string, radix: nat): Option<nat> {
    var n := DigitRun(body, radix);
    if n == 0 then None else Some(ValueOf(body[..n], radix))
  }

  /** An unsigned numeral: a `0x`/`0X` prefix selects radix 16, radix 10 otherwise. */
  function ParseUnsigned(u: string): Option<nat> {
    if |u| >= 2 && u[0] == '0' && (u[1] == 'x' || u[1] == 'X') then ParseRun(u[2..], 16)
    else ParseRun(u, 10)
  }

  /** `parseInt(s)` with no radix: skip leading white space, read an optional sign,
      then an unsigned numeral; NaN (`None`) when it has no digit. Trailing text is
      ignored, so `parseInt("9abc")` is 9. */
  function ParseInt(s: string): Option<int> {
    ParseSigned(TrimStart(s))
  }

  /** An optional sign, then an unsigned numeral. */
  function ParseSigned(t: string): Option<int> {
    if t != [] && t[0] == '-' then
      match ParseUnsigned(t[1..])
      case None => None
      case Some(v) => Some(0 - v as int)
    else if t != [] && t[0] == '+' then
      match ParseUnsigned(t[1..])
      case None => None
      case Some(v) => Some(v)
    else
      match ParseUnsigned(t)
      case None => None
      case Some(v) => Some(v)
  }

  /** A non-empty string of decimal digits. */
  predicate IsDecimal(s: string) {
    s != [] && forall i :: 0 <= i < |s| ==> '0' <= s[i] <= '9'
  }

  /** On a plain decimal numeral `parseInt` reads the whole numeral. */
  lemma ParseIntDecimal(s: string)
    requires IsDecimal(s)
    ensures ParseInt(s) == Some(ValueOf(s, 10))
  {
    assert !IsSpace(s[0]);
    assert TrimStart(s) == s;
    assert !(|s| >= 2 && s[0] == '0' && (s[1] == 'x' || s[1] == 'X'));
    assert forall i :: 0 <= i < |s| ==> IsDigit(s[i], 10);
    assert DigitRun(s, 10) == |s|;
    assert s[..|s|] == s;
  }

  /** `parseInt` skips leading white space, takes one sign, reads the decimal digits
      and ignores whatever follows them. A `rest` starting with `x` after the numeral
      "0" would make a hexadecimal prefix, so that one case is excluded. */
  lemma {:induction false} ParseIntForms(w: string, d: string, rest: string)
    requires forall i :: 0 <= i < |w| ==> IsSpace(w[i])
    requires IsDecimal(d)
    requires rest == [] || (!IsDigit(rest[0], 10) && (d != "0" || (rest[0] != 'x' && rest[0] != 'X')))
    ensures ParseInt(w + (d + rest)) == Some(ValueOf(d, 10))
    ensures ParseInt(w + ("+" + (d + rest))) == Some(ValueOf(d, 10))
    ensures ParseInt(w + ("-" + (d + rest))) == Some(0 - ValueOf(d, 10))
  {
    UnsignedDecimal(w, d, rest);
    SignedDecimal(w, "+", d, rest);
    SignedDecimal(w, "-", d, rest);
  }

  /** Text with no digit after the white space, and no sign, is NaN. */
  lemma {:induction false} ParseIntNaN(w: string, rest: string)
    requires forall i :: 0 <= i < |w| ==> IsSpace(w[i])
    requires rest == [] || (!IsSpace(rest[0]) && rest[0] != '+' && rest[0] != '-' && !IsDigit(rest[0], 10))
    ensures ParseInt(w + rest) == None
  {
    SkipSpace(w, rest);
    NoDigit(rest);
  }

  /** White space, then a decimal numeral. */
  lemma {:induction false} UnsignedDecimal(w: string, d: string, rest: string)
    requires forall i :: 0 <= i < |w| ==> IsSpace(w[i])
    requires IsDecimal(d)
    requires rest == [] || (!IsDigit(rest[0], 10) && (d != "0" || (rest[0] != 'x' && rest[0] != 'X')))
    ensures ParseInt(w + (d + rest)) == Some(ValueOf(d, 10))
  {
    DecimalRun(d, rest);
    assert (d + rest)[0] == d[0];
    SkipSpace(w, d + rest);
    NoSign(d + rest);
  }

  /** White space, a sign, then a decimal numeral. */
  lemma {:induction false} SignedDecimal(w: string, sign: string, d: string, rest: string)
    requires forall i :: 0 <= i < |w| ==> IsSpace(w[i])
    requires sign == "+" || sign == "-"
    requires IsDecimal(d)
    requires rest == [] || (!IsDigit(rest[0], 10) && (d != "0" || (rest[0] != 'x' && rest[0] != 'X')))
    ensures ParseInt(w + (sign + (d + rest))) == Some(if sign == "-" then 0 - ValueOf(d, 10) else ValueOf(d, 10))
  {
    DecimalRun(d, rest);
    SkipSpace(w, sign + (d + rest));
    SignedRun(sign, d + rest);
  }

  /** Leading white space does not change what `parseInt` reads. */
  lemma {:induction false} SkipSpace(w: string, x: string)
    requires forall i :: 0 <= i < |w| ==> IsSpace(w[i])
    requires x == [] || !IsSpace(x[0])
    ensures ParseInt(w + x) == ParseSigned(x)
  {
    TrimStartAfterSpace(w, x);
  }

  /** Without a sign the unsigned numeral is read as it is. */
  lemma {:induction false} NoSign(x: string)
    requires x != [] && '0' <= x[0] <= '9'
    ensures ParseSigned(x) == ParseUnsigned(x)
  {
  }

  /** A sign in front of an unsigned numeral selects the sign of the result. */
  lemma {:induction false} SignedRun(sign: string, u: string)
    requires sign == "+" || sign == "-"
    requires ParseUnsigned(u).Some?
    ensures ParseSigned(sign + u) == Some(if sign == "-" then 0 - ParseUnsigned(u).value else ParseUnsigned(u).value)
  {
    assert (sign + u)[1..] == u;
  }

  /** Text that starts with no digit, sign or white space has no number. */
  lemma {:induction false} NoDigit(x: string)
    requires x == [] || (x[0] != '+' && x[0] != '-' && !IsDigit(x[0], 10))
    ensures ParseSigned(x) == None
  {
    assert DigitRun(x, 10) == 0;
  }

  /** White space in front of `x` is exactly what `trimStart` removes. */
  lemma {:induction false} TrimStartAfterSpace(w: string, x: string)
    requires forall i :: 0 <= i < |w| ==> IsSpace(w[i])
    requires x == [] || !IsSpace(x[0])
    ensures TrimStart(w + x) == x
  {
    if w == [] {
      assert w + x == x;
    } else {
      assert (w + x)[1..] == w[1..] + x;
      TrimStartAfterSpace(w[1..], x);
    }
  }

  /** A decimal numeral followed by a non-digit is read as that numeral's value. */
  lemma {:induction false} DecimalRun(d: string, rest: string)
    requires IsDecimal(d)
    requires rest == [] || (!IsDigit(rest[0], 10) && (d != "0" || (rest[0] != 'x' && rest[0] != 'X')))
    ensures ParseUnsigned(d + rest) == Some(ValueOf(d, 10))
  {
    var s := d + rest;
    assert forall i :: 0 <= i < |d| ==> s[i] == d[i] && IsDigit(s[i], 10);
    assert |d| < |s| ==> s[|d|] == rest[0];
    DigitRunIs(s, |d|);
    assert s[..|d|] == d;
    if |d| == 1 && d[0] == '0' {
      assert d == "0";
    }
    assert !(|s| >= 2 && s[0] == '0' && (s[1] == 'x' || s[1] == 'X'));
  }

  /** A digit run is as long as its digits reach. */
  lemma {:induction false} DigitRunIs(s: string, n: nat)
    requires n <= |s|
    requires forall i :: 0 <= i < n ==> IsDigit(s[i], 10)
    requires n < |s| ==> !IsDigit(s[n], 10)
    ensures DigitRun(s, 10) == n
  {
    if n > 0 {
      DigitRunIs(s[1..], n - 1);
    }
  }

  /** A leading zero does not change the value of a decimal numeral. */
  lemma {:induction false} ValueOfLeadingZero(s: string)
    ensures ValueOf("0" + s, 10) == ValueOf(s, 10)
  {
    if s != [] {
      assert ("0" + s)[..|"0" + s| - 1] == "0" + s[..|s| - 1];
      ValueOfLeadingZero(s[..|s| - 1]);
    }
  }

  // ---------------------------------------------------------------------------
  // padStart and split
  // ---------------------------------------------------------------------------

  function Repeat(c: char, n: nat): (r: string)
    ensures |r| == n && forall i :: 0 <= i < n ==> r[i] == c
  {
    if n == 0 then [] else [c] + Repeat(c, n - 1)
  }

  /** `s.padStart(width, fill)` with a one-character filler. */
  function PadStart(s: string, width: nat, fill: char): (r: string)
    ensures |r| == if |s| >= width then |s| else width
    ensures r[|r| - |s|..] == s
    ensures forall i :: 0 <= i < |r| - |s| ==> r[i] == fill
  {
    if |s| >= width then s else Repeat(fill, width - |s|) + s
  }

  /** Padding an already padded string changes nothing. */
  lemma PadStartIdempotent(s: string, width: nat, fill: char)
    ensures PadStart(PadStart(s, width, fill), width, fill) == PadStart(s, width, fill)
  {
  }

  /** The index of the first `c` in `s`, or `|s|` when there is none. */
  function IndexOf(s: string, c: char): (i: nat)
    ensures i <= |s| && (i < |s| ==> s[i] == c)
    ensures forall j :: 0 <= j < i ==> s[j] != c
  {
    if s == [] then 0 else if s[0] == c then 0 else 1 + IndexOf(s[1..], c)
  }

  /** `parts.join(sep)`. */
  function Join(parts: seq<string>, sep: char): string
    requires |parts| >= 1
  {
    if |parts| == 1 then parts[0] else parts[0] + [sep] + Join(parts[1..], sep)
  }

  /** `s.split(sep)`: at least one part, none containing the separator, and joining
      them back gives `s`. */
  function Split(s: string, sep: char): (parts: seq<string>)
    ensures |parts| >= 1
    ensures forall k :: 0 <= k < |parts| ==> sep !in parts[k]
    ensures Join(parts, sep) == s
    decreases |s|
  {
    var i := IndexOf(s, sep);
    if i == |s| then
      assert forall j :: 0 <= j < |s| ==> s[j] != sep;
      [s]
    else
      var head, rest := s[..i], Split(s[i + 1..], sep);
      assert forall j :: 0 <= j < |head| ==> head[j] != sep;
      assert ([head] + rest)[1..] == rest;
      assert s == head + [sep] + s[i + 1..];
      [head] + rest
  }

  /** Splitting a join of separator-free parts gives the parts back. */
  lemma {:induction false} SplitJoin(parts: seq<string>, sep: char)
    requires |parts| >= 1
    requires forall k :: 0 <= k < |parts| ==> sep !in parts[k]
    ensures Split(Join(parts, sep), sep) == parts
  {
    var s := Join(parts, sep);
    var i := IndexOf(s, sep);
    if |parts| == 1 {
      assert forall j :: 0 <= j < |s| ==> s[j] != sep;
      assert i == |s|;
    } else {
      var p := parts[0];
      assert s == p + ([sep] + Join(parts[1..], sep));
      assert s[|p|] == sep;
      assert forall j :: 0 <= j < |p| ==> s[j] == p[j] && p[j] != sep;
      assert i == |p|;
      assert s[i + 1..] == Join(parts[1..], sep);
      SplitJoin(parts[1..], sep);
      assert s[..i] == p;
    }
  }
}
