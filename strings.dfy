/**
 * The JavaScript string primitives the monitor relies on (`startsWith`,
 * `lastIndexOf`, `split`, `join`, `trim`, number-to-string conversion and
 * `parseInt`), stated over Dafny strings, plus the Option and Result
 * wrappers used for JavaScript's `null`/`undefined` and thrown errors.
 */
module Strings {

  datatype Option<+T> = None | Some(value: T)

  /** A value, or the message of the error a JavaScript call would throw. */
  datatype Result<+T> = Ok(value: T) | Fail(message: string)

  /** `headers[name]`: the header's value, or `undefined` when it is absent. */
  function Header(headers: map<string, string>, name: string): Option<string> {
    if name in headers then Some(headers[name]) else None
  }

  /** `s.startsWith(p)` */
  predicate StartsWith(s: string, p: string) {
    |p| <= |s| && s[..|p|] == p
  }

  /** `s.includes(p)` */
  predicate Contains(s: string, p: string) {
    StartsWith(s, p) || (s != [] && Contains(s[1..], p))
  }

  /** `s.lastIndexOf(c)`: the largest index holding `c`, or -1. */
  function LastIndexOf(s: string, c: char): (r: int)
    ensures -1 <= r < |s|
    ensures r >= 0 ==> s[r] == c
    ensures forall j :: r < j < |s| ==> s[j] != c
  {
    if s == [] then -1
    else if s[|s| - 1] == c then |s| - 1
    else LastIndexOf(s[..|s| - 1], c)
  }

  /** `s.indexOf(c)`: the smallest index holding `c`, or -1. */
  function IndexOf(s: string, c: char): (r: int)
    ensures -1 <= r < |s|
    ensures r >= 0 ==> s[r] == c
    ensures forall j :: 0 <= j < |s| && (r < 0 || j < r) ==> s[j] != c
  {
    if s == [] then -1
    else if s[0] == c then 0
    else var k := IndexOf(s[1..], c); if k < 0 then -1 else k + 1
  }

  /** `s.split(c)` for a one-character separator. */
  function Split(s: string, c: char): (parts: seq<string>)
    ensures |parts| >= 1
    decreases |s|
  {
    var i := IndexOf(s, c);
    if i < 0 then [s] else [s[..i]] + Split(s[i + 1..], c)
  }

  /** No part of a split holds the separator. */
  lemma {:induction false} SplitPartsFree(s: string, c: char)
    ensures forall k :: 0 <= k < |Split(s, c)| ==> c !in Split(s, c)[k]
    decreases |s|
  {
    var i := IndexOf(s, c);
    if i >= 0 {
      var head, rest := s[..i], Split(s[i + 1..], c);
      SplitPartsFree(s[i + 1..], c);
      assert c !in head;
      ConsParts(head, rest);
    }
  }

  /** `parts.join(c)` for a one-character separator. */
  function Join(parts: seq<string>, c: char): string {
    if |parts| == 0 then ""
    else if |parts| == 1 then parts[0]
    else parts[0] + [c] + Join(parts[1..], c)
  }

  /** Joining a first part onto at least one more puts the separator between them. */
  lemma JoinCons(p: string, rest: seq<string>, c: char)
    requires |rest| >= 1
    ensures Join([p] + rest, c) == p + [c] + Join(rest, c)
  {
    assert ([p] + rest)[1..] == rest;
  }

  /** The first occurrence of `c` is at `i` when `s[i]` is `c` and nothing before it is. */
  lemma IndexOfAt(s: string, c: char, i: nat)
    requires i < |s| && s[i] == c
    requires forall j :: 0 <= j < i ==> s[j] != c
    ensures IndexOf(s, c) == i
  {
  }

  /** Splitting and joining again gives back the original string. */
  lemma {:induction false} JoinSplit(s: string, c: char)
    ensures Join(Split(s, c), c) == s
    decreases |s|
  {
    var i := IndexOf(s, c);
    if i >= 0 {
      var head, tail := s[..i], s[i + 1..];
      var rest := Split(tail, c);
      assert Split(s, c) == [head] + rest;
      JoinSplit(tail, c);
      JoinCons(head, rest, c);
      SplitAround(s, i);
    }
  }

  /** Joining parts free of the separator and splitting again gives the parts back. */
  lemma {:induction false} SplitJoin(parts: seq<string>, c: char)
    requires |parts| >= 1
    requires forall k :: 0 <= k < |parts| ==> c !in parts[k]
    ensures Split(Join(parts, c), c) == parts
  {
    if |parts| > 1 {
      var head, tail := parts[0], parts[1..];
      var rest := Join(tail, c);
      var s := head + [c] + rest;
      assert parts == [head] + tail;
      JoinCons(head, tail, c);
      assert c !in head;
      assert forall j :: 0 <= j < |head| ==> s[j] == head[j];
      IndexOfAt(s, c, |head|);
      assert s[..|head|] == head;
      assert s[|head| + 1..] == rest;
      SplitJoin(tail, c);
    } else {
      assert IndexOf(parts[0], c) < 0;
    }
  }

  /**
   * The characters `String.prototype.trim` and `parseInt` skip: ECMAScript's
   * WhiteSpace (tab, vertical tab, form feed, space, no-break space, the byte
   * order mark and the Unicode space separators) and LineTerminator.
   */
  predicate IsJsWhitespace(ch: char) {
    ch == '\t' || ch == '\n' || ch == '\U{000B}' || ch == '\U{000C}' || ch == '\r' ||
    ch == ' ' || ch == '\U{00A0}' || ch == '\U{1680}' || ('\U{2000}' <= ch <= '\U{200A}') ||
    ch == '\U{2028}' || ch == '\U{2029}' || ch == '\U{202F}' || ch == '\U{205F}' ||
    ch == '\U{3000}' || ch == '\U{FEFF}'
  }

  function TrimStart(s: string): (r: string)
    ensures |r| <= |s| && r == s[|s| - |r|..]
    ensures r == [] || !IsJsWhitespace(r[0])
  {
    if s != [] && IsJsWhitespace(s[0]) then TrimStart(s[1..]) else s
  }

  /** `trimStart` removes whitespace only. */
  lemma {:induction false} TrimStartDropsWhitespace(s: string)
    ensures forall j :: 0 <= j < |s| - |TrimStart(s)| ==> IsJsWhitespace(s[j])
  {
    if s != [] && IsJsWhitespace(s[0]) {
      TrimStartDropsWhitespace(s[1..]);
    }
  }

  function TrimEnd(s: string): (r: string)
    ensures |r| <= |s| && r == s[..|r|]
    ensures r == [] || !IsJsWhitespace(r[|r| - 1])
  {
    if s != [] && IsJsWhitespace(s[|s| - 1]) then TrimEnd(s[..|s| - 1]) else s
  }

  /** `trimEnd` removes whitespace only. */
  lemma {:induction false} TrimEndDropsWhitespace(s: string)
    ensures forall j :: |TrimEnd(s)| <= j < |s| ==> IsJsWhitespace(s[j])
  {
    if s != [] && IsJsWhitespace(s[|s| - 1]) {
      TrimEndDropsWhitespace(s[..|s| - 1]);
    }
  }

  /** `s.trim()` */
  function Trim(s: string): string {
    TrimEnd(TrimStart(s))
  }

  /** The trimmed string is a piece of the input with no whitespace at either end, and trimming again changes nothing. */
  lemma TrimSpec(s: string)
    ensures var t := Trim(s);
      && (t == [] || (!IsJsWhitespace(t[0]) && !IsJsWhitespace(t[|t| - 1])))
      && Trim(t) == t
  {
    var a := TrimStart(s);
    var t := TrimEnd(a);
    if t != [] {
      assert t[0] == a[0];
    }
    assert TrimStart(t) == t;
  }

  predicate IsDigit(ch: char) {
    '0' <= ch <= '9'
  }

  function DigitChar(d: nat): (ch: char)
    requires d < 10
    ensures IsDigit(ch)
  {
    "0123456789"[d]
  }

  function DigitValue(ch: char): (d: nat)
    requires IsDigit(ch)
    ensures d < 10 && DigitChar(d) == ch
  {
    (ch as int - '0' as int)
  }

  /** Every character is a decimal digit. */
  predicate AllDigits(s: string) {
    forall k :: 0 <= k < |s| ==> IsDigit(s[k])
  }

  /** The decimal rendering JavaScript gives a non-negative integer. */
  function NatToString(n: nat): (s: string)
    ensures |s| >= 1
    ensures s[0] == '0' ==> n == 0
  {
    if n < 10 then [DigitChar(n)] else NatToString(n / 10) + [DigitChar(n % 10)]
  }

  /** The decimal rendering JavaScript gives an integer (template literals, `String(n)`). */
  function IntToString(n: int): (s: string)
    ensures |s| >= 1
  {
    if n >= 0 then NatToString(n) else "-" + NatToString(-n)
  }

  /** The value of a string of decimal digits. */
  function DecimalValue(d: string): (n: nat)
    requires AllDigits(d)
  {
    if d == [] then 0 else DecimalValue(d[..|d| - 1]) * 10 + DigitValue(d[|d| - 1])
  }

  /** The rendering of a natural number is made of digits. */
  lemma {:induction false} NatToStringDigits(n: nat)
    ensures AllDigits(NatToString(n))
  {
    if n >= 10 {
      var s := NatToString(n / 10);
      NatToStringDigits(n / 10);
      var t := s + [DigitChar(n % 10)];
      forall k | 0 <= k < |t|
        ensures IsDigit(t[k])
      {
        if k < |s| {
          assert t[k] == s[k];
        }
      }
    }
  }

  /** The rendering of a natural number reads back as that number. */
  lemma {:induction false} DecimalOfNatToString(n: nat)
    ensures AllDigits(NatToString(n)) && DecimalValue(NatToString(n)) == n
  {
    NatToStringDigits(n);
    if n >= 10 {
      var s := NatToString(n / 10);
      var d := DigitChar(n % 10);
      DecimalOfNatToString(n / 10);
      SnocParts(s, d);
      DigitRoundTrip(n % 10);
      assert DecimalValue(s + [d]) == DecimalValue(s) * 10 + n % 10;
    } else {
      DigitRoundTrip(n);
    }
  }

  /** Reading a digit back gives its value. */
  lemma DigitRoundTrip(d: nat)
    requires d < 10
    ensures DigitValue(DigitChar(d)) == d
  {
    assert "0123456789"[d] as int == '0' as int + d;
  }

  /** A rendering starts with `-` exactly when the integer is negative. */
  lemma IntToStringSign(n: int)
    ensures IntToString(n)[0] == '-' <==> n < 0
  {
    if n >= 0 {
      NatToStringDigits(n);
      assert IsDigit(NatToString(n)[0]);
    }
  }

  /** A negative integer renders as `-` and then its magnitude. */
  lemma NegativeRendering(n: int)
    requires n < 0
    ensures IntToString(n)[1..] == NatToString(-n)
  {
    assert ("-" + NatToString(-n))[1..] == NatToString(-n);
  }

  /** Different natural numbers render differently. */
  lemma NatToStringInjective(a: nat, b: nat)
    requires NatToString(a) == NatToString(b)
    ensures a == b
  {
    DecimalOfNatToString(a);
    DecimalOfNatToString(b);
  }

  /** Different integers render differently. */
  lemma IntToStringInjective(a: int, b: int)
    requires IntToString(a) == IntToString(b)
    ensures a == b
  {
    IntToStringSign(a);
    IntToStringSign(b);
    if a >= 0 {
      NatToStringInjective(a, b);
    } else {
      NegativeRendering(a);
      NegativeRendering(b);
      NatToStringInjective(-a, -b);
    }
  }

  predicate IsHexDigit(ch: char) {
    IsDigit(ch) || ('a' <= ch <= 'f') || ('A' <= ch <= 'F')
  }

  function HexValue(ch: char): (d: nat)
    requires IsHexDigit(ch)
    ensures d < 16
  {
    if IsDigit(ch) then DigitValue(ch)
    else if 'a' <= ch <= 'f' then ch as int - 'a' as int + 10
    else ch as int - 'A' as int + 10
  }

  /** The longest prefix of `s` made of decimal digits. */
  function TakeDigits(s: string): (r: string)
    ensures |r| <= |s| && r == s[..|r|]
    ensures AllDigits(r)
    ensures |r| < |s| ==> !IsDigit(s[|r|])
  {
    if s != [] && IsDigit(s[0]) then [s[0]] + TakeDigits(s[1..]) else []
  }

  /** The longest prefix of `s` made of hexadecimal digits. */
  function TakeHexDigits(s: string): (r: string)
    ensures |r| <= |s| && r == s[..|r|]
    ensures forall k :: 0 <= k < |r| ==> IsHexDigit(r[k])
    ensures |r| < |s| ==> !IsHexDigit(s[|r|])
  {
    if s != [] && IsHexDigit(s[0]) then [s[0]] + TakeHexDigits(s[1..]) else []
  }

  function HexDigitsValue(d: string): nat
    requires forall k :: 0 <= k < |d| ==> IsHexDigit(d[k])
  {
    if d == [] then 0 else HexDigitsValue(d[..|d| - 1]) * 16 + HexValue(d[|d| - 1])
  }

  /** What JavaScript's `parseInt` yields: an integer, or NaN. */
  datatype ParsedInt = NaN | Int(value: int)

  /**
   * `parseInt(s)` with no radix: leading whitespace is skipped, one sign is
   * accepted, a `0x`/`0X` prefix selects base 16, and the longest run of
   * digits that follows is read; no digit at all gives NaN.
   */
  function ParseInt(s: string): ParsedInt {
    var t := TrimStart(s);
    if t != [] && t[0] == '-' then ParseUnsigned(t[1..], true)
    else if t != [] && t[0] == '+' then ParseUnsigned(t[1..], false)
    else ParseUnsigned(t, false)
  }

  /** The part of `parseInt` after the sign. */
  function ParseUnsigned(u: string, negative: bool): ParsedInt {
    if |u| >= 2 && u[0] == '0' && (u[1] == 'x' || u[1] == 'X') then
      var h := TakeHexDigits(u[2..]);
      if h == [] then NaN
      else var v: int := HexDigitsValue(h); Int(if negative then -v else v)
    else
      var d := TakeDigits(u);
      if d == [] then NaN
      else var v: int := DecimalValue(d); Int(if negative then -v else v)
  }

  /** Reading back the rendering of an integer gives the integer. */
  lemma ParseIntOfIntToString(n: int)
    ensures ParseInt(IntToString(n)) == Int(n)
  {
    var m: nat := if n >= 0 then n else -n;
    ParseUnsignedOfNat(m, n < 0);
    var digits := NatToString(m);
    DigitsLead(m);
    if n < 0 {
      var s := "-" + digits;
      assert s[0] == '-' && s[1..] == digits;
      TrimStartUnchanged(s);
    } else {
      TrimStartUnchanged(digits);
    }
  }

  /** A rendering starts with a digit. */
  lemma DigitsLead(m: nat)
    ensures IsDigit(NatToString(m)[0])
  {
    if m >= 10 {
      DigitsLead(m / 10);
      assert NatToString(m)[0] == NatToString(m / 10)[0];
    }
  }

  /** `trimStart` leaves a string that starts with a non-space alone. */
  lemma TrimStartUnchanged(s: string)
    requires s != [] && !IsJsWhitespace(s[0])
    ensures TrimStart(s) == s
  {
  }

  lemma ParseUnsignedOfNat(m: nat, negative: bool)
    ensures ParseUnsigned(NatToString(m), negative) == Int(if negative then 0 - m else m)
  {
    var digits := NatToString(m);
    DecimalOfNatToString(m);
    TakeAllDigits(digits);
    assert !(|digits| >= 2 && digits[0] == '0');
  }

  lemma {:induction false} TakeAllDigits(d: string)
    requires AllDigits(d)
    ensures TakeDigits(d) == d
  {
    if d != [] {
      TakeAllDigits(d[1..]);
    }
  }

  // Concatenation facts, stated once for any element type.

  lemma AppendEmpty<T>(p: seq<T>)
    ensures p + [] == p && [] + p == p
  {
  }

  lemma ConsParts<T>(x: T, rest: seq<T>)
    ensures ([x] + rest)[0] == x
    ensures forall k :: 1 <= k < |rest| + 1 ==> ([x] + rest)[k] == rest[k - 1]
  {
  }

  lemma SnocParts<T>(p: seq<T>, x: T)
    ensures (p + [x])[..|p|] == p && (p + [x])[|p|] == x
  {
  }

  lemma SplitAround<T>(s: seq<T>, i: nat)
    requires i < |s|
    ensures s == s[..i] + [s[i]] + s[i + 1..]
  {
  }

  lemma PrefixOfAppend<T>(a: seq<T>, b: seq<T>)
    ensures (a + b)[..|a|] == a
  {
  }

  lemma AppendAssoc<T>(a: seq<T>, b: seq<T>, c: seq<T>)
    ensures (a + b) + c == a + (b + c)
  {
  }
}
