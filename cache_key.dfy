/**
 * The cache file name both servers derive from a URL:
 * `Buffer.from(url).toString('base64').replace(/[^a-zA-Z0-9]/g, '_')`,
 * that is the URL's UTF-8 bytes in base64 (section 4 of RFC 4648, with
 * `=` padding) with every character outside `[A-Za-z0-9]` turned into `_`.
 */
module CacheKey {
  import opened Strings

  /** A sequence of octets. */
  predicate IsBytes(b: seq<nat>) {
    forall k :: 0 <= k < |b| ==> b[k] < 256
  }

  // ---------------------------------------------------------------------
  // UTF-8
  // ---------------------------------------------------------------------

  /** The UTF-8 encoding of one Unicode scalar value (section 3 of RFC 3629). */
  function Utf8Char(c: char): (r: seq<nat>)
    ensures 1 <= |r| <= 4 && IsBytes(r)
  {
    var n := c as int;
    if n < 0x80 then [n]
    else if n < 0x800 then [0xC0 + n / 64, 0x80 + n % 64]
    else if n < 0x10000 then [0xE0 + n / 4096, 0x80 + (n / 64) % 64, 0x80 + n % 64]
    else [0xF0 + n / 262144, 0x80 + (n / 4096) % 64, 0x80 + (n / 64) % 64, 0x80 + n % 64]
  }

  /** `Buffer.from(s)`: the UTF-8 bytes of the string. */
  function Utf8Encode(s: string): (r: seq<nat>)
    ensures IsBytes(r)
  {
    if s == [] then [] else Utf8Char(s[0]) + Utf8Encode(s[1..])
  }

  /**
   * How many bytes a character takes: one below U+0080, two below U+0800,
   * three below U+10000, four above; a lead byte below 0x80 is exactly an
   * ASCII character, and it is the character's own code.
   */
  lemma Utf8CharShape(c: char)
    ensures var r := Utf8Char(c);
      && |r| == (if c as int < 0x80 then 1 else if c as int < 0x800 then 2 else if c as int < 0x10000 then 3 else 4)
      && (r[0] < 0x80 <==> c as int < 0x80)
      && (c as int < 0x80 ==> r == [c as int])
      && (forall k :: 1 <= k < |r| ==> 0x80 <= r[k] < 0xC0)
  {
  }

  /** An ASCII string encodes to its own character codes, one byte each. */
  lemma {:induction false} Utf8Ascii(s: string)
    requires forall k :: 0 <= k < |s| ==> s[k] as int < 0x80
    ensures |Utf8Encode(s)| == |s|
    ensures forall k :: 0 <= k < |s| ==> Utf8Encode(s)[k] == s[k] as int
  {
    if s != [] {
      Utf8Ascii(s[1..]);
      ConsParts(s[0] as int, Utf8Encode(s[1..]));
    }
  }

  // ---------------------------------------------------------------------
  // Base64
  // ---------------------------------------------------------------------

  /** The base64 alphabet: `A`-`Z`, `a`-`z`, `0`-`9`, `+`, `/`. */
  function Symbol(v: nat): (ch: char)
    requires v < 64
  {
    if v < 26 then ('A' as int + v) as char
    else if v < 52 then ('a' as int + (v - 26)) as char
    else if v < 62 then ('0' as int + (v - 52)) as char
    else if v == 62 then '+'
    else '/'
  }

  /** The value of a base64 symbol; `None` for a character outside the alphabet. */
  function SymbolValue(ch: char): (r: Option<nat>)
    ensures r.Some? ==> r.value < 64
  {
    if 'A' <= ch <= 'Z' then Some(ch as int - 'A' as int)
    else if 'a' <= ch <= 'z' then Some(ch as int - 'a' as int + 26)
    else if '0' <= ch <= '9' then Some(ch as int - '0' as int + 52)
    else if ch == '+' then Some(62)
    else if ch == '/' then Some(63)
    else None
  }

  /** Every symbol reads back as its value. */
  lemma SymbolRoundTrip(v: nat)
    requires v < 64
    ensures SymbolValue(Symbol(v)) == Some(v)
  {
  }

  /** Three bytes as four symbols of six bits each. */
  function Group3(b0: nat, b1: nat, b2: nat): string
    requires b0 < 256 && b1 < 256 && b2 < 256
  {
    [Symbol(b0 / 4), Symbol(b0 % 4 * 16 + b1 / 16), Symbol(b1 % 16 * 4 + b2 / 64), Symbol(b2 % 64)]
  }

  /** A last group of two bytes: three symbols and one `=`. */
  function Group2(b0: nat, b1: nat): string
    requires b0 < 256 && b1 < 256
  {
    [Symbol(b0 / 4), Symbol(b0 % 4 * 16 + b1 / 16), Symbol(b1 % 16 * 4), '=']
  }

  /** A last group of one byte: two symbols and two `=`. */
  function Group1(b0: nat): string
    requires b0 < 256
  {
    [Symbol(b0 / 4), Symbol(b0 % 4 * 16), '=', '=']
  }

  /**
   * `toString('base64')`: each group of three bytes becomes four symbols of
   * six bits; a last group of one or two bytes is padded with `=`.
   */
  function Base64Encode(b: seq<nat>): (r: string)
    requires IsBytes(b)
    decreases |b|
  {
    if b == [] then []
    else if |b| == 1 then Group1(b[0])
    else if |b| == 2 then Group2(b[0], b[1])
    else Group3(b[0], b[1], b[2]) + Base64Encode(b[3..])
  }

  /** The bytes four symbols stand for: three, or fewer where the group ends in padding. */
  function DecodeGroup(g: string): (r: Option<seq<nat>>)
    requires |g| == 4
  {
    var a := SymbolValue(g[0]);
    var b := SymbolValue(g[1]);
    if a.None? || b.None? then None
    else if g[2] == '=' && g[3] == '=' then
      if b.value % 16 == 0 then Some([a.value * 4 + b.value / 16]) else None
    else
      var c := SymbolValue(g[2]);
      if c.None? then None
      else if g[3] == '=' then
        if c.value % 4 == 0 then Some([a.value * 4 + b.value / 16, b.value % 16 * 16 + c.value / 4]) else None
      else
        var d := SymbolValue(g[3]);
        if d.None? then None
        else Some([a.value * 4 + b.value / 16, b.value % 16 * 16 + c.value / 4, c.value % 4 * 64 + d.value])
  }

  /** Strict base64 decoding: groups of four, padding only in the last group. */
  function Base64Decode(s: string): (r: Option<seq<nat>>)
    decreases |s|
  {
    if s == [] then Some([])
    else if |s| < 4 then None
    else match DecodeGroup(s[..4]) {
      case None => None
      case Some(g) =>
        if |g| < 3 && |s| > 4 then None
        else match Base64Decode(s[4..]) {
          case None => None
          case Some(rest) => Some(g + rest)
        }
    }
  }

  /** Three bytes survive the trip through four symbols. */
  lemma GroupRoundTrip(b0: nat, b1: nat, b2: nat)
    requires b0 < 256 && b1 < 256 && b2 < 256
    ensures DecodeGroup(Group3(b0, b1, b2)) == Some([b0, b1, b2])
  {
    var s1 := b0 % 4 * 16 + b1 / 16;
    var s2 := b1 % 16 * 4 + b2 / 64;
    SymbolRoundTrip(b0 / 4);
    SymbolRoundTrip(s1);
    SymbolRoundTrip(s2);
    SymbolRoundTrip(b2 % 64);
    assert s1 / 16 == b0 % 4 && s1 % 16 == b1 / 16;
    assert s2 / 4 == b1 % 16 && s2 % 4 == b2 / 64;
  }

  /** One byte survives the trip through two symbols and two `=`. */
  lemma OneByteRoundTrip(b0: nat)
    requires b0 < 256
    ensures DecodeGroup(Group1(b0)) == Some([b0])
  {
    SymbolRoundTrip(b0 / 4);
    SymbolRoundTrip(b0 % 4 * 16);
    assert (b0 % 4 * 16) / 16 == b0 % 4;
  }

  /** Two bytes survive the trip through three symbols and one `=`. */
  lemma TwoByteRoundTrip(b0: nat, b1: nat)
    requires b0 < 256 && b1 < 256
    ensures DecodeGroup(Group2(b0, b1)) == Some([b0, b1])
  {
    var s1 := b0 % 4 * 16 + b1 / 16;
    SymbolRoundTrip(b0 / 4);
    SymbolRoundTrip(s1);
    SymbolRoundTrip(b1 % 16 * 4);
    assert s1 / 16 == b0 % 4 && s1 % 16 == b1 / 16;
    assert (b1 % 16 * 4) % 4 == 0 && (b1 % 16 * 4) / 4 == b1 % 16;
  }

  /** Decoding a group followed by more text. */
  lemma DecodeStep(g: string, rest: string, bytes: seq<nat>)
    requires |g| == 4 && DecodeGroup(g) == Some(bytes)
    requires rest != [] ==> |bytes| == 3
    ensures Base64Decode(g + rest) ==
      match Base64Decode(rest) {
        case None => None
        case Some(more) => Some(bytes + more)
      }
  {
    var s := g + rest;
    assert s[..4] == g && s[4..] == rest;
  }

  /** Decoding the encoding gives the bytes back. */
  lemma {:induction false} Base64RoundTrip(b: seq<nat>)
    requires IsBytes(b)
    ensures Base64Decode(Base64Encode(b)) == Some(b)
    decreases |b|
  {
    if b == [] {
    } else if |b| == 1 {
      OneByteRoundTrip(b[0]);
      DecodeStep(Group1(b[0]), [], [b[0]]);
      AppendEmpty(Group1(b[0]));
      AppendEmpty([b[0]]);
      assert b == [b[0]];
    } else if |b| == 2 {
      TwoByteRoundTrip(b[0], b[1]);
      DecodeStep(Group2(b[0], b[1]), [], [b[0], b[1]]);
      AppendEmpty(Group2(b[0], b[1]));
      AppendEmpty([b[0], b[1]]);
      assert b == [b[0], b[1]];
    } else {
      GroupRoundTrip(b[0], b[1], b[2]);
      Base64RoundTrip(b[3..]);
      DecodeStep(Group3(b[0], b[1], b[2]), Base64Encode(b[3..]), [b[0], b[1], b[2]]);
      FirstThree(b);
    }
  }

  lemma FirstThree<T>(b: seq<T>)
    requires |b| >= 3
    ensures b == [b[0], b[1], b[2]] + b[3..]
  {
  }

  /** Four symbols for every started group of three bytes. */
  lemma {:induction false} Base64Length(b: seq<nat>)
    requires IsBytes(b)
    ensures |Base64Encode(b)| == 4 * ((|b| + 2) / 3)
    decreases |b|
  {
    var n := |b|;
    if n > 2 {
      Base64Length(b[3..]);
      assert |Base64Encode(b)| == 4 + |Base64Encode(b[3..])|;
      assert (n + 2) / 3 == (n - 1) / 3 + 1;
    } else {
      assert (n + 2) / 3 == (if n == 0 then 0 else 1);
    }
  }

  // ---------------------------------------------------------------------
  // The key
  // ---------------------------------------------------------------------

  predicate IsAlnum(ch: char) {
    ('a' <= ch <= 'z') || ('A' <= ch <= 'Z') || ('0' <= ch <= '9')
  }

  /** `.replace(/[^a-zA-Z0-9]/g, '_')` */
  function Sanitise(s: string): (r: string)
    ensures |r| == |s|
    ensures forall k :: 0 <= k < |s| ==> r[k] == (if IsAlnum(s[k]) then s[k] else '_')
  {
    if s == [] then [] else [if IsAlnum(s[0]) then s[0] else '_'] + Sanitise(s[1..])
  }

  /** `getCacheKey(url)` */
  function Key(url: string): string {
    Sanitise(Base64Encode(Utf8Encode(url)))
  }

  /**
   * A cache key is a file name made only of ASCII letters, digits and `_`,
   * four characters for every started group of three UTF-8 bytes of the URL.
   */
  lemma KeyShape(url: string)
    ensures forall k :: 0 <= k < |Key(url)| ==> IsAlnum(Key(url)[k]) || Key(url)[k] == '_'
    ensures |Key(url)| == 4 * ((|Utf8Encode(url)| + 2) / 3)
  {
    Base64Length(Utf8Encode(url));
  }

  /** Strings that differ only where both have a character outside `[A-Za-z0-9]` sanitise alike. */
  lemma SanitiseMerges(a: string, b: string)
    requires |a| == |b|
    requires forall k :: 0 <= k < |a| ==> a[k] == b[k] || (!IsAlnum(a[k]) && !IsAlnum(b[k]))
    ensures Sanitise(a) == Sanitise(b)
  {
  }

  /** A three-character ASCII string is three bytes, which make one group of four symbols. */
  lemma AsciiTriple(s: string)
    requires |s| == 3 && s[0] as int < 0x80 && s[1] as int < 0x80 && s[2] as int < 0x80
    ensures Base64Encode(Utf8Encode(s)) == Group3(s[0] as int, s[1] as int, s[2] as int)
  {
    Utf8Ascii(s);
    var b := Utf8Encode(s);
    assert b == [s[0] as int, s[1] as int, s[2] as int];
    assert b[3..] == [];
    AppendEmpty(Group3(b[0], b[1], b[2]));
  }

  lemma GroupYWIPlus()
    ensures Group3(0x61, 0x62, 0x3E) == "YWI+"
  {
    assert Symbol(24) == 'Y' && Symbol(22) == 'W' && Symbol(8) == 'I' && Symbol(62) == '+';
  }

  lemma GroupYWISlash()
    ensures Group3(0x61, 0x62, 0x3F) == "YWI/"
  {
    assert Symbol(24) == 'Y' && Symbol(22) == 'W' && Symbol(8) == 'I' && Symbol(63) == '/';
  }

  /**
   * The replacement merges `+`, `/` and `=`, so distinct URLs can share a
   * cache file: `ab>` and `ab?` are `YWI+` and `YWI/` in base64, and both
   * keys are `YWI_`.
   */
  lemma KeyCollision()
    ensures "ab>" != "ab?" && Key("ab>") == Key("ab?")
  {
    AsciiTriple("ab>");
    AsciiTriple("ab?");
    GroupYWIPlus();
    GroupYWISlash();
    SanitiseMerges("YWI+", "YWI/");
  }
}
