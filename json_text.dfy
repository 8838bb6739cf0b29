/**
 * The two text renderings the component needs: PHP's decimal form of an
 * integer (`(string)$n`), and `json_encode` of an array key with PHP's
 * default flags. Each comes with the parser that inverts it.
 */
module JsonText {
  import opened Wrappers
  import opened Values

  // ---------------------------------------------------------------------------
  // Decimal text of integers
  // ---------------------------------------------------------------------------

  const Digits: string := "0123456789"

  predicate IsDigit(c: char) {
    '0' <= c <= '9'
  }

  predicate AllDigits(s: string) {
    forall i :: 0 <= i < |s| ==> IsDigit(s[i])
  }

  function DigitValue(c: char): (d: nat)
    requires IsDigit(c)
    ensures d < 10 && Digits[d] == c
  {
    (c as int) - ('0' as int)
  }

  /** Decimal digits of `n`, without leading zeros. */
  function NatText(n: nat): (s: string)
    ensures |s| > 0 && AllDigits(s)
    ensures n > 0 <==> s[0] != '0'
  {
    if n < 10 then [Digits[n]] else NatText(n / 10) + [Digits[n % 10]]
  }

  /** `(string)$n` for a PHP integer. */
  function DecimalText(n: int): string {
    if n < 0 then "-" + NatText(-n) else NatText(n)
  }

  /** The value of a run of decimal digits, most significant first. */
  function ParseNat(s: string): nat
    requires AllDigits(s)
  {
    if s == [] then 0 else 10 * ParseNat(s[..|s| - 1]) + DigitValue(s[|s| - 1])
  }

  /** The integer written by an optional minus sign and decimal digits. */
  function ParseDecimal(s: string): Option<int> {
    if |s| > 0 && s[0] == '-' then
      if |s| > 1 && AllDigits(s[1..]) then Some(0 - ParseNat(s[1..])) else None
    else if |s| > 0 && AllDigits(s) then Some(ParseNat(s))
    else None
  }

  lemma {:induction false} ParseNatText(n: nat)
    ensures ParseNat(NatText(n)) == n
  {
    if n >= 10 {
      var s := NatText(n);
      ParseNatText(n / 10);
      assert s[..|s| - 1] == NatText(n / 10);
    }
  }

  /** The decimal text of an integer reads back as that integer. */
  lemma DecimalRoundTrip(n: int)
    ensures ParseDecimal(DecimalText(n)) == Some(n)
  {
    if n < 0 {
      NegativeRoundTrip(-n);
    } else {
      NatRoundTrip(n);
    }
  }

  lemma NatRoundTrip(n: nat)
    ensures ParseDecimal(DecimalText(n)) == Some(n)
  {
    var t := NatText(n);
    assert DecimalText(n) == t;
    ParseNatText(n);
    assert t[0] != '-';
  }

  lemma NegativeRoundTrip(m: nat)
    requires m > 0
    ensures ParseDecimal(DecimalText(-(m as int))) == Some(-(m as int))
  {
    var t := NatText(m);
    ParseNatText(m);
    var s := "-" + t;
    assert DecimalText(-(m as int)) == s;
    assert s[1..] == t;
    assert ParseDecimal(s) == Some(0 - ParseNat(t));
  }

  /** Decimal text uses only digits and a leading minus sign. */
  lemma DecimalTextChars(n: int)
    ensures forall i :: 0 <= i < |DecimalText(n)| ==>
      IsDigit(DecimalText(n)[i]) || (i == 0 && n < 0 && DecimalText(n)[i] == '-')
  {
  }

  // ---------------------------------------------------------------------------
  // json_encode of strings (default flags: `/` and non-ASCII are escaped)
  // ---------------------------------------------------------------------------

  /** A lower-case hex digit. */
  function HexDigit(d: nat): (c: char)
    requires d < 16
    ensures HexValue(c) == Some(d)
  {
    if d < 10 then (('0' as int) + d) as char else (('a' as int) + d - 10) as char
  }

  /** Four lower-case hex digits of a UTF-16 code unit, as in `\u00e9`. */
  function Hex4(u: nat): (s: string)
    requires u < 0x10000
    ensures |s| == 4
  {
    [HexDigit(u / 16 / 16 / 16), HexDigit(u / 16 / 16 % 16), HexDigit(u / 16 % 16), HexDigit(u % 16)]
  }

  /** A `\u` escape of one UTF-16 code unit. */
  function UnitEscape(u: nat): (s: string)
    requires u < 0x10000
    ensures |s| == 6
  {
    "\\u" + Hex4(u)
  }

  /** How `json_encode` writes one character inside a string literal. */
  function EscapeChar(c: char): string {
    if c == '"' then "\\\""
    else if c == '\\' then "\\\\"
    else if c == '/' then "\\/"
    else if c == '\U{8}' then "\\b"
    else if c == '\U{C}' then "\\f"
    else if c == '\n' then "\\n"
    else if c == '\r' then "\\r"
    else if c == '\t' then "\\t"
    else if c < ' ' then UnitEscape(c as int)
    else if c < '\U{80}' then [c]
    else if (c as int) < 0x10000 then UnitEscape(c as int)
    else
      var v := (c as int) - 0x10000;
      UnitEscape(0xD800 + v / 0x400) + UnitEscape(0xDC00 + v % 0x400)
  }

  /** The characters of a JSON string literal between its quotes. */
  function Escape(s: string): (e: string)
    ensures |s| <= |e| && (e == [] <==> s == [])
  {
    if s == [] then [] else EscapeChar(s[0]) + Escape(s[1..])
  }

  /** `json_encode($k)` for an array key: a number, or a quoted string. */
  function EncodeKey(k: Key): (e: string)
    ensures k.StrKey? <==> |e| > 0 && e[0] == '"'
  {
    match k
    case IntKey(n) =>
      DecimalTextChars(n);
      DecimalText(n)
    case StrKey(s) => "\"" + Escape(s) + "\""
  }

  // ---------------------------------------------------------------------------
  // Reading the encodings back
  // ---------------------------------------------------------------------------

  /** A key as PHP turns it into a string: `(string)$k`. */
  function KeyText(k: Key): string {
    match k
    case IntKey(n) => DecimalText(n)
    case StrKey(x) => x
  }

  /** The range of PHP's 64-bit integers, `PHP_INT_MIN .. PHP_INT_MAX`. */
  predicate InPhpIntRange(n: int) {
    -0x8000_0000_0000_0000 <= n < 0x8000_0000_0000_0000
  }

  /**
   * The key PHP stores a string under: a string that is the canonical
   * decimal text of a 64-bit integer becomes that integer key; any other
   * string, a canonical decimal beyond `PHP_INT_MAX` included, stays a
   * string key.
   */
  function ArrayKey(s: string): (k: Key)
    ensures KeyText(k) == s
    ensures k.IntKey? ==> DecimalText(k.n) == s && InPhpIntRange(k.n)
    ensures forall n :: DecimalText(n) == s && InPhpIntRange(n) ==> k == IntKey(n)
  {
    assert forall n :: DecimalText(n) == s ==> ParseDecimal(s) == Some(n) by {
      forall n | DecimalText(n) == s {
        DecimalRoundTrip(n);
      }
    }
    match ParseDecimal(s)
    case Some(n) => if DecimalText(n) == s && InPhpIntRange(n) then IntKey(n) else StrKey(s)
    case None => StrKey(s)
  }

  /**
   * The key `$a[$k]` uses for a ref's index `$k`: an integer as itself, a
   * string through PHP's key cast.
   */
  function OffsetKey(k: Key): (o: Key)
    ensures KeyText(o) == KeyText(k)
    ensures k.IntKey? ==> o == k
    ensures k.StrKey? && o.IntKey? ==> DecimalText(o.n) == k.s
  {
    match k
    case IntKey(_) => k
    case StrKey(s) => ArrayKey(s)
  }

  function HexValue(c: char): Option<nat> {
    if '0' <= c <= '9' then Some((c as int) - ('0' as int))
    else if 'a' <= c <= 'f' then Some((c as int) - ('a' as int) + 10)
    else if 'A' <= c <= 'F' then Some((c as int) - ('A' as int) + 10)
    else None
  }

  /** The code unit written by four hex digits. */
  function ParseHex4(s: string): (r: Option<nat>)
    requires |s| == 4
    ensures r.Some? ==> r.value < 0x10000
  {
    match (HexValue(s[0]), HexValue(s[1]), HexValue(s[2]), HexValue(s[3]))
    case (Some(a), Some(b), Some(c), Some(d)) =>
      if a < 16 && b < 16 && c < 16 && d < 16 then Some(a * 0x1000 + b * 0x100 + c * 0x10 + d) else None
    case _ => None
  }

  predicate IsScalar(n: int) {
    0 <= n < 0xD800 || 0xE000 <= n < 0x110000
  }

  /** The two-character escapes of JSON, by their letter after the backslash. */
  function SimpleEscape(c: char): Option<char> {
    if c == '"' then Some('"')
    else if c == '\\' then Some('\\')
    else if c == '/' then Some('/')
    else if c == 'b' then Some('\U{8}')
    else if c == 'f' then Some('\U{C}')
    else if c == 'n' then Some('\n')
    else if c == 'r' then Some('\r')
    else if c == 't' then Some('\t')
    else None
  }

  /**
   * Read the body of a JSON string literal up to its closing quote: the
   * decoded characters and what follows the quote, or `None` when the
   * literal is malformed or unterminated.
   */
  function ReadString(s: string): (r: Option<(string, string)>)
    ensures r.Some? ==> |r.value.1| < |s|
    decreases |s|
  {
    if s == [] then None
    else if s[0] == '"' then Some(([], s[1..]))
    else if s[0] != '\\' then
      Prepend(s[0], ReadString(s[1..]))
    else if |s| >= 2 && SimpleEscape(s[1]).Some? then
      Prepend(SimpleEscape(s[1]).value, ReadString(s[2..]))
    else if |s| >= 6 && s[1] == 'u' && ParseHex4(s[2..6]).Some? then
      var u := ParseHex4(s[2..6]).value;
      if 0xD800 <= u < 0xDC00 then
        if |s| >= 12 && s[6] == '\\' && s[7] == 'u' && ParseHex4(s[8..12]).Some?
           && 0xDC00 <= ParseHex4(s[8..12]).value < 0xE000
        then
          var c := 0x10000 + (u - 0xD800) * 0x400 + (ParseHex4(s[8..12]).value - 0xDC00);
          Prepend(c as char, ReadString(s[12..]))
        else None
      else if IsScalar(u) then Prepend(u as char, ReadString(s[6..]))
      else None
    else None
  }

  function Prepend(c: char, r: Option<(string, string)>): (r': Option<(string, string)>)
    ensures r'.Some? <==> r.Some?
    ensures r'.Some? ==> r'.value.1 == r.value.1
  {
    match r
    case Some((t, rest)) => Some(([c] + t, rest))
    case None => None
  }

  /** Position of the first `]` in `s`, or `|s|`. */
  function CloseBracket(s: string): (j: nat)
    ensures j <= |s|
    ensures j < |s| ==> s[j] == ']'
    ensures forall i :: 0 <= i < j ==> s[i] != ']'
  {
    if s == [] then 0 else if s[0] == ']' then 0 else 1 + CloseBracket(s[1..])
  }

  /** Read one `<key>]` of a data path: a quoted string key or a decimal integer key. */
  function ReadSegment(s: string): (r: Option<(Key, string)>)
    ensures r.Some? ==> |r.value.1| < |s|
  {
    if |s| > 0 && s[0] == '"' then
      match ReadString(s[1..])
      case Some((k, rest)) =>
        if |rest| > 0 && rest[0] == ']' then Some((StrKey(k), rest[1..])) else None
      case None => None
    else
      var j := CloseBracket(s);
      if j < |s| then
        match ParseDecimal(s[..j])
        case Some(n) => Some((IntKey(n), s[j + 1..]))
        case None => None
      else None
  }

  /** Read a whole data path written as `[k1][k2]...`. */
  function ParsePath(s: string): Option<seq<Key>>
    decreases |s|
  {
    if s == [] then Some([])
    else if s[0] != '[' then None
    else
      match ReadSegment(s[1..])
      case Some((k, rest)) =>
        (match ParsePath(rest)
         case Some(p) => Some([k] + p)
         case None => None)
      case None => None
  }

  lemma HexRoundTrip(u: nat)
    requires u < 0x10000
    ensures ParseHex4(Hex4(u)) == Some(u)
  {
    var q1 := u / 16;
    var q2 := q1 / 16;
    var q3 := q2 / 16;
    assert u == 16 * q1 + u % 16;
    assert q1 == 16 * q2 + q1 % 16;
    assert q2 == 16 * q3 + q2 % 16;
    assert q3 < 16;
    assert q3 * 0x1000 + (q2 % 16) * 0x100 + (q1 % 16) * 0x10 + u % 16 == u;
  }

  /** Reading one escaped character followed by anything reads the character first. */
  lemma EscapeCharRoundTrip(c: char, rest: string)
    ensures ReadString(EscapeChar(c) + rest) == Prepend(c, ReadString(rest))
  {
    var e := EscapeChar(c);
    var s := e + rest;
    if c == '"' || c == '\\' || c == '/' || c == '\U{8}' || c == '\U{C}' || c == '\n' || c == '\r' || c == '\t' {
      assert s[2..] == rest;
    } else if c < ' ' {
      UnitRoundTrip(c as int, rest);
    } else if c < '\U{80}' {
      assert s[0] == c && s[1..] == rest;
    } else if (c as int) < 0x10000 {
      UnitRoundTrip(c as int, rest);
    } else {
      SurrogateRoundTrip(c, rest);
    }
  }

  lemma UnitRoundTrip(u: nat, rest: string)
    requires u < 0x10000 && IsScalar(u) && !(0xD800 <= u < 0xDC00)
    ensures ReadString(UnitEscape(u) + rest) == Prepend(u as char, ReadString(rest))
  {
    var s := UnitEscape(u) + rest;
    assert s[2..6] == Hex4(u);
    HexRoundTrip(u);
    assert s[6..] == rest;
  }

  lemma SurrogateRoundTrip(c: char, rest: string)
    requires (c as int) >= 0x10000
    ensures ReadString(EscapeChar(c) + rest) == Prepend(c, ReadString(rest))
  {
    SupplementaryEscape(c);
    SurrogatePairRead(c, rest);
  }

  /** The high surrogate of a character beyond the 16-bit range. */
  function HighSurrogate(c: char): nat
    requires (c as int) >= 0x10000
  {
    0xD800 + ((c as int) - 0x10000) / 0x400
  }

  /** The low surrogate of a character beyond the 16-bit range. */
  function LowSurrogate(c: char): nat
    requires (c as int) >= 0x10000
  {
    0xDC00 + ((c as int) - 0x10000) % 0x400
  }

  /** A character beyond the 16-bit range is escaped as its surrogate pair. */
  lemma SupplementaryEscape(c: char)
    requires (c as int) >= 0x10000
    ensures HighSurrogate(c) < 0x10000 && LowSurrogate(c) < 0x10000
    ensures EscapeChar(c) == UnitEscape(HighSurrogate(c)) + UnitEscape(LowSurrogate(c))
  {
  }

  /** An escaped surrogate pair reads back as the one character it encodes. */
  lemma SurrogatePairRead(c: char, rest: string)
    requires (c as int) >= 0x10000
    ensures HighSurrogate(c) < 0x10000 && LowSurrogate(c) < 0x10000
    ensures ReadString(UnitEscape(HighSurrogate(c)) + UnitEscape(LowSurrogate(c)) + rest) == Prepend(c, ReadString(rest))
  {
    var v := (c as int) - 0x10000;
    SurrogateSplit(v);
    var hi, lo := HighSurrogate(c), LowSurrogate(c);
    var s := UnitEscape(hi) + UnitEscape(lo) + rest;
    assert s[0] == '\\' && s[1] == 'u' && SimpleEscape(s[1]).None?;
    assert s[2..6] == Hex4(hi);
    assert s[6] == '\\' && s[7] == 'u';
    assert s[8..12] == Hex4(lo);
    HexRoundTrip(hi);
    HexRoundTrip(lo);
    assert s[12..] == rest;
    assert 0x10000 + (hi - 0xD800) * 0x400 + (lo - 0xDC00) == c as int;
  }

  /** A supplementary code point splits into a high and a low surrogate that put it back together. */
  lemma SurrogateSplit(v: nat)
    requires v < 0x100000
    ensures 0xD800 <= 0xD800 + v / 0x400 < 0xDC00
    ensures 0xDC00 <= 0xDC00 + v % 0x400 < 0xE000
    ensures 0x10000 + (v / 0x400) * 0x400 + v % 0x400 == 0x10000 + v
  {
  }

  /** An escaped string followed by its closing quote reads back as the string, leaving what follows. */
  lemma {:induction false} EscapeRoundTrip(s: string, rest: string)
    ensures ReadString(Escape(s) + "\"" + rest) == Some((s, rest))
  {
    if s == [] {
      assert Escape(s) + "\"" + rest == "\"" + rest;
    } else {
      EscapeRoundTrip(s[1..], rest);
      assert Escape(s) + "\"" + rest == EscapeChar(s[0]) + (Escape(s[1..]) + "\"" + rest);
      EscapeCharRoundTrip(s[0], Escape(s[1..]) + "\"" + rest);
      assert [s[0]] + s[1..] == s;
    }
  }

  /** One encoded key and its closing bracket read back as that key. */
  lemma SegmentRoundTrip(k: Key, rest: string)
    ensures ReadSegment(EncodeKey(k) + "]" + rest) == Some((k, rest))
  {
    match k
    case IntKey(n) => IntSegmentRoundTrip(n, rest);
    case StrKey(x) => StrSegmentRoundTrip(x, rest);
  }

  lemma IntSegmentRoundTrip(n: int, rest: string)
    ensures ReadSegment(DecimalText(n) + "]" + rest) == Some((IntKey(n), rest))
  {
    var d := DecimalText(n);
    var s := d + "]" + rest;
    DecimalRoundTrip(n);
    DecimalTextChars(n);
    assert s[0] == d[0] && s[0] != '"';
    assert s[|d|] == ']';
    assert forall i :: 0 <= i < |d| ==> s[i] == d[i] && s[i] != ']';
    CloseBracketIs(s, |d|);
    assert s[..|d|] == d;
    assert s[|d| + 1..] == rest;
  }

  lemma StrSegmentRoundTrip(x: string, rest: string)
    ensures ReadSegment("\"" + Escape(x) + "\"" + "]" + rest) == Some((StrKey(x), rest))
  {
    var s := "\"" + Escape(x) + "\"" + "]" + rest;
    assert s[1..] == Escape(x) + "\"" + ("]" + rest);
    EscapeRoundTrip(x, "]" + rest);
    assert ("]" + rest)[1..] == rest;
  }

  lemma CloseBracketIs(s: string, j: nat)
    requires j < |s| && s[j] == ']'
    requires forall i :: 0 <= i < j ==> s[i] != ']'
    ensures CloseBracket(s) == j
  {
    var c := CloseBracket(s);
    assert c < |s| ==> s[c] == ']';
  }

  /** One step of a data path, `[<key>]`. */
  function Segment(k: Key): string {
    "[" + EncodeKey(k) + "]"
  }

  /** The bracketed rendering of a data path, built left to right as `getDataPathAsString` does. */
  function PathText(p: seq<Key>): string {
    if p == [] then "" else PathText(p[..|p| - 1]) + Segment(p[|p| - 1])
  }

  lemma {:induction false} PathTextCons(k: Key, p: seq<Key>)
    ensures PathText([k] + p) == Segment(k) + PathText(p)
    decreases |p|
  {
    var q := [k] + p;
    if p == [] {
      assert q[..|q| - 1] == [];
    } else {
      var init, last := p[..|p| - 1], p[|p| - 1];
      assert q[..|q| - 1] == [k] + init;
      assert q[|q| - 1] == last;
      PathTextCons(k, init);
      Associative(Segment(k), PathText(init), Segment(last));
    }
  }

  lemma Associative(a: string, b: string, c: string)
    ensures (a + b) + c == a + (b + c)
  {
  }

  /** A data path can be read back from its rendering: distinct paths render differently. */
  lemma {:induction false} PathRoundTrip(p: seq<Key>)
    ensures ParsePath(PathText(p)) == Some(p)
    decreases |p|
  {
    if p != [] {
      var k, tail := p[0], p[1..];
      assert p == [k] + tail;
      PathTextCons(k, tail);
      var t := PathText(tail);
      SegmentSplit(k, t);
      SegmentRoundTrip(k, t);
      PathRoundTrip(tail);
      ParseCons(Segment(k) + t, k, t);
    }
  }

  lemma SegmentSplit(k: Key, t: string)
    ensures |Segment(k) + t| > 0 && (Segment(k) + t)[0] == '['
    ensures (Segment(k) + t)[1..] == EncodeKey(k) + "]" + t
  {
    assert Segment(k) + t == "[" + (EncodeKey(k) + "]" + t);
  }

  lemma ParseCons(s: string, k: Key, rest: string)
    requires |s| > 0 && s[0] == '[' && ReadSegment(s[1..]) == Some((k, rest))
    requires ParsePath(rest).Some?
    ensures ParsePath(s) == Some([k] + ParsePath(rest).value)
  {
  }

  /** A string of plain characters is written between quotes unchanged, e.g. `"1a"`. */
  lemma {:induction false} PlainStringEncoding(s: string)
    requires forall i :: 0 <= i < |s| ==> ' ' <= s[i] < '\U{80}' && s[i] !in "\"\\/"
    ensures Escape(s) == s
  {
    if s != [] {
      PlainStringEncoding(s[1..]);
      assert [s[0]] + s[1..] == s;
    }
  }
}
