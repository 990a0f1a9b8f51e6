/**
 * The asset record and its serialised form.
 *
 * The contract turns a record into bytes with `JSON.stringify` and back with
 * `JSON.parse`. A record has one string field, so its serialised form is always
 * the object `{"value":"..."}` with the string escaped as section 7 of RFC 8259
 * and ECMAScript's QuoteJSONString prescribe: `"` and `\` and the control
 * characters below U+0020 are escaped, using the two-character forms `\b \t \n
 * \f \r` where they exist and `\u00XX` with lower-case hex digits otherwise;
 * every other character is written as itself.
 *
 * The decoder here accepts exactly the strings the encoder produces, so the
 * two are proved to be inverse to each other in both directions.
 */
module Json {

  datatype Option<T> = None | Some(value: T)

  /** The record class `MyCarAsset`: a single free-form string field. */
  datatype MyCarAsset = MyCarAsset(value: string)

  /** The fixed text before and after the escaped value. */
  const Prefix: string := "{\"value\":\""
  const Suffix: string := "\"}"

  // ----- single characters -------------------------------------------------

  /** The letter of the two-character escape for `c`, if `c` has one. */
  function ShortEscape(c: char): Option<char>
  {
    if c == '"' then Some('"')
    else if c == '\\' then Some('\\')
    else if c as int == 0x08 then Some('b')
    else if c == '\t' then Some('t')
    else if c == '\n' then Some('n')
    else if c as int == 0x0C then Some('f')
    else if c == '\r' then Some('r')
    else None
  }

  /** The character a two-character escape `\e` stands for, if `e` is one. */
  function ShortUnescape(e: char): (r: Option<char>)
    ensures r.Some? ==> ShortEscape(r.value) == Some(e)
    ensures forall c :: ShortEscape(c) == Some(e) ==> r == Some(c)
  {
    if e == '"' then Some('"')
    else if e == '\\' then Some('\\')
    else if e == 'b' then Some(0x08 as char)
    else if e == 't' then Some('\t')
    else if e == 'n' then Some('\n')
    else if e == 'f' then Some(0x0C as char)
    else if e == 'r' then Some('\r')
    else None
  }

  /** A lower-case hexadecimal digit. */
  function HexDigit(n: nat): char
    requires n < 16
  {
    if n < 10 then ('0' as int + n) as char else ('a' as int + n - 10) as char
  }

  /** The value of a lower-case hexadecimal digit; upper case is not produced, so not accepted. */
  function HexValue(c: char): (r: Option<nat>)
    ensures r.Some? ==> r.value < 16
  {
    if '0' <= c <= '9' then Some(c as int - '0' as int)
    else if 'a' <= c <= 'f' then Some(c as int - 'a' as int + 10)
    else None
  }

  lemma HexDigitValue(n: nat)
    requires n < 16
    ensures HexValue(HexDigit(n)) == Some(n)
  {
  }

  lemma HexValueDigit(c: char)
    requires HexValue(c).Some?
    ensures HexDigit(HexValue(c).value) == c
  {
  }

  /** True of the characters that are written as themselves. */
  predicate IsPlain(c: char)
  {
    c != '"' && c != '\\' && c as int >= 0x20
  }

  /** The six-character form `\u00XX` of a control character. */
  function UnicodeEscape(c: char): (r: string)
    requires c as int < 0x20
    ensures |r| == 6
  {
    ['\\', 'u', '0', '0', HexDigit(c as int / 16), HexDigit(c as int % 16)]
  }

  /** The character a six-character `\u00XX` escape stands for, if the encoder writes it so. */
  function UnicodeUnescape(u: string): (r: Option<char>)
    requires |u| == 6
    ensures r.Some? ==> r.value as int < 0x20 && ShortEscape(r.value).None?
  {
    if u[..4] == ['\\', 'u', '0', '0'] && HexValue(u[4]).Some? && HexValue(u[5]).Some? then
      var code := 16 * HexValue(u[4]).value + HexValue(u[5]).value;
      if code < 0x20 && ShortEscape(code as char).None? then Some(code as char) else None
    else None
  }

  lemma UnicodeRoundTrip(c: char)
    requires c as int < 0x20 && ShortEscape(c).None?
    ensures UnicodeUnescape(UnicodeEscape(c)) == Some(c)
  {
    var u := UnicodeEscape(c);
    assert u[..4] == ['\\', 'u', '0', '0'];
    HexDigitValue(c as int / 16);
    HexDigitValue(c as int % 16);
    assert 16 * (c as int / 16) + c as int % 16 == c as int;
  }

  lemma UnicodeCanonical(u: string)
    requires |u| == 6 && UnicodeUnescape(u).Some?
    ensures UnicodeEscape(UnicodeUnescape(u).value) == u
  {
    var hi, lo := HexValue(u[4]).value, HexValue(u[5]).value;
    var code := 16 * hi + lo;
    assert code / 16 == hi && code % 16 == lo;
    HexValueDigit(u[4]);
    HexValueDigit(u[5]);
    assert u == u[..4] + [u[4], u[5]];
  }

  /** How one character of the value is written inside the quotes. */
  function EscapeChar(c: char): (r: string)
    ensures 1 <= |r| <= 6
  {
    match ShortEscape(c)
    case Some(e) => ['\\', e]
    case None => if c as int < 0x20 then UnicodeEscape(c) else [c]
  }

  /**
   * The character at the front of an escaped string and the length of the
   * text that stands for it: a plain character, a two-character escape or a
   * six-character escape. Fails on a raw `"` or control character, on an
   * escape the encoder does not produce, and on a dangling `\`.
   */
  function UnescapeToken(t: string): (r: Option<(char, nat)>)
    requires t != []
    ensures r.Some? ==> 1 <= r.value.1 <= |t|
  {
    if t[0] != '\\' then
      if IsPlain(t[0]) then Some((t[0], 1)) else None
    else if |t| >= 2 && ShortUnescape(t[1]).Some? then Some((ShortUnescape(t[1]).value, 2))
    else if |t| >= 6 then
      match UnicodeUnescape(t[..6])
      case Some(c) => Some((c, 6))
      case None => None
    else None
  }

  /** Reading the escaped form of `c` gives `c` back and consumes exactly that form. */
  lemma TokenRoundTrip(c: char, t: string)
    ensures UnescapeToken(EscapeChar(c) + t) == Some((c, |EscapeChar(c)|))
  {
    var s := EscapeChar(c) + t;
    if ShortEscape(c).None? && c as int < 0x20 {
      assert s[..6] == UnicodeEscape(c);
      UnicodeRoundTrip(c);
    }
  }

  /** A token that reads as `c` is exactly the escaped form of `c`. */
  lemma TokenCanonical(t: string)
    requires t != [] && UnescapeToken(t).Some?
    ensures EscapeChar(UnescapeToken(t).value.0) == t[..UnescapeToken(t).value.1]
  {
    if t[0] == '\\' && !(|t| >= 2 && ShortUnescape(t[1]).Some?) {
      UnicodeCanonical(t[..6]);
    }
  }

  // ----- strings -----------------------------------------------------------

  /**
   * The body of a JSON string literal for `s`, without the surrounding quotes:
   * each character escaped on its own. (Defined from the last character so
   * that the verifier does not unfold it on string literals.)
   */
  function Escape(s: string): (r: string)
    ensures |r| >= |s|
  {
    if s == [] then [] else Escape(s[..|s| - 1]) + EscapeChar(s[|s| - 1])
  }

  /** Escaping works character by character, so it distributes over concatenation. */
  lemma {:induction false} EscapeAppend(a: string, b: string)
    ensures Escape(a + b) == Escape(a) + Escape(b)
    decreases |b|
  {
    if b == [] {
      assert a + b == a;
    } else {
      var b' := b[..|b| - 1];
      assert (a + b)[..|a + b| - 1] == a + b';
      EscapeAppend(a, b');
    }
  }

  lemma EscapeCons(c: char, rest: string)
    ensures Escape([c] + rest) == EscapeChar(c) + Escape(rest)
  {
    var single := [c];
    assert single[..|single| - 1] == [];
    assert Escape(single) == EscapeChar(c);
    EscapeAppend(single, rest);
  }

  function Prepend(c: char, o: Option<string>): Option<string>
  {
    match o
    case Some(t) => Some([c] + t)
    case None => None
  }

  /** Reads the body of a string literal back, token by token. */
  function Unescape(s: string): (r: Option<string>)
    ensures r.Some? ==> |r.value| <= |s|
    decreases |s|
  {
    if s == [] then Some([])
    else
      match UnescapeToken(s)
      case Some((c, n)) => Prepend(c, Unescape(s[n..]))
      case None => None
  }

  /** Escaping then unescaping gives the string back. */
  lemma {:induction false} UnescapeEscape(s: string)
    ensures Unescape(Escape(s)) == Some(s)
  {
    if s != [] {
      var c, tail := s[0], s[1..];
      assert s == [c] + tail;
      var e, rest := EscapeChar(c), Escape(tail);
      EscapeCons(c, tail);
      TokenRoundTrip(c, rest);
      assert (e + rest)[|e|..] == rest;
      UnescapeEscape(tail);
    }
  }

  /** A string that unescapes is its first token followed by a string that unescapes. */
  lemma UnescapeCons(t: string)
    requires t != [] && Unescape(t).Some?
    ensures UnescapeToken(t).Some? && Unescape(t[UnescapeToken(t).value.1..]).Some?
    ensures Unescape(t).value == [UnescapeToken(t).value.0] + Unescape(t[UnescapeToken(t).value.1..]).value
  {
  }

  /** A first token that escapes `c`, followed by the escaped form of `rest`, is the escaped form of `[c] + rest`. */
  lemma EscapeConsSplit(t: string, n: nat, c: char, rest: string)
    requires n <= |t| && EscapeChar(c) == t[..n] && Escape(rest) == t[n..]
    ensures Escape([c] + rest) == t
  {
    EscapeCons(c, rest);
    assert t == t[..n] + t[n..];
  }

  /** Unescaping only succeeds on what escaping produces: the escaped form is canonical. */
  lemma {:induction false} EscapeUnescape(t: string, s: string)
    requires Unescape(t) == Some(s)
    ensures Escape(s) == t
    decreases |t|
  {
    if t != [] {
      UnescapeCons(t);
      var (c, n) := UnescapeToken(t).value;
      var rest := Unescape(t[n..]).value;
      TokenCanonical(t);
      EscapeUnescape(t[n..], rest);
      EscapeConsSplit(t, n, c, rest);
    }
  }

  lemma EscapeSnocPlain(init: string, last: char)
    requires Escape(init) == init && IsPlain(last)
    ensures Escape(init + [last]) == init + [last]
  {
    var s := init + [last];
    assert s[..|s| - 1] == init;
  }

  /** A value with no character that needs escaping is written verbatim. */
  lemma {:induction false} EscapePlain(s: string)
    requires forall i :: 0 <= i < |s| ==> IsPlain(s[i])
    ensures Escape(s) == s
  {
    if s != [] {
      var init, last := s[..|s| - 1], s[|s| - 1];
      assert s == init + [last];
      EscapePlain(init);
      EscapeSnocPlain(init, last);
    }
  }

  // ----- records -----------------------------------------------------------

  /** `JSON.stringify` of a record. */
  function Stringify(a: MyCarAsset): (r: string)
    ensures |r| >= |Prefix| + |a.value| + |Suffix|
  {
    Prefix + Escape(a.value) + Suffix
  }

  /** `JSON.parse` restricted to the serialised form of a record. */
  function Parse(b: string): Option<MyCarAsset>
  {
    if |b| >= |Prefix| + |Suffix| && b[..|Prefix|] == Prefix && b[|b| - |Suffix|..] == Suffix then
      match Unescape(b[|Prefix|..|b| - |Suffix|])
      case Some(v) => Some(MyCarAsset(v))
      case None => None
    else None
  }

  lemma ParseStringify(a: MyCarAsset)
    ensures Parse(Stringify(a)) == Some(a)
  {
    var b := Stringify(a);
    assert b[..|Prefix|] == Prefix;
    assert b[|b| - |Suffix|..] == Suffix;
    assert b[|Prefix|..|b| - |Suffix|] == Escape(a.value);
    UnescapeEscape(a.value);
  }

  lemma StringifyParse(b: string, a: MyCarAsset)
    requires Parse(b) == Some(a)
    ensures Stringify(a) == b
  {
    var body := b[|Prefix|..|b| - |Suffix|];
    EscapeUnescape(body, a.value);
    assert b == b[..|Prefix|] + body + b[|b| - |Suffix|..];
  }

  /** Parsing a buffer yields `a` exactly when the buffer is the serialised form of `a`. */
  lemma ParseIffStringify(b: string)
    ensures forall a :: Parse(b) == Some(a) <==> Stringify(a) == b
  {
    forall a ensures Parse(b) == Some(a) <==> Stringify(a) == b {
      if Parse(b) == Some(a) { StringifyParse(b, a); }
      if Stringify(a) == b { ParseStringify(a); }
    }
  }

  /** Two different records never share a serialised form. */
  lemma StringifyInjective(a1: MyCarAsset, a2: MyCarAsset)
    requires Stringify(a1) == Stringify(a2)
    ensures a1 == a2
  {
    ParseStringify(a1);
    ParseStringify(a2);
  }
}
