/**
 * `decodeURIComponent`, after the `Decode` operation of the ECMAScript
 * language specification with an empty reserved set: each `%XY` escape
 * below 0x80, and each run of escapes forming one UTF-8 encoded code point,
 * becomes that character; a malformed escape or byte sequence throws a
 * `URIError`, here `None`.
 */
module Uri {
  import opened Optional

  /** The value of a hexadecimal digit of either case. */
  function HexValue(c: char): (r: Option<nat>)
    ensures r.Some? ==> r.value < 16
  {
    if '0' <= c <= '9' then Some(c as nat - '0' as nat)
    else if 'a' <= c <= 'f' then Some(c as nat - 'a' as nat + 10)
    else if 'A' <= c <= 'F' then Some(c as nat - 'A' as nat + 10)
    else None
  }

  /** The byte written as `%XY` at position `i`, if one is written there. */
  function EscapedByte(s: string, i: nat): (r: Option<nat>)
    ensures r.Some? ==> i + 3 <= |s| && s[i] == '%' && r.value < 256
  {
    if i + 3 <= |s| && s[i] == '%' && HexValue(s[i + 1]).Some? && HexValue(s[i + 2]).Some? then
      Some(HexValue(s[i + 1]).value * 16 + HexValue(s[i + 2]).value)
    else None
  }

  /**
   * Reads `count` escaped continuation bytes (`10xxxxxx`) from `i` on,
   * appending the six payload bits of each to `bits`.
   */
  function Continuation(s: string, i: nat, count: nat, bits: nat): (r: Option<nat>)
    requires i <= |s|
    ensures r.Some? ==> i + 3 * count <= |s|
    decreases count
  {
    if count == 0 then Some(bits)
    else
      match EscapedByte(s, i)
      case None => None
      case Some(b) => if b / 64 != 2 then None else Continuation(s, i + 3, count - 1, bits * 64 + b % 64)
  }

  /**
   * For a lead byte of a multi-byte UTF-8 sequence: the sequence length,
   * the lead byte's payload bits and the least code point that needs that
   * length. A continuation byte or a byte above 0xF7 cannot lead.
   */
  function Lead(b: nat): (r: Option<(nat, nat, nat)>)
    ensures r.Some? ==> 2 <= r.value.0 <= 4
  {
    if b / 32 == 6 then Some((2, b % 32, 0x80))
    else if b / 16 == 14 then Some((3, b % 16, 0x800))
    else if b / 8 == 30 then Some((4, b % 8, 0x10000))
    else None
  }

  /** A Unicode scalar value: no surrogate, nothing above 0x10FFFF. */
  predicate IsScalar(cp: nat) {
    cp < 0xD800 || 0xE000 <= cp < 0x110000
  }

  /** The character written by the escapes at `i`, and how many characters they take. */
  function EscapeAt(s: string, i: nat): (r: Option<(char, nat)>)
    ensures r.Some? ==> 3 <= r.value.1 && i + r.value.1 <= |s|
  {
    match EscapedByte(s, i)
    case None => None
    case Some(b) =>
      if b < 0x80 then Some((b as char, 3))
      else
        match Lead(b)
        case None => None
        case Some((n, bits, least)) =>
          match Continuation(s, i + 3, n - 1, bits)
          case None => None
          case Some(cp) =>
            if least <= cp && IsScalar(cp) then Some((cp as char, 3 * n)) else None
  }

  /** `decodeURIComponent(s)`; `None` where it throws. */
  function DecodeUriComponent(s: string): (r: Option<string>)
    ensures r.Some? ==> |r.value| <= |s|
    decreases |s|
  {
    if s == [] then Some([])
    else
      var step: Option<(char, nat)> := if s[0] != '%' then Some((s[0], 1)) else EscapeAt(s, 0);
      match step
      case None => None
      case Some((c, used)) =>
        match DecodeUriComponent(s[used..])
        case None => None
        case Some(rest) => Some([c] + rest)
  }

  /** Text without `%` decodes to itself. */
  lemma {:induction false} DecodePlain(s: string)
    requires '%' !in s
    ensures DecodeUriComponent(s) == Some(s)
    decreases |s|
  {
    if s != [] {
      DecodePlain(s[1..]);
      assert s == [s[0]] + s[1..];
    }
  }

  /** The upper-case hexadecimal digit of a value below 16. */
  function HexDigit(d: nat): (c: char)
    requires d < 16
    ensures HexValue(c) == Some(d)
  {
    if d < 10 then ('0' as int + d) as char else ('A' as int + d - 10) as char
  }

  /** The escape `%XY` of a character below 0x80. */
  function AsciiEscape(c: char): string
    requires c as int < 0x80
  {
    ['%', HexDigit(c as nat / 16), HexDigit(c as nat % 16)]
  }

  /** An escaped character below 0x80 decodes to itself, whatever follows. */
  lemma DecodeAsciiEscape(c: char, rest: string)
    requires c as int < 0x80
    ensures DecodeUriComponent(AsciiEscape(c) + rest).Some? <==> DecodeUriComponent(rest).Some?
    ensures DecodeUriComponent(rest).Some? ==>
              DecodeUriComponent(AsciiEscape(c) + rest).value == [c] + DecodeUriComponent(rest).value
  {
    var s := AsciiEscape(c) + rest;
    assert EscapedByte(s, 0) == Some(c as nat);
    assert s[3..] == rest;
  }

  /** A `%` not followed by two hexadecimal digits makes it throw. */
  lemma DecodeStrayPercent()
    ensures DecodeUriComponent("a%b") == None
  {
    assert EscapedByte("a%b"[1..], 0) == None;
  }

  /** A text that still holds an escape loses it: `a%41` decodes to `aA`. */
  lemma DecodeEscapedLetter()
    ensures DecodeUriComponent("a%41") == Some("aA")
  {
    var s := "a%41";
    assert s[1..] == AsciiEscape('A') + "";
    DecodeAsciiEscape('A', "");
    assert DecodeUriComponent("") == Some("");
    assert DecodeUriComponent(AsciiEscape('A') + "").value == ['A'] + "" == "A";
    assert DecodeUriComponent(s[1..]) == Some("A");
    assert DecodeUriComponent(s) == Some([s[0]] + "A");
    assert [s[0]] + "A" == "aA";
  }

  /** Two escapes forming one UTF-8 sequence decode to one character. */
  lemma DecodeTwoByteSequence()
    ensures DecodeUriComponent("%C3%A9") == Some("\U{E9}")
  {
    var s := "%C3%A9";
    assert EscapedByte(s, 0) == Some(0xC3);
    assert EscapedByte(s, 3) == Some(0xA9);
    assert Continuation(s, 3, 1, 3) == Some(0xE9);
    assert EscapeAt(s, 0) == Some(('\U{E9}', 6));
    assert s[6..] == [];
    assert DecodeUriComponent(s[6..]) == Some("");
    assert ['\U{E9}'] + "" == "\U{E9}";
  }

  /** An overlong encoding is not a valid UTF-8 sequence. */
  lemma DecodeOverlong()
    ensures DecodeUriComponent("%C0%80") == None
  {
    var s := "%C0%80";
    assert EscapedByte(s, 0) == Some(0xC0);
    assert EscapedByte(s, 3) == Some(0x80);
    assert Continuation(s, 3, 1, 0) == Some(0);
  }
}
