/** Go's conversion `[]byte(s)` of a string to its bytes: the UTF-8
    encoding of its runes. A decoder is given beside the encoder so that the
    encoding can be shown to lose nothing. */
module Utf8 {
  import opened Wrappers

  /** Go's `byte`. */
  type byte = x: int | 0 <= x < 0x100

  /** A continuation byte, `10xxxxxx`. */
  predicate IsContinuation(b: byte) {
    0x80 <= b < 0xC0
  }

  /** The UTF-8 encoding of one rune: one byte below U+0080, two below
      U+0800, three below U+10000 and four above; the first byte announces the
      length and every other byte is a continuation byte. */
  function EncodeRune(c: char): (bs: seq<byte>)
    ensures |bs| == (if c < '\U{80}' then 1 else if c < '\U{800}' then 2
                     else if c < '\U{10000}' then 3 else 4)
    ensures |bs| == 1 <==> bs[0] < 0x80
    ensures |bs| == 2 <==> 0xC0 <= bs[0] < 0xE0
    ensures |bs| == 3 <==> 0xE0 <= bs[0] < 0xF0
    ensures |bs| == 4 <==> 0xF0 <= bs[0] < 0xF8
    ensures forall i :: 1 <= i < |bs| ==> IsContinuation(bs[i])
  {
    var v := c as int;
    if v < 0x80 then [v]
    else if v < 0x800 then [0xC0 + v / 0x40, 0x80 + v % 0x40]
    else if v < 0x10000 then [0xE0 + v / 0x1000, 0x80 + v / 0x40 % 0x40, 0x80 + v % 0x40]
    else [0xF0 + v / 0x40000, 0x80 + v / 0x1000 % 0x40, 0x80 + v / 0x40 % 0x40, 0x80 + v % 0x40]
  }

  /** `[]byte(s)`: the encodings of the runes of `s`, one after the other. */
  function Encode(s: string): seq<byte>
  {
    if s == [] then [] else EncodeRune(s[0]) + Encode(s[1..])
  }

  /** Decodes the rune at the start of `bs` and says how many bytes it took,
      or None when `bs` does not start with the shortest encoding of a rune. */
  function DecodeRune(bs: seq<byte>): Option<(char, nat)>
  {
    if |bs| == 0 then None
    else if bs[0] < 0x80 then Some((bs[0] as char, 1))
    else if bs[0] < 0xC0 then None
    else if bs[0] < 0xE0 then
      if |bs| < 2 || !IsContinuation(bs[1]) then None
      else
        var v := (bs[0] as int - 0xC0) * 0x40 + (bs[1] as int - 0x80);
        if v < 0x80 then None else Some((v as char, 2))
    else if bs[0] < 0xF0 then
      if |bs| < 3 || !IsContinuation(bs[1]) || !IsContinuation(bs[2]) then None
      else
        var v := (bs[0] as int - 0xE0) * 0x1000 + (bs[1] as int - 0x80) * 0x40 + (bs[2] as int - 0x80);
        if v < 0x800 || 0xD800 <= v < 0xE000 then None else Some((v as char, 3))
    else if bs[0] < 0xF8 then
      if |bs| < 4 || !IsContinuation(bs[1]) || !IsContinuation(bs[2]) || !IsContinuation(bs[3]) then None
      else
        var v := (bs[0] as int - 0xF0) * 0x40000 + (bs[1] as int - 0x80) * 0x1000 + (bs[2] as int - 0x80) * 0x40 + (bs[3] as int - 0x80);
        if v < 0x10000 || v > 0x10FFFF then None else Some((v as char, 4))
    else None
  }

  /** Decodes a whole byte sequence, or None when it is not valid UTF-8. */
  function Decode(bs: seq<byte>): Option<string>
    decreases |bs|
  {
    if bs == [] then Some([])
    else match DecodeRune(bs)
      case None => None
      case Some((c, k)) =>
        if k == 0 || k > |bs| then None
        else match Decode(bs[k..])
          case None => None
          case Some(rest) => Some([c] + rest)
  }

  /** Splitting a code point into six-bit groups and putting them back
      together gives the code point. */
  lemma SixBitGroups(v: nat)
    ensures v / 0x40 * 0x40 + v % 0x40 == v
    ensures v / 0x1000 * 0x1000 + v / 0x40 % 0x40 * 0x40 + v % 0x40 == v
    ensures v / 0x40000 * 0x40000 + v / 0x1000 % 0x40 * 0x1000 + v / 0x40 % 0x40 * 0x40 + v % 0x40 == v
  {
    var q := v / 0x40;
    var q2 := q / 0x40;
    assert v == q * 0x40 + v % 0x40;
    assert q == q2 * 0x40 + q % 0x40;
    assert v / 0x1000 == q2;
    assert q2 == q2 / 0x40 * 0x40 + q2 % 0x40;
    assert v / 0x40000 == q2 / 0x40;
  }

  /** Decoding the encoding of a rune, whatever follows it, gives the rune
      back together with the length of its encoding. */
  lemma DecodeEncodeRune(c: char, rest: seq<byte>)
    ensures DecodeRune(EncodeRune(c) + rest) == Some((c, |EncodeRune(c)|))
  {
    var v := c as int;
    var e := EncodeRune(c);
    var bs := e + rest;
    SixBitGroups(v);
    if v < 0x80 {
    } else if v < 0x800 {
      assert bs[0] == 0xC0 + v / 0x40 && bs[1] == 0x80 + v % 0x40;
    } else if v < 0x10000 {
      assert bs[0] == 0xE0 + v / 0x1000 && bs[1] == 0x80 + v / 0x40 % 0x40 && bs[2] == 0x80 + v % 0x40;
    } else {
      assert bs[0] == 0xF0 + v / 0x40000 && bs[1] == 0x80 + v / 0x1000 % 0x40;
      assert bs[2] == 0x80 + v / 0x40 % 0x40 && bs[3] == 0x80 + v % 0x40;
    }
  }

  /** Decoding undoes encoding: `[]byte(s)` keeps every rune of `s`. */
  lemma {:induction false} DecodeEncode(s: string)
    ensures Decode(Encode(s)) == Some(s)
  {
    if s != [] {
      var e := EncodeRune(s[0]);
      DecodeEncodeRune(s[0], Encode(s[1..]));
      assert (e + Encode(s[1..]))[|e|..] == Encode(s[1..]);
      DecodeEncode(s[1..]);
      assert [s[0]] + s[1..] == s;
    }
  }

  /** Encoding distributes over concatenation, so writing two strings in turn
      writes the bytes of their concatenation. */
  lemma {:induction false} EncodeAppend(s: string, t: string)
    ensures Encode(s + t) == Encode(s) + Encode(t)
  {
    if s == [] {
      assert s + t == t;
    } else {
      assert (s + t)[0] == s[0] && (s + t)[1..] == s[1..] + t;
      EncodeAppend(s[1..], t);
    }
  }

  /** Every character of `s` is an ASCII character. */
  predicate Ascii(s: string) {
    forall i :: 0 <= i < |s| ==> s[i] < '\U{80}'
  }

  /** A string of ASCII characters is encoded one byte per character, each
      byte being the character's code. */
  lemma {:induction false} EncodeAscii(s: string)
    requires Ascii(s)
    ensures |Encode(s)| == |s|
    ensures forall i :: 0 <= i < |s| ==> Encode(s)[i] == s[i] as int
  {
    if s != [] {
      EncodeAscii(s[1..]);
      assert Encode(s) == [s[0] as int] + Encode(s[1..]);
    }
  }
}
