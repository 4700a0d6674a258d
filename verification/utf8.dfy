/** Go's conversion `[]byte(s)` of a string to its bytes. A Dafny `string`
    is a sequence of Unicode scalar values, so the conversion is UTF-8
    encoding; the decoder exists to prove that the encoding loses nothing. */
module Utf8 {
  import opened Outcomes

  type byte = b: int | 0 <= b < 256
  type Bytes = seq<byte>

  /** The code points a Dafny `char` can hold. */
  predicate IsScalar(n: int) {
    0 <= n < 0xD800 || 0xE000 <= n < 0x11_0000
  }

  predicate IsContinuation(b: byte) {
    0x80 <= b < 0xC0
  }

  /** The one to four bytes UTF-8 uses for one code point. */
  function EncodeChar(c: char): (r: Bytes)
    ensures 1 <= |r| <= 4
    ensures (|r| == 1) == (c as int < 0x80)
    ensures forall j :: 1 <= j < |r| ==> IsContinuation(r[j])
  {
    var n := c as int;
    var n1 := n / 64;
    var n2 := n1 / 64;
    var n3 := n2 / 64;
    if n < 0x80 then [n]
    else if n < 0x800 then [0xC0 + n1, 0x80 + n % 64]
    else if n < 0x1_0000 then [0xE0 + n2, 0x80 + n1 % 64, 0x80 + n % 64]
    else [0xF0 + n3, 0x80 + n2 % 64, 0x80 + n1 % 64, 0x80 + n % 64]
  }

  /** The bytes of a string, first character first. */
  function Encode(s: string): (r: Bytes)
    ensures |s| <= |r| <= 4 * |s|
  {
    if s == [] then [] else EncodeChar(s[0]) + Encode(s[1..])
  }

  /** Reads the code point that starts `b` and how many bytes it took;
      None when `b` does not start with a well-formed sequence. */
  function DecodeChar(b: Bytes): (r: Option<(char, nat)>)
    ensures r.Some? ==> 1 <= r.value.1 <= |b| && r.value.1 <= 4
  {
    if |b| == 0 then None
    else if b[0] < 0x80 then Some((b[0] as char, 1))
    else if 0xC0 <= b[0] < 0xE0 && |b| >= 2 && IsContinuation(b[1]) then
      var n := (b[0] as int - 0xC0) * 64 + (b[1] as int - 0x80);
      if IsScalar(n) then Some((n as char, 2)) else None
    else if 0xE0 <= b[0] < 0xF0 && |b| >= 3 && IsContinuation(b[1]) && IsContinuation(b[2]) then
      var n := (b[0] as int - 0xE0) * 4096 + (b[1] as int - 0x80) * 64 + (b[2] as int - 0x80);
      if IsScalar(n) then Some((n as char, 3)) else None
    else if 0xF0 <= b[0] < 0xF8 && |b| >= 4 && IsContinuation(b[1]) && IsContinuation(b[2]) && IsContinuation(b[3]) then
      var n := (b[0] as int - 0xF0) * 0x4_0000 + (b[1] as int - 0x80) * 4096 + (b[2] as int - 0x80) * 64 + (b[3] as int - 0x80);
      if IsScalar(n) then Some((n as char, 4)) else None
    else None
  }

  /** The string whose encoding is `b`, if there is one. */
  function Decode(b: Bytes): Option<string>
    decreases |b|
  {
    if b == [] then Some([])
    else match DecodeChar(b)
      case None => None
      case Some((c, k)) =>
        match Decode(b[k..])
        case None => None
        case Some(s) => Some([c] + s)
  }

  /** Decoding the bytes of one character gives that character back and
      consumes exactly its bytes, whatever follows. */
  lemma DecodeEncodeChar(c: char, rest: Bytes)
    ensures DecodeChar(EncodeChar(c) + rest) == Some((c, |EncodeChar(c)|))
  {
  }

  /** `[]byte(s)` is lossless: the bytes decode back to `s`. */
  lemma {:induction false} DecodeEncode(s: string)
    ensures Decode(Encode(s)) == Some(s)
  {
    if s != [] {
      var head := EncodeChar(s[0]);
      var tail := Encode(s[1..]);
      DecodeEncodeChar(s[0], tail);
      assert (head + tail)[|head|..] == tail;
      DecodeEncode(s[1..]);
      assert [s[0]] + s[1..] == s;
    }
  }
}
