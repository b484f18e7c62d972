/** Bytes, and the hexadecimal they are spelled in. */
module Hex {
  import opened Wrappers

  type Byte = x: int | 0 <= x < 256

  type Bytes = seq<Byte>

  predicate IsDigit(c: char) {
    '0' <= c <= '9' || 'a' <= c <= 'f'
  }

  predicate IsAnyDigit(c: char) {
    IsDigit(c) || 'A' <= c <= 'F'
  }

  predicate AllDigits(text: string) {
    forall i :: 0 <= i < |text| ==> IsDigit(text[i])
  }

  function Value(c: char): (v: int)
    requires IsAnyDigit(c)
    ensures 0 <= v < 16
  {
    if '0' <= c <= '9' then (c - '0') as int
    else if 'a' <= c <= 'f' then (c - 'a') as int + 10
    else (c - 'A') as int + 10
  }

  function Digit(v: int): (c: char)
    requires 0 <= v < 16
    ensures IsDigit(c) && Value(c) == v
  {
    if v < 10 then '0' + v as char else 'a' + (v - 10) as char
  }

  function Encode(bytes: Bytes): (text: string)
    ensures |text| == 2 * |bytes| && AllDigits(text)
  {
    if bytes == [] then ""
    else [Digit(bytes[0] / 16), Digit(bytes[0] % 16)] + Encode(bytes[1..])
  }

  predicate IsSpace(c: char) {
    c == ' ' || '\t' <= c <= '\r'
  }

  /** The bytes `text` spells, in digits of either case; space may stand between bytes. */
  function Decode(text: string): Option<Bytes> {
    if text == [] then Some([])
    else if IsSpace(text[0]) then Decode(text[1..])
    else if |text| < 2 || !IsAnyDigit(text[0]) || !IsAnyDigit(text[1]) then None
    else
      match Decode(text[2..])
      case None => None
      case Some(rest) => Some([Value(text[0]) * 16 + Value(text[1])] + rest)
  }

  lemma {:induction false} DecodeOfEncode(bytes: Bytes)
    ensures Decode(Encode(bytes)) == Some(bytes)
  {
    if bytes != [] {
      DecodeOfEncode(bytes[1..]);
      var text := Encode(bytes);
      assert text[2..] == Encode(bytes[1..]);
      assert text[0] == Digit(bytes[0] / 16) && text[1] == Digit(bytes[0] % 16);
      assert [Value(text[0]) * 16 + Value(text[1])] + bytes[1..] == bytes;
    }
  }
}
