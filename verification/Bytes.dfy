/** Byte strings: ASCII text as UTF-8, hexadecimal, and gzip as an opaque inverse pair. */
module Bytes {
  import opened Common
  import opened Json
  import opened JsonRoundTrip

  type byte = n: nat | n < 256

  /** str.encode() on ASCII text. */
  function Encode(s: string): (r: seq<byte>)
    requires IsAscii(s)
    ensures |r| == |s|
  {
    seq(|s|, i requires 0 <= i < |s| => s[i] as int)
  }

  /** bytes.decode(); bytes beyond ASCII are not part of this model and count as undecodable. */
  function Decode(b: seq<byte>): Option<string> {
    if forall i | 0 <= i < |b| :: b[i] < 128
    then Some(seq(|b|, i requires 0 <= i < |b| && b[i] < 128 => b[i] as char))
    else None
  }

  lemma DecodeEncode(s: string)
    requires IsAscii(s)
    ensures Decode(Encode(s)) == Some(s)
  {
    assert Decode(Encode(s)).value == s;
  }

  /** bytes.hex() */
  function Hex(b: seq<byte>): string {
    if b == [] then "" else [HexDigit(b[0] / 16), HexDigit(b[0] % 16)] + Hex(b[1..])
  }

  /** bytes.fromhex(): pairs of digits of either case, with whitespace allowed between pairs. */
  function FromHex(s: string): Option<seq<byte>>
    decreases |s|
  {
    var t := SkipSpace(s);
    if t == "" then Some([])
    else if |t| < 2 then None
    else
      var high, low := HexValue(t[0]), HexValue(t[1]);
      if high.None? || low.None? then None
      else
        var rest := FromHex(t[2..]);
        if rest.None? then None else Some([high.value * 16 + low.value] + rest.value)
  }

  lemma FromHexPair(high: nat, low: nat, rest: string)
    requires high < 16 && low < 16
    ensures FromHex([HexDigit(high), HexDigit(low)] + rest) ==
              (if FromHex(rest).None? then None else Some([high * 16 + low] + FromHex(rest).value))
  {
    HexDigitValue(high);
    HexDigitValue(low);
    DropPrefix([HexDigit(high), HexDigit(low)], rest);
    assert !IsSpace(HexDigit(high));
  }

  /** One more byte in front of text that decodes. */
  lemma FromHexCons(first: byte, rest: seq<byte>, text: string)
    requires FromHex(text) == Some(rest)
    ensures FromHex([HexDigit(first / 16), HexDigit(first % 16)] + text) == Some([first] + rest)
  {
    FromHexPair(first / 16, first % 16, text);
  }

  lemma {:induction false} FromHexHex(b: seq<byte>)
    ensures FromHex(Hex(b)) == Some(b)
  {
    if b != [] {
      var first, rest := b[0], b[1..];
      FromHexHex(rest);
      FromHexCons(first, rest, Hex(rest));
      assert b == [first] + rest;
    }
  }

  lemma {:induction false} HexIsAscii(b: seq<byte>)
    ensures IsAscii(Hex(b))
  {
    if b != [] { HexIsAscii(b[1..]); }
  }

  datatype Codec = Codec(compress: seq<byte> -> seq<byte>, decompress: seq<byte> -> Option<seq<byte>>)

  /** gzip: decompression inverts compression, and data without the magic number is rejected. */
  ghost predicate IsGzip(c: Codec) {
    && (forall x :: c.decompress(c.compress(x)) == Some(x))
    && (forall x :: x == [] || x[0] != 0x1f ==> c.decompress(x) == None)
  }

  const PLAIN_CODEC: Codec := Codec(
    (x: seq<byte>) => [0x1f] + x,
    (x: seq<byte>) => if x == [] || x[0] != 0x1f then None else Some(x[1..]))

  type Gzip = c: Codec | IsGzip(c) witness PLAIN_CODEC
}
