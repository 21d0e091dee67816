/** `hex_encode`: a digest rendered as lowercase hexadecimal text. */
module Hex {
  import opened Wrappers
  import opened Types

  const HexDigits: string := "0123456789abcdef"

  /** The value of one lowercase hexadecimal digit. */
  function DigitValue(c: char): (r: Option<nat>)
    ensures r.Some? ==> r.value < 16 && HexDigits[r.value] == c
  {
    if '0' <= c <= '9' then Some(c as nat - '0' as nat)
    else if 'a' <= c <= 'f' then Some(c as nat - 'a' as nat + 10)
    else None
  }

  /** The two characters `format!("{:02x}", b)` writes for one byte. */
  function ByteToHex(b: byte): string
  {
    [HexDigits[b as int / 16], HexDigits[b as int % 16]]
  }

  /**
   * `hex_encode`: every byte in order becomes two lowercase hexadecimal
   * digits, high nibble first, so the text is twice as long as the input.
   */
  function HexEncode(bytes: seq<byte>): (r: string)
    ensures |r| == 2 * |bytes|
  {
    if bytes == [] then ""
    else ByteToHex(bytes[0]) + HexEncode(bytes[1..])
  }

  /**
   * The encoding uses only the sixteen lowercase digits, and characters 2i
   * and 2i+1 are the two digits of byte i.
   */
  lemma {:induction false} HexEncodeDigits(bytes: seq<byte>)
    ensures forall i :: 0 <= i < |HexEncode(bytes)| ==> HexEncode(bytes)[i] in HexDigits
    ensures forall i :: 0 <= i < |bytes| ==> HexEncode(bytes)[2 * i..2 * i + 2] == ByteToHex(bytes[i])
  {
    if bytes != [] {
      var rest := HexEncode(bytes[1..]);
      var r := HexEncode(bytes);
      HexEncodeDigits(bytes[1..]);
      assert r == ByteToHex(bytes[0]) + rest;
      assert forall i :: 1 <= i < |bytes| ==> r[2 * i..2 * i + 2] == rest[2 * (i - 1)..2 * (i - 1) + 2];
    }
  }

  /** Reads back text made of pairs of lowercase hexadecimal digits. */
  function HexDecode(s: string): Option<seq<byte>>
  {
    if |s| == 0 then Some([])
    else if |s| == 1 then None
    else
      var hi, lo, rest := DigitValue(s[0]), DigitValue(s[1]), HexDecode(s[2..]);
      if hi.None? || lo.None? || rest.None? then None
      else Some([(hi.value * 16 + lo.value) as byte] + rest.value)
  }

  lemma DigitOfHex(n: nat)
    requires n < 16
    ensures DigitValue(HexDigits[n]) == Some(n)
  {
    if n < 10 {
      assert HexDigits[n] == ('0' as nat + n) as char;
    } else {
      assert HexDigits[n] == ('a' as nat + n - 10) as char;
    }
  }

  lemma DecodeCons(b: byte, t: string)
    requires HexDecode(t).Some?
    ensures HexDecode(ByteToHex(b) + t) == Some([b] + HexDecode(t).value)
  {
    var s := ByteToHex(b) + t;
    var hi, lo := b as int / 16, b as int % 16;
    assert s[0] == HexDigits[hi] && s[1] == HexDigits[lo] && s[2..] == t;
    DigitOfHex(hi);
    DigitOfHex(lo);
    NibblesOfByte(b);
    DecodePair(s, hi, lo);
    assert (hi * 16 + lo) as byte == b;
    assert [(hi * 16 + lo) as byte] + HexDecode(t).value == [b] + HexDecode(t).value;
  }

  /** Text starting with two digits decodes to their byte followed by the decoding of the rest. */
  lemma DecodePair(s: string, hi: nat, lo: nat)
    requires |s| >= 2 && DigitValue(s[0]) == Some(hi) && DigitValue(s[1]) == Some(lo)
    requires HexDecode(s[2..]).Some?
    ensures hi * 16 + lo < 256
    ensures HexDecode(s) == Some([(hi * 16 + lo) as byte] + HexDecode(s[2..]).value)
  {
  }

  /** A byte is its high nibble times sixteen plus its low nibble. */
  lemma NibblesOfByte(b: byte)
    ensures (b as int / 16) * 16 + b as int % 16 == b as int
  {
  }

  /** Two digit values make the byte whose two digits they are. */
  lemma ByteOfNibbles(hi: nat, lo: nat)
    requires hi < 16 && lo < 16
    ensures 0 <= hi * 16 + lo < 256
    ensures ByteToHex((hi * 16 + lo) as byte) == [HexDigits[hi], HexDigits[lo]]
  {
    var n := hi * 16 + lo;
    assert n / 16 == hi && n % 16 == lo;
  }

  /** Decoding undoes `hex_encode`. */
  lemma {:induction false} HexRoundTrip(bytes: seq<byte>)
    ensures HexDecode(HexEncode(bytes)) == Some(bytes)
  {
    if bytes != [] {
      assert HexEncode(bytes) == ByteToHex(bytes[0]) + HexEncode(bytes[1..]);
      HexRoundTrip(bytes[1..]);
      DecodeCons(bytes[0], HexEncode(bytes[1..]));
      assert [bytes[0]] + bytes[1..] == bytes;
    }
  }

  /** Only the encoding of a byte sequence decodes to it: the text form is canonical. */
  lemma {:induction false} HexDecodeCanonical(s: string, bytes: seq<byte>)
    requires HexDecode(s) == Some(bytes)
    ensures HexEncode(bytes) == s
  {
    if |s| > 0 {
      DecodeShape(s);
      var hi, lo, rest := DigitValue(s[0]).value, DigitValue(s[1]).value, HexDecode(s[2..]).value;
      HexDecodeCanonical(s[2..], rest);
      ByteOfNibbles(hi, lo);
      assert bytes[0] == (hi * 16 + lo) as byte && bytes[1..] == rest;
      assert ByteToHex(bytes[0]) == [s[0], s[1]];
      assert s == [s[0], s[1]] + s[2..];
      assert HexEncode(bytes) == ByteToHex(bytes[0]) + HexEncode(bytes[1..]);
    }
  }

  /** A non-empty decodable text starts with two digits that make its first byte. */
  lemma DecodeShape(s: string)
    requires HexDecode(s).Some? && |s| > 0
    ensures |s| >= 2 && DigitValue(s[0]).Some? && DigitValue(s[1]).Some? && HexDecode(s[2..]).Some?
    ensures HexDecode(s).value ==
      [(DigitValue(s[0]).value * 16 + DigitValue(s[1]).value) as byte] + HexDecode(s[2..]).value
  {
  }

  /** Distinct digests never share a hexadecimal key. */
  lemma HexInjective(a: seq<byte>, b: seq<byte>)
    requires HexEncode(a) == HexEncode(b)
    ensures a == b
  {
    HexRoundTrip(a);
    HexRoundTrip(b);
  }
}
