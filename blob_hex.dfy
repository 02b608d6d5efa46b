/**
 * The text a BLOB column becomes: its bytes as upper-case hexadecimal, two
 * zero-padded digits per byte in byte order, built the way the helper builds
 * it (Integer.toHexString per byte, a '0' in front of a one-digit result,
 * then one toUpperCase over the whole text).
 */
module BlobHex {
  import opened JavaText

  /** A Java byte: signed, -128..127. */
  newtype JByte = x: int | -128 <= x < 128

  /** `b & 0xFF`: the byte read as an unsigned value. */
  function Unsigned(b: JByte): (v: nat)
    ensures v < 256
    ensures (v - b as int) % 256 == 0
  {
    if b < 0 then b as int + 256 else b as int
  }

  /** The byte whose unsigned value is `v`. */
  function Signed(v: nat): (b: JByte)
    requires v < 256
    ensures Unsigned(b) == v
  {
    if v < 128 then v as JByte else (v - 256) as JByte
  }

  function UpperHexDigit(d: nat): char
    requires d < 16
  {
    if d < 10 then ('0' as int + d) as char else ('A' as int + d - 10) as char
  }

  /** The value of a hexadecimal digit (0 for any other character). */
  function DigitValue(c: char): (d: nat)
    ensures d < 16
  {
    if '0' <= c <= '9' then c as int - '0' as int
    else if 'A' <= c <= 'F' then c as int - 'A' as int + 10
    else if 'a' <= c <= 'f' then c as int - 'a' as int + 10
    else 0
  }

  /** The two digits of one unsigned byte value, high nibble first. */
  function ByteHex(v: nat): string
    requires v < 256
  {
    [UpperHexDigit(v / 16), UpperHexDigit(v % 16)]
  }

  /** The hexadecimal text of a blob's content. */
  function Hex(bytes: seq<JByte>): (s: string)
    ensures |s| == 2 * |bytes|
  {
    if bytes == [] then [] else Hex(bytes[..|bytes| - 1]) + ByteHex(Unsigned(bytes[|bytes| - 1]))
  }

  /** Byte k of the blob is written at positions 2k and 2k+1, high nibble first. */
  lemma {:induction false} HexAt(bytes: seq<JByte>, k: nat)
    requires k < |bytes|
    ensures Hex(bytes)[2 * k] == UpperHexDigit(Unsigned(bytes[k]) / 16)
    ensures Hex(bytes)[2 * k + 1] == UpperHexDigit(Unsigned(bytes[k]) % 16)
  {
    var n := |bytes|;
    if k < n - 1 {
      var pre := bytes[..n - 1];
      HexAt(pre, k);
      assert pre[k] == bytes[k];
    }
  }

  /** The worked case: bytes 0x0A and 0xFF give "0AFF". */
  lemma HexExample()
    ensures Hex([0x0A, -1]) == "0AFF"
  {
    assert [0x0A, -1][..1] == [0x0A as JByte];
  }

  /** Reads digit pairs back into bytes. */
  function Unhex(s: string): (bytes: seq<JByte>)
    ensures |bytes| == |s| / 2
  {
    if |s| < 2 then [] else Unhex(s[..|s| - 2]) + [Signed(16 * DigitValue(s[|s| - 2]) + DigitValue(s[|s| - 1]))]
  }

  lemma DigitValueOfDigit(d: nat)
    requires d < 16
    ensures DigitValue(UpperHexDigit(d)) == d
  {
  }

  /** Two more digits read back as one more byte. */
  lemma UnhexOfPair(h: string, pair: string)
    requires |pair| == 2
    ensures Unhex(h + pair) == Unhex(h) + [Signed(16 * DigitValue(pair[0]) + DigitValue(pair[1]))]
  {
    var s := h + pair;
    assert s[..|s| - 2] == h && s[|s| - 2] == pair[0] && s[|s| - 1] == pair[1];
  }

  /** The two digits of one byte read back as that byte. */
  lemma ByteHexRoundTrip(b: JByte)
    ensures var h := ByteHex(Unsigned(b)); Signed(16 * DigitValue(h[0]) + DigitValue(h[1])) == b
  {
    var v := Unsigned(b);
    DigitValueOfDigit(v / 16);
    DigitValueOfDigit(v % 16);
    assert 16 * (v / 16) + v % 16 == v;
  }

  /** The blob text loses nothing: reading it back gives the blob's bytes. */
  lemma {:induction false} UnhexOfHex(bytes: seq<JByte>)
    ensures Unhex(Hex(bytes)) == bytes
  {
    if bytes != [] {
      var n := |bytes|;
      var pre, b := bytes[..n - 1], bytes[n - 1];
      assert Hex(bytes) == Hex(pre) + ByteHex(Unsigned(b));
      UnhexOfPair(Hex(pre), ByteHex(Unsigned(b)));
      ByteHexRoundTrip(b);
      UnhexOfHex(pre);
      SplitLast(bytes);
    }
  }

  lemma SplitLast<T>(s: seq<T>)
    requires s != []
    ensures s == s[..|s| - 1] + [s[|s| - 1]]
  {
  }

  /** Upper-casing a digit of Integer.toHexString gives the digit of the same value in upper-case hex. */
  lemma UpperHexOfLowerHex(d: nat)
    requires d < 16
    ensures ToUpperCase([LowerHexDigit(d)]) == [UpperHexDigit(d)]
  {
  }

  /** One byte as the loop writes it: toHexString, padded to two digits, then upper-cased. */
  lemma PaddedByteHex(v: nat)
    requires v < 256
    ensures ToUpperCase((if |ToHexString(v)| < 2 then "0" else "") + ToHexString(v)) == ByteHex(v)
  {
    if v >= 16 {
      assert ToHexString(v) == ToHexString(v / 16) + [LowerHexDigit(v % 16)];
    }
  }

  /** Appending one byte's padded toHexString to the builder appends its two digits to the upper-cased text. */
  lemma AppendedByteHex(sb: string, v: nat)
    requires v < 256
    ensures var hv := ToHexString(v);
            ToUpperCase((if |hv| < 2 then sb + "0" else sb) + hv) == ToUpperCase(sb) + ByteHex(v)
  {
    var hv := ToHexString(v);
    var piece := (if |hv| < 2 then "0" else "") + hv;
    assert (if |hv| < 2 then sb + "0" else sb) + hv == sb + piece;
    UpperCaseDistributes(sb, piece);
    PaddedByteHex(v);
  }

  /** The StringBuilder loop over the blob's bytes, then toUpperCase. */
  method BlobToHex(src: seq<JByte>) returns (s: string)
    ensures s == Hex(src)
  {
    var sb: string := "";
    var i := 0;
    while i < |src|
      invariant 0 <= i <= |src|
      invariant ToUpperCase(sb) == Hex(src[..i])
    {
      ghost var before := sb;
      var v := Unsigned(src[i]);
      var hv := ToHexString(v);
      if |hv| < 2 {
        sb := sb + "0";
      }
      sb := sb + hv;
      AppendedByteHex(before, v);
      assert src[..i + 1][..i] == src[..i];
      i := i + 1;
    }
    assert src[..|src|] == src;
    s := ToUpperCase(sb);
  }
}
