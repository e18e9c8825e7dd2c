/**
 * `cvBinToHex`: renders a byte buffer as text, each byte as two upper-case
 * hexadecimal digits followed by one space (the format "%02X ").
 */
module Hex {
  import opened Wrappers

  /** The upper-case digit for a nibble. */
  function DigitOf(n: bv8): (c: char)
    requires n < 16
    ensures '0' <= c <= '9' || 'A' <= c <= 'F'
  {
    if n < 10 then ('0' as int + n as int) as char else ('A' as int + n as int - 10) as char
  }

  /** The three characters "%02X " produces for one byte. */
  function ByteText(b: bv8): (t: string)
  {
    [DigitOf(b >> 4), DigitOf(b & 0xF), ' ']
  }

  /** The text of a whole buffer: the byte texts one after the other. */
  function HexText(bin: seq<bv8>): (t: string)
  {
    if bin == [] then [] else HexText(bin[..|bin| - 1]) + ByteText(bin[|bin| - 1])
  }

  /** The value of an upper-case hexadecimal digit, if `c` is one. */
  function DigitValue(c: char): (r: Option<bv8>)
    ensures r.Some? ==> r.value < 16 && DigitOf(r.value) == c
  {
    if '0' <= c <= '9' then Some((c as int - '0' as int) as bv8)
    else if 'A' <= c <= 'F' then Some((c as int - 'A' as int + 10) as bv8)
    else None
  }

  /** Reads back text in the format of `HexText`; `None` when it is not in that format. */
  function ParseHex(t: string): (r: Option<seq<bv8>>)
    decreases |t|
  {
    if t == [] then Some([])
    else if |t| < 3 || t[|t| - 1] != ' ' then None
    else
      var hi, lo, front := DigitValue(t[|t| - 3]), DigitValue(t[|t| - 2]), ParseHex(t[..|t| - 3]);
      if hi.Some? && lo.Some? && front.Some? then Some(front.value + [Combine(hi.value, lo.value)]) else None
  }

  /** The byte whose high nibble is `hi` and low nibble is `lo`. */
  function Combine(hi: bv8, lo: bv8): (b: bv8)
  {
    (hi << 4) | lo
  }

  lemma DigitValueOfDigit(n: bv8)
    requires n < 16
    ensures DigitValue(DigitOf(n)) == Some(n)
  {
  }

  lemma {:induction false} HexTextLength(bin: seq<bv8>)
    ensures |HexText(bin)| == 3 * |bin|
  {
    if bin != [] {
      HexTextLength(bin[..|bin| - 1]);
    }
  }

  lemma NibblesRecombine(b: bv8)
    ensures Combine(b >> 4, b & 0xF) == b
  {
  }

  /** The two digits of a byte's text give back its nibbles, and the third character is a space. */
  lemma ByteTextDigits(b: bv8)
    ensures DigitValue(ByteText(b)[0]) == Some(b >> 4)
    ensures DigitValue(ByteText(b)[1]) == Some(b & 0xF)
    ensures ByteText(b)[2] == ' '
  {
    DigitValueOfDigit(b >> 4);
    DigitValueOfDigit(b & 0xF);
  }

  /** Parsing consumes the text of the last byte and goes on with the text in front of it. */
  lemma ParseHexStep(front: string, b: bv8)
    ensures ParseHex(front + ByteText(b)) == if ParseHex(front).Some? then Some(ParseHex(front).value + [b]) else None
  {
    var t := front + ByteText(b);
    assert t[..|t| - 3] == front;
    ByteTextDigits(b);
    assert t[|t| - 3] == ByteText(b)[0] && t[|t| - 2] == ByteText(b)[1] && t[|t| - 1] == ' ';
    NibblesRecombine(b);
  }

  /** Reading the text back yields the original buffer: the rendering loses nothing. */
  lemma {:induction false} ParseHexText(bin: seq<bv8>)
    ensures ParseHex(HexText(bin)) == Some(bin)
  {
    if bin != [] {
      var front, b := bin[..|bin| - 1], bin[|bin| - 1];
      ParseHexText(front);
      ParseHexStep(HexText(front), b);
      assert front + [b] == bin;
    }
  }

  /** The constructor of `cvBinToHex`: appends the text of every byte to `hex`. */
  method BinToHex(bin: seq<bv8>, hex: string) returns (r: string)
    ensures r == hex + HexText(bin)
    ensures |r| == |hex| + 3 * |bin|
  {
    r := hex;
    var i := 0;
    while i < |bin|
      invariant 0 <= i <= |bin|
      invariant r == hex + HexText(bin[..i])
    {
      assert bin[..i + 1][..i] == bin[..i];
      r := r + ByteText(bin[i]);
      i := i + 1;
    }
    assert bin[..i] == bin;
    HexTextLength(bin);
  }
}
