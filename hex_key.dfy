/**
 * `common.Hash.Hex()`: a 32-byte word written as "0x" followed by 64
 * lower-case hexadecimal digits, most significant first.  The monitor keys
 * the meson table by this string and stores transaction hashes in it.
 */
module HexKey {
  import opened ReqIdCodec

  const HEX_ALPHABET: string := "0123456789abcdef"

  function Pow16(n: nat): (r: nat)
    ensures r >= 1
  {
    if n == 0 then 1 else 16 * Pow16(n - 1)
  }

  /** The low `n` hexadecimal digits of `x`, most significant first. */
  function HexDigits(x: nat, n: nat): (s: string)
    ensures |s| == n
    ensures forall i :: 0 <= i < n ==> s[i] in HEX_ALPHABET
  {
    if n == 0 then [] else HexDigits(x / 16, n - 1) + [HEX_ALPHABET[x % 16]]
  }

  /** The value of one hexadecimal digit, the inverse of indexing the alphabet. */
  function DigitValue(c: char): (v: nat)
    ensures c in HEX_ALPHABET ==> v < 16 && HEX_ALPHABET[v] == c
  {
    if '0' <= c <= '9' then (c - '0') as nat
    else if 'a' <= c <= 'f' then (c - 'a') as nat + 10
    else 0
  }

  /** The value of a string of hexadecimal digits, most significant first. */
  function HexValue(s: string): nat
  {
    if s == [] then 0 else HexValue(s[..|s| - 1]) * 16 + DigitValue(s[|s| - 1])
  }

  /** Indexing the alphabet and taking the digit's value are inverse. */
  lemma DigitOfIndex(d: nat)
    requires d < 16
    ensures DigitValue(HEX_ALPHABET[d]) == d
  {
  }

  /** Reading back `n` digits of a number below 16^n gives the number. */
  lemma {:induction false} HexValueOfDigits(x: nat, n: nat)
    requires x < Pow16(n)
    ensures HexValue(HexDigits(x, n)) == x
  {
    if n > 0 {
      var q, d := x / 16, x % 16;
      assert x == 16 * q + d;
      assert q < Pow16(n - 1);
      HexValueOfDigits(q, n - 1);
      var s := HexDigits(x, n);
      assert s == HexDigits(q, n - 1) + [HEX_ALPHABET[d]];
      assert s[..|s| - 1] == HexDigits(q, n - 1);
      DigitOfIndex(d);
      assert HexValue(s) == HexValue(s[..|s| - 1]) * 16 + DigitValue(s[|s| - 1]);
    }
  }

  lemma WordFitsInHash(x: Word256)
    ensures x < Pow16(64)
  {
    Pow16Of16();
    Pow16Add(16, 16);
    Pow16Add(32, 32);
  }

  lemma Pow16Of16()
    ensures Pow16(16) == TWO_64
  {
    assert Pow16(4) == 0x1_0000;
    Pow16Add(4, 4);
    Pow16Add(8, 8);
  }

  lemma {:induction false} Pow16Add(a: nat, b: nat)
    ensures Pow16(a + b) == Pow16(a) * Pow16(b)
  {
    if b > 0 {
      Pow16Add(a, b - 1);
      assert Pow16(a + b) == 16 * Pow16(a + b - 1);
    }
  }

  /** `Hash.Hex()` of a 256-bit word. */
  function HashHex(x: Word256): (s: string)
    ensures |s| == 66 && s[..2] == "0x"
  {
    "0x" + HexDigits(x, 64)
  }

  /** Distinct words have distinct hex strings, so the table key names one request ID. */
  lemma HashHexInjective(x: Word256, y: Word256)
    requires HashHex(x) == HashHex(y)
    ensures x == y
  {
    WordFitsInHash(x);
    WordFitsInHash(y);
    assert HashHex(x)[2..] == HexDigits(x, 64);
    assert HashHex(y)[2..] == HexDigits(y, 64);
    HexValueOfDigits(x, 64);
    HexValueOfDigits(y, 64);
  }
}
