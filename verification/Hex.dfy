/**
  Hexadecimal text (encoding/hex): written in lower case, read in either.
 */
module Hex {
  import opened Wrappers

  type Byte = b: int | 0 <= b < 256

  predicate IsHex(c: char) {
    '0' <= c <= '9' || 'a' <= c <= 'f' || 'A' <= c <= 'F'
  }

  function Value(c: char): (v: int)
    requires IsHex(c)
    ensures 0 <= v < 16 && Digit(v) == LowerChar(c)
  {
    if c <= '9' then (c - '0') as int else if c <= 'F' then (c - 'A') as int + 10 else (c - 'a') as int + 10
  }

  function Digit(v: int): char
    requires 0 <= v < 16
  {
    if v < 10 then '0' + v as char else 'a' + (v - 10) as char
  }

  function LowerChar(c: char): char {
    if 'A' <= c <= 'F' then c - 'A' + 'a' else c
  }

  function Lowered(s: string): string {
    seq(|s|, i requires 0 <= i < |s| => LowerChar(s[i]))
  }

  /** hex.EncodeToString */
  function Encode(bytes: seq<Byte>): string {
    if bytes == [] then "" else [Digit(bytes[0] / 16), Digit(bytes[0] % 16)] + Encode(bytes[1..])
  }

  /** hex.DecodeString */
  function Decode(s: string): Option<seq<Byte>> {
    if s == "" then Some([])
    else if |s| == 1 || !IsHex(s[0]) || !IsHex(s[1]) then None
    else
      var rest := Decode(s[2..]);
      if rest.None? then None else Some([Value(s[0]) * 16 + Value(s[1])] + rest.value)
  }

  /** What is read back is what was written. */
  lemma {:induction false} DecodeEncode(bytes: seq<Byte>)
    ensures Decode(Encode(bytes)) == Some(bytes)
  {
    if bytes != [] {
      var text := Encode(bytes);
      assert text[2..] == Encode(bytes[1..]);
      DecodeEncode(bytes[1..]);
      DigitValue(bytes[0] / 16);
      DigitValue(bytes[0] % 16);
      assert [bytes[0]] + bytes[1..] == bytes;
    }
  }

  lemma DigitValue(v: int)
    requires 0 <= v < 16
    ensures IsHex(Digit(v)) && Value(Digit(v)) == v
  {
  }

  predicate AllHex(s: string) {
    forall i :: 0 <= i < |s| ==> IsHex(s[i])
  }

  lemma FirstTwo(s: string)
    requires |s| >= 2
    ensures AllHex(s) <==> IsHex(s[0]) && IsHex(s[1]) && AllHex(s[2..])
    ensures Lowered(s) == [LowerChar(s[0]), LowerChar(s[1])] + Lowered(s[2..])
  {
    assert forall i :: 2 <= i < |s| ==> s[i] == s[2..][i - 2];
  }

  /** Exactly the texts of even length made of hex digits decode, and what they decode to is written as their lower case. */
  lemma {:induction false} EncodeDecode(s: string)
    ensures Decode(s).Some? <==> |s| % 2 == 0 && AllHex(s)
    ensures Decode(s).Some? ==> Encode(Decode(s).value) == Lowered(s)
  {
    if |s| >= 2 {
      FirstTwo(s);
      EncodeDecode(s[2..]);
      if Decode(s).Some? {
        PairDecoded(s[0], s[1], Decode(s[2..]).value);
      }
    }
  }

  lemma {:induction false} PairDecoded(hi: char, lo: char, rest: seq<Byte>)
    requires IsHex(hi) && IsHex(lo)
    ensures Encode([Value(hi) * 16 + Value(lo)] + rest) == [LowerChar(hi), LowerChar(lo)] + Encode(rest)
  {
    assert ([Value(hi) * 16 + Value(lo)] + rest)[1..] == rest;
    Nibbles(Value(hi), Value(lo));
  }

  lemma Nibbles(hi: int, lo: int)
    requires 0 <= lo < 16
    ensures (hi * 16 + lo) / 16 == hi && (hi * 16 + lo) % 16 == lo
  {
  }

  // ----- digests -----

  /** A SHA-256 digest as validDigest takes it. */
  predicate ValidDigest(s: string) {
    |s| == 64 && Decode(s).Some?
  }

  /** The digest its comment describes. */
  predicate LowercaseDigest(s: string) {
    |s| == 64 && forall i :: 0 <= i < |s| ==> '0' <= s[i] <= '9' || 'a' <= s[i] <= 'f'
  }

  /** A digest is taken if and only if it is a lowercase digest up to the case of its letters. */
  lemma DigestUpToCase(s: string)
    ensures ValidDigest(s) <==> LowercaseDigest(Lowered(s))
    ensures LowercaseDigest(s) <==> ValidDigest(s) && forall i :: 0 <= i < |s| ==> !('A' <= s[i] <= 'F')
  {
    EncodeDecode(s);
    if LowercaseDigest(Lowered(s)) {
      forall i | 0 <= i < |s| ensures IsHex(s[i]) {
        assert Lowered(s)[i] == LowerChar(s[i]);
      }
    }
  }

  /** The comment is too narrow: upper case is taken. */
  lemma UppercaseDigestIsTaken()
    ensures exists s :: ValidDigest(s) && !LowercaseDigest(s)
  {
    var s := seq(64, i => 'A');
    EncodeDecode(s);
    assert ValidDigest(s) && s[0] == 'A';
  }
}
