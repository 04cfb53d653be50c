/** Byte sizes of text in UTF-8 (section 3 of RFC 3629). */
module Utf8 {

  function CharBytes(c: char): (n: nat)
    ensures 1 <= n <= 4
  {
    if c as int < 0x80 then 1 else if c as int < 0x800 then 2 else if c as int < 0x1_0000 then 3 else 4
  }

  function Bytes(s: string): nat {
    if s == "" then 0 else Bytes(s[..|s| - 1]) + CharBytes(s[|s| - 1])
  }

  lemma {:induction false} BytesOfConcat(s: string, t: string)
    ensures Bytes(s + t) == Bytes(s) + Bytes(t)
  {
    if t == "" {
      assert s + t == s;
    } else {
      BytesOfConcat(s, t[..|t| - 1]);
      assert (s + t)[..|s + t| - 1] == s + t[..|t| - 1];
    }
  }

  /** A text is never smaller than its length, so only the empty text has size zero. */
  lemma {:induction false} BytesAtLeastLength(s: string)
    ensures |s| <= Bytes(s) <= 4 * |s|
  {
    if s != "" { BytesAtLeastLength(s[..|s| - 1]); }
  }

  // ----- The encoding whose bytes are counted -----

  /** The octets of one character, as laid out in section 3 of RFC 3629. */
  function Encode(c: char): seq<int> {
    var n := c as int;
    if n < 0x80 then [n]
    else if n < 0x800 then [0xC0 + n / 64, 0x80 + n % 64]
    else if n < 0x1_0000 then [0xE0 + n / 4096, 0x80 + n / 64 % 64, 0x80 + n % 64]
    else [0xF0 + n / 262144, 0x80 + n / 4096 % 64, 0x80 + n / 64 % 64, 0x80 + n % 64]
  }

  /** How many octets the first one announces. */
  function Announced(first: int): nat {
    if first < 0x80 then 1 else if first < 0xE0 then 2 else if first < 0xF0 then 3 else 4
  }

  /** The scalar value that the octets of one character stand for. */
  function Decoded(bytes: seq<int>): int
    requires 1 <= |bytes| <= 4
  {
    if |bytes| == 1 then bytes[0]
    else if |bytes| == 2 then (bytes[0] - 0xC0) * 64 + (bytes[1] - 0x80)
    else if |bytes| == 3 then (bytes[0] - 0xE0) * 4096 + (bytes[1] - 0x80) * 64 + (bytes[2] - 0x80)
    else (bytes[0] - 0xF0) * 262144 + (bytes[1] - 0x80) * 4096 + (bytes[2] - 0x80) * 64 + (bytes[3] - 0x80)
  }

  /** The size of a character is the number of its octets, which announce it and give the character back. */
  lemma SizeIsOctets(c: char)
    ensures |Encode(c)| == CharBytes(c) == Announced(Encode(c)[0])
    ensures forall i | 0 <= i < |Encode(c)| :: Encode(c)[i] < 256 && (i > 0 ==> 0x80 <= Encode(c)[i] < 0xC0)
    ensures Decoded(Encode(c)) == c as int
  {
    var n := c as int;
    assert n < 0x11_0000;
    assert n == n / 64 * 64 + n % 64 && n / 64 == n / 4096 * 64 + n / 64 % 64;
    assert n / 4096 == n / 262144 * 64 + n / 4096 % 64;
  }

  function EncodeText(s: string): seq<int> {
    if s == "" then [] else EncodeText(s[..|s| - 1]) + Encode(s[|s| - 1])
  }

  /** The size of a text is the number of octets of its encoding. */
  lemma {:induction false} TextSizeIsOctets(s: string)
    ensures |EncodeText(s)| == Bytes(s)
  {
    if s != "" {
      TextSizeIsOctets(s[..|s| - 1]);
      SizeIsOctets(s[|s| - 1]);
    }
  }
}
