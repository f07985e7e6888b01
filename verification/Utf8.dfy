/** The key limit counts bytes of the UTF-8 encoding; this is that encoding (RFC 3629, section 3). */
module Utf8 {
  import opened Server

  function Encoded(c: char): (b: seq<int>)
    ensures 1 <= |b| <= 4 && forall i :: 0 <= i < |b| ==> 0 <= b[i] < 0x100
  {
    var n := c as int;
    if n < 0x80 then [n]
    else if n < 0x800 then [0xC0 + n / 0x40, 0x80 + n % 0x40]
    else if n < 0x10000 then [0xE0 + n / 0x1000, 0x80 + n / 0x40 % 0x40, 0x80 + n % 0x40]
    else [0xF0 + n / 0x40000, 0x80 + n / 0x1000 % 0x40, 0x80 + n / 0x40 % 0x40, 0x80 + n % 0x40]
  }

  function Bytes(s: string): seq<int> {
    if s == "" then [] else Encoded(s[0]) + Bytes(s[1..])
  }

  /** How many bytes a character takes, told from its first one. */
  function Width(first: int): (n: nat)
    ensures 1 <= n <= 4
  {
    if first < 0x80 then 1 else if first < 0xE0 then 2 else if first < 0xF0 then 3 else 4
  }

  function Decoded(b: seq<int>): int
    requires 1 <= |b| <= 4
  {
    if |b| == 1 then b[0]
    else if |b| == 2 then (b[0] - 0xC0) * 0x40 + (b[1] - 0x80)
    else if |b| == 3 then (b[0] - 0xE0) * 0x1000 + (b[1] - 0x80) * 0x40 + (b[2] - 0x80)
    else (b[0] - 0xF0) * 0x40000 + (b[1] - 0x80) * 0x1000 + (b[2] - 0x80) * 0x40 + (b[3] - 0x80)
  }

  /** The code points of a byte sequence. */
  function Points(b: seq<int>): seq<int> {
    if b == [] || |b| < Width(b[0]) then []
    else [Decoded(b[..Width(b[0])])] + Points(b[Width(b[0])..])
  }

  lemma Sextets(n: nat)
    ensures n == n / 0x40 * 0x40 + n % 0x40
    ensures n / 0x40 == n / 0x1000 * 0x40 + n / 0x40 % 0x40
    ensures n / 0x1000 == n / 0x40000 * 0x40 + n / 0x1000 % 0x40
  {
  }

  lemma DecodedWide(b: seq<int>, n: nat)
    requires 0x800 <= n
    requires b == if n < 0x10000 then [0xE0 + n / 0x1000, 0x80 + n / 0x40 % 0x40, 0x80 + n % 0x40]
                  else [0xF0 + n / 0x40000, 0x80 + n / 0x1000 % 0x40, 0x80 + n / 0x40 % 0x40, 0x80 + n % 0x40]
    ensures Decoded(b) == n
  {
    Sextets(n);
  }

  lemma EncodedDecodes(c: char)
    ensures Width(Encoded(c)[0]) == |Encoded(c)| && Decoded(Encoded(c)) == c as int
  {
    var n := c as int;
    if n >= 0x800 {
      DecodedWide(Encoded(c), n);
    }
  }

  /** Different texts have different bytes: decoding gives the characters back. */
  lemma {:induction false} BytesDecode(s: string)
    ensures Points(Bytes(s)) == seq(|s|, i requires 0 <= i < |s| => s[i] as int)
  {
    if s != "" {
      var b, rest := Encoded(s[0]), Bytes(s[1..]);
      EncodedDecodes(s[0]);
      assert (b + rest)[..|b|] == b && (b + rest)[|b|..] == rest;
      BytesDecode(s[1..]);
    }
  }

  /** The length that the key limit measures is the number of these bytes. */
  lemma {:induction false} LengthCountsBytes(s: string)
    ensures Utf8Length(s) == |Bytes(s)|
  {
    if s != "" {
      LengthCountsBytes(s[1..]);
    }
  }
}
