/** Bytes, fixed-width big-endian integers and the fixed-length identifiers made of them. */
module Bytes {

  type Byte = b: int | 0 <= b < 256

  type Uuid = id: seq<Byte> | |id| == 16 witness [0, 0, 0, 0, 0, 0, 0, 0, 0, 0, 0, 0, 0, 0, 0, 0]

  /** UTF-8 text as the protocol sees it. */
  type Text = seq<Byte>

  function Ascii(s: string): Text
    requires forall i :: 0 <= i < |s| ==> s[i] < 128 as char
  {
    seq(|s|, i requires 0 <= i < |s| => s[i] as int)
  }

  function Power256(width: nat): (p: nat)
    ensures p > 0
  {
    if width == 0 then 1 else 256 * Power256(width - 1)
  }

  function BigEndian(n: nat, width: nat): (bytes: seq<Byte>)
    ensures |bytes| == width
  {
    if width == 0 then [] else BigEndian(n / 256, width - 1) + [n % 256]
  }

  /** The most significant byte first. */
  lemma {:induction false} BigEndianDigits(n: nat, width: nat, i: nat)
    requires i < width
    ensures BigEndian(n, width)[i] == (n / Power256(width - 1 - i)) % 256
    decreases width
  {
    if i < width - 1 {
      BigEndianDigits(n / 256, width - 1, i);
      NestedDivision(n, Power256(width - 2 - i));
    }
  }

  lemma NestedDivision(n: nat, p: nat)
    requires p > 0
    ensures (n / 256) / p == n / (256 * p)
  {
    var q, r := n / 256 / p, n / 256 % p;
    var low := n % 256;
    assert n == 256 * (q * p + r) + low == q * (256 * p) + (256 * r + low);
    assert 0 <= 256 * r + low < 256 * p;
    DivisionUnique(n, 256 * p, q, 256 * r + low);
  }

  lemma DivisionUnique(n: nat, d: nat, q: nat, r: nat)
    requires d > 0 && n == q * d + r && r < d
    ensures n / d == q
  {
    var q', r' := n / d, n % d;
    assert (q - q') * d == r' - r;
    SmallMultiple(q - q', d);
  }

  lemma SmallMultiple(x: int, d: int)
    requires d > 0 && -d < x * d < d
    ensures x == 0
  {
    assert x >= 1 ==> x * d >= 1 * d;
    assert x <= -1 ==> x * d <= -1 * d;
  }

  function FromBigEndian(bytes: seq<Byte>): nat
  {
    if bytes == [] then 0 else 256 * FromBigEndian(bytes[..|bytes| - 1]) + bytes[|bytes| - 1]
  }

  lemma {:induction false} BigEndianRoundTrip(n: nat, width: nat)
    requires n < Power256(width)
    ensures FromBigEndian(BigEndian(n, width)) == n
  {
    if width > 0 {
      assert n / 256 < Power256(width - 1);
      BigEndianRoundTrip(n / 256, width - 1);
      var head := BigEndian(n / 256, width - 1);
      assert (head + [n % 256])[..width - 1] == head;
    }
  }

  lemma {:induction false} FromBigEndianRoundTrip(bytes: seq<Byte>)
    ensures FromBigEndian(bytes) < Power256(|bytes|)
    ensures BigEndian(FromBigEndian(bytes), |bytes|) == bytes
  {
    if bytes != [] {
      var head, last := bytes[..|bytes| - 1], bytes[|bytes| - 1];
      FromBigEndianRoundTrip(head);
      assert bytes == head + [last];
      assert FromBigEndian(bytes) / 256 == FromBigEndian(head);
      assert FromBigEndian(bytes) % 256 == last;
    }
  }

  lemma Widths()
    ensures Power256(1) == 0x100
    ensures Power256(2) == 0x1_0000
    ensures Power256(4) == 0x1_0000_0000
    ensures Power256(8) == 0x1_0000_0000_0000_0000
  {
    assert Power256(3) == 0x100_0000 && Power256(5) == 0x100_0000_0000;
    assert Power256(6) == 0x1_0000_0000_0000 && Power256(7) == 0x100_0000_0000_0000;
  }
}
