/** Byte strings, their order, and the integer encodings the tables' keys use. */
module Bytes {

  type byte = x: int | 0 <= x < 256

  const U32_LIMIT := 0x1_0000_0000
  const U64_MAX := 0xFFFF_FFFF_FFFF_FFFF

  /** Byte-wise lexicographic order, the order of RocksDB and of Rust's slices. */
  predicate LexLt(a: seq<byte>, b: seq<byte>) {
    b != [] && (a == [] || a[0] < b[0] || (a[0] == b[0] && LexLt(a[1..], b[1..])))
  }

  lemma {:induction false} LexTotal(a: seq<byte>, b: seq<byte>)
    ensures !LexLt(a, a)
    ensures LexLt(a, b) ==> !LexLt(b, a)
    ensures a != b ==> LexLt(a, b) || LexLt(b, a)
  {
    if a != [] {
      LexTotal(a[1..], a[1..]);
      if b != [] {
        LexTotal(a[1..], b[1..]);
        assert a == [a[0]] + a[1..] && b == [b[0]] + b[1..];
      }
    }
  }

  lemma {:induction false} LexTransitive(a: seq<byte>, b: seq<byte>, c: seq<byte>)
    requires LexLt(a, b) && LexLt(b, c)
    ensures LexLt(a, c)
  {
    if a != [] && a[0] == b[0] == c[0] {
      LexTransitive(a[1..], b[1..], c[1..]);
    }
  }

  /** Unequal heads of equal length decide the comparison, equal heads leave it to the tails. */
  lemma {:induction false} LexByHead(a: seq<byte>, b: seq<byte>, x: seq<byte>, y: seq<byte>)
    requires |a| == |b|
    ensures LexLt(a + x, b + y) <==> LexLt(a, b) || (a == b && LexLt(x, y))
  {
    if a == [] {
      assert a + x == x && b + y == y;
    } else {
      assert (a + x)[1..] == a[1..] + x && (b + y)[1..] == b[1..] + y;
      LexByHead(a[1..], b[1..], x, y);
      assert a == [a[0]] + a[1..] && b == [b[0]] + b[1..];
    }
  }

  function Power256(n: nat): nat {
    if n == 0 then 1 else 256 * Power256(n - 1)
  }

  function BigEndian(n: nat, v: nat): (r: seq<byte>)
    requires v < Power256(n)
    ensures |r| == n
  {
    if n == 0 then [] else BigEndian(n - 1, v / 256) + [v % 256]
  }

  function LittleEndian(n: nat, v: nat): (r: seq<byte>)
    requires v < Power256(n)
    ensures |r| == n
  {
    if n == 0 then [] else [v % 256] + LittleEndian(n - 1, v / 256)
  }

  function FromLittleEndian(b: seq<byte>): nat {
    if b == [] then 0 else b[0] + 256 * FromLittleEndian(b[1..])
  }

  lemma {:induction false} LittleEndianRoundTrip(n: nat, v: nat)
    requires v < Power256(n)
    ensures FromLittleEndian(LittleEndian(n, v)) == v
  {
    if n > 0 {
      LittleEndianRoundTrip(n - 1, v / 256);
      assert LittleEndian(n, v)[1..] == LittleEndian(n - 1, v / 256);
    }
  }

  lemma LowByte(x: byte, rest: nat)
    ensures (x + 256 * rest) % 256 == x && (x + 256 * rest) / 256 == rest
  {
  }

  /** Every byte string of the right width is an encoding. */
  lemma {:induction false} LittleEndianIsOnto(b: seq<byte>)
    ensures FromLittleEndian(b) < Power256(|b|) && LittleEndian(|b|, FromLittleEndian(b)) == b
  {
    if b != [] {
      LittleEndianIsOnto(b[1..]);
      LowByte(b[0], FromLittleEndian(b[1..]));
    }
  }

  /** Big-endian integers of one width compare as byte strings like numbers. */
  lemma {:induction false} BigEndianMonotone(n: nat, v: nat, w: nat)
    requires v < Power256(n) && w < Power256(n)
    ensures LexLt(BigEndian(n, v), BigEndian(n, w)) <==> v < w
    ensures BigEndian(n, v) == BigEndian(n, w) <==> v == w
  {
    if n > 0 {
      BigEndianMonotone(n - 1, v / 256, w / 256);
      var a, b := BigEndian(n - 1, v / 256), BigEndian(n - 1, w / 256);
      LexByHead(a, b, [v % 256], [w % 256]);
      assert (a + [v % 256])[..n - 1] == a && (b + [w % 256])[..n - 1] == b;
      assert (a + [v % 256])[n - 1] == v % 256 && (b + [w % 256])[n - 1] == w % 256;
    }
  }

  lemma Widths()
    ensures Power256(4) == U32_LIMIT && Power256(8) == U64_MAX + 1
  {
    assert Power256(2) == 65536;
    assert Power256(4) == 256 * (256 * Power256(2));
    assert Power256(6) == 256 * (256 * Power256(4));
    assert Power256(8) == 256 * (256 * Power256(6));
  }
}
