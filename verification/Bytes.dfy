/** Bytes, big-endian numbers and hexadecimal text. */
module Bytes {
  import opened Prelude

  type byte = b: int | 0 <= b < 256

  function Pow256(width: nat): nat {
    if width == 0 then 1 else 256 * Pow256(width - 1)
  }

  lemma {:induction false} WordWidths()
    ensures Pow256(8) == U64_MAX + 1
    ensures Pow256(16) == UUID_VALUES
  {
    assert Pow256(4) == 0x1_0000_0000;
    assert Pow256(8) == 0x1_0000_0000_0000_0000;
    assert Pow256(12) == 0x1_0000_0000_0000_0000_0000_0000;
  }

  function BigEndian(n: nat, width: nat): (bs: seq<byte>)
    requires n < Pow256(width)
    ensures |bs| == width
  {
    if width == 0 then [] else BigEndian(n / 256, width - 1) + [n % 256]
  }

  function FromBigEndian(bs: seq<byte>): (n: nat)
    ensures n < Pow256(|bs|)
  {
    if bs == [] then 0 else FromBigEndian(bs[..|bs| - 1]) * 256 + bs[|bs| - 1]
  }

  lemma {:induction false} ReadsBack(n: nat, width: nat)
    requires n < Pow256(width)
    ensures FromBigEndian(BigEndian(n, width)) == n
  {
    if width > 0 {
      ReadsBack(n / 256, width - 1);
      assert BigEndian(n, width)[..width - 1] == BigEndian(n / 256, width - 1);
    }
  }

  lemma {:induction false} WritesBack(bs: seq<byte>)
    ensures BigEndian(FromBigEndian(bs), |bs|) == bs
  {
    if bs != [] {
      WritesBack(bs[..|bs| - 1]);
    }
  }

  /** Byte strings compare by their first difference. */
  ghost predicate Before(a: seq<byte>, b: seq<byte>)
    requires |a| == |b|
  {
    exists i :: 0 <= i < |a| && a[..i] == b[..i] && a[i] < b[i]
  }

  /** The first difference lies in the last place or before it. */
  lemma {:induction false} BeforeFromLeft(a: seq<byte>, b: seq<byte>)
    requires |a| == |b| > 0
    ensures var n := |a| - 1;
            Before(a, b) <==> Before(a[..n], b[..n]) || (a[..n] == b[..n] && a[n] < b[n])
  {
    var n := |a| - 1;
    var p, q := a[..n], b[..n];
    if Before(a, b) {
      var i :| 0 <= i < |a| && a[..i] == b[..i] && a[i] < b[i];
      if i < n {
        assert p[..i] == a[..i] && q[..i] == b[..i];
        assert p[i] < q[i];
      }
    }
    if Before(p, q) {
      var i :| 0 <= i < n && p[..i] == q[..i] && p[i] < q[i];
      assert a[..i] == p[..i] && b[..i] == q[..i];
      assert a[i] < b[i];
    }
  }

  lemma {:induction false} SameValueSameBytes(a: seq<byte>, b: seq<byte>)
    requires |a| == |b|
    ensures FromBigEndian(a) == FromBigEndian(b) <==> a == b
  {
    WritesBack(a);
    WritesBack(b);
  }

  /** Comparing equally long byte strings is comparing the numbers they spell. */
  lemma {:induction false} OrderOfBytesIsOrderOfValues(a: seq<byte>, b: seq<byte>)
    requires |a| == |b|
    ensures Before(a, b) <==> FromBigEndian(a) < FromBigEndian(b)
    decreases |a|
  {
    if a != [] {
      var n := |a| - 1;
      OrderOfBytesIsOrderOfValues(a[..n], b[..n]);
      SameValueSameBytes(a[..n], b[..n]);
      BeforeFromLeft(a, b);
    }
  }

  // --- Hexadecimal text ---

  const HEX_DIGITS := ['0', '1', '2', '3', '4', '5', '6', '7', '8', '9', 'a', 'b', 'c', 'd', 'e', 'f']

  function Hex(bs: seq<byte>): (s: string)
    ensures |s| == 2 * |bs|
    ensures forall c <- s :: c in HEX_DIGITS
  {
    if bs == [] then [] else [HEX_DIGITS[bs[0] / 16], HEX_DIGITS[bs[0] % 16]] + Hex(bs[1..])
  }

  lemma {:induction false} DigitsDiffer(i: nat, j: nat)
    requires i < 16 && j < 16 && HEX_DIGITS[i] == HEX_DIGITS[j]
    ensures i == j
  {
    var places := map['0' := 0, '1' := 1, '2' := 2, '3' := 3, '4' := 4, '5' := 5, '6' := 6, '7' := 7,
                      '8' := 8, '9' := 9, 'a' := 10, 'b' := 11, 'c' := 12, 'd' := 13, 'e' := 14, 'f' := 15];
    assert forall k :: 0 <= k < 16 ==> HEX_DIGITS[k] in places && places[HEX_DIGITS[k]] == k;
  }

  lemma {:induction false} HexIsInjective(a: seq<byte>, b: seq<byte>)
    requires Hex(a) == Hex(b)
    ensures a == b
  {
    if a != [] {
      var s, t := Hex(a), Hex(b);
      assert s[2..] == Hex(a[1..]) && t[2..] == Hex(b[1..]);
      HexIsInjective(a[1..], b[1..]);
      assert s[0] == t[0] && s[1] == t[1];
      DigitsDiffer(a[0] / 16, b[0] / 16);
      DigitsDiffer(a[0] % 16, b[0] % 16);
    }
  }

  /** The value of a hexadecimal digit. */
  function DigitValue(c: char): nat {
    if '0' <= c <= '9' then c as nat - '0' as nat
    else if 'a' <= c <= 'f' then c as nat - 'a' as nat + 10
    else 0
  }

  /** Two digits a byte, the upper half first. */
  function FromHex(s: string): seq<nat>
    requires |s| % 2 == 0
  {
    if s == [] then [] else [16 * DigitValue(s[0]) + DigitValue(s[1])] + FromHex(s[2..])
  }

  /** The text reads back as the bytes, in base 16. */
  lemma {:induction false} HexReadsBack(bs: seq<byte>)
    ensures FromHex(Hex(bs)) == bs
  {
    if bs != [] {
      assert forall k :: 0 <= k < 16 ==> DigitValue(HEX_DIGITS[k]) == k;
      assert Hex(bs)[2..] == Hex(bs[1..]);
      HexReadsBack(bs[1..]);
    }
  }

  /** The hyphenated text of an identifier, as section 4 of RFC 9562 writes it. */
  function UuidText(u: Uuid): (s: string)
    ensures |s| == 36
  {
    WordWidths();
    var h := Hex(BigEndian(u, 16));
    h[..8] + "-" + h[8..12] + "-" + h[12..16] + "-" + h[16..20] + "-" + h[20..]
  }

  lemma {:induction false} UuidTextIsInjective(u: Uuid, v: Uuid)
    requires UuidText(u) == UuidText(v)
    ensures u == v
  {
    WordWidths();
    HexOfText(u);
    HexOfText(v);
    HexIsInjective(BigEndian(u, 16), BigEndian(v, 16));
    ReadsBack(u, 16);
    ReadsBack(v, 16);
  }

  /** The hexadecimal digits are the text without its four hyphens. */
  lemma {:induction false} HexOfText(u: Uuid)
    ensures u < Pow256(16)
    ensures var s := UuidText(u);
            Hex(BigEndian(u, 16)) == s[..8] + s[9..13] + s[14..18] + s[19..23] + s[24..]
  {
    WordWidths();
    var h, s := Hex(BigEndian(u, 16)), UuidText(u);
    assert s[..8] == h[..8] && s[9..13] == h[8..12] && s[14..18] == h[12..16];
    assert s[19..23] == h[16..20] && s[24..] == h[20..];
  }

  /** The text has hyphens at 8, 13, 18 and 23, and its other characters read as the sixteen bytes. */
  lemma {:induction false} UuidTextReadsBack(u: Uuid)
    ensures u < Pow256(16)
    ensures var s := UuidText(u);
            && s[8] == s[13] == s[18] == s[23] == '-'
            && var digits := s[..8] + s[9..13] + s[14..18] + s[19..23] + s[24..];
               |digits| == 32 && FromHex(digits) == BigEndian(u, 16)
  {
    WordWidths();
    HexOfText(u);
    HexReadsBack(BigEndian(u, 16));
  }
}
