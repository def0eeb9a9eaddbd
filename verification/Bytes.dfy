/** Bytes and the little-endian integers of the wire formats. */
module Bytes {

  type byte = x: int | 0 <= x < 256

  type uint16 = x: int | 0 <= x < 0x1_0000
  type uint32 = x: int | 0 <= x < 0x1_0000_0000

  datatype Option<+T> = None | Some(value: T)

  /** The `size` low-order bytes of `n`, least significant first (htol8 .. htol64). */
  function ToLittleEndian(n: nat, size: nat): (s: seq<byte>)
    ensures |s| == size
  {
    if size == 0 then [] else [n % 256] + ToLittleEndian(n / 256, size - 1)
  }

  function FromLittleEndian(s: seq<byte>): nat
  {
    if s == [] then 0 else s[0] + 256 * FromLittleEndian(s[1..])
  }

  function Power256(size: nat): (p: nat)
    ensures p > 0
  {
    if size == 0 then 1 else 256 * Power256(size - 1)
  }

  lemma {:induction false} FromToLittleEndian(n: nat, size: nat)
    requires n < Power256(size)
    ensures FromLittleEndian(ToLittleEndian(n, size)) == n
  {
    if size > 0 {
      FromToLittleEndian(n / 256, size - 1);
      assert ToLittleEndian(n, size)[1..] == ToLittleEndian(n / 256, size - 1);
    }
  }

  lemma {:induction false} ToFromLittleEndian(s: seq<byte>)
    ensures FromLittleEndian(s) < Power256(|s|)
    ensures ToLittleEndian(FromLittleEndian(s), |s|) == s
  {
    if s != [] {
      ToFromLittleEndian(s[1..]);
      Digits(s[0], FromLittleEndian(s[1..]));
      assert s == [s[0]] + s[1..];
    }
  }

  lemma Digits(d: byte, r: nat)
    ensures (d + 256 * r) % 256 == d && (d + 256 * r) / 256 == r
  {
  }

  lemma PowersOf256()
    ensures Power256(1) == 0x100 && Power256(2) == 0x1_0000 && Power256(4) == 0x1_0000_0000
    ensures Power256(8) == 0x1_0000_0000_0000_0000
  {
    assert Power256(0) == 1;
    assert Power256(1) == 256 * Power256(0);
    assert Power256(2) == 256 * Power256(1);
    assert Power256(3) == 256 * Power256(2);
    assert Power256(4) == 256 * Power256(3);
    assert Power256(5) == 256 * Power256(4);
    assert Power256(6) == 256 * Power256(5);
    assert Power256(7) == 256 * Power256(6);
    assert Power256(8) == 256 * Power256(7);
  }

  /** 16-bit fields, in the form the packet headers use them. */
  function Enc16(n: uint16): (s: seq<byte>)
    ensures |s| == 2 && Dec16(s[0], s[1]) == n
  {
    [n % 256, n / 256]
  }

  function Dec16(lo: byte, hi: byte): uint16 {
    lo + 256 * hi
  }

  function Zeros(n: nat): seq<byte> {
    seq(n, i => 0)
  }

  /** memcpy into an array */
  method CopyTo(a: array<byte>, at: nat, s: seq<byte>)
    requires at + |s| <= a.Length
    modifies a
    ensures forall k :: 0 <= k < a.Length ==> a[k] == if at <= k < at + |s| then s[k - at] else old(a[k])
  {
    var i := 0;
    while i < |s|
      invariant 0 <= i <= |s|
      invariant forall k :: 0 <= k < i ==> a[at + k] == s[k]
      invariant forall k :: 0 <= k < a.Length && !(at <= k < at + i) ==> a[k] == old(a[k])
    {
      a[at + i] := s[i];
      i := i + 1;
    }
  }

  function Min(a: int, b: int): int {
    if a < b then a else b
  }

  function Max(a: int, b: int): int {
    if a < b then b else a
  }
}
