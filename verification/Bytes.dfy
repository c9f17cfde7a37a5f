/** Bytes and the fixed-width integer encodings shared by the capture writers and the CPU cores. */
module Bytes {

  type Byte = x: int | 0 <= x < 256

  /** Physical memory by address. */
  type Memory = nat -> Byte

  const TWO32: nat := 0x1_0000_0000

  lemma Assoc<T>(a: seq<T>, b: seq<T>, c: seq<T>)
    ensures a + (b + c) == a + b + c
  {
  }

  lemma Regroup<T>(a: seq<T>, b: seq<T>, c: seq<T>, d: seq<T>)
    ensures a + b + c + d == a + (b + c + d)
  {
  }

  function Pow256(k: nat): (p: nat)
    ensures p > 0
  {
    if k == 0 then 1 else 256 * Pow256(k - 1)
  }

  /** The low `k` bytes of `n`, least significant first: `host_writew` and `host_writed`. */
  function LE(n: nat, k: nat): (s: seq<Byte>)
    ensures |s| == k
    decreases k, n
  {
    if k == 0 then [] else [n % 256] + LE(n / 256, k - 1)
  }

  /** The low `k` bytes of `n`, most significant first. */
  function BE(n: nat, k: nat): (s: seq<Byte>)
    ensures |s| == k
    decreases k, n
  {
    if k == 0 then [] else BE(n / 256, k - 1) + [n % 256]
  }

  /** The bytes of a text. */
  function Ascii(s: string): (b: seq<Byte>)
    ensures |b| == |s|
  {
    seq(|s|, i requires 0 <= i < |s| => if (s[i] as int) < 256 then s[i] as int else 0)
  }

  /** A little-endian number at an offset. */
  function U32(f: seq<Byte>, at: nat): nat
    requires at + 4 <= |f|
  {
    FromLE(f[at..at + 4])
  }

  function U16(f: seq<Byte>, at: nat): nat
    requires at + 2 <= |f|
  {
    FromLE(f[at..at + 2])
  }

  /** The number a byte string stands for, least significant byte first. */
  function FromLE(s: seq<Byte>): (n: nat) {
    if s == [] then 0 else s[0] + 256 * FromLE(s[1..])
  }

  /** The number a byte string stands for, most significant byte first. */
  function FromBE(s: seq<Byte>): (n: nat) {
    if s == [] then 0 else 256 * FromBE(s[..|s| - 1]) + s[|s| - 1]
  }

  lemma {:induction false} LERoundTrip(n: nat, k: nat)
    requires n < Pow256(k)
    ensures FromLE(LE(n, k)) == n
    decreases k
  {
    if k > 0 {
      LERoundTrip(n / 256, k - 1);
      assert LE(n, k)[1..] == LE(n / 256, k - 1);
    }
  }

  lemma {:induction false} BERoundTrip(n: nat, k: nat)
    requires n < Pow256(k)
    ensures FromBE(BE(n, k)) == n
    decreases k
  {
    if k > 0 {
      BERoundTrip(n / 256, k - 1);
      assert BE(n, k)[..k - 1] == BE(n / 256, k - 1);
    }
  }

  lemma Pow256Of4()
    ensures Pow256(4) == TWO32
  {
    assert Pow256(2) == 0x1_0000 && Pow256(3) == 0x100_0000;
  }

  /** Adding a multiple of 256^k leaves the low `k` bytes alone. */
  lemma {:induction false} BEWraps(n: nat, q: nat, k: nat)
    ensures BE(n + Pow256(k) * q, k) == BE(n, k)
    decreases k
  {
    if k > 0 {
      var p := Pow256(k - 1) * q;
      assert Pow256(k) * q == 256 * p;
      BEWraps(n / 256, q, k - 1);
      assert (n + 256 * p) % 256 == n % 256 && (n + 256 * p) / 256 == n / 256 + p;
    }
  }

  /** A `uint32_t` keeps the low 32 bits of a number. */
  function Low32(n: nat): (r: nat)
    ensures r < TWO32 && (n < TWO32 ==> r == n)
  {
    if n < TWO32 then n else Low32(n - TWO32)
  }

  lemma {:induction false} Low32Is(n: nat)
    ensures Low32(n) == n % 0x1_0000_0000
  {
    if n >= TWO32 {
      Low32Is(n - TWO32);
    }
  }

  /** A counter that wraps at every addition wraps like the sum. */
  lemma {:induction false} Low32Add(a: nat, b: nat)
    ensures Low32(Low32(a) + b) == Low32(a + b)
  {
    if a >= TWO32 {
      Low32Add(a - TWO32, b);
    }
  }

  /** A 32-bit counter that wrapped has the same four bytes as the number it counts. */
  lemma {:induction false} BELow32(n: nat)
    ensures BE(Low32(n), 4) == BE(n, 4)
  {
    if n >= TWO32 {
      BELow32(n - TWO32);
      Pow256Of4();
      BEWraps(n - TWO32, 1, 4);
    }
  }

  lemma FromBE2(s: seq<Byte>)
    requires |s| == 2
    ensures FromBE(s) == 0x100 * (s[0] as nat) + s[1]
  {
    assert s[..1][..0] == [];
    assert FromBE(s[..1]) == s[0];
  }

  lemma FromBE4(s: seq<Byte>)
    requires |s| == 4
    ensures FromBE(s) == 0x100_0000 * (s[0] as nat) + 0x1_0000 * (s[1] as nat) + 0x100 * (s[2] as nat) + s[3]
  {
    assert s[..3][..2] == s[..2] && |s[..3]| == 3 && s[..3][2] == s[2];
    FromBE2(s[..2]);
    assert FromBE(s[..3]) == 256 * FromBE(s[..2]) + s[2];
    assert FromBE(s) == 256 * FromBE(s[..3]) + s[3];
  }

  lemma FromLE2(s: seq<Byte>)
    requires |s| == 2
    ensures FromLE(s) == s[0] + 0x100 * (s[1] as nat)
  {
    assert s[1..][1..] == [];
    assert FromLE(s[1..]) == s[1];
  }

  lemma FromLE4(s: seq<Byte>)
    requires |s| == 4
    ensures FromLE(s) == s[0] + 256 * (s[1] as nat) + 0x1_0000 * (s[2] as nat) + 0x100_0000 * (s[3] as nat)
  {
    assert s[1..][1..] == s[2..] && s[2..][1..] == s[3..] && s[3..][1..] == [];
    assert FromLE(s[3..]) == s[3] && FromLE(s[2..]) == s[2] + 256 * (s[3] as nat);
    assert FromLE(s[1..]) == s[1] + 256 * FromLE(s[2..]);
  }
}
