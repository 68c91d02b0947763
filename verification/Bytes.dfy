/** Octets, the 16- and 32-bit integers of a message header, and host-order field values. */
module Bytes {

  type Byte = x: int | 0 <= x < 256

  /** The results of f, one after the other. */
  function FlatMap<T, U>(f: T -> seq<U>, xs: seq<T>): seq<U> {
    if xs == [] then [] else f(xs[0]) + FlatMap(f, xs[1..])
  }

  lemma {:induction false} FlatMapAppend<T, U>(f: T -> seq<U>, a: seq<T>, b: seq<T>)
    ensures FlatMap(f, a + b) == FlatMap(f, a) + FlatMap(f, b)
  {
    if a == [] {
      assert a + b == b;
    } else {
      FlatMapAppend(f, a[1..], b);
      assert (a + b)[0] == a[0] && (a + b)[1..] == a[1..] + b;
      Assoc(f(a[0]), FlatMap(f, a[1..]), FlatMap(f, b));
    }
  }

  lemma FlatMapOne<T, U>(f: T -> seq<U>, x: T)
    ensures FlatMap(f, [x]) == f(x)
  {
    assert FlatMap(f, [x]) == f(x) + [];
  }

  lemma Assoc<T>(a: seq<T>, b: seq<T>, c: seq<T>)
    ensures (a + b) + c == a + (b + c)
  {
  }

  lemma DropTwice<T>(s: seq<T>, i: nat, j: nat)
    requires i + j <= |s|
    ensures s[i..][j..] == s[i + j..]
  {
  }

  /** INSERTU16: the low 16 bits, most significant octet first. */
  function U16(n: int): (s: seq<Byte>)
    ensures |s| == 2
  {
    [(n / 256) % 256, n % 256]
  }

  /** INSERTU32: the low 32 bits, most significant octet first. */
  function U32(n: int): (s: seq<Byte>)
    ensures |s| == 4
  {
    U16(n / 65536) + U16(n)
  }

  function ReadU16(s: seq<Byte>): (n: int)
    requires 2 <= |s|
    ensures 0 <= n < 65536
  {
    var high: int := s[0];
    256 * high + s[1]
  }

  function ReadU32(s: seq<Byte>): (n: int)
    requires 4 <= |s|
    ensures 0 <= n < 0x1_0000_0000
  {
    65536 * ReadU16(s) + ReadU16(s[2..])
  }

  /** Assigning a `uint32` to an `int`. */
  function ToInt32(n: int): int
    requires 0 <= n < 0x1_0000_0000
  {
    if n < 0x8000_0000 then n else n - 0x1_0000_0000
  }

  lemma U16RoundTrip(n: int, rest: seq<Byte>)
    ensures ReadU16(U16(n) + rest) == n % 65536
    ensures (U16(n) + rest)[2..] == rest
  {
    assert n == 65536 * (n / 256 / 256) + 256 * ((n / 256) % 256) + n % 256;
  }

  lemma WordHalves(n: int)
    ensures 65536 * ((n / 65536) % 65536) + n % 65536 == n % 0x1_0000_0000
  {
    assert n == 0x1_0000_0000 * (n / 65536 / 65536) + 65536 * ((n / 65536) % 65536) + n % 65536;
  }

  lemma U32RoundTrip(n: int, rest: seq<Byte>)
    ensures ReadU32(U32(n) + rest) == n % 0x1_0000_0000
    ensures (U32(n) + rest)[4..] == rest
  {
    hide U16, ReadU16;
    var s := U32(n) + rest;
    assert s == U16(n / 65536) + (U16(n) + rest);
    assert s[2..] == U16(n) + rest;
    U16RoundTrip(n / 65536, U16(n) + rest);
    U16RoundTrip(n, rest);
    WordHalves(n);
  }

  /** An `int` survives the unsigned word on the wire. */
  lemma SignedRoundTrip(n: int, rest: seq<Byte>)
    requires -0x8000_0000 <= n < 0x8000_0000
    ensures ToInt32(ReadU32(U32(n) + rest)) == n
    ensures (U32(n) + rest)[4..] == rest
  {
    U32RoundTrip(n, rest);
  }

  function Pow256(k: nat): (p: nat)
    ensures p > 0
  {
    if k == 0 then 1 else 256 * Pow256(k - 1)
  }

  /** memcpy of a host integer of k octets; the host is little-endian. */
  function HostBytes(n: nat, k: nat): (s: seq<Byte>)
    ensures |s| == k
  {
    if k == 0 then [] else [n % 256] + HostBytes(n / 256, k - 1)
  }

  lemma HostStep(n: nat, k: nat)
    ensures HostBytes(n, k + 1) == [n % 256] + HostBytes(n / 256, k)
    ensures HostBytes(n, 0) == []
  {
  }

  /** The octets of a 32-bit number, least significant first. */
  lemma HostFour(n: nat)
    ensures var b, c := n / 256, n / 65536;
            HostBytes(n, 2) == [n % 256, b % 256] && HostBytes(n, 4) == [n % 256, b % 256, c % 256, (c / 256) % 256]
  {
    hide HostBytes;
    var b, c := n / 256, n / 65536;
    assert b / 256 == c;
    HostStep(c / 256, 0);
    HostStep(c / 256 / 256, 0);
    HostStep(c, 1);
    HostStep(b, 2);
    HostStep(n, 3);
    HostStep(b, 0);
    HostStep(c, 0);
    HostStep(n, 1);
  }

  lemma NetworkFour(n: nat)
    ensures var b, c := n / 256, n / 65536;
            U16(n) == [b % 256, n % 256] && U32(n) == [(c / 256) % 256, c % 256, b % 256, n % 256]
  {
  }

  lemma SameBothWays(a: Byte, b: Byte, c: Byte, d: Byte)
    ensures [a, b] == [b, a] <==> a == b
    ensures [a, b, c, d] == [d, c, b, a] <==> a == d && b == c
  {
    var s, t := [a, b, c, d], [d, c, b, a];
    assert s == t ==> s[0] == t[0] && s[1] == t[1];
    assert [a, b] == [b, a] ==> [a, b][0] == [b, a][0];
  }

  lemma TopOctet(n: nat)
    ensures n < 65536 ==> (n / 256) % 256 == n / 256
    ensures n < 0x1_0000_0000 ==> (n / 65536 / 256) % 256 == n / 0x100_0000
  {
    assert n / 65536 / 256 == n / 0x100_0000;
  }

  /** Host order is network order exactly for numbers that read the same both ways. */
  lemma HostOrderIff(n: nat)
    ensures n < 65536 ==> (HostBytes(n, 2) == U16(n) <==> n / 256 == n % 256)
    ensures n < 0x1_0000_0000 ==>
              (HostBytes(n, 4) == U32(n) <==> n / 0x100_0000 == n % 256 && (n / 65536) % 256 == (n / 256) % 256)
  {
    hide HostBytes, U16, U32;
    HostFour(n);
    NetworkFour(n);
    TopOctet(n);
    SameBothWays(n % 256, (n / 256) % 256, 0, 0);
    SameBothWays(n % 256, (n / 256) % 256, (n / 65536) % 256, (n / 65536 / 256) % 256);
  }

  /** The port 80, as an exporter on such a host writes it, is 20480 in network order. */
  lemma PortChangesOrder()
    ensures HostBytes(80, 2) == U16(20480) != U16(80)
  {
  }

  function HostValue(s: seq<Byte>): (n: nat)
    ensures n < Pow256(|s|)
  {
    if |s| == 0 then 0 else s[0] + 256 * HostValue(s[1..])
  }

  lemma {:induction false} HostRoundTrip(n: nat, k: nat)
    requires n < Pow256(k)
    ensures HostValue(HostBytes(n, k)) == n
  {
    if k > 0 {
      HostRoundTrip(n / 256, k - 1);
      assert HostBytes(n, k)[1..] == HostBytes(n / 256, k - 1);
    }
  }
}
