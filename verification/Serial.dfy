/** Message sequence numbers: 32-bit serial numbers, compared as in sections 3.1 and 3.2 of RFC 1982. */
module Serial {

  const MODULUS := 0x1_0000_0000
  const HALF := 0x8000_0000

  type Serial = x: int | 0 <= x < MODULUS

  function Wrap(n: int): Serial {
    n % MODULUS
  }

  /** next_msg_sequence_number */
  function Next(s: Serial): Serial {
    Wrap(s + 1)
  }

  /** is_greater_than */
  predicate IsGreater(s1: Serial, s2: Serial) {
    s1 != s2 && ((s1 < s2 && s2 - s1 > HALF) || (s1 > s2 && s1 - s2 < HALF))
  }

  /** Greater means less than half the circle ahead. */
  lemma IsGreaterIff(a: Serial, b: Serial)
    ensures IsGreater(a, b) <==> 0 < (a - b) % MODULUS < HALF
  {
    if a < b {
      assert (a - b) % MODULUS == a - b + MODULUS;
    }
  }

  lemma Asymmetric(a: Serial, b: Serial)
    ensures !(IsGreater(a, b) && IsGreater(b, a))
    ensures IsGreater(a, b) || IsGreater(b, a) <==> a != b && (a - b) % MODULUS != HALF
  {
    IsGreaterIff(a, b);
    IsGreaterIff(b, a);
    if a < b {
      assert (a - b) % MODULUS == a - b + MODULUS;
    } else if b < a {
      assert (b - a) % MODULUS == b - a + MODULUS;
    }
  }

  lemma WrapDifference(base: int, i: int, j: int)
    ensures (Wrap(base + i) - Wrap(base + j)) % MODULUS == (i - j) % MODULUS
  {
    var p, q := (base + i) / MODULUS, (base + j) / MODULUS;
    assert base + i == MODULUS * p + Wrap(base + i) && base + j == MODULUS * q + Wrap(base + j);
    assert Wrap(base + i) - Wrap(base + j) == (i - j) + MODULUS * (q - p);
    Shift(i - j, q - p);
  }

  lemma Shift(n: int, k: int)
    ensures (n + MODULUS * k) % MODULUS == n % MODULUS
  {
    var a, b := (n + MODULUS * k) / MODULUS, n / MODULUS;
    assert (n + MODULUS * k) - MODULUS * a == (n + MODULUS * k) % MODULUS;
    assert n - MODULUS * b == n % MODULUS;
    assert (n + MODULUS * k) % MODULUS - n % MODULUS == MODULUS * (k - a + b);
  }

  /** Counters less than half the circle apart are ordered as their serial numbers are. */
  lemma OrderedWithinHalf(base: int, i: int, j: int)
    requires -HALF < i - j < HALF
    ensures IsGreater(Wrap(base + i), Wrap(base + j)) <==> i > j
    ensures Wrap(base + i) == Wrap(base + j) <==> i == j
  {
    WrapDifference(base, i, j);
    IsGreaterIff(Wrap(base + i), Wrap(base + j));
    if i < j {
      assert (i - j) % MODULUS == i - j + MODULUS;
    }
  }

  /** Greater is transitive as long as the two steps stay below half the circle together. */
  lemma Transitive(a: Serial, b: Serial, c: Serial)
    requires IsGreater(a, b) && IsGreater(b, c)
    ensures IsGreater(a, c) <==> (a - b) % MODULUS + (b - c) % MODULUS < HALF
  {
    IsGreaterIff(a, b);
    IsGreaterIff(b, c);
    IsGreaterIff(a, c);
    var sum := (a - b) % MODULUS + (b - c) % MODULUS;
    var k := (a - b) / MODULUS + (b - c) / MODULUS;
    assert a - c == sum + MODULUS * k;
    Shift(sum, k);
    assert sum % MODULUS == sum;
  }

  function NextN(s: Serial, n: nat): Serial {
    if n == 0 then s else Next(NextN(s, n - 1))
  }

  lemma {:induction false} NextNIsWrap(s: Serial, n: nat)
    ensures NextN(s, n) == Wrap(s + n)
  {
    if n > 0 {
      NextNIsWrap(s, n - 1);
      var q := (s + n - 1) / MODULUS;
      assert s + n - 1 == MODULUS * q + NextN(s, n - 1);
      Shift(NextN(s, n - 1) + 1, q);
    }
  }

  /** After n increments, a number is greater than it was exactly for n in 1..2^31-1 around the circle. */
  lemma GreaterAfter(s: Serial, n: nat)
    ensures IsGreater(NextN(s, n), s) <==> 0 < n % MODULUS < HALF
  {
    hide NextN, IsGreater;
    NextNIsWrap(s, n);
    WrapDifference(s, n, 0);
    assert Wrap(s + 0) == s;
    IsGreaterIff(NextN(s, n), s);
  }
}
