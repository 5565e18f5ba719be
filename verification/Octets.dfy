/** Bytes, and the fixed-width integers written in them. */
module Octets {
  type byte = n: int | 0 <= n < 256
  type bytes = seq<byte>

  function Pow2(k: nat): (r: nat)
    ensures r > 0
  {
    if k == 0 then 1 else 2 * Pow2(k - 1)
  }

  function Pow256(k: nat): (r: nat)
    ensures r > 0
  {
    if k == 0 then 1 else 256 * Pow256(k - 1)
  }

  function Pow10(k: nat): (r: nat)
    ensures r > k
  {
    if k == 0 then 1 else 10 * Pow10(k - 1)
  }

  function Zeros(n: nat): bytes {
    seq(n, _ => 0)
  }

  /** The unsigned number a big-endian field spells. */
  function BigEndian(s: bytes): nat {
    if s == [] then 0 else BigEndian(s[..|s| - 1]) * 256 + s[|s| - 1]
  }

  function BigEndianBytes(n: nat, k: nat): (s: bytes)
    ensures |s| == k
  {
    if k == 0 then [] else BigEndianBytes(n / 256, k - 1) + [n % 256]
  }

  /** The unsigned number a little-endian field spells. */
  function LittleEndian(s: bytes): nat {
    if s == [] then 0 else s[0] + 256 * LittleEndian(s[1..])
  }

  function LittleEndianBytes(n: nat, k: nat): (s: bytes)
    ensures |s| == k
  {
    if k == 0 then [] else [n % 256] + LittleEndianBytes(n / 256, k - 1)
  }

  lemma {:induction false} BigEndianRoundTrip(n: nat, k: nat)
    requires n < Pow256(k)
    ensures BigEndian(BigEndianBytes(n, k)) == n
  {
    if k == 0 {
    } else {
      BigEndianRoundTrip(n / 256, k - 1);
      assert BigEndianBytes(n, k)[..k - 1] == BigEndianBytes(n / 256, k - 1);
    }
  }

  lemma {:induction false} LittleEndianRoundTrip(n: nat, k: nat)
    requires n < Pow256(k)
    ensures LittleEndian(LittleEndianBytes(n, k)) == n
  {
    if k == 0 {
    } else {
      LittleEndianRoundTrip(n / 256, k - 1);
      assert LittleEndianBytes(n, k)[1..] == LittleEndianBytes(n / 256, k - 1);
    }
  }

  /** Byte i of the little-endian form is the digit of weight 256 to the i. */
  lemma {:induction false} LittleEndianDigit(n: nat, k: nat, i: nat)
    requires i < k
    ensures LittleEndianBytes(n, k)[i] == n / Pow256(i) % 256
  {
    if i == 0 {
      assert Pow256(0) == 1;
    } else {
      LittleEndianDigit(n / 256, k - 1, i - 1);
      DivTwice(n, 256, Pow256(i - 1));
      assert LittleEndianBytes(n, k)[i] == LittleEndianBytes(n / 256, k - 1)[i - 1];
    }
  }

  lemma DivTwice(n: nat, a: nat, b: nat)
    requires a > 0 && b > 0
    ensures a * b > 0 && n / a / b == n / (a * b)
  {
    var q, r := n / a / b, n / a % b;
    var s := n % a;
    assert n == n / a * a + s && n / a == q * b + r;
    MulMonotone(0, b, a);
    assert n == q * (a * b) + (r * a + s) by {
      assert n == (q * b + r) * a + s;
      assert (q * b + r) * a == q * b * a + r * a;
    }
    MulMonotone(r + 1, b, a);
    assert a * b > 0 by { MulMonotone(1, b, a); }
    DivModUnique(n, a * b, q, r * a + s);
  }

  lemma {:induction false} BigEndianBound(s: bytes)
    ensures BigEndian(s) < Pow256(|s|)
  {
    if s == [] {
    } else {
      BigEndianBound(s[..|s| - 1]);
    }
  }

  lemma {:induction false} LittleEndianBound(s: bytes)
    ensures LittleEndian(s) < Pow256(|s|)
  {
    if s == [] {
    } else {
      LittleEndianBound(s[1..]);
    }
  }

  /** The leading byte of a big-endian field carries the most. */
  lemma {:induction false} BigEndianLead(s: bytes)
    requires s != []
    ensures BigEndian(s) == s[0] * Pow256(|s| - 1) + BigEndian(s[1..])
  {
    if |s| > 1 {
      BigEndianLead(s[..|s| - 1]);
      assert s[..|s| - 1][1..] == s[1..][..|s| - 2];
    } else {
      assert s[..0] == [] && s[1..] == [];
    }
  }

  lemma {:induction false} Pow256IsPow2(k: nat)
    ensures Pow256(k) == Pow2(8 * k)
  {
    if k == 0 {
    } else {
      Pow256IsPow2(k - 1);
      var j := 8 * (k - 1);
      assert Pow2(j + 8) == 2 * Pow2(j + 7) == 4 * Pow2(j + 6) == 8 * Pow2(j + 5) == 16 * Pow2(j + 4);
      assert Pow2(j + 4) == 2 * Pow2(j + 3) == 4 * Pow2(j + 2) == 8 * Pow2(j + 1) == 16 * Pow2(j);
    }
  }

  lemma Pow2Split(j: nat)
    ensures Pow2(j + 7) == 128 * Pow2(j)
  {
    assert Pow2(j + 7) == 2 * Pow2(j + 6) == 4 * Pow2(j + 5) == 8 * Pow2(j + 4) == 16 * Pow2(j + 3);
    assert Pow2(j + 3) == 2 * Pow2(j + 2) == 4 * Pow2(j + 1) == 8 * Pow2(j);
  }

  lemma MulMonotone(a: int, b: int, k: int)
    requires a <= b && 0 <= k
    ensures a * k <= b * k
  {}

  /** Division leaves the quotient and remainder it is built from. */
  lemma DivModUnique(n: int, d: int, q: int, r: int)
    requires d > 0 && 0 <= r < d && n == q * d + r
    ensures n / d == q && n % d == r
  {
    var q', r' := n / d, n % d;
    assert n == q' * d + r';
    if q' < q { MulMonotone(q' + 1, q, d); }
    if q' > q { MulMonotone(q + 1, q', d); }
  }
}
