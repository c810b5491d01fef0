/** Unsigned integers as little-endian bytes. */
module LittleEndian {
  import opened Prelude

  function Capacity(width: nat): (c: nat)
    ensures c > 0
  {
    if width == 0 then 1 else 256 * Capacity(width - 1)
  }

  function Write(n: nat, width: nat): (b: Bytes)
    ensures |b| == width
    decreases width
  {
    if width == 0 then [] else [(n % 256) as u8] + Write(n / 256, width - 1)
  }

  function Read(b: Bytes): nat {
    if b == [] then 0 else b[0] as nat + 256 * Read(b[1..])
  }

  lemma {:induction false} ReadWrite(n: nat, width: nat)
    requires n < Capacity(width)
    ensures Read(Write(n, width)) == n
    decreases width
  {
    if width > 0 {
      ReadWrite(n / 256, width - 1);
      assert Write(n, width)[1..] == Write(n / 256, width - 1);
    }
  }

  /** The k-th byte has the weight 256 to the k. */
  lemma {:induction false} WriteAt(n: nat, width: nat, k: nat)
    requires k < width
    ensures Write(n, width)[k] as int == n / Capacity(k) % 256
    decreases width
  {
    if k > 0 {
      WriteAt(n / 256, width - 1, k - 1);
      DivideTwice(n, Capacity(k - 1));
    }
  }

  lemma DivideTwice(n: nat, c: nat)
    requires c > 0
    ensures n / 256 / c == n / (256 * c)
  {
    var q, r := n / (256 * c), n % (256 * c);
    assert n == 256 * c * q + r && 256 * c * q == 256 * (c * q);
    Quotient(n, 256, c * q + r / 256, r % 256);
    Quotient(n / 256, c, q, r / 256);
  }

  lemma Quotient(n: nat, d: nat, q: nat, r: nat)
    requires r < d && n == d * q + r
    ensures n / d == q
  {
    Divided(n, d);
    SameQuotient(d, q, r, n / d, n % d);
  }

  lemma Divided(n: nat, d: nat)
    requires d > 0
    ensures n == d * (n / d) + n % d
  {
  }

  lemma SameQuotient(d: nat, q: nat, r: nat, k: nat, s: nat)
    requires d * q + r == d * k + s && r < d && s < d
    ensures q == k
  {
    if q < k {
      Grows(d, q + 1, k);
    } else if k < q {
      Grows(d, k + 1, q);
    }
  }

  lemma Grows(d: nat, a: nat, b: nat)
    requires a <= b
    ensures d * a <= d * b
  {
  }

  lemma {:induction false} ReadBound(b: Bytes)
    ensures Read(b) < Capacity(|b|)
  {
    if b != [] {
      ReadBound(b[1..]);
    }
  }

  lemma {:induction false} WriteRead(b: Bytes)
    ensures Write(Read(b), |b|) == b
  {
    if b != [] {
      WriteRead(b[1..]);
      var n := Read(b);
      assert n % 256 == b[0] as int && n / 256 == Read(b[1..]);
      assert b == [b[0]] + b[1..];
    }
  }
}
