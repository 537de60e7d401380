/**
 * Adler-32 as defined in section 2.2 of RFC 1950, and the resumable update
 * that zlib exposes as `adler32(data, value)`.
 *
 * The RFC defines the checksum of a byte string D1..Dn through two sums,
 *   s1 = 1 + D1 + ... + Dn                       (mod 65521)
 *   s2 = (1 + D1) + (1 + D1 + D2) + ... + s1_n   (mod 65521)
 * and packs them as s2 * 65536 + s1. `Adler32` below is that closed form;
 * `Update` is the byte-at-a-time running form that zlib computes, resumed
 * from a previous checksum. The two are connected by `UpdateFromOne`, and
 * `UpdateChain` is the property that lets a file be checksummed chunk by chunk.
 */
module Adler {

  /** One octet of file content. */
  type Byte = b: int | 0 <= b < 256

  /** The largest prime smaller than 65536 (section 8.2 of RFC 1950). */
  const BASE: nat := 65521
  /** 2^16: s2 sits above s1 in the packed value. */
  const HALF: nat := 0x1_0000
  /** 2^32: every packed checksum is below it. */
  const WORD: nat := 0x1_0000_0000

  /** The two running sums of the algorithm. */
  datatype Sums = Sums(s1: nat, s2: nat)

  /** Both sums are reduced modulo BASE, as they are after every step. */
  predicate Reduced(s: Sums)
  {
    s.s1 < BASE && s.s2 < BASE
  }

  function Pack(s: Sums): nat
  {
    s.s2 * HALF + s.s1
  }

  function Unpack(v: nat): Sums
  {
    Sums(v % HALF, v / HALF)
  }

  /** A 32-bit value whose two halves are reduced sums: what zlib resumes from. */
  predicate IsChecksum(v: nat)
  {
    v < WORD && Reduced(Unpack(v))
  }

  // ---------------------------------------------------------------------------
  // Reference definition (RFC 1950, section 2.2)
  // ---------------------------------------------------------------------------

  /** D1 + ... + Dn */
  function Sum(d: seq<Byte>): nat
  {
    if d == [] then 0 else d[0] + Sum(d[1..])
  }

  /** n*D1 + (n-1)*D2 + ... + 1*Dn: each byte counted once per later prefix. */
  function Weighted(d: seq<Byte>): nat
  {
    if d == [] then 0 else |d| * d[0] + Weighted(d[1..])
  }

  /** The Adler-32 checksum of `d`, in the closed form of RFC 1950. */
  function Adler32(d: seq<Byte>): nat
  {
    Pack(Sums((1 + Sum(d)) % BASE, (|d| + Weighted(d)) % BASE))
  }

  // ---------------------------------------------------------------------------
  // Running form (zlib)
  // ---------------------------------------------------------------------------

  /** Folds one byte into the sums. */
  function Step(s: Sums, b: Byte): (r: Sums)
    ensures Reduced(r)
  {
    var s1 := (s.s1 + b) % BASE;
    Sums(s1, (s.s2 + s1) % BASE)
  }

  /** Folds the bytes of `d` into the sums, first byte first. */
  function Run(s: Sums, d: seq<Byte>): (r: Sums)
    ensures Reduced(s) ==> Reduced(r)
    decreases |d|
  {
    if d == [] then s else Run(Step(s, d[0]), d[1..])
  }

  /**
   * zlib's `adler32(data, value)`: the checksum of `value`'s data followed by
   * `d`. The source only ever passes 1 or a previous result as `value`.
   */
  function Update(d: seq<Byte>, value: nat): (r: nat)
    requires IsChecksum(value)
    ensures IsChecksum(r)
  {
    PackUnpack(Run(Unpack(value), d));
    Pack(Run(Unpack(value), d))
  }

  // ---------------------------------------------------------------------------
  // Arithmetic helpers
  // ---------------------------------------------------------------------------

  /** Euclidean division is determined by any quotient/remainder pair. */
  lemma DivModUnique(y: int, m: int, q: int, r: int)
    requires m > 0 && 0 <= r < m && y == q * m + r
    ensures y / m == q && y % m == r
  {
    var q0, r0 := y / m, y % m;
    assert y == q0 * m + r0;
    assert (q - q0) * m == q * m - q0 * m;
    if q > q0 {
      MulAtLeast(q - q0, m);
    } else if q < q0 {
      MulAtLeast(q0 - q, m);
    }
  }

  lemma MulAtLeast(a: int, m: int)
    requires a >= 1 && m > 0
    ensures a * m >= m
  {
    assert a * m == (a - 1) * m + m;
    assert (a - 1) * m >= 0;
  }

  /** Adding a multiple of BASE does not change the residue. */
  lemma ModShift(y: int, k: int)
    ensures (y + k * BASE) % BASE == y % BASE
  {
    DivModUnique(y + k * BASE, BASE, y / BASE + k, y % BASE);
  }

  /** Replacing `x` by its residue inside `c * x + y` keeps the residue. */
  lemma ModScaled(c: int, x: int, y: int)
    ensures (c * (x % BASE) + y) % BASE == (c * x + y) % BASE
  {
    var q := x / BASE;
    assert x == q * BASE + x % BASE;
    assert c * x + y == c * (x % BASE) + y + (c * q) * BASE;
    ModShift(c * (x % BASE) + y, c * q);
  }

  lemma PackUnpack(s: Sums)
    requires Reduced(s)
    ensures IsChecksum(Pack(s)) && Unpack(Pack(s)) == s
  {
    DivModUnique(Pack(s), HALF, s.s2, s.s1);
  }

  // ---------------------------------------------------------------------------
  // Properties
  // ---------------------------------------------------------------------------

  /** Running over a concatenation is running over each part in turn. */
  lemma {:induction false} RunAppend(s: Sums, x: seq<Byte>, y: seq<Byte>)
    ensures Run(s, x + y) == Run(Run(s, x), y)
    decreases |x|
  {
    if x == [] {
      assert x + y == y;
    } else {
      assert (x + y)[0] == x[0];
      assert (x + y)[1..] == x[1..] + y;
      RunAppend(Step(s, x[0]), x[1..], y);
    }
  }

  /**
   * The running form computes the RFC's sums: starting from (a, b), after the
   * bytes of `d` the first sum has grown by their total and the second by
   * |d| copies of `a` plus each byte once per prefix that contains it.
   */
  lemma {:induction false} RunClosedForm(s: Sums, d: seq<Byte>)
    requires Reduced(s)
    ensures Run(s, d) == Sums((s.s1 + Sum(d)) % BASE, (s.s2 + |d| * s.s1 + Weighted(d)) % BASE)
    decreases |d|
  {
    if d == [] {
      DivModUnique(s.s1, BASE, 0, s.s1);
      DivModUnique(s.s2, BASE, 0, s.s2);
    } else {
      RunClosedForm(Step(s, d[0]), d[1..]);
      StepResidues(s.s1, s.s2, d[0], |d| - 1, Sum(d[1..]), Weighted(d[1..]));
    }
  }

  /** The arithmetic of one step of RunClosedForm, with the recursion's sums as plain numbers. */
  lemma StepResidues(a: nat, b: nat, x: nat, c: nat, sum: nat, weighted: nat)
    ensures var a1 := (a + x) % BASE;
            && (a1 + sum) % BASE == (a + (x + sum)) % BASE
            && ((b + a1) % BASE + c * a1 + weighted) % BASE
               == (b + (c + 1) * a + ((c + 1) * x + weighted)) % BASE
  {
    var a1 := (a + x) % BASE;
    ModScaled(1, a + x, sum);
    ModScaled(1, b + a1, c * a1 + weighted);
    assert b + a1 + c * a1 + weighted == (c + 1) * a1 + (b + weighted);
    ModScaled(c + 1, a + x, b + weighted);
    assert (c + 1) * (a + x) == (c + 1) * a + (c + 1) * x;
  }

  /** Resuming from a checksum is checksumming the concatenation. */
  lemma UpdateChain(x: seq<Byte>, y: seq<Byte>, value: nat)
    requires IsChecksum(value)
    ensures Update(y, Update(x, value)) == Update(x + y, value)
  {
    var s := Unpack(value);
    PackUnpack(Run(s, x));
    RunAppend(s, x, y);
  }

  /** zlib's running checksum started from 1 is the RFC's Adler-32. */
  lemma UpdateFromOne(d: seq<Byte>)
    ensures IsChecksum(1)
    ensures Update(d, 1) == Adler32(d)
  {
    DivModUnique(1, HALF, 0, 1);
    assert Unpack(1) == Sums(1, 0);
    RunClosedForm(Sums(1, 0), d);
  }

  /** Every Adler-32 value is a 32-bit checksum zlib can resume from. */
  lemma Adler32IsChecksum(d: seq<Byte>)
    ensures IsChecksum(Adler32(d))
  {
    UpdateFromOne(d);
  }
}
