/**
 * The coordinate mapper: flattening of a 3D index (i, j, k) to a linear
 * offset `i*N[0]*N[1] + j*N[2] + k` in a row-major buffer.
 *
 * Two copies exist in the host code: one taking `int N[3]` after the indices,
 * one taking `unsigned N[3]` before them. Both compute in 32-bit unsigned
 * arithmetic, which is written out here as reduction modulo 2^32.
 */
module Coord {

  const U32: int := 0x1_0000_0000

  /** C `unsigned int`. */
  type u32 = x: int | 0 <= x < U32

  /** C `int` (32-bit, two's complement). */
  type i32 = x: int | -0x8000_0000 <= x < 0x8000_0000

  /** Conversion of any integer to `unsigned int` (C reduces modulo 2^32). */
  function ToU32(x: int): (r: u32)
    ensures 0 <= x < U32 ==> r == x
    ensures (r - x) % U32 == 0
  {
    x % U32
  }

  /** The row-major offset as an unbounded integer. */
  function Offset(i: int, j: int, k: int, n0: int, n1: int, n2: int): int
  {
    i * n0 * n1 + j * n2 + k
  }

  /**
   * `coord(i, j, k, N)` with `int N[3]`: every operand is converted to
   * `unsigned int` and the arithmetic wraps modulo 2^32.
   */
  function CoordHelper(i: u32, j: u32, k: u32, n: seq<i32>): (r: u32)
    requires |n| == 3
    ensures (r - Offset(i, j, k, ToU32(n[0]), ToU32(n[1]), ToU32(n[2]))) % U32 == 0
    ensures Offset(i, j, k, ToU32(n[0]), ToU32(n[1]), ToU32(n[2])) < U32 ==>
      r == Offset(i, j, k, ToU32(n[0]), ToU32(n[1]), ToU32(n[2]))
  {
    MulNonneg3(i, ToU32(n[0]), ToU32(n[1]));
    MulNonneg3(j, ToU32(n[2]), 1);
    ToU32(i * ToU32(n[0]) * ToU32(n[1]) + j * ToU32(n[2]) + k)
  }

  /** `coord(N, i, j, k)` with `unsigned N[3]`: the same formula, arguments reordered. */
  function CoordMain(n: seq<u32>, i: u32, j: u32, k: u32): (r: u32)
    requires |n| == 3
    ensures (r - Offset(i, j, k, n[0], n[1], n[2])) % U32 == 0
    ensures Offset(i, j, k, n[0], n[1], n[2]) < U32 ==> r == Offset(i, j, k, n[0], n[1], n[2])
  {
    MulNonneg3(i, n[0], n[1]);
    MulNonneg3(j, n[2], 1);
    ToU32(i * n[0] * n[1] + j * n[2] + k)
  }

  /** Passing `int N[3]` where `unsigned N[3]` is expected reinterprets each entry modulo 2^32. */
  function AsUnsigned(n: seq<i32>): (r: seq<u32>)
    requires |n| == 3
    ensures |r| == 3
    ensures forall t :: 0 <= t < 3 && 0 <= n[t] ==> r[t] == n[t]
  {
    [ToU32(n[0]), ToU32(n[1]), ToU32(n[2])]
  }

  /** Both copies agree for all arguments; only the parameter order differs. */
  lemma CoordVariantsAgree(n: seq<i32>, i: u32, j: u32, k: u32)
    requires |n| == 3
    ensures CoordMain(AsUnsigned(n), i, j, k) == CoordHelper(i, j, k, n)
  {
  }

  /** Without wrap-around the helper's coord is exactly the row-major formula. */
  lemma CoordExact(i: u32, j: u32, k: u32, n: seq<i32>)
    requires |n| == 3 && 0 <= n[0] && 0 <= n[1] && 0 <= n[2]
    requires Offset(i, j, k, n[0], n[1], n[2]) < U32
    ensures CoordHelper(i, j, k, n) == Offset(i, j, k, n[0], n[1], n[2])
  {
    assert 0 <= i * n[0] * n[1] by { MulNonneg3(i, n[0], n[1]); }
    assert 0 <= j * n[2] by { MulNonneg3(j, n[2], 1); }
  }

  lemma MulNonneg3(a: nat, b: nat, c: nat)
    ensures 0 <= a * b * c
  {
  }

  /** Incrementing k increments the offset by one: k is the fastest-varying index. */
  lemma CoordStepK(i: u32, j: u32, k: u32, n: seq<i32>)
    requires |n| == 3 && 0 <= n[0] && 0 <= n[1] && 0 <= n[2]
    requires Offset(i, j, k + 1, n[0], n[1], n[2]) < U32
    ensures k + 1 < U32
    ensures CoordHelper(i, j, k + 1, n) == CoordHelper(i, j, k, n) + 1
  {
    assert 0 <= i * n[0] * n[1] by { MulNonneg3(i, n[0], n[1]); }
    assert 0 <= j * n[2] by { MulNonneg3(j, n[2], 1); }
    CoordExact(i, j, k + 1, n);
    CoordExact(i, j, k, n);
  }

  // ---------------------------------------------------------------------------
  // Uniform dimensions: N = (n, n, n) with n^3 < 2^32
  // ---------------------------------------------------------------------------

  /** A cube side whose volume fits in `unsigned int`. */
  predicate FitsU32(n: nat)
  {
    n * n * n < U32
  }

  /** A side whose cube fits in `unsigned int` fits itself. */
  lemma SideFits(n: nat)
    requires FitsU32(n)
    ensures n < U32
  {
    if 0 < n {
      MulMonoLeft(1, n * n, n);
      MulMonoLeft(1, n, n);
    }
  }

  function Cube(n: nat): (r: seq<u32>)
    requires n < U32
    ensures |r| == 3
  {
    [n, n, n]
  }

  predicate InCube(i: int, j: int, k: int, n: nat)
  {
    0 <= i < n && 0 <= j < n && 0 <= k < n
  }

  lemma MulMonoLeft(x: nat, y: nat, m: nat)
    requires x <= y
    ensures x * m <= y * m
  {
  }

  lemma MulSuccLeft(x: int, m: int)
    ensures (x + 1) * m == x * m + m
  {
  }

  lemma MulAssoc(x: int, y: int, z: int)
    ensures x * y * z == x * (y * z)
  {
  }

  /** The (j, k) part of an in-range offset stays below one i-slab of n^2 elements. */
  lemma SlabBound(j: nat, k: nat, n: nat)
    requires j < n && k < n
    ensures j * n + k < n * n
  {
    MulMonoLeft(j + 1, n, n);
    MulSuccLeft(j, n);
  }

  /** For in-range indices the unbounded offset is below n^3. */
  lemma OffsetBound(i: nat, j: nat, k: nat, n: nat)
    requires InCube(i, j, k, n)
    ensures Offset(i, j, k, n, n, n) < n * n * n
  {
    var nn := n * n;
    SlabBound(j, k, n);
    MulAssoc(i, n, n);
    MulAssoc(n, n, n);
    MulMonoLeft(i + 1, n, nn);
    MulSuccLeft(i, nn);
  }

  /** The offsets at which the nested loops of a row-major traversal move on. */
  lemma TraversalSteps(i: nat, j: nat, n: nat)
    ensures Offset(i, j, 0, n, n, n) + n == Offset(i, j + 1, 0, n, n, n)
    ensures Offset(i, n, 0, n, n, n) == Offset(i + 1, 0, 0, n, n, n)
    ensures Offset(0, 0, 0, n, n, n) == 0
    ensures Offset(n, 0, 0, n, n, n) == n * n * n
  {
    MulSuccLeft(j, n);
    MulAssoc(i, n, n);
    MulAssoc(i + 1, n, n);
    MulSuccLeft(i, n * n);
  }

  /** For uniform dims and in-range indices, coord is the exact offset and lies below n^3. */
  lemma CoordUniform(i: u32, j: u32, k: u32, n: nat)
    requires FitsU32(n) && InCube(i, j, k, n)
    ensures n < U32
    ensures CoordMain(Cube(n), i, j, k) == Offset(i, j, k, n, n, n)
    ensures CoordMain(Cube(n), i, j, k) < n * n * n
  {
    OffsetBound(i, j, k, n);
    assert 0 <= i * n * n by { MulNonneg3(i, n, n); }
    assert 0 <= j * n;
  }

  /** Incrementing j adds n to the offset. */
  lemma CoordStepJ(i: u32, j: u32, k: u32, n: nat)
    requires FitsU32(n) && InCube(i, j + 1, k, n)
    ensures n < U32 && j + 1 < U32
    ensures CoordMain(Cube(n), i, j + 1, k) == CoordMain(Cube(n), i, j, k) + n
  {
    CoordUniform(i, j, k, n);
    CoordUniform(i, j + 1, k, n);
  }

  /** Incrementing i adds n^2 to the offset. */
  lemma CoordStepI(i: u32, j: u32, k: u32, n: nat)
    requires FitsU32(n) && InCube(i + 1, j, k, n)
    ensures n < U32 && i + 1 < U32
    ensures CoordMain(Cube(n), i + 1, j, k) == CoordMain(Cube(n), i, j, k) + n * n
  {
    CoordUniform(i, j, k, n);
    CoordUniform(i + 1, j, k, n);
    assert (i + 1) * n * n == i * n * n + n * n;
  }

  // ---------------------------------------------------------------------------
  // Bijectivity on the cube
  // ---------------------------------------------------------------------------

  /** Lexicographic order on index triples: the order in which nested i/j/k loops visit them. */
  predicate LexLess(a: (nat, nat, nat), b: (nat, nat, nat))
  {
    a.0 < b.0 || (a.0 == b.0 && (a.1 < b.1 || (a.1 == b.1 && a.2 < b.2)))
  }

  predicate InCubeT(a: (nat, nat, nat), n: nat)
  {
    InCube(a.0, a.1, a.2, n)
  }

  function OffsetT(a: (nat, nat, nat), n: nat): int
  {
    Offset(a.0, a.1, a.2, n, n, n)
  }

  /** Positional order: a smaller leading digit wins whatever the remainders are. */
  lemma DigitOrder(q1: nat, r1: nat, q2: nat, r2: nat, m: nat)
    requires q1 < q2 && r1 < m
    ensures q1 * m + r1 < q2 * m + r2
  {
    MulMonoLeft(q1 + 1, q2, m);
    MulSuccLeft(q1, m);
  }

  /** The offset as a digit in base n^2 followed by the in-slab remainder. */
  lemma OffsetSlabDigits(a: (nat, nat, nat), n: nat)
    ensures OffsetT(a, n) == a.0 * (n * n) + (a.1 * n + a.2)
    ensures 0 <= a.1 * n + a.2
  {
    MulAssoc(a.0, n, n);
    MulNonneg3(a.1, n, 1);
  }

  /** Triples in different i-slabs are ordered by their slab. */
  lemma SlabOrder(a: (nat, nat, nat), b: (nat, nat, nat), n: nat)
    requires InCubeT(a, n) && InCubeT(b, n) && a.0 < b.0
    ensures OffsetT(a, n) < OffsetT(b, n)
  {
    OffsetSlabDigits(a, n);
    OffsetSlabDigits(b, n);
    SlabBound(a.1, a.2, n);
    DigitOrder(a.0, a.1 * n + a.2, b.0, b.1 * n + b.2, n * n);
  }

  /** Triples in the same slab and different rows are ordered by their row. */
  lemma RowOrder(a: (nat, nat, nat), b: (nat, nat, nat), n: nat)
    requires InCubeT(a, n) && InCubeT(b, n) && a.0 == b.0 && a.1 < b.1
    ensures OffsetT(a, n) < OffsetT(b, n)
  {
    DigitOrder(a.1, a.2, b.1, b.2, n);
    assert OffsetT(a, n) - OffsetT(b, n) == (a.1 * n + a.2) - (b.1 * n + b.2);
  }

  /** A lexicographically smaller in-range triple has a smaller offset. */
  lemma LexImpliesSmaller(a: (nat, nat, nat), b: (nat, nat, nat), n: nat)
    requires InCubeT(a, n) && InCubeT(b, n) && LexLess(a, b)
    ensures OffsetT(a, n) < OffsetT(b, n)
  {
    if a.0 < b.0 {
      SlabOrder(a, b, n);
    } else if a.1 < b.1 {
      RowOrder(a, b, n);
    }
  }

  /** The offset order on the cube is exactly the lexicographic order (both directions). */
  lemma OffsetOrderIsLex(a: (nat, nat, nat), b: (nat, nat, nat), n: nat)
    requires InCubeT(a, n) && InCubeT(b, n)
    ensures OffsetT(a, n) < OffsetT(b, n) <==> LexLess(a, b)
  {
    if LexLess(a, b) {
      LexImpliesSmaller(a, b, n);
    } else if LexLess(b, a) {
      LexImpliesSmaller(b, a, n);
    } else {
      assert a == b;
    }
  }

  /** Distinct in-range triples have distinct offsets. */
  lemma OffsetInjective(a: (nat, nat, nat), b: (nat, nat, nat), n: nat)
    requires InCubeT(a, n) && InCubeT(b, n)
    requires OffsetT(a, n) == OffsetT(b, n)
    ensures a == b
  {
    OffsetOrderIsLex(a, b, n);
    OffsetOrderIsLex(b, a, n);
  }

  /** The inverse of the mapping: the triple whose offset is w. */
  function Uncoord(w: nat, n: nat): (a: (nat, nat, nat))
    requires 0 < n
  {
    (w / (n * n), (w % (n * n)) / n, (w % (n * n)) % n)
  }

  /** Every offset below n^3 is hit by exactly the triple Uncoord gives. */
  lemma UncoordRoundTrip(w: nat, n: nat)
    requires 0 < n && w < n * n * n
    ensures InCubeT(Uncoord(w, n), n)
    ensures OffsetT(Uncoord(w, n), n) == w
  {
    var nn := n * n;
    var i, rem := w / nn, w % nn;
    var j, k := rem / n, rem % n;
    assert w == i * nn + rem;
    assert rem == j * n + k;
    assert i < n by {
      if i >= n {
        MulMonoLeft(n, i, nn);
        MulAssoc(n, n, n);
        assert false;
      }
    }
    assert j < n by {
      if j >= n {
        MulMonoLeft(n, j, n);
        assert false;
      }
    }
    assert i * nn == i * n * n;
  }

  /** Coord followed by Uncoord is the identity on the cube. */
  lemma CoordRoundTrip(a: (nat, nat, nat), n: nat)
    requires InCubeT(a, n)
    ensures OffsetT(a, n) < n * n * n
    ensures Uncoord(OffsetT(a, n), n) == a
  {
    OffsetBound(a.0, a.1, a.2, n);
    OffsetSlabDigits(a, n);
    MulNonneg3(a.0, n, n);
    var w := OffsetT(a, n);
    UncoordRoundTrip(w, n);
    var u := Uncoord(w, n);
    OffsetInjective(u, a, n);
  }

  /** coord on the cube, for an in-range triple. */
  function CoordT(a: (nat, nat, nat), n: nat): u32
    requires FitsU32(n) && InCubeT(a, n)
  {
    SideFits(n);
    CoordMain(Cube(n), a.0, a.1, a.2)
  }

  /**
   * For uniform dims coord is a bijection from [0,n)^3 onto [0,n^3):
   * injective on in-range triples, and every offset below n^3 is the coord
   * of the in-range triple Uncoord gives.
   */
  lemma CoordBijective(n: nat)
    requires FitsU32(n)
    ensures forall a: (nat, nat, nat), b: (nat, nat, nat) ::
      InCubeT(a, n) && InCubeT(b, n) && CoordT(a, n) == CoordT(b, n) ==> a == b
    ensures forall w: nat :: 0 < n && w < n * n * n ==>
      InCubeT(Uncoord(w, n), n) && CoordT(Uncoord(w, n), n) == w
  {
    forall a: (nat, nat, nat), b: (nat, nat, nat) |
      InCubeT(a, n) && InCubeT(b, n) && CoordT(a, n) == CoordT(b, n)
      ensures a == b
    {
      CoordUniform(a.0, a.1, a.2, n);
      CoordUniform(b.0, b.1, b.2, n);
      OffsetInjective(a, b, n);
    }
    forall w: nat | 0 < n && w < n * n * n
      ensures InCubeT(Uncoord(w, n), n) && CoordT(Uncoord(w, n), n) == w
    {
      UncoordRoundTrip(w, n);
      var u := Uncoord(w, n);
      CoordUniform(u.0, u.1, u.2, n);
    }
  }

  /** For non-uniform dims the mapping can collide: N = (2, 1, 4) sends (1,0,0) and (0,0,2) to 2. */
  lemma NonUniformCollision()
    ensures CoordHelper(1, 0, 0, [2, 1, 4]) == 2
    ensures CoordHelper(0, 0, 2, [2, 1, 4]) == 2
  {
  }
}
