/** Cosine similarity of two quantized vectors, accumulated in 32-bit integers. */
module Similarity {

  newtype byte = x: int | 0 <= x < 256

  /** The longest vectors whose sums cannot leave 32 bits; the program stores
      256 dimensions. */
  const SAFE_LENGTH := 131071

  /** A byte read as a signed 8-bit number. */
  function Signed(b: byte): (r: int)
    ensures -128 <= r <= 127 && (r - b as int) % 256 == 0
  {
    if b < 128 then b as int else b as int - 256
  }

  predicate InI32(x: int) {
    -0x8000_0000 <= x <= 0x7fff_ffff
  }

  /** Two's complement addition of 32-bit numbers. */
  function AddI32(x: int, y: int): (r: int)
    ensures InI32(r) && (InI32(x + y) ==> r == x + y)
  {
    (x + y + 0x8000_0000) % 0x1_0000_0000 - 0x8000_0000
  }

  function Dot(a: seq<byte>, b: seq<byte>): int
    requires |a| == |b|
  {
    if a == [] then 0
    else Dot(a[..|a| - 1], b[..|a| - 1]) + Signed(a[|a| - 1]) * Signed(b[|a| - 1])
  }

  function Abs(x: int): nat {
    if x < 0 then -x else x
  }

  lemma MultiplyUp(x: nat, y: nat, k: nat)
    requires x <= y
    ensures x * k <= y * k
  {
  }

  lemma ProductBounds(x: int, y: int)
    requires -128 <= x <= 127 && -128 <= y <= 127
    ensures -0x4000 <= x * y <= 0x4000
    ensures x * x >= 0 && (x * x == 0 <==> x == 0)
  {
    MultiplyUp(Abs(x), 128, Abs(y));
    assert Abs(x) * Abs(y) == x * y || Abs(x) * Abs(y) == -(x * y);
  }

  lemma {:induction false} DotBounds(a: seq<byte>, b: seq<byte>)
    requires |a| == |b|
    ensures -0x4000 * |a| <= Dot(a, b) <= 0x4000 * |a|
    ensures Dot(a, a) >= 0
    ensures Dot(a, b) == Dot(b, a)
  {
    if a != [] {
      ProductBounds(Signed(a[|a| - 1]), Signed(b[|a| - 1]));
      ProductBounds(Signed(a[|a| - 1]), Signed(a[|a| - 1]));
      DotBounds(a[..|a| - 1], b[..|a| - 1]);
    }
  }

  // ---- The sums as the machine forms them. ----

  /** What the 32-bit accumulator holds. */
  function WrappedDot(a: seq<byte>, b: seq<byte>): int
    requires |a| == |b|
  {
    if a == [] then 0
    else AddI32(WrappedDot(a[..|a| - 1], b[..|a| - 1]), Signed(a[|a| - 1]) * Signed(b[|a| - 1]))
  }

  /** Up to the safe length the machine's sums are the true ones. */
  lemma {:induction false} NoWrap(a: seq<byte>, b: seq<byte>)
    requires |a| == |b| <= 131071
    ensures WrappedDot(a, b) == Dot(a, b)
  {
    if a != [] {
      NoWrap(a[..|a| - 1], b[..|a| - 1]);
      DotBounds(a, b);
    }
  }

  function Lowest(n: nat): seq<byte> {
    seq(n, _ => 128)
  }

  lemma {:induction false} LowestDot(n: nat)
    ensures Dot(Lowest(n), Lowest(n)) == 0x4000 * n
  {
    if n > 0 {
      LowestDot(n - 1);
      assert Lowest(n)[..n - 1] == Lowest(n - 1);
    }
  }

  /** One more byte and a norm can leave 32 bits: the length is exact. */
  lemma OneLongerWraps()
    ensures |Lowest(SAFE_LENGTH + 1)| == SAFE_LENGTH + 1
    ensures WrappedDot(Lowest(SAFE_LENGTH + 1), Lowest(SAFE_LENGTH + 1)) < 0
            < Dot(Lowest(SAFE_LENGTH + 1), Lowest(SAFE_LENGTH + 1))
  {
    var n := SAFE_LENGTH + 1;
    LowestDot(n);
    LowestDot(n - 1);
    NoWrap(Lowest(n - 1), Lowest(n - 1));
    assert Lowest(n)[..n - 1] == Lowest(n - 1);
    assert WrappedDot(Lowest(n - 1), Lowest(n - 1)) == 0x4000 * (n - 1);
  }

  // ---- The program. ----

  /** The ratio's parts, or nothing where the program answers 0 outright. */
  datatype Ratio = Zero | Ratio(dot: int, normA: int, normB: int)

  method Accumulate(a: seq<byte>, b: seq<byte>) returns (r: Ratio)
    ensures r == Parts(a, b)
  {
    if |a| != |b| || |a| == 0 {
      return Zero;
    }
    var dot, normA, normB := 0, 0, 0;
    for k := 0 to |a|
      invariant dot == WrappedDot(a[..k], b[..k])
      invariant normA == WrappedDot(a[..k], a[..k]) && normB == WrappedDot(b[..k], b[..k])
    {
      var left, right := Signed(a[k]), Signed(b[k]);
      assert a[..k + 1][..k] == a[..k] && b[..k + 1][..k] == b[..k];
      dot := AddI32(dot, left * right);
      normA := AddI32(normA, left * left);
      normB := AddI32(normB, right * right);
    }
    assert a[..|a|] == a && b[..|b|] == b;
    if normA == 0 || normB == 0 {
      return Zero;
    }
    r := Ratio(dot, normA, normB);
  }

  function Parts(a: seq<byte>, b: seq<byte>): Ratio {
    if |a| != |b| || |a| == 0 || WrappedDot(a, a) == 0 || WrappedDot(b, b) == 0 then Zero
    else Ratio(WrappedDot(a, b), WrappedDot(a, a), WrappedDot(b, b))
  }

  /** The score of two vectors of one length, neither of them zero, is their dot
      product over the product of their lengths; of any others it is 0. */
  lemma ScoreIs(a: seq<byte>, b: seq<byte>, score: real)
    requires |a| <= 131071
    ensures IsScore(Parts(a, b), score) <==>
            if |a| != |b| || Dot(a, a) == 0 || Dot(b, b) == 0 then score == 0.0
            else exists p: real, q: real ::
                   IsRoot(Dot(a, a), p) && IsRoot(Dot(b, b), q) && Divides(score, p * q, Dot(a, b))
  {
    if |a| == |b| {
      NoWrap(a, a);
      NoWrap(b, b);
      NoWrap(a, b);
    }
  }

  /** Over the reals `score` is the similarity these parts give. */
  ghost predicate IsScore(r: Ratio, score: real) {
    match r
    case Zero => score == 0.0
    case Ratio(dot, normA, normB) =>
      exists rootA: real, rootB: real ::
        IsRoot(normA, rootA) && IsRoot(normB, rootB) && Divides(score, rootA * rootB, dot)
  }

  predicate Divides(score: real, w: real, dot: int) {
    score * w == dot as real
  }

  predicate IsRoot(n: int, root: real) {
    root >= 0.0 && root * root == n as real
  }

  // ---- Cauchy-Schwarz. ----

  /** The sum of (a[k]*x - b[k]*y)^2. */
  function Spread(a: seq<byte>, b: seq<byte>, x: int, y: int): (r: int)
    requires |a| == |b|
    ensures r >= 0
  {
    if a == [] then 0
    else
      var d := Signed(a[|a| - 1]) * x - Signed(b[|a| - 1]) * y;
      assert d * d >= 0;
      Spread(a[..|a| - 1], b[..|a| - 1], x, y) + d * d
  }

  lemma SquareOfDifference(p: int, q: int, x: int, y: int)
    ensures (p * x - q * y) * (p * x - q * y) == x * x * (p * p) - 2 * (x * y) * (p * q) + y * y * (q * q)
  {
    var u, v := p * x, q * y;
    assert (u - v) * (u - v) == u * u - 2 * (u * v) + v * v;
    assert u * u == x * x * (p * p);
    assert v * v == y * y * (q * q);
    assert u * v == (x * y) * (p * q);
  }

  lemma {:induction false} SpreadIs(a: seq<byte>, b: seq<byte>, x: int, y: int)
    requires |a| == |b|
    ensures Spread(a, b, x, y) == x * x * Dot(a, a) - 2 * (x * y) * Dot(a, b) + y * y * Dot(b, b)
  {
    if a != [] {
      var n := |a| - 1;
      var p, q := Signed(a[n]), Signed(b[n]);
      SpreadIs(a[..n], b[..n], x, y);
      SquareOfDifference(p, q, x, y);
      Distribute(x * x, Dot(a[..n], a[..n]), p * p);
      Distribute(2 * (x * y), Dot(a[..n], b[..n]), p * q);
      Distribute(y * y, Dot(b[..n], b[..n]), q * q);
    }
  }

  lemma Distribute(k: int, m: int, n: int)
    ensures k * (m + n) == k * m + k * n
  {
  }

  /** The square of the dot product is at most the product of the norms. */
  lemma CauchySchwarz(a: seq<byte>, b: seq<byte>)
    requires |a| == |b|
    ensures Dot(a, b) * Dot(a, b) <= Dot(a, a) * Dot(b, b)
  {
    var d, m, n := Dot(a, b), Dot(a, a), Dot(b, b);
    DotBounds(a, b);
    DotBounds(b, a);
    SpreadIs(a, b, n, d);
    SpreadTotal(m, n, d);
    if n > 0 {
      SignOfProduct(n, m * n - d * d);
    } else {
      ZeroNorm(b, a);
    }
  }

  lemma Regroup(x: int, y: int, z: int)
    ensures x * y * z == x * (y * z)
  {
  }

  lemma SpreadTotal(m: int, n: int, d: int)
    ensures n * n * m - 2 * (n * d) * d + d * d * n == n * (m * n - d * d)
  {
    Regroup(n, n, m);
    Regroup(n, d, d);
    Regroup(2, n * d, d);
    Distribute(n, m * n, -(d * d));
  }

  lemma SignOfProduct(n: int, r: int)
    requires n > 0
    ensures r < 0 ==> n * r < 0
  {
  }

  lemma {:induction false} ZeroNorm(a: seq<byte>, b: seq<byte>)
    requires |a| == |b| && Dot(a, a) == 0
    ensures Dot(b, a) == 0
  {
    if a != [] {
      var n := |a| - 1;
      var p := Signed(a[n]);
      DotBounds(a[..n], a[..n]);
      ProductBounds(p, p);
      ZeroNorm(a[..n], b[..n]);
    }
  }

  // ---- What the score is. ----

  lemma SignOfRealProduct(x: real, w: real)
    requires w > 0.0
    ensures x > 0.0 ==> x * w > 0.0
    ensures x < 0.0 ==> x * w < 0.0
  {
  }

  lemma SquaresOrder(p: real, q: real)
    requires 0.0 <= p < q
    ensures p * p < q * q
  {
    SignOfRealProduct(q - p, q);
    assert p * (q - p) >= 0.0;
    assert q * q - p * p == (q - p) * q + p * (q - p);
  }

  lemma RootUnique(p: real, q: real)
    requires p >= 0.0 && q >= 0.0 && p * p == q * q
    ensures p == q
  {
    if p < q {
      SquaresOrder(p, q);
    } else if q < p {
      SquaresOrder(q, p);
    }
  }

  lemma RootsMultiply(m: int, n: int, p: real, q: real)
    requires IsRoot(m, p) && IsRoot(n, q)
    ensures p * q >= 0.0 && (p * q) * (p * q) == m as real * n as real
  {
    assert (p * q) * (p * q) == (p * p) * (q * q);
  }

  lemma RootsPositive(m: int, n: int, p: real, q: real)
    requires IsRoot(m, p) && IsRoot(n, q) && m > 0 && n > 0
    ensures p * q > 0.0
  {
    RootsMultiply(m, n, p, q);
    SignOfProduct(m, -n);
    assert m as real * n as real == (m * n) as real;
  }

  lemma WithinRoot(u: real, w: real)
    requires w >= 0.0 && u * u <= w * w
    ensures -w <= u <= w
  {
    if u > w {
      SquaresOrder(w, u);
    } else if -u > w {
      SquaresOrder(w, -u);
    }
  }

  lemma DivideBounds(score: real, w: real, dot: int)
    requires w > 0.0 && -w <= dot as real <= w && Divides(score, w, dot)
    ensures -1.0 <= score <= 1.0
  {
    SignOfRealProduct(score - 1.0, w);
    SignOfRealProduct(score + 1.0, w);
    assert (score - 1.0) * w == score * w - w && (score + 1.0) * w == score * w + w;
  }

  lemma RatioInUnit(dot: int, m: int, n: int, p: real, q: real, score: real)
    requires dot * dot <= m * n && m > 0 && n > 0
    requires IsRoot(m, p) && IsRoot(n, q) && Divides(score, p * q, dot)
    ensures -1.0 <= score <= 1.0
  {
    RootsMultiply(m, n, p, q);
    RootsPositive(m, n, p, q);
    assert dot as real * dot as real == (dot * dot) as real;
    assert m as real * n as real == (m * n) as real;
    WithinRoot(dot as real, p * q);
    DivideBounds(score, p * q, dot);
  }

  /** The score over the reals lies between -1 and 1. */
  lemma ScoreInUnit(a: seq<byte>, b: seq<byte>, score: real)
    requires |a| <= 131071 && IsScore(Parts(a, b), score)
    ensures -1.0 <= score <= 1.0
  {
    var r := Parts(a, b);
    if r.Ratio? {
      NoWrap(a, b);
      NoWrap(a, a);
      NoWrap(b, b);
      CauchySchwarz(a, b);
      DotBounds(a, b);
      DotBounds(b, a);
      var p: real, q: real :| IsRoot(r.normA, p) && IsRoot(r.normB, q) && Divides(score, p * q, r.dot);
      RatioInUnit(r.dot, r.normA, r.normB, p, q, score);
    }
  }

  /** Either order gives the same score. */
  lemma ScoreSymmetric(a: seq<byte>, b: seq<byte>, score: real)
    requires |a| <= SAFE_LENGTH
    ensures IsScore(Parts(a, b), score) <==> IsScore(Parts(b, a), score)
  {
    OneOrder(a, b, score);
    if |a| == |b| {
      OneOrder(b, a, score);
    }
  }

  lemma OneOrder(a: seq<byte>, b: seq<byte>, score: real)
    requires |a| <= SAFE_LENGTH
    ensures IsScore(Parts(a, b), score) ==> IsScore(Parts(b, a), score)
  {
    var r := Parts(a, b);
    if r.Ratio? && IsScore(r, score) {
      NoWrap(a, b);
      NoWrap(b, a);
      DotBounds(a, b);
      var p: real, q: real :| IsRoot(r.normA, p) && IsRoot(r.normB, q) && Divides(score, p * q, r.dot);
      assert p * q == q * p && Divides(score, q * p, r.dot);
    }
  }

  /** Two scores of the same parts are equal. */
  lemma ScoreUnique(r: Ratio, x: real, y: real)
    requires IsScore(r, x) && IsScore(r, y)
    requires r.Ratio? ==> r.normA > 0 && r.normB > 0
    ensures x == y
  {
    if r.Ratio? {
      var p: real, q: real :| IsRoot(r.normA, p) && IsRoot(r.normB, q) && Divides(x, p * q, r.dot);
      var s: real, t: real :| IsRoot(r.normA, s) && IsRoot(r.normB, t) && Divides(y, s * t, r.dot);
      RootUnique(p, s);
      RootUnique(q, t);
      RootsPositive(r.normA, r.normB, p, q);
      assert p == s && q == t && p * q == s * t;
      CancelFactor(x, y, p * q, r.dot);
    }
  }

  lemma CancelFactor(x: real, y: real, w: real, dot: int)
    requires w > 0.0 && Divides(x, w, dot) && Divides(y, w, dot)
    ensures x == y
  {
    SignOfRealProduct(x - y, w);
    assert (x - y) * w == x * w - y * w;
  }

  predicate AllZero(a: seq<byte>) {
    forall k :: 0 <= k < |a| ==> a[k] == 0
  }

  lemma {:induction false} NormIsZeroIff(a: seq<byte>)
    ensures Dot(a, a) == 0 <==> AllZero(a)
  {
    if a != [] {
      var n := |a| - 1;
      NormIsZeroIff(a[..n]);
      DotBounds(a[..n], a[..n]);
      ProductBounds(Signed(a[n]), Signed(a[n]));
    }
  }

  /** A vector scores 1 with itself unless it is all zero, and then 0. */
  lemma SelfScore(a: seq<byte>, score: real)
    requires |a| <= SAFE_LENGTH && IsScore(Parts(a, a), score)
    ensures score == if AllZero(a) then 0.0 else 1.0
  {
    NoWrap(a, a);
    NormIsZeroIff(a);
    var r := Parts(a, a);
    if r.Ratio? {
      DotBounds(a, a);
      SelfRatio(r.dot, score);
    }
  }

  lemma SelfRatio(n: int, score: real)
    requires n > 0 && IsScore(Ratio(n, n, n), score)
    ensures score == 1.0
  {
    var p: real, q: real :| IsRoot(n, p) && IsRoot(n, q) && Divides(score, p * q, n);
    RootUnique(p, q);
    RootsPositive(n, n, p, q);
    assert Divides(1.0, p * q, n);
    CancelFactor(score, 1.0, p * q, n);
  }

  /** Vectors the program will not compare, and a zero vector with any other,
      score 0. */
  lemma ZeroScore(a: seq<byte>, b: seq<byte>, score: real)
    requires |a| != |b| || (|a| <= SAFE_LENGTH && (AllZero(a) || AllZero(b)))
    requires IsScore(Parts(a, b), score)
    ensures score == 0.0
  {
    if |a| == |b| {
      NoWrap(a, a);
      NoWrap(b, b);
      NormIsZeroIff(a);
      NormIsZeroIff(b);
    }
  }
}
