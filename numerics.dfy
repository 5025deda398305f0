/** Shared vocabulary of the pollination model: colours, optional values, squared
    distances and the host's transcendental functions, which the model knows only
    by the properties that the simulation relies on. */
module Numerics {

  /** One channel of a numpy `uint8` colour. */
  newtype byte = b: int | 0 <= b < 256

  /** A structure, aura or trail colour; equality is the byte-exact comparison
      `np.array_equal` performs. */
  datatype Rgb = Rgb(r: byte, g: byte, b: byte)

  datatype Option<T> = None | Some(value: T)

  /** `math.sin` or `math.cos`: the model knows only that the value lies in [-1, 1]. */
  type Wave = f: real -> real | IsWave(f) witness Flat

  function Flat(t: real): real { 0.0 }

  /** `f` lies in [-1, 1] at `t`. */
  ghost predicate WaveAt(f: real -> real, t: real) {
    -1.0 <= f(t) <= 1.0
  }

  /** `f` lies in [-1, 1] everywhere; the bound at a point is brought in by
      naming `WaveAt` there. */
  ghost predicate IsWave(f: real -> real) {
    forall t :: WaveAt(f, t)
  }

  /** The per-update decay multiplier `decay_rate ** (dt * 60)`; with a decay rate
      in (0, 1] and a non-negative timestep it lies in (0, 1]. */
  type DecayFactor = f: real | 0.0 < f <= 1.0 witness 1.0

  /** The value of Python's `math.pi`. */
  const Pi: real := 3.141592653589793

  function Sq(v: real): (r: real)
    ensures r >= 0.0
  {
    v * v
  }

  /** Squared Euclidean distance between two points. */
  function DistSq(x1: real, y1: real, x2: real, y2: real): (d: real)
    ensures d >= 0.0
  {
    Sq(x2 - x1) + Sq(y2 - y1)
  }

  /** `root(q)` is the non-negative square root of `q`, if `q` has one. */
  ghost predicate SqrtAt(root: real -> real, q: real) {
    0.0 <= q ==> 0.0 <= root(q) && root(q) * root(q) == q
  }

  /** `root` behaves as `math.sqrt` on every non-negative argument; the fact at
      a point is brought in by naming `SqrtAt` there. */
  ghost predicate IsSqrt(root: real -> real) {
    forall q :: SqrtAt(root, q)
  }

  /** `math.sqrt(q) < r` is the squared test `r > 0 && q < r * r`. */
  lemma SqrtBelow(root: real -> real, q: real, r: real)
    requires IsSqrt(root) && 0.0 <= q
    ensures root(q) < r <==> 0.0 < r && q < r * r
  {
    assert SqrtAt(root, q);
    var s := root(q);
    assert 0.0 <= s && s * s == q;
    if s < r {
      MulStrict(s, r);
      assert q < r * r;
    } else if 0.0 < r {
      MulMono(r, s);
      assert r * r <= q;
    }
  }

  /** `math.sqrt(q) > r` is the squared test `r < 0 || q > r * r`. */
  lemma SqrtAbove(root: real -> real, q: real, r: real)
    requires IsSqrt(root) && 0.0 <= q
    ensures root(q) > r <==> r < 0.0 || q > r * r
  {
    assert SqrtAt(root, q);
    var s := root(q);
    assert 0.0 <= s && s * s == q;
    if r >= 0.0 {
      if s > r {
        MulStrict(r, s);
        assert q > r * r;
      } else {
        MulMono(s, r);
        assert q <= r * r;
      }
    }
  }

  /** Comparing square roots is comparing squares: ordering by `math.sqrt` of the
      squared distance is ordering by the squared distance. */
  lemma SqrtMonotone(root: real -> real, a: real, b: real)
    requires IsSqrt(root) && 0.0 <= a && 0.0 <= b
    ensures root(a) <= root(b) <==> a <= b
  {
    assert SqrtAt(root, a) && SqrtAt(root, b);
    var ra, rb := root(a), root(b);
    assert 0.0 <= ra && ra * ra == a;
    assert 0.0 <= rb && rb * rb == b;
    if ra <= rb {
      MulMono(ra, rb);
    } else {
      MulStrict(rb, ra);
    }
  }

  lemma MulNonNegative(a: real, b: real)
    requires 0.0 <= a && 0.0 <= b
    ensures 0.0 <= a * b
  {
    if a > 0.0 && b > 0.0 {
      assert a * b > 0.0;
    }
  }

  lemma MulStrict(a: real, b: real)
    requires 0.0 <= a < b
    ensures a * a < b * b
  {
    var aa, ab, bb := a * a, a * b, b * b;
    assert aa <= ab;
    assert ab < bb;
  }

  lemma MulMono(a: real, b: real)
    requires 0.0 <= a <= b
    ensures a * a <= b * b
  {
    var aa, ab, bb := a * a, a * b, b * b;
    assert aa <= ab;
    assert ab <= bb;
  }

  /** `max(lo, min(hi, v))`, the order in which the agent clamps its position. */
  function Clamp(v: real, lo: real, hi: real): (r: real)
    ensures lo <= r
    ensures lo <= hi ==> r <= hi
    ensures lo <= v <= hi ==> r == v
  {
    var m := if hi < v then hi else v;
    if m < lo then lo else m
  }
}
