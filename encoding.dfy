/** Mixed-radix encoding of the integer (discrete) observation features of
    ModelBasedAgent into one discrete-state index.

    The agent keeps one inclusive range [min, max] per integer feature.  The
    number of discrete states is the product of the range sizes, and a tuple
    of feature values is encoded as a mixed-radix numeral whose first
    (most significant) digit is the first feature.  The multipliers (place
    values) are built the way the agent builds them: sizes without the first
    one, reversed, cumulative product, reversed back, then a trailing 1.

    `Horner` is an independent reference definition of the same numeral and
    `Decode` its inverse; the lemmas prove that the agent's computation agrees
    with the reference and is a bijection onto [0, NumDiscStates). */
module Encoding {

  /** One integer observation dimension, an inclusive range [lo, hi]. */
  datatype Range = Range(lo: int, hi: int)

  /** Number of values of a dimension: hi - lo + 1 (not clamped at zero). */
  function Size(d: Range): int
  {
    d.hi - d.lo + 1
  }

  /** The range sizes, in declaration order. */
  function Sizes(dims: seq<Range>): (s: seq<int>)
    ensures |s| == |dims|
  {
    if |dims| == 0 then [] else [Size(dims[0])] + Sizes(dims[1..])
  }

  /** Reference product of a sequence of integers; 1 for the empty sequence. */
  function Product(s: seq<int>): int
  {
    if |s| == 0 then 1 else s[0] * Product(s[1..])
  }

  /** Every dimension holds at least one value. */
  predicate WellFormed(dims: seq<Range>)
  {
    forall i :: 0 <= i < |dims| ==> dims[i].lo <= dims[i].hi
  }

  /** The values form a tuple of the Cartesian product of the ranges. */
  predicate InRange(dims: seq<Range>, values: seq<int>)
  {
    |values| == |dims| &&
    forall i :: 0 <= i < |dims| ==> dims[i].lo <= values[i] <= dims[i].hi
  }

  // ---------------------------------------------------------------------
  // Number of discrete states

  /** A left fold `a * size(b)` over the dimensions, starting from `acc`. */
  function Reduce(acc: int, dims: seq<Range>): int
    decreases |dims|
  {
    if |dims| == 0 then acc else Reduce(acc * Size(dims[0]), dims[1..])
  }

  /** numDiscStates: the fold of the range sizes seeded with 1. */
  function NumDiscStates(dims: seq<Range>): int
  {
    Reduce(1, dims)
  }

  lemma {:induction false} ReduceIsProduct(acc: int, dims: seq<Range>)
    ensures Reduce(acc, dims) == acc * Product(Sizes(dims))
    decreases |dims|
  {
    if |dims| > 0 {
      var s, p := Size(dims[0]), Product(Sizes(dims[1..]));
      ReduceIsProduct(acc * s, dims[1..]);
      assert Sizes(dims)[1..] == Sizes(dims[1..]);
      assert Product(Sizes(dims)) == s * p;
      assert (acc * s) * p == acc * (s * p);
    }
  }

  /** numDiscStates is the product of the sizes, and 1 without dimensions. */
  lemma NumDiscStatesIsProduct(dims: seq<Range>)
    ensures NumDiscStates(dims) == Product(Sizes(dims))
    ensures |dims| == 0 ==> NumDiscStates(dims) == 1
  {
    ReduceIsProduct(1, dims);
  }

  // ---------------------------------------------------------------------
  // Arithmetic helpers

  lemma MulLe(a: int, b: int, c: int)
    requires a <= b && 0 <= c
    ensures a * c <= b * c
  {
  }

  lemma {:induction false} ProductPositive(dims: seq<Range>)
    requires WellFormed(dims)
    ensures Product(Sizes(dims)) >= 1
    decreases |dims|
  {
    if |dims| > 0 {
      WellFormedTail(dims);
      ProductPositive(dims[1..]);
      var s, p := Size(dims[0]), Product(Sizes(dims[1..]));
      assert Sizes(dims)[1..] == Sizes(dims[1..]);
      MulLe(1, s, p);
    }
  }

  lemma InRangeTail(dims: seq<Range>, values: seq<int>)
    requires |dims| > 0 && InRange(dims, values)
    ensures InRange(dims[1..], values[1..])
  {
  }

  lemma WellFormedTail(dims: seq<Range>)
    requires |dims| > 0 && WellFormed(dims)
    ensures WellFormed(dims[1..])
  {
  }

  // ---------------------------------------------------------------------
  // Positional multipliers, built as the agent builds them

  /** Sequence reversal (numpy's [::-1]). */
  function Reverse(s: seq<int>): (r: seq<int>)
    ensures |r| == |s|
  {
    if |s| == 0 then [] else Reverse(s[1..]) + [s[0]]
  }

  /** numpy's cumprod, scaled by `acc`: entry j is acc * s[0] * ... * s[j]. */
  function CumProd(acc: int, s: seq<int>): (r: seq<int>)
    ensures |r| == |s|
    decreases |s|
  {
    if |s| == 0 then [] else [acc * s[0]] + CumProd(acc * s[0], s[1..])
  }

  /** The multipliers: list(sizes[:0:-1].cumprod()[::-1]) + [1]. */
  function Multipliers(sizes: seq<int>): (m: seq<int>)
    ensures |m| == if |sizes| == 0 then 1 else |sizes|
  {
    var laterReversed := Reverse(if |sizes| == 0 then [] else sizes[1..]);
    Reverse(CumProd(1, laterReversed)) + [1]
  }

  lemma {:induction false} ReverseAt(s: seq<int>, k: int)
    requires 0 <= k < |s|
    ensures Reverse(s)[k] == s[|s| - 1 - k]
  {
    if k < |s| - 1 {
      ReverseAt(s[1..], k);
    }
  }

  lemma ReversePrefix(t: seq<int>, m: int)
    requires 0 <= m <= |t|
    ensures Reverse(t)[..m] == Reverse(t[|t| - m..])
  {
    forall k | 0 <= k < m ensures Reverse(t)[..m][k] == Reverse(t[|t| - m..])[k] {
      ReverseAt(t, k);
      ReverseAt(t[|t| - m..], k);
    }
  }

  lemma {:induction false} ProductSnoc(a: seq<int>, y: int)
    ensures Product(a + [y]) == Product(a) * y
    decreases |a|
  {
    if |a| > 0 {
      assert (a + [y])[1..] == a[1..] + [y];
      ProductSnoc(a[1..], y);
      assert a[0] * (Product(a[1..]) * y) == (a[0] * Product(a[1..])) * y;
    } else {
      assert a + [y] == [y];
    }
  }

  lemma {:induction false} ProductReverse(s: seq<int>)
    ensures Product(Reverse(s)) == Product(s)
    decreases |s|
  {
    if |s| > 0 {
      ProductReverse(s[1..]);
      ProductSnoc(Reverse(s[1..]), s[0]);
    }
  }

  lemma {:induction false} CumProdAt(acc: int, s: seq<int>, j: int)
    requires 0 <= j < |s|
    ensures CumProd(acc, s)[j] == acc * Product(s[..j + 1])
    decreases |s|
  {
    if j == 0 {
      assert s[..1] == [s[0]];
      assert Product(s[..1]) == s[0] * Product([]);
    } else {
      CumProdAt(acc * s[0], s[1..], j - 1);
      assert s[..j + 1][1..] == s[1..][..j];
      assert Product(s[..j + 1]) == s[0] * Product(s[1..][..j]);
      assert (acc * s[0]) * Product(s[1..][..j]) == acc * (s[0] * Product(s[1..][..j]));
    }
  }

  /** Each multiplier is the product of the sizes of all later dimensions. */
  lemma MultipliersAt(sizes: seq<int>, i: int)
    requires 0 <= i < |sizes|
    ensures |Multipliers(sizes)| == |sizes|
    ensures Multipliers(sizes)[i] == Product(sizes[i + 1..])
  {
    var n := |sizes|;
    var t := sizes[1..];
    var c := CumProd(1, Reverse(t));
    assert Multipliers(sizes) == Reverse(c) + [1];
    if i == n - 1 {
      assert sizes[i + 1..] == [];
    } else {
      ReverseAt(c, i);
      CumProdAt(1, Reverse(t), n - 2 - i);
      ReversePrefix(t, n - 1 - i);
      ProductReverse(t[i..]);
      assert t[i..] == sizes[i + 1..];
    }
  }

  /** The multipliers end in 1 and each is the next size times the next multiplier. */
  lemma MultipliersShape(sizes: seq<int>)
    requires |sizes| >= 1
    ensures |Multipliers(sizes)| == |sizes|
    ensures Multipliers(sizes)[|sizes| - 1] == 1
    ensures forall i :: 0 <= i < |sizes| - 1 ==>
              Multipliers(sizes)[i] == sizes[i + 1] * Multipliers(sizes)[i + 1]
  {
    MultipliersAt(sizes, |sizes| - 1);
    assert sizes[|sizes|..] == [];
    forall i | 0 <= i < |sizes| - 1
      ensures Multipliers(sizes)[i] == sizes[i + 1] * Multipliers(sizes)[i + 1]
    {
      MultipliersAt(sizes, i);
      MultipliersAt(sizes, i + 1);
      assert sizes[i + 1..][1..] == sizes[i + 2..];
    }
  }

  // ---------------------------------------------------------------------
  // The encoding

  /** Each value minus the minimum of its dimension. */
  function Shifted(dims: seq<Range>, values: seq<int>): (r: seq<int>)
    requires |values| == |dims|
    ensures |r| == |dims|
  {
    if |dims| == 0 then [] else [values[0] - dims[0].lo] + Shifted(dims[1..], values[1..])
  }

  /** Sum of the element-wise products, (x * m).sum(). */
  function Dot(xs: seq<int>, ms: seq<int>): int
    requires |xs| == |ms|
  {
    if |xs| == 0 then 0 else xs[0] * ms[0] + Dot(xs[1..], ms[1..])
  }

  /** Reference mixed-radix numeral: first digit times the product of the
      remaining sizes, plus the numeral of the remaining digits. */
  function Horner(dims: seq<Range>, values: seq<int>): int
    requires |values| == |dims|
  {
    if |dims| == 0 then 0
    else (values[0] - dims[0].lo) * Product(Sizes(dims[1..])) + Horner(dims[1..], values[1..])
  }

  lemma {:induction false} DotHorner(dims: seq<Range>, values: seq<int>, m: seq<int>)
    requires |values| == |dims| == |m|
    requires forall i :: 0 <= i < |m| ==> m[i] == Product(Sizes(dims)[i + 1..])
    ensures Dot(Shifted(dims, values), m) == Horner(dims, values)
    decreases |dims|
  {
    if |dims| > 0 {
      assert Sizes(dims)[1..] == Sizes(dims[1..]);
      forall i | 0 <= i < |m[1..]|
        ensures m[1..][i] == Product(Sizes(dims[1..])[i + 1..])
      {
        assert m[1..][i] == m[i + 1];
        assert Sizes(dims)[i + 2..] == Sizes(dims[1..])[i + 1..];
      }
      DotHorner(dims[1..], values[1..], m[1..]);
      assert Shifted(dims, values)[1..] == Shifted(dims[1..], values[1..]);
    }
  }

  /** The agent's sum of shifted values times multipliers is the mixed-radix numeral. */
  lemma MultipliedSumIsHorner(dims: seq<Range>, values: seq<int>)
    requires |values| == |dims| >= 1
    ensures |Multipliers(Sizes(dims))| == |dims|
    ensures Dot(Shifted(dims, values), Multipliers(Sizes(dims))) == Horner(dims, values)
  {
    var m := Multipliers(Sizes(dims));
    forall i | 0 <= i < |m| ensures m[i] == Product(Sizes(dims)[i + 1..]) {
      MultipliersAt(Sizes(dims), i);
    }
    DotHorner(dims, values, m);
  }

  /** getDiscState: 0 when there are at most one discrete states, otherwise the
      sum of the shifted values times their positional multipliers. */
  function GetDiscState(dims: seq<Range>, values: seq<int>): (r: int)
    requires NumDiscStates(dims) > 1 ==> |values| == |dims|
    ensures NumDiscStates(dims) <= 1 ==> r == 0
    ensures NumDiscStates(dims) > 1 ==> r == Horner(dims, values)
  {
    if NumDiscStates(dims) > 1 then
      assert |dims| >= 1;
      MultipliedSumIsHorner(dims, values);
      Dot(Shifted(dims, values), Multipliers(Sizes(dims)))
    else
      0
  }

  // ---------------------------------------------------------------------
  // The reference numeral is a bijection

  lemma {:induction false} HornerBounds(dims: seq<Range>, values: seq<int>)
    requires InRange(dims, values)
    ensures 0 <= Horner(dims, values) < Product(Sizes(dims))
    decreases |dims|
  {
    if |dims| > 0 {
      InRangeTail(dims, values);
      HornerBounds(dims[1..], values[1..]);
      var s, p := Size(dims[0]), Product(Sizes(dims[1..]));
      var d := values[0] - dims[0].lo;
      assert Sizes(dims)[1..] == Sizes(dims[1..]);
      assert Product(Sizes(dims)) == s * p;
      MulLe(0, d, p);
      MulLe(d + 1, s, p);
    }
  }

  /** Uniqueness of a digit and remainder: d * p + h with 0 <= h < p. */
  lemma DigitsEqual(dv: int, dw: int, p: int, hv: int, hw: int)
    requires 0 <= dv && 0 <= dw && 0 <= hv < p && 0 <= hw < p
    requires dv * p + hv == dw * p + hw
    ensures dv == dw && hv == hw
  {
    if dv < dw {
      MulLe(dv + 1, dw, p);
    } else if dw < dv {
      MulLe(dw + 1, dv, p);
    }
  }

  lemma {:induction false} HornerInjective(dims: seq<Range>, v: seq<int>, w: seq<int>)
    requires InRange(dims, v) && InRange(dims, w)
    requires Horner(dims, v) == Horner(dims, w)
    ensures v == w
    decreases |dims|
  {
    if |dims| > 0 {
      InRangeTail(dims, v);
      InRangeTail(dims, w);
      HornerBounds(dims[1..], v[1..]);
      HornerBounds(dims[1..], w[1..]);
      var p := Product(Sizes(dims[1..]));
      DigitsEqual(v[0] - dims[0].lo, w[0] - dims[0].lo, p,
                  Horner(dims[1..], v[1..]), Horner(dims[1..], w[1..]));
      HornerInjective(dims[1..], v[1..], w[1..]);
      assert v == [v[0]] + v[1..] && w == [w[0]] + w[1..];
    }
  }

  lemma DivBounds(k: int, p: int, s: int)
    requires p > 0 && 0 <= k < s * p
    ensures 0 <= k / p < s
    ensures k == (k / p) * p + k % p && 0 <= k % p < p
  {
  }

  /** Inverse of the numeral: the digits of k, first dimension most significant. */
  function Decode(dims: seq<Range>, k: int): (r: seq<int>)
    requires WellFormed(dims)
    ensures |r| == |dims|
    decreases |dims|
  {
    if |dims| == 0 then []
    else
      WellFormedTail(dims);
      ProductPositive(dims[1..]);
      var p := Product(Sizes(dims[1..]));
      [dims[0].lo + k / p] + Decode(dims[1..], k % p)
  }

  lemma {:induction false} DecodeCorrect(dims: seq<Range>, k: int)
    requires WellFormed(dims) && 0 <= k < Product(Sizes(dims))
    ensures InRange(dims, Decode(dims, k))
    ensures Horner(dims, Decode(dims, k)) == k
    decreases |dims|
  {
    if |dims| > 0 {
      WellFormedTail(dims);
      ProductPositive(dims[1..]);
      var s, p := Size(dims[0]), Product(Sizes(dims[1..]));
      assert Sizes(dims)[1..] == Sizes(dims[1..]);
      assert Product(Sizes(dims)) == s * p;
      DivBounds(k, p, s);
      var r := Decode(dims, k);
      DecodeCorrect(dims[1..], k % p);
      assert r[1..] == Decode(dims[1..], k % p);
      forall i | 0 <= i < |dims| ensures dims[i].lo <= r[i] <= dims[i].hi {
        if i > 0 {
          assert r[i] == r[1..][i - 1] && dims[i] == dims[1..][i - 1];
        }
      }
    }
  }

  // ---------------------------------------------------------------------
  // Properties of getDiscState

  /** For in-range values both branches of getDiscState compute the numeral. */
  lemma GetDiscStateIsHorner(dims: seq<Range>, values: seq<int>)
    requires InRange(dims, values)
    ensures GetDiscState(dims, values) == Horner(dims, values)
  {
    NumDiscStatesIsProduct(dims);
    HornerBounds(dims, values);
  }

  /** In-range values encode into [0, numDiscStates). */
  lemma GetDiscStateBounds(dims: seq<Range>, values: seq<int>)
    requires InRange(dims, values)
    ensures 0 <= GetDiscState(dims, values) < NumDiscStates(dims)
  {
    GetDiscStateIsHorner(dims, values);
    HornerBounds(dims, values);
    NumDiscStatesIsProduct(dims);
  }

  /** Distinct in-range tuples get distinct indices. */
  lemma GetDiscStateInjective(dims: seq<Range>, v: seq<int>, w: seq<int>)
    requires InRange(dims, v) && InRange(dims, w)
    requires GetDiscState(dims, v) == GetDiscState(dims, w)
    ensures v == w
  {
    GetDiscStateIsHorner(dims, v);
    GetDiscStateIsHorner(dims, w);
    HornerInjective(dims, v, w);
  }

  /** Every index in [0, numDiscStates) is the encoding of an in-range tuple. */
  lemma GetDiscStateSurjective(dims: seq<Range>, k: int)
    requires WellFormed(dims) && 0 <= k < NumDiscStates(dims)
    ensures InRange(dims, Decode(dims, k))
    ensures GetDiscState(dims, Decode(dims, k)) == k
  {
    NumDiscStatesIsProduct(dims);
    DecodeCorrect(dims, k);
    GetDiscStateIsHorner(dims, Decode(dims, k));
  }

  /** Decoding the index of an in-range tuple gives the tuple back. */
  lemma GetDiscStateRoundTrip(dims: seq<Range>, values: seq<int>)
    requires InRange(dims, values)
    ensures WellFormed(dims)
    ensures Decode(dims, GetDiscState(dims, values)) == values
  {
    var k := GetDiscState(dims, values);
    GetDiscStateBounds(dims, values);
    GetDiscStateSurjective(dims, k);
    GetDiscStateInjective(dims, Decode(dims, k), values);
  }

  /** Dimensions [[0,1],[0,2]]: six states, (a, b) encodes as 3a + b, so (1,2) is 5. */
  lemma TwoByThreeExample()
    ensures NumDiscStates([Range(0, 1), Range(0, 2)]) == 6
    ensures forall a, b :: GetDiscState([Range(0, 1), Range(0, 2)], [a, b]) == 3 * a + b
    ensures GetDiscState([Range(0, 1), Range(0, 2)], [1, 2]) == 5
  {
    var dims := [Range(0, 1), Range(0, 2)];
    assert dims[1..] == [Range(0, 2)] && dims[1..][1..] == [];
    NumDiscStatesIsProduct(dims);
    assert Sizes(dims) == [2, 3];
    forall a, b ensures GetDiscState(dims, [a, b]) == 3 * a + b {
      assert [a, b][1..] == [b] && [b][1..] == [];
      assert Horner(dims, [a, b]) == a * 3 + Horner(dims[1..], [b]);
    }
  }
}
