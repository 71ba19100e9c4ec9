/** Sample buffers as sequences of reals: the RMS energy floor, peak
    normalisation and DC-offset removal applied before windowing. Floating
    point rounding is not modelled; every operation is exact. */
module Signal {

  /** The RMS threshold shared by the short-clip check and every window. */
  const EnergyFloor: real := 0.01

  function Sum(s: seq<real>): real {
    if s == [] then 0.0 else s[0] + Sum(s[1..])
  }

  function SumSquares(s: seq<real>): (r: real)
    ensures r >= 0.0
  {
    if s == [] then 0.0 else s[0] * s[0] + SumSquares(s[1..])
  }

  /** `sqrt(mean(s**2)) >= 0.01`. Since both sides are non-negative this is
      `mean(s**2) >= 0.01 * 0.01`; the mean of an empty buffer is NaN, and a
      comparison with NaN is false, so an empty buffer never passes. */
  predicate Energetic(s: seq<real>) {
    |s| > 0 && SumSquares(s) >= EnergyFloor * EnergyFloor * |s| as real
  }

  function Abs(x: real): real {
    if x < 0.0 then -x else x
  }

  /** The largest magnitude in the buffer (0 for an empty one). */
  function Peak(s: seq<real>): (p: real)
    ensures p >= 0.0
    ensures forall i :: 0 <= i < |s| ==> Abs(s[i]) <= p
  {
    if s == [] then 0.0
    else
      var rest := Peak(s[1..]);
      assert forall i :: 1 <= i < |s| ==> s[i] == s[1..][i - 1];
      if Abs(s[0]) > rest then Abs(s[0]) else rest
  }

  /** `librosa.util.normalize` with its defaults: divide by the peak
      magnitude, leaving a silent buffer unchanged. */
  function Normalize(s: seq<real>): (r: seq<real>)
    ensures |r| == |s|
  {
    var p := Peak(s);
    if p == 0.0 then s else seq(|s|, i requires 0 <= i < |s| => s[i] / p)
  }

  /** `audio - np.mean(audio)`. */
  function RemoveDc(s: seq<real>): (r: seq<real>)
    requires |s| > 0
    ensures |r| == |s|
  {
    Shift(s, Sum(s) / |s| as real)
  }

  function Shift(s: seq<real>, m: real): (r: seq<real>)
    ensures |r| == |s|
  {
    seq(|s|, i requires 0 <= i < |s| => s[i] - m)
  }

  /** The preprocessing of the windowing path: normalise, then centre. */
  function Preprocess(s: seq<real>): (r: seq<real>)
    requires |s| > 0
    ensures |r| == |s|
  {
    RemoveDc(Normalize(s))
  }

  /** After normalisation every sample lies in [-1, 1]; a silent buffer
      comes back unchanged, all zeros. */
  lemma NormalizeBounded(s: seq<real>, i: nat)
    requires i < |s|
    ensures -1.0 <= Normalize(s)[i] <= 1.0
  {
    var p := Peak(s);
    if p != 0.0 {
      RatioBounded(s[i], p);
    }
  }

  /** Some sample reaches the peak magnitude. */
  lemma {:induction false} PeakAttained(s: seq<real>) returns (k: nat)
    requires s != []
    ensures k < |s| && Abs(s[k]) == Peak(s)
  {
    if |s| == 1 {
      k := 0;
    } else {
      var j := PeakAttained(s[1..]);
      if Abs(s[0]) > Peak(s[1..]) {
        k := 0;
      } else {
        k := j + 1;
      }
    }
  }

  /** A buffer that is not silent has peak magnitude exactly 1 after
      normalisation. */
  lemma NormalizedPeakIsOne(s: seq<real>)
    requires Peak(s) != 0.0
    ensures Peak(Normalize(s)) == 1.0
  {
    var p := Peak(s);
    var r := Normalize(s);
    var j := PeakAttained(s);
    var k := PeakAttained(r);
    NormalizeBounded(s, k);
    UnitRatio(s[j], p);
    assert r[j] == s[j] / p;
  }

  lemma UnitRatio(x: real, p: real)
    requires p > 0.0 && Abs(x) == p
    ensures Abs(x / p) == 1.0
  {
    var q := x / p;
    assert q * p == x;
    if x < 0.0 {
      var y := -x;
      assert y == p && y / p == 1.0;
      assert (-q) * p == y;
      assert (-q - 1.0) * p == 0.0;
      assert -q == 1.0;
    } else {
      assert (q - 1.0) * p == 0.0;
      assert q == 1.0;
    }
  }

  lemma RatioBounded(x: real, p: real)
    requires p > 0.0 && Abs(x) <= p
    ensures -1.0 <= x / p <= 1.0
  {
    var q := x / p;
    assert q * p == x;
    assert (1.0 - q) * p == p - x && (1.0 + q) * p == p + x;
  }

  lemma {:induction false} SumShift(s: seq<real>, m: real)
    ensures Sum(Shift(s, m)) == Sum(s) - |s| as real * m
  {
    if s != [] {
      assert Shift(s, m)[1..] == Shift(s[1..], m);
      SumShift(s[1..], m);
    }
  }

  /** After DC removal the samples sum (and so average) to zero. */
  lemma RemoveDcCentres(s: seq<real>)
    requires |s| > 0
    ensures Sum(RemoveDc(s)) == 0.0
  {
    var n := |s| as real;
    SumShift(s, Sum(s) / n);
    assert n * (Sum(s) / n) == Sum(s);
  }

  /** A buffer of `n` samples all equal to `c`. */
  function Constant(n: nat, c: real): (s: seq<real>)
    ensures |s| == n
  {
    seq(n, _ => c)
  }

  lemma {:induction false} SumSquaresConstant(n: nat, c: real)
    ensures SumSquares(Constant(n, c)) == n as real * c * c
  {
    if n > 0 {
      assert Constant(n, c)[1..] == Constant(n - 1, c);
      SumSquaresConstant(n - 1, c);
    }
  }

  /** A non-empty buffer holding one value throughout passes the energy
      floor exactly when that value's magnitude reaches the floor; a silent
      buffer never passes. */
  lemma ConstantEnergy(n: nat, c: real)
    requires n > 0
    ensures Energetic(Constant(n, c)) <==> c * c >= EnergyFloor * EnergyFloor
  {
    var s := Constant(n, c);
    SumSquaresConstant(n, c);
    var k := n as real;
    var d := c * c - EnergyFloor * EnergyFloor;
    assert SumSquares(s) - EnergyFloor * EnergyFloor * k == k * d;
    if d >= 0.0 {
      assert k * d >= 0.0;
    } else {
      assert k * d < 0.0;
    }
  }
}
