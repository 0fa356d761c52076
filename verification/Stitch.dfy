/**
 * average_overlap: the per-segment model spectra (a log-wavelength grid and the
 * two component fluxes, as `np.loadtxt(...).transpose()` gives them, in file
 * order) are stitched into one spectrum per component. Each segment is first
 * shifted so that its first 20 samples average to 1; the samples a segment
 * shares with the tail carried from the previous one are blended with linear
 * weights and then dropped from the segment.
 *
 * Wavelengths are keys of any type with equality (only `np.intersect1d` looks
 * at them); fluxes are exact reals.
 */
module Stitch {
  import opened Results

  /** The columns of one segment's file, or of the spectrum built so far. */
  datatype Columns<K> = Columns(w: seq<K>, a: seq<real>, b: seq<real>)

  predicate Aligned<K>(c: Columns<K>)
  {
    |c.a| == |c.w| && |c.b| == |c.w|
  }

  function Append<K>(c: Columns<K>, d: Columns<K>): Columns<K>
  {
    Columns(c.w + d.w, c.a + d.a, c.b + d.b)
  }

  // ---------------------------------------------------------------------------
  // Anchoring each segment: `s + (1 - np.mean(s[0:20]))`

  function Sum(s: seq<real>): real
  {
    if s == [] then 0.0 else Sum(s[..|s| - 1]) + s[|s| - 1]
  }

  function Mean(s: seq<real>): real
    requires |s| > 0
  {
    Sum(s) / |s| as real
  }

  /** `s[0:20]`: the first 20 samples, or all of them when there are fewer. */
  function Head20(s: seq<real>): seq<real>
  {
    if |s| <= 20 then s else s[..20]
  }

  function Shift(s: seq<real>, c: real): (r: seq<real>)
    ensures |r| == |s|
  {
    seq(|s|, i requires 0 <= i < |s| => s[i] + c)
  }

  /** The flux column moved so that the mean of its first 20 samples is 1. */
  function Offset(s: seq<real>): (r: seq<real>)
    requires |s| > 0
    ensures |r| == |s|
  {
    Shift(s, 1.0 - Mean(Head20(s)))
  }

  lemma {:induction false} SumShift(s: seq<real>, c: real)
    ensures Sum(Shift(s, c)) == Sum(s) + |s| as real * c
    decreases |s|
  {
    if s != [] {
      var s' := s[..|s| - 1];
      assert Shift(s, c)[..|s| - 1] == Shift(s', c);
      SumShift(s', c);
    }
  }

  /**
   * After the shift the first 20 samples (or all, if fewer) average exactly 1,
   * and every sample moved by the same amount.
   */
  lemma OffsetAnchorsMean(s: seq<real>)
    requires |s| > 0
    ensures Mean(Head20(Offset(s))) == 1.0
    ensures forall i, j :: 0 <= i < |s| && 0 <= j < |s| ==> Offset(s)[i] - Offset(s)[j] == s[i] - s[j]
  {
    var h := Head20(s);
    var c := 1.0 - Mean(h);
    assert Head20(Offset(s)) == Shift(h, c);
    SumShift(h, c);
    var m := |h| as real;
    calc {
      Mean(Shift(h, c));
      (Sum(h) + m * c) / m;
      Sum(h) / m + c;
    }
  }

  // ---------------------------------------------------------------------------
  // Blending an overlap: `np.average([tail, head], axis=0, weights=[ramp[::-1], ramp])`

  /** `np.arange(1, n + 1)` */
  function Ramp(n: nat): (r: seq<real>)
    ensures |r| == n
  {
    seq(n, i => (i + 1) as real)
  }

  /** `s[::-1]` */
  function Reverse(s: seq<real>): (r: seq<real>)
    ensures |r| == |s|
  {
    seq(|s|, i requires 0 <= i < |s| => s[|s| - 1 - i])
  }

  /** `np.average([x, y], axis=0, weights=[wx, wy])`, column by column. */
  function Average2(x: seq<real>, y: seq<real>, wx: seq<real>, wy: seq<real>): (r: seq<real>)
    requires |y| == |x| && |wx| == |x| && |wy| == |x|
    requires forall j :: 0 <= j < |x| ==> wx[j] + wy[j] != 0.0
    ensures |r| == |x|
  {
    seq(|x|, j requires 0 <= j < |x| => WeightedMean(wx[j], x[j], wy[j], y[j]))
  }

  /** The mean of x and y weighted u and v. */
  function WeightedMean(u: real, x: real, v: real, y: real): real
    requires u + v != 0.0
  {
    (u * x + v * y) / (u + v)
  }

  /** The weighted average of the last n tail samples and the first n head samples. */
  function Blend(tail: seq<real>, head: seq<real>): (r: seq<real>)
    requires |head| == |tail|
    ensures |r| == |tail|
  {
    var n := |tail|;
    var ramp := Ramp(n);
    assert forall j :: 0 <= j < n ==> Reverse(ramp)[j] + ramp[j] == (n + 1) as real;
    Average2(tail, head, Reverse(ramp), ramp)
  }

  /** The weighted mean at position j of an n-sample overlap: the tail weighs n - j, the head j + 1. */
  function RampMean(n: nat, j: nat, x: real, y: real): real
  {
    WeightedMean((n - j) as real, x, (j + 1) as real, y)
  }

  /** Position j of an overlap of n samples weighs the tail n - j and the head j + 1. */
  lemma BlendAt(tail: seq<real>, head: seq<real>, j: nat)
    requires |head| == |tail| && j < |tail|
    ensures Blend(tail, head)[j] == RampMean(|tail|, j, tail[j], head[j])
  {
    var n := |tail|;
    var ramp := Ramp(n);
    var rev := Reverse(ramp);
    assert Blend(tail, head) == Average2(tail, head, rev, ramp);
    RampWeightsAt(n, j);
    Average2At(tail, head, rev, ramp, j);
  }

  /** The two weights of position j: the reversed ramp gives n - j, the ramp j + 1. */
  lemma RampWeightsAt(n: nat, j: nat)
    requires j < n
    ensures Reverse(Ramp(n))[j] == (n - j) as real && Ramp(n)[j] == (j + 1) as real
  {
    assert Reverse(Ramp(n))[j] == Ramp(n)[n - 1 - j];
  }

  lemma Average2At(x: seq<real>, y: seq<real>, wx: seq<real>, wy: seq<real>, j: nat)
    requires |y| == |x| && |wx| == |x| && |wy| == |x|
    requires forall i :: 0 <= i < |x| ==> wx[i] + wy[i] != 0.0
    requires j < |x|
    ensures Average2(x, y, wx, wy)[j] == WeightedMean(wx[j], x[j], wy[j], y[j])
  {
  }

  /** Where both segments agree, the blend leaves the value unchanged. */
  lemma BlendOfEqual(s: seq<real>)
    ensures Blend(s, s) == s
  {
    forall j | 0 <= j < |s| ensures Blend(s, s)[j] == s[j] {
      BlendAt(s, s, j);
      RampWeightsOfEqual(|s|, j, s[j]);
    }
  }

  /** The ramp weights of one position sum to n + 1, so they average a value with itself to that value. */
  lemma RampWeightsOfEqual(n: nat, j: nat, t: real)
    requires j < n
    ensures RampMean(n, j, t, t) == t
  {
    var p, q := (n - j) as real, (j + 1) as real;
    assert p + q == (n + 1) as real;
    assert p * t + q * t == (n + 1) as real * t;
  }

  /** In an odd overlap the middle sample is the plain average of the two. */
  lemma BlendMidpoint(tail: seq<real>, head: seq<real>)
    requires |head| == |tail| && |tail| % 2 == 1
    ensures Blend(tail, head)[|tail| / 2] == (tail[|tail| / 2] + head[|tail| / 2]) / 2.0
  {
    var m := |tail| / 2;
    BlendAt(tail, head, m);
    assert |tail| - m == m + 1;
    var k := (m + 1) as real;
    assert (k * tail[m] + k * head[m]) / (2.0 * k) == (tail[m] + head[m]) / 2.0;
  }

  // ---------------------------------------------------------------------------
  // The overlap count: `len(np.intersect1d(w1, w2))`

  function Distinct<K>(s: seq<K>): set<K>
  {
    set x | x in s
  }

  lemma {:induction false} DistinctAtMostLength<K>(s: seq<K>)
    ensures |Distinct(s)| <= |s|
    decreases |s|
  {
    if s != [] {
      var s' := s[..|s| - 1];
      assert Distinct(s) == Distinct(s') + {s[|s| - 1]};
      DistinctAtMostLength(s');
    }
  }

  /** The number of distinct wavelengths two grids share; never more than either grid holds. */
  function OverlapCount<K(==)>(w1: seq<K>, w2: seq<K>): (n: nat)
    ensures n <= |w1| && n <= |w2|
  {
    var common := Distinct(w1) * Distinct(w2);
    DistinctAtMostLength(w1);
    DistinctAtMostLength(w2);
    assert common <= Distinct(w1) && common <= Distinct(w2);
    SubsetSize(common, Distinct(w1));
    SubsetSize(common, Distinct(w2));
    |common|
  }

  lemma SubsetSize<K>(a: set<K>, b: set<K>)
    requires a <= b
    ensures |a| <= |b|
  {
    assert b == a + (b - a);
  }

  // ---------------------------------------------------------------------------
  // One stitching step and the whole run

  /** `s[-(n):] = newdata` for n = |newdata|. */
  function SpliceTail(s: seq<real>, newdata: seq<real>): seq<real>
    requires |newdata| <= |s|
  {
    s[..|s| - |newdata|] + newdata
  }

  /** `s[-(n):] = np.average([s[-(n):], h[:n]], ...)`: the last n samples of s blended with the first n of h. */
  function SpliceBlend(s: seq<real>, h: seq<real>, n: nat): (r: seq<real>)
    requires n <= |s| && n <= |h|
    ensures |r| == |s|
  {
    SpliceTail(s, Blend(s[|s| - n..], h[..n]))
  }

  /** The splice done in place on the array of the carried tail. */
  method SpliceInPlace(arr: array<real>, newdata: seq<real>)
    requires |newdata| <= arr.Length
    modifies arr
    ensures arr[..] == SpliceTail(old(arr[..]), newdata)
  {
    var start := arr.Length - |newdata|;
    for j := 0 to |newdata|
      invariant forall i :: 0 <= i < start ==> arr[i] == old(arr[i])
      invariant forall i :: 0 <= i < j ==> arr[start + i] == newdata[i]
      invariant forall i :: start + j <= i < arr.Length ==> arr[i] == old(arr[i])
    {
      arr[start + j] := newdata[j];
    }
  }

  datatype StitchError = NoSegments | TooFewRows(segment: nat) | NoOverlap(segment: nat)

  /** The tail that is finished by a step, and the rest of the new segment, carried to the next. */
  datatype Step<K> = Step(done: Columns<K>, carried: Columns<K>)

  function Normalized<K>(c: Columns<K>): Columns<K>
    requires |c.a| > 0 && |c.b| > 0
  {
    Columns(c.w, Offset(c.a), Offset(c.b))
  }

  /**
   * One pass of the loop: anchor the next segment, count the shared
   * wavelengths n, blend the last n samples of the tail with the first n of
   * the segment, and carry the segment without its first n samples. A file of
   * fewer than two rows fails at `[0:20]`; no shared wavelength with a
   * non-empty tail fails at the blend.
   */
  function StitchStep<K(==)>(tail: Columns<K>, next: Columns<K>, idx: nat): (r: Result<Step<K>, StitchError>)
    requires Aligned(tail) && Aligned(next)
    ensures r.Ok? ==> var n := OverlapCount(tail.w, next.w);
      && Aligned(r.value.done) && Aligned(r.value.carried)
      && r.value.done.w == tail.w && r.value.carried.w == next.w[n..]
    ensures r.Err? <==> |next.w| < 2 || (OverlapCount(tail.w, next.w) == 0 && |tail.w| > 0)
  {
    if |next.w| < 2 then Err(TooFewRows(idx))
    else
      var head := Normalized(next);
      var n := OverlapCount(tail.w, next.w);
      if n == 0 && |tail.w| > 0 then Err(NoOverlap(idx))
      else
        Ok(Step(Columns(tail.w, SpliceBlend(tail.a, head.a, n), SpliceBlend(tail.b, head.b, n)),
                Columns(next.w[n..], head.a[n..], head.b[n..])))
  }

  predicate AllAligned<K>(segs: seq<Columns<K>>)
  {
    forall i :: 0 <= i < |segs| ==> Aligned(segs[i])
  }

  /** The rest of the loop, from the spectrum built so far and the carried tail. */
  function Run<K(==)>(acc: Columns<K>, tail: Columns<K>, rest: seq<Columns<K>>, idx: nat): (r: Result<Columns<K>, StitchError>)
    requires Aligned(acc) && Aligned(tail) && AllAligned(rest)
    ensures r.Ok? ==> Aligned(r.value) && r.value.w == acc.w + tail.w + GridFrom(tail.w, rest)
    decreases |rest|
  {
    if rest == [] then Ok(Append(acc, tail))
    else
      match StitchStep(tail, rest[0], idx)
      case Err(e) => Err(e)
      case Ok(st) => Run(Append(acc, st.done), st.carried, rest[1..], idx + 1)
  }

  /** average_overlap on the segments' columns, in file order. */
  function StitchAll<K(==)>(segs: seq<Columns<K>>): Result<Columns<K>, StitchError>
    requires AllAligned(segs)
  {
    if |segs| == 0 then Err(NoSegments)
    else if |segs[0].w| < 2 then Err(TooFewRows(0))
    else Run(Columns([], [], []), Normalized(segs[0]), segs[1..], 1)
  }

  /**
   * Splicing the blend into the tail changes only its last n samples; sample
   * m + j of the overlap (m = |t| - n) weighs the tail n - j and the head j + 1.
   */
  lemma SplicedOverlap(t: seq<real>, h: seq<real>, n: nat)
    requires n <= |t| && n <= |h|
    ensures SpliceBlend(t, h, n)[..|t| - n] == t[..|t| - n]
    ensures forall i :: |t| - n <= i < |t| ==>
      SpliceBlend(t, h, n)[i] == RampMean(n, i - (|t| - n), t[i], h[i - (|t| - n)])
  {
    var m := |t| - n;
    var blend := Blend(t[m..], h[..n]);
    var s := SpliceBlend(t, h, n);
    assert s == t[..m] + blend;
    assert s[..m] == t[..m];
    forall i | m <= i < |t|
      ensures s[i] == RampMean(n, i - m, t[i], h[i - m])
    {
      BlendAt(t[m..], h[..n], i - m);
      assert s[i] == blend[i - m];
      assert t[m..][i - m] == t[i] && h[..n][i - m] == h[i - m];
    }
  }

  /** One flux column of the segment a step carries on, sample by sample. */
  lemma CarriedColumn(nx: seq<real>, n: nat, carried: seq<real>)
    requires |nx| > 0 && n <= |nx|
    requires carried == Offset(nx)[n..]
    ensures |carried| == |nx| - n
    ensures var c := 1.0 - Mean(Head20(nx));
      forall i :: 0 <= i < |nx| - n ==> carried[i] == nx[n + i] + c
  {
    var c := 1.0 - Mean(Head20(nx));
    forall i | 0 <= i < |nx| - n
      ensures carried[i] == nx[n + i] + c
    {
      assert carried[i] == Offset(nx)[n + i];
    }
  }

  /** One flux column of a step's finished tail, sample by sample. */
  lemma SplicedColumn(t: seq<real>, h: seq<real>, n: nat, done: seq<real>)
    requires n <= |t| && n <= |h| && done == SpliceBlend(t, h, n)
    ensures var m := |t| - n;
      && |done| == |t| && done[..m] == t[..m]
      && (forall i :: m <= i < |t| ==> done[i] == RampMean(n, i - m, t[i], h[i - m]))
  {
    SplicedOverlap(t, h, n);
  }

  /**
   * A successful step, in both flux columns: the tail keeps its length and its
   * samples before the last n; tail sample m + j of the overlap (m = length
   * less n) becomes the ramp-weighted mean of itself and sample j of the
   * normalised next segment.
   */
  lemma StepBlendsOverlap<K>(tail: Columns<K>, next: Columns<K>, idx: nat)
    requires Aligned(tail) && Aligned(next)
    requires StitchStep(tail, next, idx).Ok?
    ensures var n := OverlapCount(tail.w, next.w);
      var st := StitchStep(tail, next, idx).value;
      var ma, mb := |tail.a| - n, |tail.b| - n;
      && |st.done.a| == |tail.a| && st.done.a[..ma] == tail.a[..ma]
      && (forall i :: ma <= i < |tail.a| ==> st.done.a[i] == RampMean(n, i - ma, tail.a[i], Offset(next.a)[i - ma]))
      && |st.done.b| == |tail.b| && st.done.b[..mb] == tail.b[..mb]
      && (forall i :: mb <= i < |tail.b| ==> st.done.b[i] == RampMean(n, i - mb, tail.b[i], Offset(next.b)[i - mb]))
  {
    SplicedColumn(tail.a, Offset(next.a), OverlapCount(tail.w, next.w), StitchStep(tail, next, idx).value.done.a);
    SplicedColumn(tail.b, Offset(next.b), OverlapCount(tail.w, next.w), StitchStep(tail, next, idx).value.done.b);
  }

  /**
   * A successful step shares at least one wavelength unless the tail was empty,
   * and carries on the next segment's samples after the first n, each lifted by
   * 1 - (mean of that segment's first 20 samples).
   */
  lemma StepCarriesRest<K>(tail: Columns<K>, next: Columns<K>, idx: nat)
    requires Aligned(tail) && Aligned(next)
    requires StitchStep(tail, next, idx).Ok?
    ensures var n := OverlapCount(tail.w, next.w);
      var st := StitchStep(tail, next, idx).value;
      var ca, cb := 1.0 - Mean(Head20(next.a)), 1.0 - Mean(Head20(next.b));
      && (n >= 1 || tail.w == [])
      && |st.carried.a| == |next.a| - n
      && (forall i :: 0 <= i < |next.a| - n ==> st.carried.a[i] == next.a[n + i] + ca)
      && |st.carried.b| == |next.b| - n
      && (forall i :: 0 <= i < |next.b| - n ==> st.carried.b[i] == next.b[n + i] + cb)
  {
    CarriedColumn(next.a, OverlapCount(tail.w, next.w), StitchStep(tail, next, idx).value.carried.a);
    CarriedColumn(next.b, OverlapCount(tail.w, next.w), StitchStep(tail, next, idx).value.carried.b);
  }

  /** The number of samples each later segment shares with the tail before it. */
  function OverlapsFrom<K(==)>(tailW: seq<K>, rest: seq<Columns<K>>): seq<nat>
    decreases |rest|
  {
    if rest == [] then []
    else
      var n := OverlapCount(tailW, rest[0].w);
      [n] + OverlapsFrom(rest[0].w[n..], rest[1..])
  }

  /** Each later grid without the samples it shares with the tail before it. */
  function GridFrom<K(==)>(tailW: seq<K>, rest: seq<Columns<K>>): seq<K>
    decreases |rest|
  {
    if rest == [] then []
    else
      var n := OverlapCount(tailW, rest[0].w);
      rest[0].w[n..] + GridFrom(rest[0].w[n..], rest[1..])
  }

  function Rows<K>(segs: seq<Columns<K>>): nat
  {
    if segs == [] then 0 else |segs[0].w| + Rows(segs[1..])
  }

  function SumNat(s: seq<nat>): nat
  {
    if s == [] then 0 else s[0] + SumNat(s[1..])
  }

  /** The later grids, trimmed, hold all their samples but the shared ones. */
  lemma {:induction false} GridFromLength<K>(tailW: seq<K>, rest: seq<Columns<K>>)
    ensures |GridFrom(tailW, rest)| + SumNat(OverlapsFrom(tailW, rest)) == Rows(rest)
    decreases |rest|
  {
    if rest != [] {
      var n := OverlapCount(tailW, rest[0].w);
      GridFromLength(rest[0].w[n..], rest[1..]);
    }
  }

  /**
   * The stitched grid is the first segment's grid followed by each later grid
   * without its first n_k samples, and both flux columns have exactly as many
   * samples: the segments' rows less the overlaps.
   */
  lemma StitchedLength<K>(segs: seq<Columns<K>>)
    requires AllAligned(segs) && StitchAll(segs).Ok?
    ensures var r := StitchAll(segs).value;
      && r.w == segs[0].w + GridFrom(segs[0].w, segs[1..])
      && |r.a| == |r.w| && |r.b| == |r.w|
      && |r.w| + SumNat(OverlapsFrom(segs[0].w, segs[1..])) == Rows(segs)
  {
    var first := Normalized(segs[0]);
    assert Aligned(first) && first.w == segs[0].w;
    assert StitchAll(segs) == Run(Columns([], [], []), first, segs[1..], 1);
    GridFromLength(segs[0].w, segs[1..]);
    assert Rows(segs) == |segs[0].w| + Rows(segs[1..]);
    assert [] + first.w == segs[0].w;
  }

  /** Unfolding the run by one step that succeeds. */
  lemma RunStep<K>(acc: Columns<K>, tail: Columns<K>, rest: seq<Columns<K>>, idx: nat)
    requires Aligned(acc) && Aligned(tail) && AllAligned(rest) && rest != []
    requires StitchStep(tail, rest[0], idx).Ok?
    ensures Run(acc, tail, rest, idx)
         == Run(Append(acc, StitchStep(tail, rest[0], idx).value.done),
                StitchStep(tail, rest[0], idx).value.carried, rest[1..], idx + 1)
  {
  }

  /** The run stops with the error of the first step that fails. */
  lemma RunStepFails<K>(acc: Columns<K>, tail: Columns<K>, rest: seq<Columns<K>>, idx: nat)
    requires Aligned(acc) && Aligned(tail) && AllAligned(rest) && rest != []
    requires StitchStep(tail, rest[0], idx).Err?
    ensures Run(acc, tail, rest, idx) == Err(StitchStep(tail, rest[0], idx).error)
  {
  }

  /** A fresh array holding the samples (numpy's copy of a column). */
  method FromSeq(s: seq<real>) returns (arr: array<real>)
    ensures fresh(arr) && arr[..] == s
  {
    arr := new real[|s|](i requires 0 <= i < |s| => s[i]);
  }

  /** The outcome of a step that neither fails nor lacks an overlap. */
  lemma StepValue<K>(tail: Columns<K>, next: Columns<K>, idx: nat)
    requires Aligned(tail) && Aligned(next) && |next.w| >= 2
    requires OverlapCount(tail.w, next.w) > 0 || |tail.w| == 0
    ensures var n := OverlapCount(tail.w, next.w);
      StitchStep(tail, next, idx)
        == Ok(Step(Columns(tail.w, SpliceBlend(tail.a, Offset(next.a), n), SpliceBlend(tail.b, Offset(next.b), n)),
                   Columns(next.w[n..], Offset(next.a)[n..], Offset(next.b)[n..])))
  {
  }

  /** `s[-(n):] = np.average([s[-(n):], h[:n]], ...)` on the array s. */
  method BlendInPlace(arr: array<real>, h: seq<real>, n: nat)
    requires n <= arr.Length && n <= |h|
    modifies arr
    ensures arr[..] == SpliceBlend(old(arr[..]), h, n)
  {
    ghost var s := arr[..];
    var last := arr[arr.Length - n..];
    assert last == s[|s| - n..];
    var newdata := Blend(last, h[..n]);
    assert SpliceBlend(s, h, n) == SpliceTail(s, newdata);
    SpliceInPlace(arr, newdata);
  }

  /**
   * The body of the loop for segment k: anchor it, count the overlap, splice
   * the blended samples into the carried flux arrays in place, and hand back
   * the segment without its first n samples.
   */
  method StitchPair<K(==)>(w1: seq<K>, s11: array<real>, s21: array<real>, next: Columns<K>, k: nat)
    returns (r: Result<Columns<K>, StitchError>)
    requires s11 != s21 && s11.Length == |w1| == s21.Length && Aligned(next)
    modifies s11, s21
    ensures var st := StitchStep(Columns(w1, old(s11[..]), old(s21[..])), next, k);
      && (st.Err? ==> r == Err(st.error))
      && (st.Ok? ==> r == Ok(st.value.carried) && s11[..] == st.value.done.a && s21[..] == st.value.done.b)
  {
    ghost var tail := Columns(w1, s11[..], s21[..]);
    if |next.w| < 2 {
      return Err(TooFewRows(k));
    }
    var w2 := next.w;
    var s12 := Offset(next.a);
    var s22 := Offset(next.b);
    var n := OverlapCount(w1, w2);
    if n == 0 && |w1| > 0 {
      return Err(NoOverlap(k));
    }
    StepValue(tail, next, k);
    w2 := w2[n..];
    BlendInPlace(s11, s12, n);
    s12 := s12[n..];
    BlendInPlace(s21, s22, n);
    s22 := s22[n..];
    return Ok(Columns(w2, s12, s22));
  }

  /**
   * One whole pass of the loop for segment k: stitch the segment onto the
   * carried arrays, append the finished tail to the spectrum built so far, and
   * copy the carried segment into fresh arrays. The run from the old state
   * either fails with the returned error or goes on from the new state.
   */
  method StitchPass<K(==)>(acc: Columns<K>, w1: seq<K>, s11: array<real>, s21: array<real>,
                           rest: seq<Columns<K>>, k: nat)
    returns (r: Result<(Columns<K>, seq<K>, array<real>, array<real>), StitchError>)
    requires Aligned(acc) && AllAligned(rest) && rest != []
    requires s11 != s21 && s11.Length == |w1| == s21.Length
    modifies s11, s21
    ensures var run := Run(acc, Columns(w1, old(s11[..]), old(s21[..])), rest, k);
      match r
      case Err(e) => run == Err(e)
      case Ok((acc', w1', s11', s21')) =>
        && fresh(s11') && fresh(s21') && s11' != s21'
        && Aligned(acc') && s11'.Length == |w1'| == s21'.Length
        && run == Run(acc', Columns(w1', s11'[..], s21'[..]), rest[1..], k + 1)
  {
    ghost var tail := Columns(w1, s11[..], s21[..]);
    var carried := StitchPair(w1, s11, s21, rest[0], k);
    if carried.Err? {
      RunStepFails(acc, tail, rest, k);
      return Err(carried.error);
    }
    ghost var st := StitchStep(tail, rest[0], k).value;
    RunStep(acc, tail, rest, k);
    var done := Columns(acc.w + w1, acc.a + s11[..], acc.b + s21[..]);
    assert done == Append(acc, st.done);
    var a := FromSeq(carried.value.a);
    var b := FromSeq(carried.value.b);
    return Ok((done, carried.value.w, a, b));
  }

  /**
   * The loop of average_overlap, with the carried flux tails as arrays spliced
   * in place; `acc` holds the spectrum built so far (w, s1, s2).
   */
  method AverageOverlap<K(==)>(segs: seq<Columns<K>>) returns (r: Result<Columns<K>, StitchError>)
    requires AllAligned(segs)
    ensures r == StitchAll(segs)
  {
    if |segs| == 0 {
      return Err(NoSegments);
    }
    if |segs[0].w| < 2 {
      return Err(TooFewRows(0));
    }
    var acc: Columns<K> := Columns([], [], []);
    var first := Normalized(segs[0]);
    var w1 := first.w;
    var s11 := FromSeq(first.a);
    var s21 := FromSeq(first.b);
    for k := 1 to |segs|
      invariant fresh(s11) && fresh(s21) && s11 != s21
      invariant Aligned(acc) && s11.Length == |w1| == s21.Length
      invariant Run(acc, Columns(w1, s11[..], s21[..]), segs[k..], k) == StitchAll(segs)
    {
      assert segs[k..][1..] == segs[k + 1..];
      var pass := StitchPass(acc, w1, s11, s21, segs[k..], k);
      if pass.Err? {
        return Err(pass.error);
      }
      acc, w1, s11, s21 := pass.value.0, pass.value.1, pass.value.2, pass.value.3;
    }
    assert segs[|segs|..] == [];
    return Ok(Append(acc, Columns(w1, s11[..], s21[..])));
  }
}
