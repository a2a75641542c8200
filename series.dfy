/// What each transform of the plugin does to the value of a dataset: its data
/// array and its optional symmetric (serr), positive (perr) and negative (nerr)
/// error arrays.  The in-place methods in module TransformPlugin are proved to
/// leave exactly these values behind.
module DatasetValues {
  import opened Base
  import opened Numeric
  import PySlice

  type Arr = seq<Num>

  datatype Series = Series(data: Arr, serr: Option<Arr>, perr: Option<Arr>, nerr: Option<Arr>)

  /// Dataset1D.hasErrors(): some error array is present.
  predicate HasErrors(d: Series) { d.serr.Some? || d.perr.Some? || d.nerr.Some? }

  predicate SameLength(e: Option<Arr>, n: nat) { e.Some? ==> |e.value| == n }

  /// Every error array present has as many entries as the data.
  predicate Consistent(d: Series) {
    SameLength(d.serr, |d.data|) && SameLength(d.perr, |d.data|) && SameLength(d.nerr, |d.data|)
  }

  predicate AtLeast(e: Option<Arr>, n: nat) { e.Some? ==> |e.value| >= n }

  function MinLen(d1: Series, d2: Series): nat { Min(|d1.data|, |d2.data|) }

  function TakeOpt(e: Option<Arr>, n: nat): Option<Arr> {
    if e.Some? then Some(Take(e.value, n)) else None
  }

  function MapOpt(e: Option<Arr>, f: Num -> Num): Option<Arr> {
    if e.Some? then Some(Map1(e.value, f)) else None
  }

  function Half(x: Num): Num { Times(Fin(0.5), x) }

  //////////////////////////////////////////////////////////////////////////
  // Add and subtract with a dataset operand (transformplugin.py:83-118)

  /// The error can be made symmetric: serr is present, or perr and nerr both
  /// are (getattr(d, 'perr', 0) finds the attribute set to None otherwise,
  /// and squaring None raises).
  predicate Symmetrisable(d: Series) {
    d.serr.Some? || (d.perr.Some? && d.nerr.Some? && |d.perr.value| == |d.nerr.value|)
  }

  /// serr**2, or 0.5*(perr**2 + nerr**2).
  function SquaredError(d: Series): (r: Arr)
    requires Symmetrisable(d)
    ensures d.serr.Some? ==> |r| == |d.serr.value|
    ensures d.serr.None? ==> |r| == |d.perr.value|
  {
    if d.serr.Some? then Map1(d.serr.value, Square)
    else Map1(Map2(Map1(d.perr.value, Square), Map1(d.nerr.value, Square), Plus), Half)
  }

  /// The shapes under which the source does not raise: in the both-have-errors
  /// case the two squared errors, cut to the shared length, must line up.
  predicate AddSubDefined(d1: Series, d2: Series) {
    HasErrors(d1) && HasErrors(d2) ==>
      Symmetrisable(d1) && Symmetrisable(d2) &&
      Min(|SquaredError(d1)|, MinLen(d1, d2)) == Min(|SquaredError(d2)|, MinLen(d1, d2))
  }

  function AddSub(d1: Series, d2: Series, sub: bool, root: real -> real): (r: Series)
    requires AddSubDefined(d1, d2)
  {
    var m := MinLen(d1, d2);
    var data := Map2(Take(d1.data, m), Take(d2.data, m), if sub then Minus else Plus);
    if HasErrors(d2) && !HasErrors(d1) then
      Series(data, TakeOpt(d2.serr, m), TakeOpt(d2.perr, m), TakeOpt(d2.nerr, m))
    else if HasErrors(d1) && HasErrors(d2) then
      var sum := Map2(Take(SquaredError(d1), m), Take(SquaredError(d2), m), Plus);
      Series(data, Some(Map1(sum, x => Sqrt(x, root))), None, None)
    else
      Series(data, d1.serr, d1.perr, d1.nerr)
  }

  /// The truncation law and the elementwise sum or difference.
  lemma AddSubData(d1: Series, d2: Series, sub: bool, root: real -> real)
    requires AddSubDefined(d1, d2)
    ensures var r := AddSub(d1, d2, sub, root);
      && |r.data| == Min(|d1.data|, |d2.data|)
      && forall i :: 0 <= i < |r.data| ==>
           r.data[i] == (if sub then Minus(d1.data[i], d2.data[i]) else Plus(d1.data[i], d2.data[i]))
  {
  }

  /// Which error arrays the result carries, in the three cases of the source.
  lemma AddSubErrors(d1: Series, d2: Series, sub: bool, root: real -> real)
    requires AddSubDefined(d1, d2)
    ensures var r := AddSub(d1, d2, sub, root); var m := MinLen(d1, d2);
      && (HasErrors(d2) && !HasErrors(d1) ==>
            r.serr == TakeOpt(d2.serr, m) && r.perr == TakeOpt(d2.perr, m) && r.nerr == TakeOpt(d2.nerr, m))
      && (!HasErrors(d2) ==> r.serr == d1.serr && r.perr == d1.perr && r.nerr == d1.nerr)
      && (HasErrors(d1) && HasErrors(d2) ==>
            r.serr.Some? && r.perr.None? && r.nerr.None? &&
            (Consistent(d1) && Consistent(d2) ==> |r.serr.value| == m))
  {
  }

  /// Adding and then subtracting the same dataset gives the data back, cut
  /// to the shared length, wherever both operands are finite.
  lemma {:induction false} AddThenSub(d1: Series, d2: Series, root: real -> real)
    requires AddSubDefined(d1, d2)
    requires forall i :: 0 <= i < |d1.data| ==> d1.data[i].Fin?
    requires forall i :: 0 <= i < |d2.data| ==> d2.data[i].Fin?
    ensures var a := AddSub(d1, d2, false, root);
      AddSubDefined(a, d2) ==> AddSub(a, d2, true, root).data == Take(d1.data, MinLen(d1, d2))
  {
    var a := AddSub(d1, d2, false, root);
    if AddSubDefined(a, d2) {
      var b := AddSub(a, d2, true, root);
      AddSubData(d1, d2, false, root);
      AddSubData(a, d2, true, root);
      forall i | 0 <= i < |b.data| ensures b.data[i] == d1.data[i] {
        assert a.data[i] == Fin(d1.data[i].v + d2.data[i].v);
      }
    }
  }

  //////////////////////////////////////////////////////////////////////////
  // Multiply and divide by a scalar (transformplugin.py:320-327, 459, 475-485)

  function Scale(d: Series, c: Num): (r: Series)
  {
    var f := x => Times(x, c);
    Series(Map1(d.data, f), MapOpt(d.serr, f), MapOpt(d.perr, f), MapOpt(d.nerr, f))
  }

  /// The same factor multiplies the data and every error array present; an
  /// absent error array stays absent; lengths do not change.
  lemma ScaleShape(d: Series, c: Num)
    ensures var r := Scale(d, c);
      && |r.data| == |d.data| && (forall i :: 0 <= i < |d.data| ==> r.data[i] == Times(d.data[i], c))
      && r.serr.Some? == d.serr.Some? && r.perr.Some? == d.perr.Some? && r.nerr.Some? == d.nerr.Some?
      && (d.serr.Some? ==> (|r.serr.value| == |d.serr.value| &&
            forall i :: 0 <= i < |d.serr.value| ==> r.serr.value[i] == Times(d.serr.value[i], c)))
      && (d.perr.Some? ==> (|r.perr.value| == |d.perr.value| &&
            forall i :: 0 <= i < |d.perr.value| ==> r.perr.value[i] == Times(d.perr.value[i], c)))
      && (d.nerr.Some? ==> (|r.nerr.value| == |d.nerr.value| &&
            forall i :: 0 <= i < |d.nerr.value| ==> r.nerr.value[i] == Times(d.nerr.value[i], c)))
  {
  }

  predicate AllFinite(s: Arr) { forall i :: 0 <= i < |s| ==> s[i].Fin? }

  predicate FiniteSeries(d: Series) {
    AllFinite(d.data) && (d.serr.Some? ==> AllFinite(d.serr.value)) &&
    (d.perr.Some? ==> AllFinite(d.perr.value)) && (d.nerr.Some? ==> AllFinite(d.nerr.value))
  }

  lemma ScaleBackArr(s: Arr, c: real)
    requires c != 0.0 && AllFinite(s)
    ensures Map1(Map1(s, x => Times(x, Fin(c))), x => Times(x, Divide(Fin(1.0), Fin(c)))) == s
  {
    var r := Map1(Map1(s, x => Times(x, Fin(c))), x => Times(x, Divide(Fin(1.0), Fin(c))));
    forall i | 0 <= i < |s| ensures r[i] == s[i] {
      assert s[i].v * c * (1.0 / c) == s[i].v;
    }
  }

  /// Dividing by a scalar undoes multiplying by it, for a non-zero factor
  /// and finite arrays.
  lemma ScaleThenDivide(d: Series, c: real)
    requires c != 0.0 && FiniteSeries(d)
    ensures Scale(Scale(d, Fin(c)), Divide(Fin(1.0), Fin(c))) == d
  {
    ScaleBackArr(d.data, c);
    if d.serr.Some? { ScaleBackArr(d.serr.value, c); }
    if d.perr.Some? { ScaleBackArr(d.perr.value, c); }
    if d.nerr.Some? { ScaleBackArr(d.nerr.value, c); }
  }

  //////////////////////////////////////////////////////////////////////////
  // Multiply and divide by a dataset (transformplugin.py:329-372, 401-448)

  /// The fractional squared error (err/data)**2 needs the error arrays to be
  /// as long as the data.
  predicate Fractional(d: Series) {
    (d.serr.Some? && |d.serr.value| == |d.data|) ||
    (d.serr.None? && d.perr.Some? && d.nerr.Some? &&
     |d.perr.value| == |d.data| && |d.nerr.value| == |d.data|)
  }

  function FracSquared(d: Series): (r: Arr)
    requires Fractional(d)
    ensures |r| == |d.data|
  {
    if d.serr.Some? then Map1(Map2(d.serr.value, d.data, Divide), Square)
    else Map2(SquaredError(d), Map1(d.data, Square), Divide)
  }

  /// sqrt(f1**2 + f2**2) over the shared length.
  function CombinedFraction(d1: Series, d2: Series, root: real -> real): (r: Arr)
    requires Fractional(d1) && Fractional(d2)
    ensures |r| == MinLen(d1, d2)
  {
    var m := MinLen(d1, d2);
    Map1(Map2(Take(FracSquared(d1), m), Take(FracSquared(d2), m), Plus), x => Sqrt(x, root))
  }

  predicate MulDivDefined(d1: Series, d2: Series) {
    (HasErrors(d2) && !HasErrors(d1) ==>
       AtLeast(d2.serr, MinLen(d1, d2)) && AtLeast(d2.perr, MinLen(d1, d2)) && AtLeast(d2.nerr, MinLen(d1, d2)))
    && (HasErrors(d1) && HasErrors(d2) ==> Fractional(d1) && Fractional(d2))
  }

  /// e[:m] * w for an error array e that is present.
  function ScaledBy(e: Option<Arr>, w: Arr): Option<Arr>
    requires AtLeast(e, |w|)
  {
    if e.Some? then Some(Map2(Take(e.value, |w|), w, Times)) else None
  }

  /// The multiplication as written.  The branch where only d1 has errors
  /// tests d2's arrays, which are all absent there, so d1's errors are kept
  /// as they were and are not cut to the new length.
  function Multiply(d1: Series, d2: Series, root: real -> real): (r: Series)
    requires MulDivDefined(d1, d2)
  {
    var m := MinLen(d1, d2);
    var data := Map2(Take(d1.data, m), Take(d2.data, m), Times);
    if HasErrors(d2) && !HasErrors(d1) then
      var av := Map1(Take(d1.data, m), Abs);
      Series(data, ScaledBy(d2.serr, av), ScaledBy(d2.perr, av), ScaledBy(d2.nerr, av))
    else if HasErrors(d1) && HasErrors(d2) then
      Series(data, Some(Map2(CombinedFraction(d1, d2, root), Map1(data, Abs), Times)), None, None)
    else
      Series(data, d1.serr, d1.perr, d1.nerr)
  }

  /// The division as written.  When only d2 has errors each of d2's arrays
  /// present overwrites serr in turn, so serr ends up from the last of
  /// serr, perr, nerr present and perr and nerr stay absent; when only d1
  /// has errors nothing is done to them, as in Multiply.
  function DivideBy(d1: Series, d2: Series, root: real -> real): (r: Series)
    requires MulDivDefined(d1, d2)
  {
    var m := MinLen(d1, d2);
    var ratio := Map2(Take(d1.data, m), Take(d2.data, m), Divide);
    if HasErrors(d2) && !HasErrors(d1) then
      var w := Map1(Map2(ratio, Take(d2.data, m), Divide), Abs);
      var last := if d2.nerr.Some? then d2.nerr else if d2.perr.Some? then d2.perr else d2.serr;
      Series(ratio, ScaledBy(last, w), d1.perr, d1.nerr)
    else if HasErrors(d1) && HasErrors(d2) then
      Series(ratio, Some(Map2(CombinedFraction(d1, d2, root), Map1(ratio, Abs), Times)), None, None)
    else
      Series(ratio, d1.serr, d1.perr, d1.nerr)
  }

  /// Truncation law of both operations, and the error shapes they leave.
  lemma MultiplyShape(d1: Series, d2: Series, root: real -> real)
    requires MulDivDefined(d1, d2)
    ensures var r := Multiply(d1, d2, root); var m := MinLen(d1, d2);
      && |r.data| == m
      && (forall i :: 0 <= i < m ==> r.data[i] == Times(d1.data[i], d2.data[i]))
      && (HasErrors(d2) && !HasErrors(d1) ==>
            r.serr.Some? == d2.serr.Some? && r.perr.Some? == d2.perr.Some? && r.nerr.Some? == d2.nerr.Some? &&
            (r.serr.Some? ==>
               |r.serr.value| == m &&
               forall i :: 0 <= i < m ==> r.serr.value[i] == Times(d2.serr.value[i], Abs(d1.data[i]))) &&
            (r.perr.Some? ==>
               |r.perr.value| == m &&
               forall i :: 0 <= i < m ==> r.perr.value[i] == Times(d2.perr.value[i], Abs(d1.data[i]))) &&
            (r.nerr.Some? ==>
               |r.nerr.value| == m &&
               forall i :: 0 <= i < m ==> r.nerr.value[i] == Times(d2.nerr.value[i], Abs(d1.data[i]))))
      && (HasErrors(d1) && HasErrors(d2) ==> r.serr.Some? && |r.serr.value| == m && r.perr.None? && r.nerr.None?)
  {
  }

  lemma DivideShape(d1: Series, d2: Series, root: real -> real)
    requires MulDivDefined(d1, d2)
    ensures var r := DivideBy(d1, d2, root); var m := MinLen(d1, d2);
      && |r.data| == m
      && (forall i :: 0 <= i < m ==> r.data[i] == Divide(d1.data[i], d2.data[i]))
      && (HasErrors(d2) && !HasErrors(d1) ==> r.serr.Some? && |r.serr.value| == m && r.perr.None? && r.nerr.None?)
      && (HasErrors(d1) && HasErrors(d2) ==> r.serr.Some? && |r.serr.value| == m && r.perr.None? && r.nerr.None?)
  {
  }

  /// The d1-only branch of both operations leaves d1's errors as they were,
  /// so an error array as long as the old data becomes longer than the new
  /// data whenever d2 is the shorter operand.
  lemma {:induction false} OnlyFirstErrorsKept(d1: Series, d2: Series, root: real -> real)
    requires MulDivDefined(d1, d2)
    requires HasErrors(d1) && !HasErrors(d2) && Consistent(d1) && |d2.data| < |d1.data|
    ensures var r := Multiply(d1, d2, root);
      r.serr == d1.serr && r.perr == d1.perr && r.nerr == d1.nerr && !Consistent(r)
    ensures var r := DivideBy(d1, d2, root);
      r.serr == d1.serr && r.perr == d1.perr && r.nerr == d1.nerr && !Consistent(r)
  {
    var r := Multiply(d1, d2, root);
    assert |r.data| == |d2.data|;
    var q := DivideBy(d1, d2, root);
    assert |q.data| == |d2.data|;
  }

  //////////////////////////////////////////////////////////////////////////
  // Reductions over the finite values (transformplugin.py:219-223, 475-485, 576-583)

  /// `ds.data -= fn(findata)` when some value is finite.
  function SubtractReduction(d: Series, fn: seq<real> -> Num): (r: Series)
  {
    var fin := FiniteValues(d.data);
    if |fin| > 0 then d.(data := Map1(d.data, x => Minus(x, fn(fin)))) else d
  }

  /// `f = 1./fn(findata)` (or 1 when nothing is finite) multiplies data and errors.
  function DivideByReduction(d: Series, fn: seq<real> -> Num): (r: Series)
  {
    var fin := FiniteValues(d.data);
    Scale(d, if |fin| > 0 then Divide(Fin(1.0), fn(fin)) else Fin(1.0))
  }

  /// Smallest and largest of a non-empty sequence of reals (numpy's min and max).
  function Least(s: seq<real>): (m: real)
    requires |s| > 0
    ensures m in s && forall x :: x in s ==> m <= x
  {
    if |s| == 1 then s[0]
    else
      var rest := Least(s[1..]);
      assert forall x :: x in s ==> x == s[0] || x in s[1..];
      if s[0] <= rest then s[0] else rest
  }

  function Greatest(s: seq<real>): (m: real)
    requires |s| > 0
    ensures m in s && forall x :: x in s ==> x <= m
  {
    if |s| == 1 then s[0]
    else
      var rest := Greatest(s[1..]);
      assert forall x :: x in s ==> x == s[0] || x in s[1..];
      if s[0] >= rest then s[0] else rest
  }

  /// `(data - minv) * (1./(maxv - minv))` over the finite values' range.
  /// (x - lo) * (1. / (hi - lo)), as a function to map over an array.
  function Normalizer(lo: real, hi: real): Num -> Num {
    x => Times(Minus(x, Fin(lo)), Divide(Fin(1.0), Fin(hi - lo)))
  }

  function NormRange(d: Series): (r: Series)
  {
    var fin := FiniteValues(d.data);
    if |fin| > 0 then
      var lo := Least(fin);
      var hi := Greatest(fin);
      d.(data := Map1(d.data, Normalizer(lo, hi)))
    else d
  }

  /// With no finite value the three reductions leave the dataset as it was.
  lemma ReductionsWithoutFiniteValues(d: Series, fn: seq<real> -> Num)
    requires !HasFinite(d.data)
    ensures SubtractReduction(d, fn) == d
    ensures DivideByReduction(d, fn) == d
    ensures NormRange(d) == d
  {
    FiniteValuesEmpty(d.data);
    var one := x => Times(x, Fin(1.0));
    forall e: Arr ensures Map1(e, one) == e {
      forall i | 0 <= i < |e| ensures Map1(e, one)[i] == e[i] { TimesOne(e[i]); }
    }
  }

  lemma FiniteValuesMember(s: Arr, i: int)
    requires 0 <= i < |s| && s[i].Fin?
    ensures s[i].v in FiniteValues(s)
  {
    if i > 0 { FiniteValuesMember(s[1..], i - 1); }
  }

  lemma UnitInterval(x: real, lo: real, hi: real)
    requires lo <= x <= hi && lo < hi
    ensures Times(Minus(Fin(x), Fin(lo)), Divide(Fin(1.0), Fin(hi - lo))).Fin?
    ensures var y := Times(Minus(Fin(x), Fin(lo)), Divide(Fin(1.0), Fin(hi - lo))).v; 0.0 <= y <= 1.0
  {
    var w := hi - lo;
    assert Times(Minus(Fin(x), Fin(lo)), Divide(Fin(1.0), Fin(w))) == Fin((x - lo) * (1.0 / w));
    assert (x - lo) * (1.0 / w) == (x - lo) / w;
    assert x - lo <= w;
  }

  lemma NormRangeAt(d: Series, i: int)
    requires |FiniteValues(d.data)| > 0
    requires Least(FiniteValues(d.data)) < Greatest(FiniteValues(d.data))
    requires 0 <= i < |d.data| && d.data[i].Fin?
    ensures NormRange(d).data[i].Fin? && 0.0 <= NormRange(d).data[i].v <= 1.0
  {
    var fin := FiniteValues(d.data);
    FiniteValuesMember(d.data, i);
    UnitInterval(d.data[i].v, Least(fin), Greatest(fin));
  }

  /// When the finite values are not all equal, NormRange maps every finite
  /// value into [0, 1] and leaves the error arrays alone.
  lemma NormRangeUnit(d: Series)
    requires |FiniteValues(d.data)| > 0
    requires Least(FiniteValues(d.data)) < Greatest(FiniteValues(d.data))
    ensures var r := NormRange(d);
      && r.serr == d.serr && r.perr == d.perr && r.nerr == d.nerr && |r.data| == |d.data|
      && forall i :: 0 <= i < |d.data| && d.data[i].Fin? ==>
           r.data[i].Fin? && 0.0 <= r.data[i].v <= 1.0
  {
    forall i | 0 <= i < |d.data| && d.data[i].Fin?
      ensures NormRange(d).data[i].Fin? && 0.0 <= NormRange(d).data[i].v <= 1.0
    {
      NormRangeAt(d, i);
    }
  }

  //////////////////////////////////////////////////////////////////////////
  // Cumulative sum (transformplugin.py:146-163)

  /// A finite value, or 0 where numpy's isfinite fails (`v[~isfinite(v)] = 0`).
  function Zeroed(x: Num): real { if x.Fin? then x.v else 0.0 }

  function Sum(s: Arr): real {
    if s == [] then 0.0 else Zeroed(s[0]) + Sum(s[1..])
  }

  /// numpy.cumsum after zeroing, from a running total `acc`.
  function Running(acc: real, s: Arr): (r: seq<real>)
    ensures |r| == |s|
    decreases s
  {
    if s == [] then [] else [acc + Zeroed(s[0])] + Running(acc + Zeroed(s[0]), s[1..])
  }

  function Reverse<T>(s: seq<T>): (r: seq<T>)
    ensures |r| == |s|
  {
    if s == [] then [] else Reverse(s[1..]) + [s[0]]
  }

  function Finites(s: seq<real>): (r: Arr)
    ensures |r| == |s|
  {
    seq(|s|, i requires 0 <= i < |s| => Fin(s[i]))
  }

  /// calccum: the cumulative sum, taken from the far end when `reverse`.
  function CalcCum(v: Arr, reverse: bool): (r: Arr)
    ensures |r| == |v|
  {
    if reverse then Reverse(Finites(Running(0.0, Reverse(v)))) else Finites(Running(0.0, v))
  }

  /// sqrt(calccum(e**2)): the errors added in quadrature along the sum.
  function Quadrature(e: Arr, reverse: bool, root: real -> real): (r: Arr)
    ensures |r| == |e|
  {
    Map1(CalcCum(Map1(e, Square), reverse), x => Sqrt(x, root))
  }

  function CumSum(d: Series, reverse: bool, root: real -> real): (r: Series)
  {
    Series(CalcCum(d.data, reverse),
           if d.serr.Some? then Some(Quadrature(d.serr.value, reverse, root)) else None,
           if d.perr.Some? then Some(Quadrature(d.perr.value, reverse, root)) else None,
           if d.nerr.Some? then Some(Map1(Quadrature(d.nerr.value, reverse, root), Neg)) else None)
  }

  lemma {:induction false} SumAppend(s: Arr, x: Num)
    ensures Sum(s + [x]) == Sum(s) + Zeroed(x)
  {
    if s != [] {
      assert (s + [x])[1..] == s[1..] + [x];
      SumAppend(s[1..], x);
    }
  }

  lemma {:induction false} RunningAt(acc: real, s: Arr, i: int)
    requires 0 <= i < |s|
    ensures Running(acc, s)[i] == acc + Sum(s[..i + 1])
    decreases s
  {
    if i > 0 {
      RunningAt(acc + Zeroed(s[0]), s[1..], i - 1);
      assert s[1..][..i] == s[..i + 1][1..];
    }
  }

  lemma {:induction false} ReverseAt<T>(s: seq<T>, i: int)
    requires 0 <= i < |s|
    ensures Reverse(s)[i] == s[|s| - 1 - i]
  {
    if i < |s| - 1 { ReverseAt(s[1..], i); }
  }

  lemma {:induction false} SumReverse(s: Arr)
    ensures Sum(Reverse(s)) == Sum(s)
  {
    if s != [] {
      SumReverse(s[1..]);
      SumAppend(Reverse(s[1..]), s[0]);
    }
  }

  /// The forward sum at i covers the prefix s[..i+1], the reversed one the
  /// suffix s[i..]; non-finite entries count as 0 and every entry is finite.
  lemma CalcCumAt(v: Arr, reverse: bool, i: int)
    requires 0 <= i < |v|
    ensures CalcCum(v, reverse)[i] == Fin(if reverse then Sum(v[i..]) else Sum(v[..i + 1]))
  {
    if reverse {
      var n := |v|;
      var rv := Reverse(v);
      ReverseAt(Finites(Running(0.0, rv)), i);
      RunningAt(0.0, rv, n - 1 - i);
      assert rv[..n - i] == Reverse(v[i..]) by {
        forall k | 0 <= k < n - i ensures rv[..n - i][k] == Reverse(v[i..])[k] {
          ReverseAt(v, k);
          ReverseAt(v[i..], k);
        }
      }
      SumReverse(v[i..]);
    } else {
      RunningAt(0.0, v, i);
    }
  }

  lemma {:induction false} RunningNonNegative(acc: real, s: Arr)
    requires acc >= 0.0
    requires forall k :: 0 <= k < |s| ==> Zeroed(s[k]) >= 0.0
    ensures forall k :: 0 <= k < |s| ==> Running(acc, s)[k] >= 0.0
    decreases s
  {
    if s != [] {
      assert Zeroed(s[0]) >= 0.0;
      RunningNonNegative(acc + Zeroed(s[0]), s[1..]);
      forall k | 1 <= k < |s| ensures Running(acc, s)[k] >= 0.0 {
        assert Running(acc, s)[k] == Running(acc + Zeroed(s[0]), s[1..])[k - 1];
        assert Zeroed(s[1..][k - 1]) == Zeroed(s[k]);
      }
    }
  }

  lemma SquareNonNegative(x: Num)
    ensures Zeroed(Square(x)) >= 0.0
  {
    if x.Fin? {
      var r := x.v;
      if r < 0.0 {
        var q := -r;
        assert r * r == q * q;
        assert q * q >= 0.0;
      } else {
        assert r * r >= 0.0;
      }
    }
  }

  lemma SquaresNonNegative(e: Arr)
    ensures forall k :: 0 <= k < |e| ==> Zeroed(Map1(e, Square)[k]) >= 0.0
  {
    forall k | 0 <= k < |e| ensures Zeroed(Map1(e, Square)[k]) >= 0.0 {
      SquareNonNegative(e[k]);
    }
  }

  /// The cumulative sum keeps every length and sums prefixes (suffixes
  /// when reversed), with non-finite values counted as 0.
  lemma CumSumData(d: Series, reverse: bool, root: real -> real)
    ensures var r := CumSum(d, reverse, root);
      && |r.data| == |d.data|
      && (forall i :: 0 <= i < |d.data| ==>
            r.data[i] == Fin(if reverse then Sum(d.data[i..]) else Sum(d.data[..i + 1])))
      && r.serr.Some? == d.serr.Some? && r.perr.Some? == d.perr.Some? && r.nerr.Some? == d.nerr.Some?
      && (d.serr.Some? ==> |r.serr.value| == |d.serr.value|)
      && (d.perr.Some? ==> |r.perr.value| == |d.perr.value|)
      && (d.nerr.Some? ==> |r.nerr.value| == |d.nerr.value|)
  {
    forall i | 0 <= i < |d.data|
      ensures CalcCum(d.data, reverse)[i] == Fin(if reverse then Sum(d.data[i..]) else Sum(d.data[..i + 1]))
    {
      CalcCumAt(d.data, reverse, i);
    }
  }

  lemma AccumulatedSquares(e: Arr, reverse: bool, i: int)
    requires 0 <= i < |e|
    ensures CalcCum(Map1(e, Square), reverse)[i].Fin? && CalcCum(Map1(e, Square), reverse)[i].v >= 0.0
  {
    var sq := Map1(e, Square);
    SquaresNonNegative(e);
    CalcCumAt(sq, reverse, i);
    if reverse {
      SumNonNegative(sq[i..]);
    } else {
      SumNonNegative(sq[..i + 1]);
    }
  }

  /// nerr, when present, is non-positive after the cumulative sum.
  lemma CumSumNegativeError(d: Series, reverse: bool, root: real -> real)
    requires NonNegRoot(root) && d.nerr.Some?
    ensures var r := CumSum(d, reverse, root);
      r.nerr.Some? && forall i :: 0 <= i < |d.nerr.value| ==> r.nerr.value[i].Fin? && r.nerr.value[i].v <= 0.0
  {
    var r := CumSum(d, reverse, root);
    var acc := CalcCum(Map1(d.nerr.value, Square), reverse);
    forall i | 0 <= i < |d.nerr.value| ensures r.nerr.value[i].Fin? && r.nerr.value[i].v <= 0.0 {
      AccumulatedSquares(d.nerr.value, reverse, i);
      assert r.nerr.value[i] == Neg(Quadrature(d.nerr.value, reverse, root)[i]);
      assert Quadrature(d.nerr.value, reverse, root)[i] == Sqrt(acc[i], root);
    }
  }

  lemma {:induction false} SumNonNegative(s: Arr)
    requires forall k :: 0 <= k < |s| ==> Zeroed(s[k]) >= 0.0
    ensures Sum(s) >= 0.0
  {
    if s != [] {
      assert forall k :: 0 <= k < |s[1..]| ==> Zeroed(s[1..][k]) >= 0.0 by {
        forall k | 0 <= k < |s[1..]| ensures Zeroed(s[1..][k]) >= 0.0 { assert s[1..][k] == s[k + 1]; }
      }
      SumNonNegative(s[1..]);
    }
  }

  //////////////////////////////////////////////////////////////////////////
  // Functions applied at data and at data +/- error (transformplugin.py:601-616)

  /// The arrays may only be combined elementwise when they have one shape.
  function ApplyFn(d: Series, f: Num -> Num): (r: Series)
    requires Consistent(d)
  {
    var prange := if d.perr.Some? then Some(Map2(d.data, d.perr.value, Plus))
                  else if d.serr.Some? then Some(Map2(d.data, d.serr.value, Plus)) else None;
    var nrange := if d.nerr.Some? then Some(Map2(d.data, d.nerr.value, Plus))
                  else if d.serr.Some? then Some(Map2(d.data, d.serr.value, Minus)) else None;
    var data := Map1(d.data, f);
    Series(data,
           None,
           if prange.Some? then Some(Map2(Map1(prange.value, f), data, Minus)) else d.perr,
           if nrange.Some? then Some(Map2(Map1(nrange.value, f), data, Minus)) else d.nerr)
  }

  /// serr is cleared, data becomes f(data), perr (nerr) is present exactly
  /// when serr or perr (nerr) was, and each bound present is f at the old
  /// bound minus f at the old data.
  lemma ApplyFnShape(d: Series, f: Num -> Num)
    requires Consistent(d)
    ensures var r := ApplyFn(d, f);
      && r.serr.None? && Consistent(r)
      && r.data == Map1(d.data, f)
      && r.perr.Some? == (d.serr.Some? || d.perr.Some?)
      && r.nerr.Some? == (d.serr.Some? || d.nerr.Some?)
      && (r.perr.Some? ==> forall i :: 0 <= i < |d.data| ==>
            r.perr.value[i] == Minus(f(Plus(d.data[i], if d.perr.Some? then d.perr.value[i] else d.serr.value[i])), f(d.data[i])))
      && (r.nerr.Some? ==> forall i :: 0 <= i < |d.data| ==>
            r.nerr.value[i] == Minus(f(if d.nerr.Some? then Plus(d.data[i], d.nerr.value[i]) else Minus(d.data[i], d.serr.value[i])), f(d.data[i])))
  {
  }

  /// Applying the identity to finite data with a symmetric error turns it
  /// into the asymmetric pair (+serr, -serr).
  lemma ApplyIdentitySplitsError(d: Series)
    requires Consistent(d) && d.serr.Some? && d.perr.None? && d.nerr.None?
    requires AllFinite(d.data) && AllFinite(d.serr.value)
    ensures var r := ApplyFn(d, x => x);
      r.data == d.data && r.serr.None? && r.perr == d.serr && r.nerr == Some(Map1(d.serr.value, Neg))
  {
    var r := ApplyFn(d, x => x);
    var e := d.serr.value;
    forall i | 0 <= i < |e| ensures r.perr.value[i] == e[i] && r.nerr.value[i] == Neg(e[i]) {
      assert Minus(Plus(d.data[i], e[i]), d.data[i]) == Fin(d.data[i].v + e[i].v - d.data[i].v);
      assert Minus(Minus(d.data[i], e[i]), d.data[i]) == Fin(d.data[i].v - e[i].v - d.data[i].v);
    }
    assert r.perr.value == e;
    assert r.nerr.value == Map1(e, Neg);
  }

  //////////////////////////////////////////////////////////////////////////
  // Clip (transformplugin.py:804-819)

  predicate ClipDefined(d: Series) {
    if d.serr.Some? then |d.serr.value| == |d.data|
    else SameLength(d.perr, |d.data|) && SameLength(d.nerr, |d.data|)
  }

  /// np.clip on one value, as a function to map over an array.
  function Clipper(lo: Num, hi: Num): Num -> Num {
    x => Clip(x, lo, hi)
  }

  /// The upper and lower ends of the error bars that _clip_dataset clips.
  function ClipRanges(d: Series): (Option<Arr>, Option<Arr>)
    requires ClipDefined(d)
  {
    if d.serr.Some? then (Some(Map2(d.data, d.serr.value, Plus)), Some(Map2(d.data, d.serr.value, Minus)))
    else (if d.perr.Some? then Some(Map2(d.perr.value, d.data, Plus)) else None,
          if d.nerr.Some? then Some(Map2(d.nerr.value, d.data, Plus)) else None)
  }

  function ClipSeries(d: Series, lo: Num, hi: Num): (r: Series)
    requires ClipDefined(d)
  {
    var (prange, nrange) := ClipRanges(d);
    var c := Clipper(lo, hi);
    var data := Map1(d.data, c);
    Series(data,
           None,
           if prange.Some? then Some(Map2(Map1(prange.value, c), data, Minus)) else d.perr,
           if nrange.Some? then Some(Map2(Map1(nrange.value, c), data, Minus)) else d.nerr)
  }

  /// Every value that is not NaN ends within [lo, hi], values already there
  /// are unchanged, serr is cleared, and perr (nerr) is present exactly when
  /// serr or perr (nerr) was.
  lemma ClipShape(d: Series, lo: Num, hi: Num)
    requires ClipDefined(d) && !lo.NaN? && !hi.NaN? && LessEq(lo, hi)
    ensures var r := ClipSeries(d, lo, hi);
      && |r.data| == |d.data| && r.serr.None?
      && r.perr.Some? == (d.serr.Some? || d.perr.Some?)
      && r.nerr.Some? == (d.serr.Some? || d.nerr.Some?)
      && (forall i :: 0 <= i < |d.data| && !d.data[i].NaN? ==>
            !r.data[i].NaN? && LessEq(lo, r.data[i]) && LessEq(r.data[i], hi))
      && (forall i :: 0 <= i < |d.data| && !d.data[i].NaN? && LessEq(lo, d.data[i]) && LessEq(d.data[i], hi) ==>
            r.data[i] == d.data[i])
  {
  }

  /// Clipping twice to the same range is clipping once.
  lemma ClipIdempotent(d: Series, lo: Num, hi: Num)
    requires ClipDefined(d) && !lo.NaN? && !hi.NaN? && LessEq(lo, hi)
    ensures var r := ClipSeries(d, lo, hi);
      ClipDefined(r) && ClipSeries(r, lo, hi).data == r.data
  {
    var r := ClipSeries(d, lo, hi);
    ClipShape(d, lo, hi);
    ClipShape(r, lo, hi);
  }

  //////////////////////////////////////////////////////////////////////////
  // Geometry (transformplugin.py:854-873)

  /// The two rotated coordinate arrays, given cos and sin of the angle:
  /// cos*(x-cx) - sin*(y-cy) + cx and sin*(x-cx) + cos*(y-cy) + cy.
  function Rotated(x: Arr, y: Arr, cosA: Num, sinA: Num, cx: Num, cy: Num): (r: (Arr, Arr))
    requires |x| == |y|
    ensures |r.0| == |x| && |r.1| == |x|
  {
    (seq(|x|, i requires 0 <= i < |x| =>
       Plus(Minus(Times(cosA, Minus(x[i], cx)), Times(sinA, Minus(y[i], cy))), cx)),
     seq(|x|, i requires 0 <= i < |x| =>
       Plus(Plus(Times(sinA, Minus(x[i], cx)), Times(cosA, Minus(y[i], cy))), cy)))
  }

  lemma TimesOneLeft(x: real)
    ensures Times(Fin(1.0), Fin(x)) == Fin(x)
  {
    assert 1.0 * x == x;
  }

  lemma TimesZeroLeft(x: real)
    ensures Times(Fin(0.0), Fin(x)) == Fin(0.0)
  {
    assert 0.0 * x == 0.0;
  }

  lemma RotateByZeroAt(a: real, b: real, cx: real, cy: real)
    ensures Plus(Minus(Times(Fin(1.0), Minus(Fin(a), Fin(cx))), Times(Fin(0.0), Minus(Fin(b), Fin(cy)))), Fin(cx)) == Fin(a)
    ensures Plus(Plus(Times(Fin(0.0), Minus(Fin(a), Fin(cx))), Times(Fin(1.0), Minus(Fin(b), Fin(cy)))), Fin(cy)) == Fin(b)
  {
    var dx, dy := a - cx, b - cy;
    assert Minus(Fin(a), Fin(cx)) == Fin(dx);
    assert Minus(Fin(b), Fin(cy)) == Fin(dy);
    TimesOneLeft(dx);
    TimesOneLeft(dy);
    TimesZeroLeft(dx);
    TimesZeroLeft(dy);
  }

  /// A rotation by angle zero (cos 1, sin 0) leaves finite coordinates in place.
  lemma RotateByZero(x: Arr, y: Arr, cx: real, cy: real)
    requires |x| == |y| && AllFinite(x) && AllFinite(y)
    ensures Rotated(x, y, Fin(1.0), Fin(0.0), Fin(cx), Fin(cy)) == (x, y)
  {
    var r := Rotated(x, y, Fin(1.0), Fin(0.0), Fin(cx), Fin(cy));
    forall i | 0 <= i < |x| ensures r.0[i] == x[i] && r.1[i] == y[i] {
      RotateByZeroAt(x[i].v, y[i].v, cx, cy);
    }
    assert r.0 == x;
    assert r.1 == y;
  }

  function Shift(s: Arr, c: Num): (r: Arr) { Map1(s, a => Plus(a, c)) }

  //////////////////////////////////////////////////////////////////////////
  // Thin and IndexRange (transformplugin.py:883-889, 899-905)

  function SliceOpt(e: Option<Arr>, start: Option<int>, stop: Option<int>, step: Option<int>): Option<Arr>
    requires step != Some(0)
  {
    if e.Some? then Some(PySlice.Slice(e.value, start, stop, step)) else None
  }

  /// The same slice applied to the data and to every error array present.
  function SliceSeries(d: Series, start: Option<int>, stop: Option<int>, step: Option<int>): (r: Series)
    requires step != Some(0)
  {
    Series(PySlice.Slice(d.data, start, stop, step), SliceOpt(d.serr, start, stop, step),
           SliceOpt(d.perr, start, stop, step), SliceOpt(d.nerr, start, stop, step))
  }

  /// The slice applied `k` times: a dataset that sits in k slots is sliced k times.
  function SliceTimes(d: Series, k: nat, start: Option<int>, stop: Option<int>, step: Option<int>): Series
    requires step != Some(0)
  {
    if k == 0 then d else SliceSeries(SliceTimes(d, k - 1, start, stop, step), start, stop, step)
  }

  /// Slicing keeps every error array as long as the data, however many
  /// times the slice is applied.
  lemma {:induction false} SliceTimesConsistent(d: Series, k: nat, start: Option<int>, stop: Option<int>, step: Option<int>)
    requires step != Some(0) && Consistent(d)
    ensures Consistent(SliceTimes(d, k, start, stop, step))
  {
    if k > 0 {
      SliceTimesConsistent(d, k - 1, start, stop, step);
      var p := SliceTimes(d, k - 1, start, stop, step);
      if p.serr.Some? { PySlice.SliceSameLength(p.serr.value, p.data, start, stop, step); }
      if p.perr.Some? { PySlice.SliceSameLength(p.perr.value, p.data, start, stop, step); }
      if p.nerr.Some? { PySlice.SliceSameLength(p.nerr.value, p.data, start, stop, step); }
    }
  }
}
