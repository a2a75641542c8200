/// The dataset transforms of the plugin: each rewrites the fields of one or
/// more datasets in place.  Every method is proved to leave behind the value
/// that module DatasetValues gives for the transform.
module TransformPlugin {
  import opened Base
  import opened Numeric
  import opened DatasetValues
  import PySlice

  /// Dataset1D as the transforms see it: the data and the three optional
  /// error arrays, all replaced or rewritten in place.
  class Dataset {
    var data: Arr
    var serr: Option<Arr>
    var perr: Option<Arr>
    var nerr: Option<Arr>

    constructor (data: Arr, serr: Option<Arr>, perr: Option<Arr>, nerr: Option<Arr>)
      ensures Value() == Series(data, serr, perr, nerr)
    {
      this.data, this.serr, this.perr, this.nerr := data, serr, perr, nerr;
    }

    function Value(): Series
      reads this
    {
      Series(data, serr, perr, nerr)
    }

    predicate HasErrors()
      reads this
    {
      serr.Some? || perr.Some? || nerr.Some?
    }
  }

  //////////////////////////////////////////////////////////////////////////
  // Dataset role codes (transformplugin.py:50-64)

  /// The `outds` argument: a string, or any other Python value.
  datatype CodeArg = Str(s: string) | NotAString

  /// unicode.lower() in Python 2.7, one character at a time (the simple case
  /// mapping): A-Z, U+0130 (capital I with dot, to 'i') and U+212A (the Kelvin
  /// sign, to 'k') are the characters whose lower case is an ASCII letter.
  /// Every other character is left as it is; its lower case is never an
  /// ASCII letter, so it can never complete a role code either way.  Under
  /// Python 3, which the module's `__future__` imports also allow, str.lower()
  /// uses the full mapping and turns U+0130 into two characters, so a code
  /// spelled with it is not recognised there.
  function LowerChar(c: char): char {
    if 'A' <= c <= 'Z' then (c as int + 32) as char
    else if c == '\U{0130}' then 'i'
    else if c == '\U{212A}' then 'k'
    else c
  }

  function UpperChar(c: char): char {
    if 'a' <= c <= 'z' then (c as int - 32) as char else c
  }

  /// str.lower(), character by character.
  function Lower(s: string): (r: string)
    ensures |r| == |s|
  {
    if s == [] then [] else [LowerChar(s[0])] + Lower(s[1..])
  }

  /// Capitals for a-z: not something the source calls, only a way of
  /// spelling a code differently in the case-insensitivity lemmas below.
  function Upper(s: string): (r: string)
    ensures |r| == |s|
  {
    if s == [] then [] else [UpperChar(s[0])] + Upper(s[1..])
  }

  /// The dictionary literal of dsCodeToIdx.
  const Codes: map<string, nat> :=
    map["x" := 0, "y" := 1, "l" := 2, "label" := 2, "s" := 3, "size" := 3, "c" := 4, "color" := 4]

  /// dsCodeToIdx: None stands for the ValueError raised for an unknown code
  /// (KeyError) or for an argument that is not a string (AttributeError).
  function DsCodeToIdx(code: CodeArg): (r: Option<nat>)
    ensures r.Some? <==> code.Str? && Lower(code.s) in Codes
    ensures r.Some? ==> r.value == Codes[Lower(code.s)] && r.value < 5
  {
    if code.NotAString? then None
    else
      var c := Lower(code.s);
      if c == "x" then Some(0)
      else if c == "y" then Some(1)
      else if c == "l" || c == "label" then Some(2)
      else if c == "s" || c == "size" then Some(3)
      else if c == "c" || c == "color" then Some(4)
      else None
  }

  lemma {:induction false} LowerOfUpper(s: string)
    ensures Lower(Upper(s)) == Lower(s)
  {
    if s != [] {
      LowerOfUpper(s[1..]);
    }
  }

  lemma {:induction false} LowerOfLower(s: string)
    ensures Lower(Lower(s)) == Lower(s)
  {
    if s != [] {
      LowerOfLower(s[1..]);
    }
  }

  /// Role codes are case-insensitive: any spelling resolves as its lower case.
  lemma AnyCase(s: string)
    ensures DsCodeToIdx(Str(s)) == DsCodeToIdx(Str(Lower(s)))
  {
    LowerOfLower(s);
  }

  /// In particular the all-capitals spelling resolves as the code does.
  lemma DsCodeCaseInsensitive(s: string)
    ensures DsCodeToIdx(Str(Upper(s))) == DsCodeToIdx(Str(s))
  {
    LowerOfUpper(s);
  }

  /// Python 2.7 lowers U+0130 to 'i', so "s\u0130ze" names the size slot.
  lemma DottedCapitalI()
    ensures DsCodeToIdx(Str("s\U{0130}ze")) == Some(3)
  {
    assert Lower("s\U{0130}ze") == "size";
  }

  //////////////////////////////////////////////////////////////////////////
  // The slot array and the dataset a closure works on

  /// The generic closures take a role code; the X and Y variants are bound
  /// to slot 0 or 1 (either through the code 'x'/'y' or by indexing dss).
  datatype Target = Named(code: CodeArg) | X | Y

  function Resolve(t: Target): (r: Option<nat>)
    ensures r.Some? ==> r.value < 5
  {
    match t
    case Named(c) => DsCodeToIdx(c)
    case X => Some(0)
    case Y => Some(1)
  }

  /// The X and Y variants address the same slot as the generic closure
  /// given the code 'x' or 'y', in either case.
  lemma WrappersAgree()
    ensures Resolve(X) == Resolve(Named(Str("x"))) == Resolve(Named(Str("X")))
    ensures Resolve(Y) == Resolve(Named(Str("y"))) == Resolve(Named(Str("Y")))
  {
    assert Lower("x") == Lower("X") == "x";
    assert Lower("y") == Lower("Y") == "y";
  }

  /// Why a transform call did not run to the end.
  datatype Status = Done | UnknownCode | NoDataset | DivisionByZero | ZeroStep

  function Slots(dss: seq<Dataset?>): set<Dataset> {
    set d: Dataset | d in dss
  }

  /// ValueError for an unknown code, AttributeError for an empty slot.
  function Locate(dss: seq<Dataset?>, t: Target): Status
    requires |dss| == 5
  {
    match Resolve(t)
    case None => UnknownCode
    case Some(i) => if dss[i] == null then NoDataset else Done
  }

  function TargetOf(dss: seq<Dataset?>, t: Target): (d: Dataset)
    requires |dss| == 5 && Locate(dss, t) == Done
    ensures d in Slots(dss)
  {
    dss[Resolve(t).value]
  }

  /// The dataset operand of Add, Sub, SubFrom, Mul and Div: a dataset or a scalar.
  datatype Operand = Scalar(x: Num) | Data(ds: Dataset)

  //////////////////////////////////////////////////////////////////////////
  // The helpers that rewrite one dataset

  /// _addSubDataset.  d1 may be d2 itself: every field of d2 that the
  /// source reads after writing d1.data is one it has not written yet.
  method AddSubDataset(d1: Dataset, d2: Dataset, sub: bool, root: real -> real)
    requires AddSubDefined(d1.Value(), d2.Value())
    modifies d1
    ensures d1.Value() == AddSub(old(d1.Value()), old(d2.Value()), sub, root)
  {
    var v1, v2 := d1.Value(), d2.Value();
    var minlen := Min(|v1.data|, |v2.data|);
    d1.data := Map2(Take(v1.data, minlen), Take(v2.data, minlen), if sub then Minus else Plus);
    var d1err, d2err := HasErrors(v1), HasErrors(v2);
    if d2err && !d1err {
      if v2.serr.Some? { d1.serr := Some(Take(v2.serr.value, minlen)); }
      if v2.perr.Some? { d1.perr := Some(Take(v2.perr.value, minlen)); }
      if v2.nerr.Some? { d1.nerr := Some(Take(v2.nerr.value, minlen)); }
    } else if d1err && d2err {
      var d1err2 := SquaredError(v1);
      var d2err2 := SquaredError(v2);
      d1.serr := Some(Map1(Map2(Take(d1err2, minlen), Take(d2err2, minlen), Plus), x => Sqrt(x, root)));
      d1.perr, d1.nerr := None, None;
    }
  }

  /// _cumsum: the data and each error array are rewritten in place.
  method CumSumDataset(ds: Dataset, reverse: bool, root: real -> real)
    modifies ds
    ensures ds.Value() == CumSum(old(ds.Value()), reverse, root)
  {
    ds.data := CalcCum(ds.data, reverse);
    if ds.serr.Some? { ds.serr := Some(Quadrature(ds.serr.value, reverse, root)); }
    if ds.perr.Some? { ds.perr := Some(Quadrature(ds.perr.value, reverse, root)); }
    if ds.nerr.Some? { ds.nerr := Some(Map1(Quadrature(ds.nerr.value, reverse, root), Neg)); }
  }

  /// _subfn: subtract a statistic of the finite values, if there are any.
  method SubFn(ds: Dataset, fn: seq<real> -> Num)
    modifies ds
    ensures ds.Value() == SubtractReduction(old(ds.Value()), fn)
  {
    var findata := FiniteValues(ds.data);
    if |findata| > 0 {
      ds.data := Map1(ds.data, x => Minus(x, fn(findata)));
    }
  }

  /// _multiplyDatasetScalar.
  method MultiplyDatasetScalar(ds: Dataset, val: Num)
    modifies ds
    ensures ds.Value() == Scale(old(ds.Value()), val)
  {
    ds.data := Map1(ds.data, x => Times(x, val));
    if ds.serr.Some? { ds.serr := Some(Map1(ds.serr.value, x => Times(x, val))); }
    if ds.perr.Some? { ds.perr := Some(Map1(ds.perr.value, x => Times(x, val))); }
    if ds.nerr.Some? { ds.nerr := Some(Map1(ds.nerr.value, x => Times(x, val))); }
  }

  /// _multiplyDatasetDataset, with the d1-only branch doing nothing as written.
  method MultiplyDatasetDataset(d1: Dataset, d2: Dataset, root: real -> real)
    requires MulDivDefined(d1.Value(), d2.Value())
    modifies d1
    ensures d1.Value() == Multiply(old(d1.Value()), old(d2.Value()), root)
  {
    var v1, v2 := d1.Value(), d2.Value();
    var minlen := Min(|v1.data|, |v2.data|);
    var d1err, d2err := HasErrors(v1), HasErrors(v2);
    if d2err && !d1err {
      var d1av := Map1(Take(v1.data, minlen), Abs);
      if v2.serr.Some? { d1.serr := Some(Map2(Take(v2.serr.value, minlen), d1av, Times)); }
      if v2.perr.Some? { d1.perr := Some(Map2(Take(v2.perr.value, minlen), d1av, Times)); }
      if v2.nerr.Some? { d1.nerr := Some(Map2(Take(v2.nerr.value, minlen), d1av, Times)); }
    } else if d1err && !d2err {
      // the source tests d2's arrays here, and d2 has none
    } else if d1err && d2err {
      var product := Map2(Take(v1.data, minlen), Take(v2.data, minlen), Times);
      d1.serr := Some(Map2(CombinedFraction(v1, v2, root), Map1(product, Abs), Times));
      d1.perr, d1.nerr := None, None;
    }
    d1.data := Map2(Take(v1.data, minlen), Take(v2.data, minlen), Times);
  }

  /// _divideDatasetDataset, with its two quirks as written.
  method DivideDatasetDataset(d1: Dataset, d2: Dataset, root: real -> real)
    requires MulDivDefined(d1.Value(), d2.Value())
    modifies d1
    ensures d1.Value() == DivideBy(old(d1.Value()), old(d2.Value()), root)
  {
    var v1, v2 := d1.Value(), d2.Value();
    var minlen := Min(|v1.data|, |v2.data|);
    var ratio := Map2(Take(v1.data, minlen), Take(v2.data, minlen), Divide);
    var d1err, d2err := HasErrors(v1), HasErrors(v2);
    if d2err && !d1err {
      var aratiodiv := Map1(Map2(ratio, Take(v2.data, minlen), Divide), Abs);
      if v2.serr.Some? { d1.serr := Some(Map2(Take(v2.serr.value, minlen), aratiodiv, Times)); }
      if v2.perr.Some? { d1.serr := Some(Map2(Take(v2.perr.value, minlen), aratiodiv, Times)); }
      if v2.nerr.Some? { d1.serr := Some(Map2(Take(v2.nerr.value, minlen), aratiodiv, Times)); }
    } else if d1err && !d2err {
      // the source tests d2's arrays here, and d2 has none
    } else if d1err && d2err {
      d1.serr := Some(Map2(CombinedFraction(v1, v2, root), Map1(ratio, Abs), Times));
      d1.perr, d1.nerr := None, None;
    }
    d1.data := ratio;
  }

  /// _divfn: divide by a statistic of the finite values (by 1 if there are none).
  method DivFn(ds: Dataset, fn: seq<real> -> Num)
    modifies ds
    ensures ds.Value() == DivideByReduction(old(ds.Value()), fn)
  {
    var findata := FiniteValues(ds.data);
    var f := if |findata| > 0 then Divide(Fin(1.0), fn(findata)) else Fin(1.0);
    MultiplyDatasetScalar(ds, f);
  }

  /// _applyFn: the function is applied at the data and at data +/- error.
  method ApplyFnDataset(ds: Dataset, fun: Num -> Num)
    requires Consistent(ds.Value())
    modifies ds
    ensures ds.Value() == ApplyFn(old(ds.Value()), fun)
  {
    var prange: Option<Arr> := None;
    var nrange: Option<Arr> := None;
    if ds.serr.Some? {
      prange := Some(Map2(ds.data, ds.serr.value, Plus));
      nrange := Some(Map2(ds.data, ds.serr.value, Minus));
    }
    if ds.nerr.Some? { nrange := Some(Map2(ds.data, ds.nerr.value, Plus)); }
    if ds.perr.Some? { prange := Some(Map2(ds.data, ds.perr.value, Plus)); }
    ds.data := Map1(ds.data, fun);
    if prange.Some? { ds.perr := Some(Map2(Map1(prange.value, fun), ds.data, Minus)); }
    if nrange.Some? { ds.nerr := Some(Map2(Map1(nrange.value, fun), ds.data, Minus)); }
    ds.serr := None;
  }

  /// _clip_dataset.
  method ClipDataset(d: Dataset, minv: Num, maxv: Num)
    requires ClipDefined(d.Value())
    modifies d
    ensures d.Value() == ClipSeries(old(d.Value()), minv, maxv)
  {
    var data := d.data;
    var prange: Option<Arr>, nrange: Option<Arr>;
    if d.serr.Some? {
      prange := Some(Map2(d.data, d.serr.value, Plus));
      nrange := Some(Map2(d.data, d.serr.value, Minus));
    } else {
      prange := if d.perr.Some? then Some(Map2(d.perr.value, d.data, Plus)) else None;
      nrange := if d.nerr.Some? then Some(Map2(d.nerr.value, d.data, Plus)) else None;
    }
    var clipped := Map1(data, Clipper(minv, maxv));
    var perr, nerr := d.perr, d.nerr;
    if prange.Some? { perr := Some(Map2(Map1(prange.value, Clipper(minv, maxv)), clipped, Minus)); }
    if nrange.Some? { nerr := Some(Map2(Map1(nrange.value, Clipper(minv, maxv)), clipped, Minus)); }
    d.data, d.perr, d.nerr, d.serr := clipped, perr, nerr, None;
  }

  //////////////////////////////////////////////////////////////////////////
  // The closures returned by the registered factories

  ghost predicate AddSubAllowed(dss: seq<Dataset?>, t: Target, val: Operand)
    requires |dss| == 5
    reads Slots(dss), if val.Data? then {val.ds} else {}
  {
    Locate(dss, t) == Done && val.Data? ==> AddSubDefined(TargetOf(dss, t).Value(), val.ds.Value())
  }

  /// Add / AddX / AddY and Sub / SubX / SubY (transformplugin.py:123-142,
  /// 198-217): a dataset operand goes through _addSubDataset, a scalar is
  /// added to or subtracted from the data alone.
  method AddOrSub(dss: seq<Dataset?>, t: Target, val: Operand, sub: bool, root: real -> real)
    returns (st: Status)
    requires |dss| == 5 && AddSubAllowed(dss, t, val)
    modifies Slots(dss)
    ensures st == Locate(dss, t)
    ensures st == Done ==>
      var d := TargetOf(dss, t);
      d.Value() == match val
        case Data(d2) => AddSub(old(d.Value()), old(d2.Value()), sub, root)
        case Scalar(c) => old(d.Value()).(data := Map1(old(d.data), x => if sub then Minus(x, c) else Plus(x, c)))
    ensures forall d :: d in Slots(dss) && (st != Done || d != TargetOf(dss, t)) ==> d.Value() == old(d.Value())
  {
    st := Locate(dss, t);
    if st != Done { return; }
    var ds := TargetOf(dss, t);
    match val
    case Data(d2) => AddSubDataset(ds, d2, sub, root);
    case Scalar(c) => ds.data := Map1(ds.data, x => if sub then Minus(x, c) else Plus(x, c));
  }

  /// CumSum / CumSumX / CumSumY (transformplugin.py:169-190).
  method CumSumTransform(dss: seq<Dataset?>, t: Target, reverse: bool, root: real -> real) returns (st: Status)
    requires |dss| == 5
    modifies Slots(dss)
    ensures st == Locate(dss, t)
    ensures st == Done ==> TargetOf(dss, t).Value() == CumSum(old(TargetOf(dss, t).Value()), reverse, root)
    ensures forall d :: d in Slots(dss) && (st != Done || d != TargetOf(dss, t)) ==> d.Value() == old(d.Value())
  {
    st := Locate(dss, t);
    if st != Done { return; }
    CumSumDataset(TargetOf(dss, t), reverse, root);
  }

  /// SubMin, SubMax, SubMean and their X/Y variants (transformplugin.py:227-283),
  /// with numpy's min, max or mean of the finite values passed as `fn`.
  method SubReduction(dss: seq<Dataset?>, t: Target, fn: seq<real> -> Num) returns (st: Status)
    requires |dss| == 5
    modifies Slots(dss)
    ensures st == Locate(dss, t)
    ensures st == Done ==> TargetOf(dss, t).Value() == SubtractReduction(old(TargetOf(dss, t).Value()), fn)
    ensures forall d :: d in Slots(dss) && (st != Done || d != TargetOf(dss, t)) ==> d.Value() == old(d.Value())
  {
    st := Locate(dss, t);
    if st != Done { return; }
    SubFn(TargetOf(dss, t), fn);
  }

  ghost predicate SubFromAllowed(dss: seq<Dataset?>, t: Target, val: Operand)
    requires |dss| == 5
    reads Slots(dss), if val.Data? then {val.ds} else {}
  {
    Locate(dss, t) == Done && val.Data? ==> AddSubDefined(val.ds.Value(), TargetOf(dss, t).Value())
  }

  /// SubFrom / SubFromX / SubFromY (transformplugin.py:287-315).  With a
  /// dataset operand the source calls _addSubDataset(val, ds), so it is the
  /// operand that is rewritten, and the slot dataset is only read.
  method SubFrom(dss: seq<Dataset?>, t: Target, val: Operand, root: real -> real) returns (st: Status)
    requires |dss| == 5 && SubFromAllowed(dss, t, val)
    modifies Slots(dss), if val.Data? then {val.ds} else {}
    ensures st == Locate(dss, t)
    ensures st == Done && val.Data? ==>
      val.ds.Value() == AddSub(old(val.ds.Value()), old(TargetOf(dss, t).Value()), true, root)
    ensures st == Done && val.Scalar? ==>
      var d := TargetOf(dss, t);
      d.Value() == old(d.Value()).(data := Map1(old(d.data), x => Minus(val.x, x)))
    ensures forall d | d in Slots(dss) && (st != Done || d != if val.Data? then val.ds else TargetOf(dss, t)) ::
      d.Value() == old(d.Value())
  {
    st := Locate(dss, t);
    if st != Done { return; }
    var ds := TargetOf(dss, t);
    match val
    case Data(d2) => AddSubDataset(d2, ds, true, root);
    case Scalar(c) => ds.data := Map1(ds.data, x => Minus(c, x));
  }

  ghost predicate MulDivAllowed(dss: seq<Dataset?>, t: Target, val: Operand)
    requires |dss| == 5
    reads Slots(dss), if val.Data? then {val.ds} else {}
  {
    Locate(dss, t) == Done && val.Data? ==> MulDivDefined(TargetOf(dss, t).Value(), val.ds.Value())
  }

  /// Mul / MulX / MulY (transformplugin.py:377-396).
  method Mul(dss: seq<Dataset?>, t: Target, val: Operand, root: real -> real) returns (st: Status)
    requires |dss| == 5 && MulDivAllowed(dss, t, val)
    modifies Slots(dss)
    ensures st == Locate(dss, t)
    ensures st == Done ==>
      var d := TargetOf(dss, t);
      d.Value() == match val
        case Data(d2) => Multiply(old(d.Value()), old(d2.Value()), root)
        case Scalar(c) => Scale(old(d.Value()), c)
    ensures forall d :: d in Slots(dss) && (st != Done || d != TargetOf(dss, t)) ==> d.Value() == old(d.Value())
  {
    st := Locate(dss, t);
    if st != Done { return; }
    var ds := TargetOf(dss, t);
    match val
    case Data(d2) => MultiplyDatasetDataset(ds, d2, root);
    case Scalar(c) => MultiplyDatasetScalar(ds, c);
  }

  /// Python's `1./val` for a float: ZeroDivisionError at zero.
  function Reciprocal(val: Num): Option<Num> {
    if val == Fin(0.0) then None else Some(Divide(Fin(1.0), val))
  }

  /// Div / DivX / DivY (transformplugin.py:453-472): a scalar operand
  /// multiplies by its reciprocal.  The code is looked up first; `1./val` is
  /// evaluated as an argument before the slot's dataset is touched, so a zero
  /// scalar raises even when the slot is empty.
  method Div(dss: seq<Dataset?>, t: Target, val: Operand, root: real -> real) returns (st: Status)
    requires |dss| == 5 && MulDivAllowed(dss, t, val)
    modifies Slots(dss)
    ensures st == if Resolve(t).None? then UnknownCode
                  else if val.Scalar? && Reciprocal(val.x).None? then DivisionByZero
                  else Locate(dss, t)
    ensures st == Done ==>
      var d := TargetOf(dss, t);
      d.Value() == match val
        case Data(d2) => DivideBy(old(d.Value()), old(d2.Value()), root)
        case Scalar(c) => Scale(old(d.Value()), Reciprocal(c).value)
    ensures forall d :: d in Slots(dss) && (st != Done || d != TargetOf(dss, t)) ==> d.Value() == old(d.Value())
  {
    if Resolve(t).None? {
      return UnknownCode;
    }
    if val.Scalar? && Reciprocal(val.x).None? {
      return DivisionByZero;
    }
    st := Locate(dss, t);
    if st != Done { return; }
    var ds := TargetOf(dss, t);
    match val
    case Data(d2) => DivideDatasetDataset(ds, d2, root);
    case Scalar(c) => MultiplyDatasetScalar(ds, Reciprocal(c).value);
  }

  /// DivMax, DivMean, DivStd, DivSum and their X/Y variants (transformplugin.py:489-566).
  method DivReduction(dss: seq<Dataset?>, t: Target, fn: seq<real> -> Num) returns (st: Status)
    requires |dss| == 5
    modifies Slots(dss)
    ensures st == Locate(dss, t)
    ensures st == Done ==> TargetOf(dss, t).Value() == DivideByReduction(old(TargetOf(dss, t).Value()), fn)
    ensures forall d :: d in Slots(dss) && (st != Done || d != TargetOf(dss, t)) ==> d.Value() == old(d.Value())
  {
    st := Locate(dss, t);
    if st != Done { return; }
    DivFn(TargetOf(dss, t), fn);
  }

  /// NormRange / NormRangeX / NormRangeY (transformplugin.py:575-596).
  method NormRangeTransform(dss: seq<Dataset?>, t: Target) returns (st: Status)
    requires |dss| == 5
    modifies Slots(dss)
    ensures st == Locate(dss, t)
    ensures st == Done ==> TargetOf(dss, t).Value() == NormRange(old(TargetOf(dss, t).Value()))
    ensures forall d :: d in Slots(dss) && (st != Done || d != TargetOf(dss, t)) ==> d.Value() == old(d.Value())
  {
    st := Locate(dss, t);
    if st != Done { return; }
    var ds := TargetOf(dss, t);
    var data := ds.data;
    var findata := FiniteValues(data);
    if |findata| > 0 {
      var minv := Least(findata);
      var maxv := Greatest(findata);
      ds.data := Map1(data, Normalizer(minv, maxv));
    }
  }

  /// Log10, Log, Exp, Exp10, ExpV, Pow, Apply and their X/Y variants
  /// (transformplugin.py:620-798): `fun` is numpy's log10, log or exp,
  /// 10**x, val**x, x**val, or the caller's function.
  method Apply(dss: seq<Dataset?>, t: Target, fun: Num -> Num) returns (st: Status)
    requires |dss| == 5
    requires Locate(dss, t) == Done ==> Consistent(TargetOf(dss, t).Value())
    modifies Slots(dss)
    ensures st == Locate(dss, t)
    ensures st == Done ==> TargetOf(dss, t).Value() == ApplyFn(old(TargetOf(dss, t).Value()), fun)
    ensures forall d :: d in Slots(dss) && (st != Done || d != TargetOf(dss, t)) ==> d.Value() == old(d.Value())
  {
    st := Locate(dss, t);
    if st != Done { return; }
    ApplyFnDataset(TargetOf(dss, t), fun);
  }

  /// Clip / ClipX / ClipY (transformplugin.py:824-844); the defaults of
  /// minv and maxv are NegInf and PosInf.
  method ClipTransform(dss: seq<Dataset?>, t: Target, minv: Num, maxv: Num) returns (st: Status)
    requires |dss| == 5
    requires Locate(dss, t) == Done ==> ClipDefined(TargetOf(dss, t).Value())
    modifies Slots(dss)
    ensures st == Locate(dss, t)
    ensures st == Done ==> TargetOf(dss, t).Value() == ClipSeries(old(TargetOf(dss, t).Value()), minv, maxv)
    ensures forall d :: d in Slots(dss) && (st != Done || d != TargetOf(dss, t)) ==> d.Value() == old(d.Value())
  {
    st := Locate(dss, t);
    if st != Done { return; }
    ClipDataset(TargetOf(dss, t), minv, maxv);
  }

  /// Rotate (transformplugin.py:854-865), given cos and sin of the angle.
  /// When x and y are one dataset, the y result is the one that stays.
  method Rotate(dss: seq<Dataset?>, cosA: Num, sinA: Num, cx: Num, cy: Num) returns (st: Status)
    requires |dss| == 5
    requires dss[0] != null && dss[1] != null ==> |dss[0].data| == |dss[1].data|
    modifies Slots(dss)
    ensures st == (if dss[0] == null || dss[1] == null then NoDataset else Done)
    ensures st == Done ==>
      var r := Rotated(old(dss[0].data), old(dss[1].data), cosA, sinA, cx, cy);
      && dss[1].Value() == Series(r.1, None, None, None)
      && (dss[0] != dss[1] ==> dss[0].Value() == Series(r.0, None, None, None))
    ensures forall d :: d in Slots(dss) && (st != Done || (d != dss[0] && d != dss[1])) ==> d.Value() == old(d.Value())
  {
    if dss[0] == null || dss[1] == null {
      return NoDataset;
    }
    var r := Rotated(dss[0].data, dss[1].data, cosA, sinA, cx, cy);
    dss[0].data := r.0;
    dss[1].data := r.1;
    dss[0].serr, dss[0].perr, dss[0].nerr := None, None, None;
    dss[1].serr, dss[1].perr, dss[1].nerr := None, None, None;
    st := Done;
  }

  /// Translate (transformplugin.py:871-873): x is shifted before y is looked
  /// at, so an empty y slot fails after x has already moved.
  method Translate(dss: seq<Dataset?>, dx: Num, dy: Num) returns (st: Status)
    requires |dss| == 5
    modifies Slots(dss)
    ensures st == (if dss[0] == null || dss[1] == null then NoDataset else Done)
    ensures dss[0] != null && dss[0] != dss[1] ==>
      dss[0].Value() == old(dss[0].Value()).(data := Shift(old(dss[0].data), dx))
    ensures dss[0] != null && dss[1] != null && dss[0] != dss[1] ==>
      dss[1].Value() == old(dss[1].Value()).(data := Shift(old(dss[1].data), dy))
    ensures dss[0] != null && dss[0] == dss[1] ==>
      dss[0].Value() == old(dss[0].Value()).(data := Shift(Shift(old(dss[0].data), dx), dy))
    ensures dss[0] == null ==> forall d :: d in Slots(dss) ==> d.Value() == old(d.Value())
    ensures forall d :: d in Slots(dss) && d != dss[0] && d != dss[1] ==> d.Value() == old(d.Value())
  {
    if dss[0] == null {
      return NoDataset;
    }
    dss[0].data := Shift(dss[0].data, dx);
    if dss[1] == null {
      return NoDataset;
    }
    dss[1].data := Shift(dss[1].data, dy);
    st := Done;
  }

  /// How many slots hold the dataset d.
  function Occurrences(dss: seq<Dataset?>, d: Dataset): nat {
    if dss == [] then 0
    else Occurrences(dss[..|dss| - 1], d) + (if dss[|dss| - 1] == d then 1 else 0)
  }

  lemma OccurrencesStep(dss: seq<Dataset?>, i: nat, d: Dataset)
    requires i < |dss|
    ensures Occurrences(dss[..i + 1], d) == Occurrences(dss[..i], d) + (if dss[i] == d then 1 else 0)
  {
    assert dss[..i + 1][..i] == dss[..i];
  }

  /// One pass of the loop of Thin and IndexRange over a dataset.
  method SliceDataset(ds: Dataset, start: Option<int>, stop: Option<int>, step: Option<int>)
    requires step != Some(0)
    modifies ds
    ensures ds.Value() == SliceSeries(old(ds.Value()), start, stop, step)
  {
    ds.data := PySlice.Slice(ds.data, start, stop, step);
    if ds.serr.Some? { ds.serr := Some(PySlice.Slice(ds.serr.value, start, stop, step)); }
    if ds.perr.Some? { ds.perr := Some(PySlice.Slice(ds.perr.value, start, stop, step)); }
    if ds.nerr.Some? { ds.nerr := Some(PySlice.Slice(ds.nerr.value, start, stop, step)); }
  }

  /// The loop of Thin and IndexRange: every dataset in the slots has the
  /// slice applied to its data and to each error array present, once per
  /// slot that holds it.
  method SliceSlots(dss: seq<Dataset?>, start: Option<int>, stop: Option<int>, step: Option<int>)
    requires step != Some(0)
    modifies Slots(dss)
    ensures forall d :: d in Slots(dss) ==>
      d.Value() == SliceTimes(old(d.Value()), Occurrences(dss, d), start, stop, step)
  {
    var i := 0;
    while i < |dss|
      invariant 0 <= i <= |dss|
      invariant forall d :: d in Slots(dss) ==>
        d.Value() == SliceTimes(old(d.Value()), Occurrences(dss[..i], d), start, stop, step)
    {
      var ds := dss[i];
      label Before:
      if ds != null {
        SliceDataset(ds, start, stop, step);
      }
      forall d | d in Slots(dss)
        ensures d.Value() == SliceTimes(old(d.Value()), Occurrences(dss[..i + 1], d), start, stop, step)
      {
        OccurrencesStep(dss, i, d);
        if d == ds {
          assert d.Value() == SliceSeries(old@Before(d.Value()), start, stop, step);
        } else {
          assert d.Value() == old@Before(d.Value());
        }
      }
      i := i + 1;
    }
    assert dss[..i] == dss;
  }

  /// Thin (transformplugin.py:882-890): `[start::step]`.  A zero step raises
  /// ValueError at the first dataset, before anything changes.
  method Thin(dss: seq<Dataset?>, step: int, start: int) returns (st: Status)
    modifies Slots(dss)
    ensures st == (if step == 0 && Slots(dss) != {} then ZeroStep else Done)
    ensures forall d :: d in Slots(dss) ==>
      d.Value() == if step == 0 then old(d.Value()) else SliceTimes(old(d.Value()), Occurrences(dss, d), Some(start), None, Some(step))
  {
    if step == 0 {
      return if Slots(dss) != {} then ZeroStep else Done;
    }
    SliceSlots(dss, Some(start), None, Some(step));
    st := Done;
  }

  /// IndexRange (transformplugin.py:898-906): `[start:end:step]`.
  method IndexRange(dss: seq<Dataset?>, start: int, end: Option<int>, step: Option<int>) returns (st: Status)
    modifies Slots(dss)
    ensures st == (if step == Some(0) && Slots(dss) != {} then ZeroStep else Done)
    ensures forall d :: d in Slots(dss) ==>
      d.Value() == if step == Some(0) then old(d.Value()) else SliceTimes(old(d.Value()), Occurrences(dss, d), Some(start), end, step)
  {
    if step == Some(0) {
      return if Slots(dss) != {} then ZeroStep else Done;
    }
    SliceSlots(dss, Some(start), end, step);
    st := Done;
  }
}
