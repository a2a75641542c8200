/// Option type shared by the transform engine and the CSV importer.
module Base {
  datatype Option<+T> = None | Some(value: T)

  function Min(a: int, b: int): int { if a <= b then a else b }
}

/// IEEE double precision numbers as numpy uses them, modelled as exact reals
/// extended with the three special values.  Rounding, overflow and the sign of
/// zero are not modelled: every finite result is the exact real result.
module Numeric {
  import opened Base

  datatype Num = Fin(v: real) | PosInf | NegInf | NaN

  predicate IsFinite(x: Num) { x.Fin? }

  function InfOf(positive: bool): Num { if positive then PosInf else NegInf }

  /// Sign of a value that is not NaN: -1, 0 or 1.
  function Sign(x: Num): int
    requires !x.NaN?
  {
    match x
    case Fin(r) => if r > 0.0 then 1 else if r < 0.0 then -1 else 0
    case PosInf => 1
    case NegInf => -1
  }

  function Neg(x: Num): Num {
    match x
    case Fin(r) => Fin(-r)
    case PosInf => NegInf
    case NegInf => PosInf
    case NaN => NaN
  }

  function Abs(x: Num): Num {
    match x
    case Fin(r) => Fin(if r < 0.0 then -r else r)
    case NaN => NaN
    case _ => PosInf
  }

  function Plus(a: Num, b: Num): Num {
    if a.NaN? || b.NaN? then NaN
    else if a.Fin? && b.Fin? then Fin(a.v + b.v)
    else if a.Fin? then b
    else if b.Fin? then a
    else if a == b then a
    else NaN
  }

  function Minus(a: Num, b: Num): Num { Plus(a, Neg(b)) }

  function Times(a: Num, b: Num): Num {
    if a.NaN? || b.NaN? then NaN
    else if a.Fin? && b.Fin? then Fin(a.v * b.v)
    else if Sign(a) == 0 || Sign(b) == 0 then NaN
    else InfOf(Sign(a) * Sign(b) > 0)
  }

  function Divide(a: Num, b: Num): Num {
    if a.NaN? || b.NaN? then NaN
    else if a.Fin? && b.Fin? then
      (if b.v != 0.0 then Fin(a.v / b.v)
       else if a.v == 0.0 then NaN
       else InfOf(a.v > 0.0))
    else if a.Fin? then Fin(0.0)
    else if b.Fin? then InfOf(if b.v < 0.0 then Sign(a) < 0 else Sign(a) > 0)
    else NaN
  }

  function Square(x: Num): Num { Times(x, x) }

  /// Square root, with the finite non-negative case given by `root`
  /// (the numerics of numpy's sqrt are not part of the model).
  function Sqrt(x: Num, root: real -> real): Num {
    match x
    case Fin(r) => if r < 0.0 then NaN else Fin(root(r))
    case PosInf => PosInf
    case _ => NaN
  }

  /// What is expected of `root`: a non-negative result for a non-negative argument.
  ghost predicate NonNegRoot(root: real -> real) {
    forall r: real :: 0.0 <= r ==> 0.0 <= root(r)
  }

  /// Ordering of values that are not NaN.
  predicate LessEq(a: Num, b: Num)
    requires !a.NaN? && !b.NaN?
  {
    match (a, b)
    case (NegInf, _) => true
    case (_, PosInf) => true
    case (Fin(x), Fin(y)) => x <= y
    case _ => false
  }

  /// numpy.maximum and numpy.minimum: NaN propagates.
  function Larger(a: Num, b: Num): Num {
    if a.NaN? || b.NaN? then NaN else if LessEq(a, b) then b else a
  }

  function Smaller(a: Num, b: Num): Num {
    if a.NaN? || b.NaN? then NaN else if LessEq(a, b) then a else b
  }

  /// numpy.clip of one element: minimum(maximum(x, lo), hi).
  function Clip(x: Num, lo: Num, hi: Num): Num { Smaller(Larger(x, lo), hi) }

  /// Elementwise application of a unary operation (a numpy ufunc).
  function Map1(s: seq<Num>, f: Num -> Num): (r: seq<Num>)
    ensures |r| == |s|
    ensures forall i :: 0 <= i < |s| ==> r[i] == f(s[i])
  {
    seq(|s|, i requires 0 <= i < |s| => f(s[i]))
  }

  /// Elementwise application of a binary operation to arrays of one shape.
  function Map2(a: seq<Num>, b: seq<Num>, f: (Num, Num) -> Num): (r: seq<Num>)
    requires |a| == |b|
    ensures |r| == |a|
    ensures forall i :: 0 <= i < |a| ==> r[i] == f(a[i], b[i])
  {
    seq(|a|, i requires 0 <= i < |a| => f(a[i], b[i]))
  }

  /// Python's `a[:n]` for n >= 0.
  function Take<T>(a: seq<T>, n: nat): (r: seq<T>)
    ensures |r| == Min(|a|, n)
    ensures forall i :: 0 <= i < |r| ==> r[i] == a[i]
  {
    a[..Min(|a|, n)]
  }

  /// `data[N.isfinite(data)]`: the finite values, in order.
  function FiniteValues(s: seq<Num>): (r: seq<real>)
    ensures |r| <= |s|
  {
    if s == [] then []
    else (if s[0].Fin? then [s[0].v] else []) + FiniteValues(s[1..])
  }

  predicate HasFinite(s: seq<Num>) { exists i :: 0 <= i < |s| && s[i].Fin? }

  lemma {:induction false} FiniteValuesEmpty(s: seq<Num>)
    ensures FiniteValues(s) == [] <==> !HasFinite(s)
  {
    if s != [] {
      FiniteValuesEmpty(s[1..]);
      if s[0].Fin? {
        assert HasFinite(s);
      } else if HasFinite(s) {
        var i :| 0 <= i < |s| && s[i].Fin?;
        assert s[1..][i - 1].Fin?;
      } else {
        forall i | 0 <= i < |s[1..]| ensures !s[1..][i].Fin? {
          assert s[1..][i] == s[i + 1];
        }
      }
    }
  }

  /// Multiplying by one changes no value, the special values included.
  lemma TimesOne(x: Num)
    ensures Times(x, Fin(1.0)) == x
  {
  }
}
