/// Python's extended slice `s[start:stop:step]`, as used by the Thin and
/// IndexRange transforms on every array of a dataset.
module PySlice {
  import opened Base

  /// Normalises one bound the way CPython does: a negative bound counts from
  /// the end, and the result is clamped to [lower, upper].
  function Clamp(i: int, len: nat, lower: int, upper: int): int {
    if i < 0 then (if i + len < lower then lower else i + len)
    else if i > upper then upper
    else i
  }

  /// The first index taken and the bound that stops the walk, for a non-zero step.
  function Bounds(len: nat, start: Option<int>, stop: Option<int>, step: int): (b: (int, int))
    requires step != 0
    ensures step > 0 ==> 0 <= b.0 <= len && 0 <= b.1 <= len
    ensures step < 0 ==> -1 <= b.0 < len && -1 <= b.1 < len
  {
    var lower := if step < 0 then -1 else 0;
    var upper := if step < 0 then len - 1 else len;
    var first := match start
      case None => (if step < 0 then upper else lower)
      case Some(i) => Clamp(i, len, lower, upper);
    var last := match stop
      case None => (if step < 0 then lower else upper)
      case Some(i) => Clamp(i, len, lower, upper);
    (first, last)
  }

  /// The elements s[i], s[i + step], ... strictly before `stop` in the direction of `step`.
  function Walk<T>(s: seq<T>, i: int, stop: int, step: int): seq<T>
    requires step != 0
    requires step > 0 ==> 0 <= i && stop <= |s|
    requires step < 0 ==> i < |s| && -1 <= stop
    decreases if step > 0 then stop - i else i - stop
  {
    if step > 0 then
      (if i < stop then [s[i]] + Walk(s, i + step, stop, step) else [])
    else
      (if i > stop then [s[i]] + Walk(s, i + step, stop, step) else [])
  }

  /// `s[start:stop:step]`, where None stands for an omitted bound or step.
  /// A step of zero raises ValueError in Python and is excluded here; the
  /// callers check it first.
  function Slice<T>(s: seq<T>, start: Option<int>, stop: Option<int>, step: Option<int>): seq<T>
    requires step != Some(0)
  {
    var st := if step.None? then 1 else step.value;
    var b := Bounds(|s|, start, stop, st);
    Walk(s, b.0, b.1, st)
  }

  lemma ShiftStep(i: int, k: int, step: int)
    ensures i + k * step == (i + step) + (k - 1) * step
  {
    assert k * step == step + (k - 1) * step;
  }

  /// Reference reading of a walk: element k is s[i + k*step], every index
  /// taken lies before `stop`, and the next index would not.
  lemma {:induction false} WalkAt<T>(s: seq<T>, i: int, stop: int, step: int)
    requires step != 0
    requires step > 0 ==> 0 <= i && stop <= |s|
    requires step < 0 ==> i < |s| && -1 <= stop
    ensures var r := Walk(s, i, stop, step);
      && (forall k :: 0 <= k < |r| ==> 0 <= i + k * step < |s| && r[k] == s[i + k * step])
      && (step > 0 ==> (forall k :: 0 <= k < |r| ==> i + k * step < stop) && i + |r| * step >= stop)
      && (step < 0 ==> (forall k :: 0 <= k < |r| ==> i + k * step > stop) && i + |r| * step <= stop)
    decreases if step > 0 then stop - i else i - stop
  {
    var r := Walk(s, i, stop, step);
    if (step > 0 && i < stop) || (step < 0 && i > stop) {
      var rest := Walk(s, i + step, stop, step);
      WalkAt(s, i + step, stop, step);
      assert r == [s[i]] + rest;
      forall k | 0 < k < |r|
        ensures 0 <= i + k * step < |s| && r[k] == s[i + k * step]
        ensures step > 0 ==> i + k * step < stop
        ensures step < 0 ==> i + k * step > stop
      {
        ShiftStep(i, k, step);
        assert r[k] == rest[k - 1];
      }
      ShiftStep(i, |r|, step);
    }
  }

  /// Slicing with the default step visits every index from start to stop.
  lemma SliceContiguous<T>(s: seq<T>, start: nat, stop: nat)
    requires start <= stop <= |s|
    ensures Slice(s, Some(start), Some(stop), None) == s[start..stop]
  {
    var r := Slice(s, Some(start), Some(stop), None);
    assert Bounds(|s|, Some(start), Some(stop), 1) == (start, stop);
    WalkAt(s, start, stop, 1);
    assert stop - start < |r| ==> start + (stop - start) * 1 < stop;
    assert |r| == stop - start;
  }

  lemma {:induction false} WalkSameLength<T, U>(s: seq<T>, t: seq<U>, i: int, stop: int, step: int)
    requires |s| == |t| && step != 0
    requires step > 0 ==> 0 <= i && stop <= |s|
    requires step < 0 ==> i < |s| && -1 <= stop
    ensures |Walk(s, i, stop, step)| == |Walk(t, i, stop, step)|
    decreases if step > 0 then stop - i else i - stop
  {
    if (step > 0 && i < stop) || (step < 0 && i > stop) {
      WalkSameLength(s, t, i + step, stop, step);
    }
  }

  /// Which indices a slice takes depends only on the length of the sliced
  /// sequence, so arrays of one length stay of one length.
  lemma SliceSameLength<T, U>(s: seq<T>, t: seq<U>, start: Option<int>, stop: Option<int>, step: Option<int>)
    requires step != Some(0) && |s| == |t|
    ensures |Slice(s, start, stop, step)| == |Slice(t, start, stop, step)|
  {
    var st := if step.None? then 1 else step.value;
    var b := Bounds(|s|, start, stop, st);
    WalkSameLength(s, t, b.0, b.1, st);
  }

  /// `s[start::step]` with a positive step: every step-th element from
  /// start on, up to the end and no further.
  lemma ThinElements<T>(s: seq<T>, start: nat, step: int)
    requires step > 0 && start <= |s|
    ensures var r := Slice(s, Some(start), None, Some(step));
      && (forall k :: 0 <= k < |r| ==> start + k * step < |s| && r[k] == s[start + k * step])
      && start + |r| * step >= |s|
  {
    assert Bounds(|s|, Some(start), None, step) == (start, |s|);
    WalkAt(s, start, |s|, step);
  }
}
