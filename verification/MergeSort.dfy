/**
 `sort`: an in-place merge sort whose comparator may fail, and the reading of
 comparator replies, numbers like `compare` or booleans like `<`.
 */
module MergeSort {

  datatype Cmp<E> = Less | Equal | Greater | Fail(e: E)
  datatype Result<T, E> = Ok(items: seq<T>) | Err(e: E)

  // ---- The specification on sequences ----

  /** The left element goes first unless the comparator says it is greater. */
  function Merge<T, E>(cmp: (T, T) -> Cmp<E>, acc: seq<T>, l: seq<T>, r: seq<T>): Result<T, E>
    decreases |l| + |r|
  {
    if |l| == 0 then Ok(acc + r)
    else if |r| == 0 then Ok(acc + l)
    else
      match cmp(l[0], r[0])
      case Fail(e) => Err(e)
      case Greater => Merge(cmp, acc + [r[0]], l, r[1..])
      case _ => Merge(cmp, acc + [l[0]], l[1..], r)
  }

  function Sort<T, E>(cmp: (T, T) -> Cmp<E>, s: seq<T>): Result<T, E>
    decreases |s|
  {
    if |s| <= 1 then Ok(s)
    else
      var l := Sort(cmp, s[..|s| / 2]);
      if l.Err? then l
      else
        var r := Sort(cmp, s[|s| / 2..]);
        if r.Err? then r else Merge(cmp, [], l.items, r.items)
  }

  // ---- The algorithm in place ----

  /** Outside the sorted range nothing moves; inside it an error may leave a half-merged mixture. */
  method SortInPlace<T, E>(a: array<T>, lo: nat, hi: nat, cmp: (T, T) -> Cmp<E>) returns (r: Result<T, E>)
    requires lo <= hi <= a.Length
    modifies a
    ensures r == Sort(cmp, old(a[lo..hi]))
    ensures r.Ok? ==> a[lo..hi] == r.items
    ensures a[..lo] == old(a[..lo]) && a[hi..] == old(a[hi..])
    decreases hi - lo
  {
    if hi - lo <= 1 {
      return Ok(a[lo..hi]);
    }
    var mid := lo + (hi - lo) / 2;
    ghost var s0 := a[..];
    assert a[lo..hi][..mid - lo] == s0[lo..mid] && a[lo..hi][mid - lo..] == s0[mid..hi];
    r := SortInPlace(a, lo, mid, cmp);
    ghost var s1 := a[..];
    Untouched(s0, s1, lo, mid, hi);
    if r.Err? {
      return;
    }
    r := SortInPlace(a, mid, hi, cmp);
    Untouched(s1, a[..], lo, mid, hi);
    if r.Err? {
      return;
    }
    r := MergeInPlace(a, lo, mid, hi, cmp);
  }

  /** What a change confined to one half leaves alone. */
  lemma Untouched<T>(s: seq<T>, t: seq<T>, lo: nat, mid: nat, hi: nat)
    requires lo <= mid <= hi <= |s| == |t|
    ensures s[mid..] == t[mid..] ==> s[mid..hi] == t[mid..hi] && s[hi..] == t[hi..]
    ensures s[..mid] == t[..mid] ==> s[lo..mid] == t[lo..mid] && s[..lo] == t[..lo]
  {
    assert s[mid..hi] == s[mid..][..hi - mid] && t[mid..hi] == t[mid..][..hi - mid];
    assert s[hi..] == s[mid..][hi - mid..] && t[hi..] == t[mid..][hi - mid..];
    assert s[lo..mid] == s[..mid][lo..] && t[lo..mid] == t[..mid][lo..];
    assert s[..lo] == s[..mid][..lo] && t[..lo] == t[..mid][..lo];
  }

  method MergeInPlace<T, E>(a: array<T>, lo: nat, mid: nat, hi: nat, cmp: (T, T) -> Cmp<E>) returns (r: Result<T, E>)
    requires lo <= mid <= hi <= a.Length
    modifies a
    ensures r == Merge(cmp, [], old(a[lo..mid]), old(a[mid..hi]))
    ensures r.Ok? ==> a[lo..hi] == r.items
    ensures a[..lo] == old(a[..lo]) && a[hi..] == old(a[hi..])
  {
    var left, right := a[lo..mid], a[mid..hi];
    var i, j, failure := MergeWhileBoth(a, lo, hi, left, right, cmp);
    if failure.Err? {
      return failure;
    }
    FinishMerge(a, lo, lo + i + j, hi, left[i..], right[j..]);
    return Ok(a[lo..hi]);
  }

  lemma MergeStep<T, E>(cmp: (T, T) -> Cmp<E>, acc: seq<T>, left: seq<T>, i: nat, right: seq<T>, j: nat)
    requires i < |left| && j < |right|
    ensures var c := cmp(left[i], right[j]);
      Merge(cmp, acc, left[i..], right[j..]) ==
      if c.Fail? then Err(c.e)
      else if c.Greater? then Merge(cmp, acc + [right[j]], left[i..], right[j + 1..])
      else Merge(cmp, acc + [left[i]], left[i + 1..], right[j..])
  {
    assert left[i..][1..] == left[i + 1..] && right[j..][1..] == right[j + 1..];
  }

  lemma MergeDone<T, E>(cmp: (T, T) -> Cmp<E>, acc: seq<T>, l: seq<T>, r: seq<T>)
    requires |l| == 0 || |r| == 0
    ensures Merge(cmp, acc, l, r) == Ok(acc + (l + r))
  {
    assert |l| == 0 ==> l + r == r;
    assert |r| == 0 ==> l + r == l;
  }

  method FinishMerge<T>(a: array<T>, lo: nat, k: nat, hi: nat, l: seq<T>, r: seq<T>)
    requires lo <= k && k + |l| + |r| == hi <= a.Length
    modifies a
    ensures a[lo..hi] == old(a[lo..k]) + (l + r)
    ensures a[..lo] == old(a[..lo]) && a[hi..] == old(a[hi..])
  {
    ghost var before := a[..k];
    assert before[..lo] == a[..lo] && before[lo..] == a[lo..k];
    CopyRest(a, k, l, r);
    assert a[..lo] == before[..lo] && a[lo..k] == before[lo..];
    assert a[lo..hi] == a[lo..k] + a[k..hi];
  }

  /** The other two loops: what is left of either half. */
  method CopyRest<T>(a: array<T>, at: nat, l: seq<T>, r: seq<T>)
    requires at + |l| + |r| <= a.Length
    modifies a
    ensures var end := at + |l| + |r|;
      a[..at] == old(a[..at]) && a[at..end] == l + r && a[end..] == old(a[end..])
  {
    CopyInto(a, at, l);
    ghost var rest := a[at + |l|..];
    ghost var front := a[..at + |l|];
    CopyInto(a, at + |l|, r);
    assert a[..at] == front[..at];
    assert a[at..at + |l| + |r|] == front[at..] + r;
    assert a[at + |l| + |r|..] == rest[|r|..];
  }

  /** The first of the three loops: both halves still have elements. */
  method MergeWhileBoth<T, E>(a: array<T>, lo: nat, hi: nat, left: seq<T>, right: seq<T>, cmp: (T, T) -> Cmp<E>)
    returns (i: nat, j: nat, r: Result<T, E>)
    requires lo + |left| + |right| == hi <= a.Length
    modifies a
    ensures i <= |left| && j <= |right|
    ensures r.Err? ==> r == Merge(cmp, [], left, right)
    ensures r.Ok? ==> Merge(cmp, [], left, right) == Ok(a[lo..lo + i + j] + (left[i..] + right[j..]))
    ensures a[..lo] == old(a[..lo]) && a[hi..] == old(a[hi..])
  {
    i, j := 0, 0;
    var k := lo;
    assert left[0..] == left && right[0..] == right && a[lo..lo] == [];
    while i < |left| && j < |right|
      invariant i <= |left| && j <= |right| && k == lo + i + j
      invariant Merge(cmp, [], left, right) == Merge(cmp, a[lo..k], left[i..], right[j..])
      invariant a[..lo] == old(a[..lo]) && a[hi..] == old(a[hi..])
    {
      MergeStep(cmp, a[lo..k], left, i, right, j);
      var c := cmp(left[i], right[j]);
      if c.Fail? {
        return i, j, Err(c.e);
      }
      ghost var done := a[lo..k];
      if !c.Greater? {
        a[k] := left[i];
        i := i + 1;
      } else {
        a[k] := right[j];
        j := j + 1;
      }
      k := k + 1;
      assert a[lo..k] == done + [a[k - 1]];
    }
    MergeDone(cmp, a[lo..k], left[i..], right[j..]);
    r := Ok([]);
  }

  method CopyInto<T>(a: array<T>, at: nat, s: seq<T>)
    requires at + |s| <= a.Length
    modifies a
    ensures a[..at] == old(a[..at]) && a[at..at + |s|] == s && a[at + |s|..] == old(a[at + |s|..])
  {
    var i := 0;
    while i < |s|
      invariant i <= |s|
      invariant a[..at] == old(a[..at]) && a[at + |s|..] == old(a[at + |s|..])
      invariant a[at..at + i] == s[..i]
    {
      a[at + i] := s[i];
      i := i + 1;
      assert a[at..at + i] == s[..i];
    }
  }

  // ---- Comparator replies ----

  datatype Double = Real(x: real) | NaN
  datatype Reply = LongReply(n: int) | DoubleReply(d: Double) | BoolReply(b: bool) | OtherReply

  /** What `sort` makes of a comparator's reply; anything but a number or a boolean is an error. */
  function Interpret(v: Reply): Cmp<string> {
    match v
    case LongReply(n) => if n < 0 then Less else if n > 0 then Greater else Equal
    case DoubleReply(NaN) => Equal
    case DoubleReply(Real(x)) => if x < 0.0 then Less else if x > 0.0 then Greater else Equal
    case BoolReply(b) => if b then Less else Greater
    case OtherReply => Fail("comparator must return a number or boolean")
  }
}
