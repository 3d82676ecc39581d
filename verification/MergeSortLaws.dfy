/**
 What `sort` guarantees: a permutation for any comparator that does not fail,
 an error only from the comparator, and order. Elements that compare equal keep
 their input order under a three-way comparator, and come out in reverse input
 order under a strict boolean predicate, whose `false` is read as "greater".
 */
module MergeSortLaws {
  import opened MergeSort

  // ---- Permutation and errors ----

  lemma {:induction false} MergePermutes<T, E>(cmp: (T, T) -> Cmp<E>, acc: seq<T>, l: seq<T>, r: seq<T>)
    requires Merge(cmp, acc, l, r).Ok?
    ensures multiset(Merge(cmp, acc, l, r).items) == multiset(acc) + multiset(l) + multiset(r)
    decreases |l| + |r|
  {
    if |l| > 0 && |r| > 0 {
      assert l == [l[0]] + l[1..] && r == [r[0]] + r[1..];
      if cmp(l[0], r[0]).Greater? {
        MergePermutes(cmp, acc + [r[0]], l, r[1..]);
      } else {
        MergePermutes(cmp, acc + [l[0]], l[1..], r);
      }
    }
  }

  lemma Halves<T>(s: seq<T>, mid: nat)
    requires mid <= |s|
    ensures multiset(s) == multiset(s[..mid]) + multiset(s[mid..])
  {
    assert s == s[..mid] + s[mid..];
  }

  /** Whatever the comparator answers, sorting only rearranges. */
  lemma {:induction false} SortPermutes<T, E>(cmp: (T, T) -> Cmp<E>, s: seq<T>)
    requires Sort(cmp, s).Ok?
    ensures multiset(Sort(cmp, s).items) == multiset(s)
    decreases |s|
  {
    if |s| > 1 {
      var mid := |s| / 2;
      SortPermutes(cmp, s[..mid]);
      SortPermutes(cmp, s[mid..]);
      MergePermutes(cmp, [], Sort(cmp, s[..mid]).items, Sort(cmp, s[mid..]).items);
      Halves(s, mid);
    }
  }

  ghost predicate FailsOn<T, E>(cmp: (T, T) -> Cmp<E>, s: seq<T>, e: E) {
    exists x, y :: x in s && y in s && cmp(x, y) == Fail(e)
  }

  ghost predicate Within<T>(s: seq<T>, all: seq<T>) {
    forall x :: x in s ==> x in all
  }

  lemma {:induction false} MergeFails<T, E>(cmp: (T, T) -> Cmp<E>, acc: seq<T>, l: seq<T>, r: seq<T>, all: seq<T>)
    requires Merge(cmp, acc, l, r).Err? && Within(l, all) && Within(r, all)
    ensures FailsOn(cmp, all, Merge(cmp, acc, l, r).e)
    decreases |l| + |r|
  {
    match cmp(l[0], r[0])
    case Fail(e) =>
    case Greater => MergeFails(cmp, acc + [r[0]], l, r[1..], all);
    case _ => MergeFails(cmp, acc + [l[0]], l[1..], r, all);
  }

  lemma SortedWithin<T, E>(cmp: (T, T) -> Cmp<E>, s: seq<T>)
    requires Sort(cmp, s).Ok?
    ensures Within(Sort(cmp, s).items, s)
  {
    SortPermutes(cmp, s);
    var t := Sort(cmp, s).items;
    forall x | x in t ensures x in s {
      assert x in multiset(t);
    }
  }

  /** An error from `sort` is the comparator's own, on two elements of the input. */
  lemma {:induction false} SortFails<T, E>(cmp: (T, T) -> Cmp<E>, s: seq<T>)
    requires Sort(cmp, s).Err?
    ensures FailsOn(cmp, s, Sort(cmp, s).e)
    decreases |s|
  {
    var l, r := s[..|s| / 2], s[|s| / 2..];
    if Sort(cmp, l).Err? {
      SortFails(cmp, l);
    } else if Sort(cmp, r).Err? {
      SortFails(cmp, r);
    } else {
      SortedWithin(cmp, l);
      SortedWithin(cmp, r);
      MergeFails(cmp, [], Sort(cmp, l).items, Sort(cmp, r).items, s);
    }
  }

  // ---- Order ----

  ghost predicate TotalPreorder<T(!new)>(le: (T, T) -> bool, s: seq<T>) {
    && (forall x, y :: x in s && y in s ==> le(x, y) || le(y, x))
    && (forall x, y, z :: x in s && y in s && z in s && le(x, y) && le(y, z) ==> le(x, z))
  }

  /** The comparator lets the left of two elements stay first exactly when `le` does, ties going as `leftFirst` says. */
  ghost predicate Fits<T(!new), E>(cmp: (T, T) -> Cmp<E>, le: (T, T) -> bool, leftFirst: bool, s: seq<T>) {
    forall x, y :: x in s && y in s ==>
      !cmp(x, y).Fail? && (cmp(x, y).Greater? <==> if leftFirst then !le(x, y) else le(y, x))
  }

  ghost predicate SortedBy<T>(le: (T, T) -> bool, s: seq<T>) {
    forall i, j :: 0 <= i < j < |s| ==> le(s[i], s[j])
  }

  predicate Tied<T>(le: (T, T) -> bool, x: T, y: T) {
    le(x, y) && le(y, x)
  }

  /** The elements tied with `x`, in order. */
  function Ties<T>(le: (T, T) -> bool, x: T, s: seq<T>): seq<T> {
    if |s| == 0 then [] else (if Tied(le, x, s[0]) then [s[0]] else []) + Ties(le, x, s[1..])
  }

  function Reverse<T>(s: seq<T>): seq<T> {
    if |s| == 0 then [] else Reverse(s[1..]) + [s[0]]
  }

  lemma {:induction false} TiesConcat<T>(le: (T, T) -> bool, x: T, s: seq<T>, t: seq<T>)
    ensures Ties(le, x, s + t) == Ties(le, x, s) + Ties(le, x, t)
  {
    if |s| == 0 {
      assert s + t == t;
    } else {
      TiesConcat(le, x, s[1..], t);
      var first := if Tied(le, x, s[0]) then [s[0]] else [];
      assert (s + t)[1..] == s[1..] + t;
      assert first + (Ties(le, x, s[1..]) + Ties(le, x, t)) == first + Ties(le, x, s[1..]) + Ties(le, x, t);
    }
  }

  lemma {:induction false} ReverseConcat<T>(s: seq<T>, t: seq<T>)
    ensures Reverse(s + t) == Reverse(t) + Reverse(s)
  {
    if |s| == 0 {
      assert s + t == t;
    } else {
      ReverseConcat(s[1..], t);
      assert (s + t)[1..] == s[1..] + t;
    }
  }

  /** Nothing in a sorted run is tied with what lies strictly below its head. */
  lemma {:induction false} NoTiesBelow<T(!new)>(le: (T, T) -> bool, x: T, y: T, s: seq<T>, all: seq<T>)
    requires TotalPreorder(le, all) && Within(s, all) && x in all && y in all
    requires Tied(le, x, y) && forall i :: 0 <= i < |s| ==> !le(s[i], y)
    ensures Ties(le, x, s) == []
  {
    if |s| > 0 {
      NoTiesBelow(le, x, y, s[1..], all);
      assert !Tied(le, x, s[0]);
    }
  }

  lemma AboveHead<T(!new)>(le: (T, T) -> bool, y: T, s: seq<T>, all: seq<T>)
    requires TotalPreorder(le, all) && Within(s, all) && y in all && SortedBy(le, s)
    requires |s| > 0 && !le(s[0], y)
    ensures forall i :: 0 <= i < |s| ==> !le(s[i], y)
  {
    forall i | 0 <= i < |s| ensures !le(s[i], y) {
      if i > 0 {
        assert le(s[0], s[i]);
      }
    }
  }

  lemma {:induction false} MergeSorted<T(!new), E>(
    cmp: (T, T) -> Cmp<E>, le: (T, T) -> bool, leftFirst: bool, acc: seq<T>, l: seq<T>, r: seq<T>, all: seq<T>)
    requires TotalPreorder(le, all) && Fits(cmp, le, leftFirst, all)
    requires Within(acc, all) && Within(l, all) && Within(r, all)
    requires SortedBy(le, acc + l) && SortedBy(le, acc + r)
    ensures var m := Merge(cmp, acc, l, r);
      m.Ok? && SortedBy(le, m.items)
    decreases |l| + |r|
  {
    if |l| > 0 && |r| > 0 {
      if cmp(l[0], r[0]).Greater? {
        PutNext(le, acc, r, l, all);
        MergeSorted(cmp, le, leftFirst, acc + [r[0]], l, r[1..], all);
      } else {
        PutNext(le, acc, l, r, all);
        MergeSorted(cmp, le, leftFirst, acc + [l[0]], l[1..], r, all);
      }
    }
  }

  /** The smaller of two heads can join what is already merged. */
  lemma PutNext<T(!new)>(le: (T, T) -> bool, acc: seq<T>, from: seq<T>, other: seq<T>, all: seq<T>)
    requires TotalPreorder(le, all) && Within(from, all) && Within(other, all)
    requires |from| > 0 && |other| > 0 && le(from[0], other[0])
    requires SortedBy(le, acc + from) && SortedBy(le, acc + other)
    ensures SortedBy(le, acc + [from[0]] + from[1..]) && SortedBy(le, acc + [from[0]] + other)
  {
    assert acc + [from[0]] + from[1..] == acc + from;
    var s := acc + [from[0]] + other;
    var n := |acc|;
    forall i, j | 0 <= i < j < |s| ensures le(s[i], s[j]) {
      if j < n {
        assert le((acc + other)[i], (acc + other)[j]);
      } else if j == n {
        assert le((acc + from)[i], (acc + from)[j]);
      } else if i < n {
        assert le((acc + other)[i], (acc + other)[j - 1]);
      } else if j > n + 1 {
        assert le((acc + other)[n], (acc + other)[j - 1]);
        assert i > n ==> le((acc + other)[i - 1], (acc + other)[j - 1]);
        assert other[0] in other && other[j - n - 1] in other && from[0] in from;
      }
    }
  }

  /** One step of the merge moves a head across the other run's ties only when there are none. */
  lemma TiesCross<T(!new)>(le: (T, T) -> bool, x: T, y: T, other: seq<T>, all: seq<T>)
    requires TotalPreorder(le, all) && Within(other, all) && x in all && y in all && SortedBy(le, other)
    requires |other| > 0 && !le(other[0], y)
    ensures Ties(le, x, [y]) + Ties(le, x, other) == Ties(le, x, other) + Ties(le, x, [y])
  {
    if Tied(le, x, y) {
      AboveHead(le, y, other, all);
      NoTiesBelow(le, x, y, other, all);
    } else {
      assert Ties(le, x, [y]) == [];
    }
  }

  lemma TiesHead<T>(le: (T, T) -> bool, x: T, acc: seq<T>, s: seq<T>)
    requires |s| > 0
    ensures Ties(le, x, acc + [s[0]]) == Ties(le, x, acc) + Ties(le, x, [s[0]])
    ensures Ties(le, x, s) == Ties(le, x, [s[0]]) + Ties(le, x, s[1..])
  {
    TiesConcat(le, x, acc, [s[0]]);
    TiesConcat(le, x, [s[0]], s[1..]);
    assert s == [s[0]] + s[1..];
  }

  function Joined<T>(leftFirst: bool, l: seq<T>, r: seq<T>): seq<T> {
    if leftFirst then l + r else r + l
  }

  lemma {:induction false} MergeTies<T(!new), E>(
    cmp: (T, T) -> Cmp<E>, le: (T, T) -> bool, leftFirst: bool, x: T, acc: seq<T>, l: seq<T>, r: seq<T>, all: seq<T>)
    requires TotalPreorder(le, all) && Fits(cmp, le, leftFirst, all) && x in all
    requires Within(l, all) && Within(r, all) && SortedBy(le, l) && SortedBy(le, r)
    requires Merge(cmp, acc, l, r).Ok?
    ensures Ties(le, x, Merge(cmp, acc, l, r).items)
         == Ties(le, x, acc) + Joined(leftFirst, Ties(le, x, l), Ties(le, x, r))
    decreases |l| + |r|
  {
    if |l| == 0 {
      TiesConcat(le, x, acc, r);
      assert Joined(leftFirst, [], Ties(le, x, r)) == Ties(le, x, r);
    } else if |r| == 0 {
      TiesConcat(le, x, acc, l);
      assert Joined(leftFirst, Ties(le, x, l), []) == Ties(le, x, l);
    } else if cmp(l[0], r[0]).Greater? {
      MergeTies(cmp, le, leftFirst, x, acc + [r[0]], l, r[1..], all);
      TiesHead(le, x, acc, r);
      if leftFirst {
        TiesCross(le, x, r[0], l, all);
      }
      Shuffle(leftFirst, false, Ties(le, x, acc), Ties(le, x, [r[0]]), Ties(le, x, r[1..]), Ties(le, x, l));
    } else {
      MergeTies(cmp, le, leftFirst, x, acc + [l[0]], l[1..], r, all);
      TiesHead(le, x, acc, l);
      if !leftFirst {
        TiesCross(le, x, l[0], r, all);
      }
      Shuffle(leftFirst, true, Ties(le, x, acc), Ties(le, x, [l[0]]), Ties(le, x, l[1..]), Ties(le, x, r));
    }
  }

  /** Moving a head from one run to the merged part, as sequences. */
  lemma Shuffle<T>(leftFirst: bool, fromLeft: bool, acc: seq<T>, head: seq<T>, rest: seq<T>, other: seq<T>)
    requires leftFirst == fromLeft || head + other == other + head
    ensures fromLeft ==> acc + head + Joined(leftFirst, rest, other) == acc + Joined(leftFirst, head + rest, other)
    ensures !fromLeft ==> acc + head + Joined(leftFirst, other, rest) == acc + Joined(leftFirst, other, head + rest)
  {
    if leftFirst == fromLeft {
      assert acc + head + (rest + other) == acc + ((head + rest) + other);
    } else {
      assert acc + head + (other + rest) == acc + ((head + other) + rest);
      assert (other + head) + rest == other + (head + rest);
    }
  }

  function InOrder<T>(leftFirst: bool, s: seq<T>): seq<T> {
    if leftFirst then s else Reverse(s)
  }

  lemma ShortTies<T>(le: (T, T) -> bool, x: T, s: seq<T>)
    requires |s| <= 1
    ensures Reverse(Ties(le, x, s)) == Ties(le, x, s)
  {
    var t := Ties(le, x, s);
    if |t| > 0 {
      assert Ties(le, x, s[1..]) == [];
      assert t[1..] == [];
      assert Reverse(t) == [] + [t[0]];
    }
  }

  /** The general theorem: sorted, with every group of ties in input order or in its reverse. */
  lemma {:induction false} SortOrders<T(!new), E>(
    cmp: (T, T) -> Cmp<E>, le: (T, T) -> bool, leftFirst: bool, x: T, s: seq<T>, all: seq<T>)
    requires TotalPreorder(le, all) && Fits(cmp, le, leftFirst, all) && Within(s, all) && x in all
    ensures var t := Sort(cmp, s);
      t.Ok? && SortedBy(le, t.items) && Ties(le, x, t.items) == InOrder(leftFirst, Ties(le, x, s))
    decreases |s|
  {
    if |s| <= 1 {
      ShortTies(le, x, s);
    } else {
      var a, b := s[..|s| / 2], s[|s| / 2..];
      SortOrders(cmp, le, leftFirst, x, a, all);
      SortOrders(cmp, le, leftFirst, x, b, all);
      SortedWithin(cmp, a);
      SortedWithin(cmp, b);
      MergeHalves(cmp, le, leftFirst, x, Sort(cmp, a).items, Sort(cmp, b).items, all);
      assert s == a + b;
      TiesConcat(le, x, a, b);
      ReverseConcat(Ties(le, x, a), Ties(le, x, b));
    }
  }

  lemma MergeHalves<T(!new), E>(
    cmp: (T, T) -> Cmp<E>, le: (T, T) -> bool, leftFirst: bool, x: T, l: seq<T>, r: seq<T>, all: seq<T>)
    requires TotalPreorder(le, all) && Fits(cmp, le, leftFirst, all) && x in all
    requires Within(l, all) && Within(r, all) && SortedBy(le, l) && SortedBy(le, r)
    ensures var m := Merge(cmp, [], l, r);
      m.Ok? && SortedBy(le, m.items) && Ties(le, x, m.items) == Joined(leftFirst, Ties(le, x, l), Ties(le, x, r))
  {
    assert [] + l == l && [] + r == r;
    MergeSorted(cmp, le, leftFirst, [], l, r, all);
    MergeTies(cmp, le, leftFirst, x, [], l, r, all);
  }

  /** A three-way comparator: `x` may come before `y` unless it compares greater. */
  function Ascends<T, E>(cmp: (T, T) -> Cmp<E>): (T, T) -> bool {
    (x, y) => !cmp(x, y).Greater?
  }

  /** Under a total preorder `sort` is sorted and stable. */
  lemma StableSort<T(!new), E>(cmp: (T, T) -> Cmp<E>, s: seq<T>, x: T)
    requires forall y, z :: y in s && z in s ==> !cmp(y, z).Fail?
    requires TotalPreorder(Ascends(cmp), s) && x in s
    ensures var t := Sort(cmp, s);
      t.Ok? && SortedBy(Ascends(cmp), t.items) && Ties(Ascends(cmp), x, t.items) == Ties(Ascends(cmp), x, s)
  {
    SortOrders(cmp, Ascends(cmp), true, x, s, s);
  }

  predicate IsNumber(v: Reply) {
    v.LongReply? || v.DoubleReply?
  }

  /** How `sort` reads a reply: the sign of a number, true as "less" and false as "greater"; anything else is
      an error. */
  lemma ReplyRead(n: int, x: real)
    ensures Interpret(LongReply(n)) == if n < 0 then Less else if n == 0 then Equal else Greater
    ensures Interpret(DoubleReply(Real(x))) == if x < 0.0 then Less else if x == 0.0 then Equal else Greater
    ensures Interpret(DoubleReply(NaN)) == Equal
    ensures Interpret(BoolReply(true)) == Less && Interpret(BoolReply(false)) == Greater
    ensures Interpret(OtherReply).Fail?
  {
  }

  /** So a comparator that answers with neither number nor boolean fails every sort of two elements or more. */
  lemma {:induction false} OtherFails<T>(c: (T, T) -> Reply, s: seq<T>)
    requires forall x, y :: c(x, y) == OtherReply
    ensures Sort(ByReply(c), s).Ok? <==> |s| <= 1
    decreases |s|
  {
    if |s| > 1 {
      OtherFails(c, s[..|s| / 2]);
      OtherFails(c, s[|s| / 2..]);
      if |s| == 2 {
        var l, r := s[..1], s[1..];
        assert Sort(ByReply(c), l) == Ok(l) && Sort(ByReply(c), r) == Ok(r);
        assert ByReply(c)(l[0], r[0]).Fail?;
      }
    }
  }

  /** NaN counts as zero: it is neither negative nor positive. */
  predicate AtMostZero(v: Reply) {
    match v
    case LongReply(n) => n <= 0
    case DoubleReply(d) => d.NaN? || d.x <= 0.0
    case _ => false
  }

  /** The comparator `sort` builds from a Clojure comparator such as `compare`. */
  function ByReply<T>(c: (T, T) -> Reply): (T, T) -> Cmp<string> {
    (x, y) => Interpret(c(x, y))
  }

  function NotGreater<T>(c: (T, T) -> Reply): (T, T) -> bool {
    (x, y) => AtMostZero(c(x, y))
  }

  /** With numeric replies `sort` is sorted and stable for the order "at most zero". */
  lemma NumberSort<T(!new)>(c: (T, T) -> Reply, s: seq<T>, x: T)
    requires forall y, z :: y in s && z in s ==> IsNumber(c(y, z))
    requires TotalPreorder(NotGreater(c), s) && x in s
    ensures var t := Sort(ByReply(c), s);
      t.Ok? && SortedBy(NotGreater(c), t.items) && Ties(NotGreater(c), x, t.items) == Ties(NotGreater(c), x, s)
  {
    SortOrders(ByReply(c), NotGreater(c), true, x, s, s);
  }

  /** The comparator `sort` builds from a Clojure predicate. */
  function ByPredicate<T>(p: (T, T) -> bool): (T, T) -> Cmp<string> {
    (x, y) => Interpret(BoolReply(p(x, y)))
  }

  ghost predicate StrictWeakOrder<T(!new)>(p: (T, T) -> bool, s: seq<T>) {
    && (forall x :: x in s ==> !p(x, x))
    && (forall x, y, z :: x in s && y in s && z in s && p(x, y) && p(y, z) ==> p(x, z))
    && (forall x, y, z :: x in s && y in s && z in s && p(x, z) ==> p(x, y) || p(y, z))
  }

  /** `x` may come before `y` unless the predicate puts `y` first. */
  function NotAfter<T>(p: (T, T) -> bool): (T, T) -> bool {
    (x, y) => !p(y, x)
  }

  /** Under a strict predicate such as `<`, `sort` is sorted and reverses every group of ties. */
  lemma PredicateSort<T(!new)>(p: (T, T) -> bool, s: seq<T>, x: T)
    requires StrictWeakOrder(p, s) && x in s
    ensures var t := Sort(ByPredicate(p), s);
      t.Ok? && SortedBy(NotAfter(p), t.items) && Ties(NotAfter(p), x, t.items) == Reverse(Ties(NotAfter(p), x, s))
  {
    SortOrders(ByPredicate(p), NotAfter(p), false, x, s, s);
  }

  /** Comparisons in the left half come first: an error there is the answer, whatever the right half holds. */
  lemma LeftErrorFirst<T, E>(cmp: (T, T) -> Cmp<E>, a: seq<T>, b: seq<T>)
    requires |a| <= |b| <= |a| + 1
    ensures Sort(cmp, a).Err? ==> Sort(cmp, a + b) == Sort(cmp, a)
    ensures Sort(cmp, a).Ok? && Sort(cmp, b).Err? ==> Sort(cmp, a + b) == Sort(cmp, b)
  {
    var s := a + b;
    assert s[..|s| / 2] == a && s[|s| / 2..] == b;
  }
}
