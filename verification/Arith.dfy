/**
 `+`, `-`, `*` and their promoting forms on the exact part of the numeric
 tower: machine integers, big integers and ratios. Decimals and doubles only
 appear as the categories that take an argument list out of the exact part.
 */
module Arith {
  import opened Common
  import opened Rational

  datatype Num = Long(n: I64) | BigInt(b: int) | Ratio(q: Rational) | BigDecimal | Double | NotANumber

  /** In promotion order. */
  datatype Cat = LongCat | BigIntCat | RatioCat | BigDecimalCat | DoubleCat

  datatype Result = Ok(v: Num) | WrongType | ArityError | Inexact

  datatype Op = Plus | Minus | Times

  function Rank(c: Cat): nat {
    match c
    case LongCat => 0
    case BigIntCat => 1
    case RatioCat => 2
    case BigDecimalCat => 3
    case DoubleCat => 4
  }

  function Category(v: Num): Option<Cat> {
    match v
    case Long(_) => Some(LongCat)
    case BigInt(_) => Some(BigIntCat)
    case Ratio(_) => Some(RatioCat)
    case BigDecimal => Some(BigDecimalCat)
    case Double => Some(DoubleCat)
    case NotANumber => None
  }

  /** The widest category among the arguments, or nothing when one is not a number. */
  ghost predicate IsWidest(args: seq<Num>, c: Option<Cat>) {
    match c
    case None => exists i :: 0 <= i < |args| && args[i].NotANumber?
    case Some(cat) =>
      && (forall i :: 0 <= i < |args| ==> !args[i].NotANumber? && Rank(Category(args[i]).value) <= Rank(cat))
      && (cat == LongCat || exists i :: 0 <= i < |args| && Category(args[i]) == c)
  }

  method WidestCategory(args: seq<Num>) returns (c: Option<Cat>)
    ensures IsWidest(args, c)
  {
    var cat := LongCat;
    for i := 0 to |args|
      invariant IsWidest(args[..i], Some(cat))
    {
      var ci := Category(args[i]);
      assert args[..i + 1] == args[..i] + [args[i]];
      if ci.None? {
        return None;
      }
      if Rank(ci.value) > Rank(cat) {
        cat := ci.value;
        assert Category(args[..i + 1][i]) == Some(cat);
      } else if cat != LongCat {
        var k :| 0 <= k < i && Category(args[..i][k]) == Some(cat);
        assert Category(args[..i + 1][k]) == Some(cat);
      }
    }
    assert args[..|args|] == args;
    return Some(cat);
  }

  // ---- Exact meaning ----

  predicate Exact(v: Num) {
    v.Long? || v.BigInt? || v.Ratio?
  }

  function Val(v: Num): real
    requires Exact(v)
  {
    match v
    case Long(n) => n as real
    case BigInt(b) => b as real
    case Ratio(q) => Real(q)
  }

  function Apply(op: Op, x: real, y: real): real {
    match op
    case Plus => x + y
    case Minus => x - y
    case Times => x * y
  }

  predicate AllExact(args: seq<Num>) {
    forall i :: 0 <= i < |args| ==> Exact(args[i])
  }

  /** The mathematical result: `start` combined with the arguments from left to right. */
  function Fold(op: Op, start: real, args: seq<Num>): real
    requires AllExact(args)
  {
    if args == [] then start
    else Apply(op, Fold(op, start, args[..|args| - 1]), Val(args[|args| - 1]))
  }

  predicate Fits(n: int) {
    I64_MIN <= n <= I64_MAX
  }

  predicate IsInteger(x: real) {
    x.Floor as real == x
  }

  predicate InRange(x: real) {
    I64_MIN as real <= x <= I64_MAX as real
  }

  /** Which representation a result takes, as a matter of its value and the arguments' category. */
  ghost predicate Represents(v: Num, cat: Cat, x: real) {
    && Exact(v) && Val(v) == x
    && match cat {
      case LongCat => !v.Ratio? && (v.Long? <==> InRange(x))
      case BigIntCat => v.BigInt?
      case _ => (v.Ratio? <==> !IsInteger(x)) && (v.Long? <==> IsInteger(x) && InRange(x))
    }
  }

  // ---- Conversions and simplification ----

  /** Truncates a ratio toward zero: lossless on integers only. */
  function AsBigInt(v: Num): Option<int> {
    match v
    case Long(n) => Some(n)
    case BigInt(b) => Some(b)
    case Ratio(q) => Some(if q.num < 0 then -(-q.num / q.den) else q.num / q.den)
    case _ => None
  }

  function AsRatio(v: Num): (r: Option<Rational>)
    ensures Exact(v) ==> r.Some? && Real(r.value) == Val(v)
  {
    match v
    case Long(n) => Some(Whole(n))
    case BigInt(b) => Some(Whole(b))
    case Ratio(q) => Some(q)
    case _ => None
  }

  function SimplifyBigInt(n: int): (v: Num)
    ensures Represents(v, LongCat, n as real)
  {
    if Fits(n) then Long(n) else BigInt(n)
  }

  function SimplifyRatio(q: Rational): (v: Num)
    ensures Represents(v, RatioCat, Real(q))
  {
    if q.den == 1 then
      assert Real(q) == q.num as real;
      SimplifyBigInt(q.num)
    else
      assert !IsInteger(Real(q)) by {
        if IsInteger(Real(q)) {
          IntegerValue(q, Real(q).Floor);
        }
      }
      Ratio(q)
  }

  // ---- The accumulating loops ----

  function ApplyInt(op: Op, x: int, y: int): (r: int)
    ensures r as real == Apply(op, x as real, y as real)
  {
    match op
    case Plus => x + y
    case Minus => x - y
    case Times => x * y
  }

  function ApplyRatio(op: Op, x: Rational, y: Rational): (r: Rational)
    ensures Real(r) == Apply(op, Real(x), Real(y))
  {
    match op
    case Plus => AddRatio(x, y)
    case Minus => SubRatio(x, y)
    case Times => MulRatio(x, y)
  }

  function AddRatio(x: Rational, y: Rational): (r: Rational)
    ensures Real(r) == Apply(Plus, Real(x), Real(y))
  {
    Add(x, y)
  }

  function SubRatio(x: Rational, y: Rational): (r: Rational)
    ensures Real(r) == Apply(Minus, Real(x), Real(y))
  {
    Add(x, Neg(y))
  }

  function MulRatio(x: Rational, y: Rational): (r: Rational)
    ensures Real(r) == Apply(Times, Real(x), Real(y))
  {
    Mul(x, y)
  }

  predicate AllLong(args: seq<Num>) {
    forall i :: 0 <= i < |args| ==> args[i].Long?
  }

  predicate AllWhole(args: seq<Num>) {
    forall i :: 0 <= i < |args| ==> args[i].Long? || args[i].BigInt?
  }

  lemma FoldStep(op: Op, start: real, args: seq<Num>, i: nat)
    requires AllExact(args) && i < |args|
    ensures Fold(op, start, args[..i + 1]) == Apply(op, Fold(op, start, args[..i]), Val(args[i]))
  {
    assert args[..i + 1][..i] == args[..i];
  }

  method BigIntLoop(op: Op, start: int, args: seq<Num>) returns (r: int)
    requires AllWhole(args)
    ensures r as real == Fold(op, start as real, args)
  {
    r := start;
    for i := 0 to |args|
      invariant r as real == Fold(op, start as real, args[..i])
    {
      FoldStep(op, start as real, args, i);
      r := ApplyInt(op, r, AsBigInt(args[i]).value);
    }
    assert args[..|args|] == args;
  }

  method RatioLoop(op: Op, start: Rational, args: seq<Num>) returns (r: Rational)
    requires AllExact(args)
    ensures Real(r) == Fold(op, Real(start), args)
  {
    r := start;
    for i := 0 to |args|
      invariant Real(r) == Fold(op, Real(start), args[..i])
    {
      FoldStep(op, Real(start), args, i);
      r := ApplyRatio(op, r, AsRatio(args[i]).value);
    }
    assert args[..|args|] == args;
  }

  lemma {:induction false} FoldSplit(op: Op, start: real, args: seq<Num>, i: nat)
    requires AllExact(args) && i <= |args|
    ensures Fold(op, start, args) == Fold(op, Fold(op, start, args[..i]), args[i..])
    decreases |args| - i
  {
    if i == |args| {
      assert args[..i] == args;
    } else {
      FoldSplit(op, start, args[..|args| - 1], i);
      assert args[..|args| - 1][..i] == args[..i];
      assert args[..|args| - 1][i..] == args[i..][..|args| - 1 - i];
    }
  }

  /** Checked machine arithmetic; the first overflow hands the rest to big integers. */
  method LongLoop(op: Op, start: I64, args: seq<Num>) returns (v: Num)
    requires AllLong(args)
    ensures Represents(v, LongCat, Fold(op, start as real, args))
  {
    var r: I64 := start;
    for i := 0 to |args|
      invariant r as real == Fold(op, start as real, args[..i])
    {
      FoldStep(op, start as real, args, i);
      var s := ApplyInt(op, r, args[i].n);
      if Fits(s) {
        r := s;
      } else {
        var big := BigIntLoop(op, s, args[i + 1..]);
        FoldSplit(op, start as real, args, i + 1);
        return SimplifyBigInt(big);
      }
    }
    assert args[..|args|] == args;
    return Long(r);
  }

  // ---- The operations ----

  /** What every operation owes its caller, given the mathematical value of the arguments. */
  ghost predicate Answers(args: seq<Num>, r: Result, exact: real) {
    if exists i :: 0 <= i < |args| && args[i].NotANumber? then r == WrongType
    else if !AllExact(args) then r == Inexact
    else r.Ok? && exists cat :: IsWidest(args, Some(cat)) && Represents(r.v, cat, exact)
  }

  function Total(op: Op, start: real, args: seq<Num>): real {
    if AllExact(args) then Fold(op, start, args) else start
  }

  method Accumulate(op: Op, start: I64, args: seq<Num>, cat: Cat) returns (r: Result)
    requires IsWidest(args, Some(cat))
    ensures AllExact(args) ==> r.Ok? && Represents(r.v, cat, Fold(op, start as real, args))
    ensures !AllExact(args) ==> r == Inexact
  {
    match cat {
      case DoubleCat =>
        r := Inexact;
      case BigDecimalCat =>
        r := Inexact;
      case RatioCat =>
        var q := RatioLoop(op, Whole(start), args);
        r := Ok(SimplifyRatio(q));
      case BigIntCat =>
        var n := BigIntLoop(op, start, args);
        r := Ok(BigInt(n));
      case LongCat =>
        var v := LongLoop(op, start, args);
        r := Ok(v);
    }
  }

  method AddNums(args: seq<Num>) returns (r: Result)
    ensures Answers(args, r, Total(Plus, 0.0, args))
  {
    var cat := WidestCategory(args);
    if cat.None? {
      return WrongType;
    }
    r := Accumulate(Plus, 0, args, cat.value);
  }

  method MulNums(args: seq<Num>) returns (r: Result)
    ensures Answers(args, r, Total(Times, 1.0, args))
  {
    var cat := WidestCategory(args);
    if cat.None? {
      return WrongType;
    }
    r := Accumulate(Times, 1, args, cat.value);
  }

  /** Unary minus narrows a big integer that fits a machine integer; no other operation does. */
  method Negate(v: Num) returns (r: Result)
    ensures v.NotANumber? ==> r == WrongType
    ensures v.BigDecimal? || v.Double? ==> r == Inexact
    ensures Exact(v) ==> r.Ok? && Represents(r.v, RatioCat, -Val(v))
  {
    match v {
      case Long(n) =>
        var m: int := -(n as int);
        r := Ok(if Fits(m) then Long(m) else BigInt(m));
        assert IsInteger(m as real);
      case BigInt(b) =>
        r := Ok(SimplifyBigInt(-b));
        assert IsInteger((-b) as real);
      case Ratio(q) =>
        r := Ok(SimplifyRatio(Neg(q)));
      case BigDecimal => r := Inexact;
      case Double => r := Inexact;
      case NotANumber => r := WrongType;
    }
  }

  /** Subtraction starts from its first argument; with that one alone it negates. */
  method SubNums(args: seq<Num>) returns (r: Result)
    ensures |args| == 0 ==> r == ArityError
    ensures |args| == 1 && Exact(args[0]) ==> r.Ok? && Represents(r.v, RatioCat, -Val(args[0]))
    ensures |args| == 1 && !Exact(args[0]) ==> r == if args[0].NotANumber? then WrongType else Inexact
    ensures |args| > 1 ==>
      Answers(args, r, if AllExact(args) then Fold(Minus, Val(args[0]), args[1..]) else 0.0)
  {
    if |args| == 0 {
      return ArityError;
    }
    if |args| == 1 {
      r := Negate(args[0]);
      return;
    }
    var cat := WidestCategory(args);
    if cat.None? {
      return WrongType;
    }
    r := SubFrom(args, cat.value);
  }

  method SubFrom(args: seq<Num>, cat: Cat) returns (r: Result)
    requires |args| > 1 && IsWidest(args, Some(cat))
    ensures AllExact(args) ==> r.Ok? && Represents(r.v, cat, Fold(Minus, Val(args[0]), args[1..]))
    ensures !AllExact(args) ==> r == Inexact
  {
    match cat {
      case DoubleCat =>
        r := Inexact;
      case BigDecimalCat =>
        r := Inexact;
      case RatioCat =>
        var q := RatioLoop(Minus, AsRatio(args[0]).value, args[1..]);
        r := Ok(SimplifyRatio(q));
      case BigIntCat =>
        var n := BigIntLoop(Minus, AsBigInt(args[0]).value, args[1..]);
        r := Ok(BigInt(n));
      case LongCat =>
        var v := LongLoop(Minus, args[0].n, args[1..]);
        r := Ok(v);
    }
  }

  // ---- The promoting forms +', -' and *' ----

  /** On machine integers the promoting forms call a result big above this bound, short of the machine maximum. */
  const QUOTE_MAX: int := 0x7F00_0000_0000_0000

  function QuoteResult(n: int): (v: Num)
    ensures Quoted(v, n as real)
  {
    if n > QUOTE_MAX || n < I64_MIN then BigInt(n) else Long(n)
  }

  ghost predicate Quoted(v: Num, x: real) {
    Exact(v) && Val(v) == x && !v.Ratio? && (v.Long? <==> I64_MIN as real <= x <= QUOTE_MAX as real)
  }

  method AddQuote(args: seq<Num>) returns (r: Result)
    ensures AllLong(args) ==> r.Ok? && Quoted(r.v, Fold(Plus, 0.0, args))
    ensures !AllLong(args) ==> Answers(args, r, Total(Plus, 0.0, args))
  {
    var cat := WidestCategory(args);
    if cat == None {
      r := WrongType;
    } else if cat == Some(DoubleCat) {
      r := Inexact;
    } else if cat == Some(LongCat) {
      var n := BigIntLoop(Plus, 0, args);
      r := Ok(QuoteResult(n));
    } else {
      r := AddNums(args);
    }
  }

  method MulQuote(args: seq<Num>) returns (r: Result)
    ensures AllLong(args) ==> r.Ok? && Quoted(r.v, Fold(Times, 1.0, args))
    ensures !AllLong(args) ==> Answers(args, r, Total(Times, 1.0, args))
  {
    var cat := WidestCategory(args);
    if cat == None {
      r := WrongType;
    } else if cat == Some(DoubleCat) {
      r := Inexact;
    } else if cat == Some(LongCat) {
      var n := BigIntLoop(Times, 1, args);
      r := Ok(QuoteResult(n));
    } else {
      r := MulNums(args);
    }
  }

  /** With one machine integer the promoting minus returns that integer: its negation only when it is zero. */
  method SubQuote(args: seq<Num>) returns (r: Result)
    ensures args == [] ==> r == ArityError
    ensures args != [] && AllLong(args) ==> r.Ok? && Quoted(r.v, Fold(Minus, Val(args[0]), args[1..]))
    ensures |args| == 1 && args[0].Long? ==> (Val(r.v) == -Val(args[0]) <==> args[0].n == 0)
    ensures |args| == 1 && (args[0].BigInt? || args[0].Ratio?) ==> r.Ok? && Represents(r.v, RatioCat, -Val(args[0]))
    ensures |args| == 1 && !Exact(args[0]) ==> r == if args[0].NotANumber? then WrongType else Inexact
    ensures |args| > 1 && !AllLong(args) ==>
      Answers(args, r, if AllExact(args) then Fold(Minus, Val(args[0]), args[1..]) else 0.0)
  {
    var cat := WidestCategory(args);
    if cat == None {
      r := WrongType;
    } else if cat == Some(DoubleCat) && args != [] {
      r := Inexact;
    } else if cat == Some(LongCat) && args != [] {
      var n := BigIntLoop(Minus, args[0].n, args[1..]);
      r := Ok(QuoteResult(n));
    } else {
      r := SubNums(args);
    }
  }

  // ---- Consequences ----

  /** Sums and products of machine integers are machine integers exactly when they fit, wherever an overflow
      happened. */
  lemma LongWhenFits(args: seq<Num>, r: Result, exact: real)
    requires AllLong(args) && Answers(args, r, exact)
    ensures r.Ok? && Val(r.v) == exact && (r.v.Long? <==> InRange(exact))
  {
    var cat :| IsWidest(args, Some(cat)) && Represents(r.v, cat, exact);
    assert cat == LongCat;
  }

  /** In the category chosen, converting an argument to a big integer loses nothing. */
  lemma ConversionsLossless(args: seq<Num>, cat: Cat, i: nat)
    requires IsWidest(args, Some(cat)) && (cat == LongCat || cat == BigIntCat) && i < |args|
    ensures Exact(args[i]) && AsBigInt(args[i]).Some? && AsBigInt(args[i]).value as real == Val(args[i])
  {
  }

  /** A big integer is narrowed by unary minus and by nothing else: negating it equals subtracting it from zero
      only in value. */
  lemma NegationNarrows(b: int, neg: Result, sub: Result)
    requires Fits(-b)
    requires neg.Ok? && Represents(neg.v, RatioCat, -(b as real))
    requires Answers([Long(0), BigInt(b)], sub, -(b as real))
    ensures neg.v == Long(-b) && sub == Ok(BigInt(-b))
  {
    var args := [Long(0), BigInt(b)];
    assert Category(args[1]) == Some(BigIntCat);
    assert AllExact(args);
    var cat :| IsWidest(args, Some(cat)) && Represents(sub.v, cat, -(b as real));
    assert Rank(Category(args[1]).value) <= Rank(cat);
    assert cat == BigIntCat;
    assert IsInteger((-b) as real);
  }

  /** Of the results that fit, the promoting forms keep as a machine integer those up to their own bound. */
  lemma QuoteWhenFits(n: int, v: Num)
    requires Fits(n) && Quoted(v, n as real)
    ensures v.Long? <==> n <= QUOTE_MAX
    ensures v == if v.Long? then Long(n) else BigInt(n)
  {
  }

  /** The bound itself: 0x7F00000000000000 stays a machine integer, the next one does not. */
  lemma QuoteBound(at: Num, next: Num, least: Num, below: Num)
    requires Quoted(at, 9151314442816847872.0) && Quoted(next, 9151314442816847873.0)
    requires Quoted(least, -9223372036854775808.0) && Quoted(below, -9223372036854775809.0)
    ensures at == Long(9151314442816847872) && next == BigInt(9151314442816847873)
    ensures least == Long(-9223372036854775808) && below == BigInt(-9223372036854775809)
  {
    assert 9151314442816847872.0 == 9151314442816847872 as real && 9151314442816847873.0 == 9151314442816847873 as real;
  }

  /** So the greatest machine integer is promoted by `+'`, `-'` and `*'`, though it fits; and `(-' 1)` is 1. */
  lemma PromotedTooSoon(sum: Num, diff: Num, prod: Num, neg: Num)
    requires Quoted(sum, Fold(Plus, 0.0, [Long(I64_MAX)]))
    requires Quoted(diff, Fold(Minus, I64_MAX as real, [Long(0)]))
    requires Quoted(prod, Fold(Times, 1.0, [Long(I64_MAX)]))
    requires Quoted(neg, Fold(Minus, 1.0, []))
    ensures sum == diff == prod == BigInt(I64_MAX) && Fits(I64_MAX) && neg == Long(1)
  {
    var max, zero := [Long(I64_MAX)], [Long(0)];
    assert max[..0] == [] && zero[..0] == [];
    assert Val(max[0]) == I64_MAX as real && Val(zero[0]) == 0.0;
    assert Fold(Plus, 0.0, max) == Fold(Minus, I64_MAX as real, zero) == Fold(Times, 1.0, max) == I64_MAX as real;
    QuoteWhenFits(I64_MAX, sum);
    QuoteWhenFits(I64_MAX, diff);
    QuoteWhenFits(I64_MAX, prod);
    QuoteWhenFits(1, neg);
  }

  /** The categories from narrowest to widest: each is the widest of itself and those before it. */
  lemma CategoryOrder(n: I64, b: int, q: Rational, c: Option<Cat>)
    ensures IsWidest([Long(n)], c) ==> c == Some(LongCat)
    ensures IsWidest([BigInt(b), Long(n)], c) ==> c == Some(BigIntCat)
    ensures IsWidest([Ratio(q), BigInt(b)], c) ==> c == Some(RatioCat)
    ensures IsWidest([BigDecimal, Ratio(q)], c) ==> c == Some(BigDecimalCat)
    ensures IsWidest([Double, BigDecimal], c) ==> c == Some(DoubleCat)
  {
    var a1, a2, a3, a4 := [BigInt(b), Long(n)], [Ratio(q), BigInt(b)], [BigDecimal, Ratio(q)], [Double, BigDecimal];
    assert a1[0].BigInt? && a2[0].Ratio? && a3[0].BigDecimal? && a4[0].Double?;
  }

  /** A ratio read as a big integer is truncated toward zero. */
  lemma RatioTruncates(q: Rational)
    ensures AsBigInt(Ratio(q)).Some?
    ensures var n := AsBigInt(Ratio(q)).value;
      if q.num >= 0 then n * q.den <= q.num < (n + 1) * q.den else (n - 1) * q.den < q.num <= n * q.den
  {
    var m := if q.num < 0 then -q.num else q.num;
    assert m == q.den * (m / q.den) + m % q.den;
  }

  /** What the three operations compute, argument by argument. */
  lemma FoldMeans(start: real, args: seq<Num>, v: Num)
    requires AllExact(args) && Exact(v)
    ensures AllExact(args + [v])
    ensures Fold(Plus, start, args + [v]) == Fold(Plus, start, args) + Val(v)
    ensures Fold(Minus, start, args + [v]) == Fold(Minus, start, args) - Val(v)
    ensures Fold(Times, start, args + [v]) == Fold(Times, start, args) * Val(v)
    ensures Fold(Plus, start, []) == Fold(Minus, start, []) == Fold(Times, start, []) == start
  {
    assert (args + [v])[..|args|] == args;
  }
}
