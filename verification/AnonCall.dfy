/**
 What an expanded `#(...)` does when it is called: the symbols read as references, the
 parameter vector and what it binds, and the references of the body rewritten where
 they stand.
 */
module AnonCall {
  import opened Common
  import opened Decimal
  import opened ReaderConds
  import opened AnonFns

  // ---- Which symbols are references ----

  lemma ShowParses(n: nat)
    ensures AllDigits(Show(n)) && ToDigits(Show(n)) == Digits(n)
  {
  }

  /** A number after the percent sign, with or without a plus sign, is read as that number. */
  lemma WordParses(n: nat)
    requires n <= U64_MAX
    ensures ParseWord(Show(n)) == Some(n) && ParseWord("+" + Show(n)) == Some(n)
  {
    ShowParses(n);
    ValueOfDigits(n);
    var s := Show(n);
    assert IsDigit(s[0]);
    assert ("+" + s)[1..] == s;
  }

  lemma Numbered(s: string, n: nat)
    requires |s| > 0 && s != "&" && ParseWord(s) == Some(n)
    ensures Classify("%" + s) == Arg(n)
  {
    var t := "%" + s;
    assert t[1..] == s && |t| > 1;
    if t == "%1" {
      OneParses();
    }
  }

  /** `%` and `%1` are the first argument, `%n` and `%+n` the n-th, `%&` the rest, and a symbol that starts
      otherwise is no reference. */
  lemma References(n: nat, s: string)
    requires n <= U64_MAX
    ensures Classify("%") == Arg(1) && Classify("%&") == Rest && Classify("") == NotRef
    ensures Classify("%" + Show(n)) == Arg(n) && Classify("%" + ("+" + Show(n))) == Arg(n)
    ensures s != "" && s[0] != '%' ==> Classify(s) == NotRef
  {
    WordParses(n);
    ShowParses(n);
    assert IsDigit(Show(n)[0]) && ("+" + Show(n))[0] == '+';
    Numbered(Show(n), n);
    Numbered("+" + Show(n), n);
  }

  /** After the percent sign come digits, with at most a plus sign before them. */
  lemma NotReferences(s: string)
    requires s != "" && !(s[0] == '+' && |s| > 1) && s != "&" && !AllDigits(s)
    ensures Classify("%" + s) == NotRef
  {
    assert ("%" + s)[1..] == s && IsDigit("1"[0]);
  }

  // ---- What a call binds ----

  datatype Bound<T> = One(x: T) | All(xs: seq<T>)

  /** Parameters take arguments from left to right; the one after `&` takes all that are left. */
  function BindArgs<T>(ps: seq<Form>, args: seq<T>): map<string, Bound<T>> {
    if ps == [] || !ps[0].Symbol? then map[]
    else if ps[0].name == "&" then
      if |ps| > 1 && ps[1].Symbol? then map[ps[1].name := All(args)] else map[]
    else if args == [] then map[]
    else BindArgs(ps[1..], args[1..])[ps[0].name := One(args[0])]
  }

  /** The parameter vector from position `k` on. */
  function ParamsFrom(k: nat, max: nat, rest: bool): seq<Form>
    requires k <= max
  {
    Params(max, rest)[k..]
  }

  lemma ParamsStep(k: nat, max: nat, rest: bool)
    requires k < max
    ensures ParamsFrom(k, max, rest) == [Symbol(ArgName(k + 1))] + ParamsFrom(k + 1, max, rest)
    ensures ArgName(k + 1) != "&" && ArgName(k + 1) != "rest__"
  {
    assert ArgName(k + 1)[0] == 'p' && "&"[0] == '&' && "rest__"[0] == 'r';
  }

  lemma RestBound<T>(max: nat, rest: bool, args: seq<T>)
    ensures BindArgs(ParamsFrom(max, max, rest), args) == if rest then map["rest__" := All(args)] else map[]
  {
    var ps := ParamsFrom(max, max, rest);
    assert ps == if rest then [Symbol("&"), Symbol("rest__")] else [];
  }

  lemma {:induction false} ArgsBound<T>(k: nat, max: nat, rest: bool, args: seq<T>, n: nat)
    requires k <= max && |args| >= max - k
    ensures var env := BindArgs(ParamsFrom(k, max, rest), args);
      && (k < n <= max ==> ArgName(n) in env && env[ArgName(n)] == One(args[n - 1 - k]))
      && (rest ==> "rest__" in env && env["rest__"] == All(args[max - k..]))
    decreases max - k
  {
    if k == max {
      RestBound(max, rest, args);
      assert args[0..] == args;
    } else {
      ParamsStep(k, max, rest);
      ArgsBound(k + 1, max, rest, args[1..], n);
      assert args[1..][max - k - 1..] == args[max - k..];
      if ArgName(n) == ArgName(k + 1) {
        ArgNameInjective(n, k + 1);
      }
    }
  }

  /** The expansion is a function form with a parameter vector and the rewritten body. Called with enough
      arguments, each reference of the body finds its own: `%n` the n-th, `%&` those past the greatest one. */
  lemma CallBinds<T>(body: seq<Form>, args: seq<T>, n: nat) returns (ps: seq<Form>)
    requires |args| >= MaxRef(RefsAll(body))
    ensures ExpandAnonFn(body) == List([Symbol("fn*"), Vector(ps), List(RewriteAll(body))])
    ensures n in RefsAll(body) && n != 0 ==>
      ArgName(n) in BindArgs(ps, args) && BindArgs(ps, args)[ArgName(n)] == One(args[n - 1])
    ensures UsesRestAll(body) ==>
      "rest__" in BindArgs(ps, args) && BindArgs(ps, args)["rest__"] == All(args[MaxRef(RefsAll(body))..])
  {
    var max, rest := MaxRef(RefsAll(body)), UsesRestAll(body);
    ps := ParamsFrom(0, max, rest);
    assert ps == Params(max, rest);
    ArgsBound(0, max, rest, args, n);
  }

  // ---- References are rewritten in their places ----

  /** The symbols of a form in order, not looking inside nested `#(...)`. */
  function Spelled(f: Form): seq<string> {
    match f
    case Symbol(s) => [s]
    case List(v) => SpelledAll(v)
    case Vector(v) => SpelledAll(v)
    case SetForm(v) => SpelledAll(v)
    case MapForm(v) => SpelledAll(v)
    case Sugared(_, inner) => Spelled(inner)
    case Meta(m, inner) => Spelled(m) + Spelled(inner)
    case ReaderCond(_, clauses) => SpelledAll(clauses)
    case _ => []
  }

  function SpelledAll(forms: seq<Form>): seq<string> {
    if forms == [] then [] else SpelledAll(forms[..|forms| - 1]) + Spelled(forms[|forms| - 1])
  }

  function RenameEach(names: seq<string>): seq<string> {
    seq(|names|, i requires 0 <= i < |names| => Rename(names[i]))
  }

  lemma RenameEachJoin(a: seq<string>, b: seq<string>)
    ensures RenameEach(a + b) == RenameEach(a) + RenameEach(b)
  {
  }

  /** The symbols after rewriting are those of the original renamed, one by one. */
  lemma {:induction false} RewriteInPlace(f: Form)
    ensures Spelled(RewriteForm(f)) == RenameEach(Spelled(f))
    decreases f, 1
  {
    match f
    case List(v) => RewriteAllInPlace(v);
    case Vector(v) => RewriteAllInPlace(v);
    case SetForm(v) => RewriteAllInPlace(v);
    case MapForm(v) => RewriteAllInPlace(v);
    case ReaderCond(_, clauses) => RewriteAllInPlace(clauses);
    case _ => RewriteOtherInPlace(f);
  }

  lemma {:induction false} RewriteOtherInPlace(f: Form)
    requires Held(f).None?
    ensures Spelled(RewriteForm(f)) == RenameEach(Spelled(f))
    decreases f, 0
  {
    match f
    case Symbol(s) => assert Spelled(RewriteForm(f)) == [Rename(s)];
    case Sugared(_, inner) => RewriteInPlace(inner);
    case Meta(m, inner) =>
      RewriteInPlace(m);
      RewriteInPlace(inner);
      RenameEachJoin(Spelled(m), Spelled(inner));
    case _ =>
  }

  lemma {:induction false} RewriteAllInPlace(forms: seq<Form>)
    ensures SpelledAll(RewriteAll(forms)) == RenameEach(SpelledAll(forms))
    decreases forms, 0
  {
    if forms != [] {
      var n := |forms| - 1;
      var out := RewriteAll(forms);
      assert out[..|out| - 1] == RewriteAll(forms[..n]);
      RewriteAllInPlace(forms[..n]);
      RewriteInPlace(forms[n]);
      RenameEachJoin(SpelledAll(forms[..n]), Spelled(forms[n]));
    }
  }

  // ---- The recursive expansion ----

  /** Forms are expanded one by one, in their places. */
  lemma {:induction false} EachInPlace(forms: seq<Form>, i: nat)
    requires i < |forms|
    ensures |ExpandAnonEach(forms)| == |forms| && ExpandAnonEach(forms)[i] == ExpandAnon(forms[i])
    decreases |forms|
  {
    var n := |forms| - 1;
    if n > 0 {
      EachInPlace(forms[..n], if i < n then i else 0);
    }
  }

  /** A form without `#(...)` is left alone. */
  lemma {:induction false} AnonUnchanged(f: Form)
    requires AnonCount(f) == 0
    ensures ExpandAnon(f) == f
    decreases f, 1
  {
    match f
    case List(v) => AnonEachUnchanged(v);
    case Vector(v) => AnonEachUnchanged(v);
    case SetForm(v) => AnonEachUnchanged(v);
    case MapForm(v) => AnonEachUnchanged(v);
    case Sugared(_, inner) => AnonUnchanged(inner);
    case Meta(m, inner) =>
      AnonUnchanged(m);
      AnonUnchanged(inner);
    case _ =>
  }

  lemma {:induction false} AnonEachUnchanged(forms: seq<Form>)
    requires AnonCountAll(forms) == 0
    ensures ExpandAnonEach(forms) == forms
    decreases forms, 0
  {
    if forms != [] {
      var n := |forms| - 1;
      AnonEachUnchanged(forms[..n]);
      AnonUnchanged(forms[n]);
      assert forms == forms[..n] + [forms[n]];
    }
  }

  /** Outside `#(...)` the expansion keeps every form what it is and expands its parts, which `EachInPlace`
      says stay in their places; inside a conditional it does nothing. */
  lemma AnonKeepsKind(v: seq<Form>)
    ensures ExpandAnon(List(v)) == List(ExpandAnonEach(v))
    ensures ExpandAnon(Vector(v)) == Vector(ExpandAnonEach(v))
    ensures ExpandAnon(SetForm(v)) == SetForm(ExpandAnonEach(v))
    ensures ExpandAnon(MapForm(v)) == MapForm(ExpandAnonEach(v))
  {
  }

  lemma AnonAround(k: Sugar, m: Form, f: Form)
    ensures ExpandAnon(Sugared(k, f)) == Sugared(k, ExpandAnon(f))
    ensures ExpandAnon(Meta(m, f)) == Meta(ExpandAnon(m), ExpandAnon(f))
  {
  }

  lemma AnonStops(splicing: bool, v: seq<Form>)
    ensures ExpandAnon(ReaderCond(splicing, v)) == ReaderCond(splicing, v)
  {
  }
}
