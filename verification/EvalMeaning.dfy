/**
 What each form means, in terms of its parts and of values written out: which branch
 an `if` takes, what `let`, `loop` and patterns bind, in which order arguments are
 evaluated and what a call performs, and what a catch clause sees.
 */
module EvalMeaning {
  import opened Common
  import opened EvalSpec

  // ---- if ----

  /** Nil and false take the second branch, every other value the first. */
  lemma IfChooses(w: World, test: Form, yes: Form, no: Form, env: Env, tr: Trace, fuel: nat)
    ensures var (o, tr1) := Eval(w, test, env, tr, fuel);
      Eval(w, If([test, yes, no]), env, tr, fuel) ==
      match o
      case Ok(NilV) => Eval(w, no, env, tr1, fuel)
      case Ok(BoolV(false)) => Eval(w, no, env, tr1, fuel)
      case Ok(_) => Eval(w, yes, env, tr1, fuel)
      case _ => (o, tr1)
  {
  }

  /** A missing branch is nil; an `if` without a test is an error. */
  lemma IfShort(w: World, test: Form, yes: Form, env: Env, tr: Trace, fuel: nat)
    ensures Eval(w, If([test, yes]), env, tr, fuel) == Eval(w, If([test, yes, Lit(NilV)]), env, tr, fuel)
    ensures Eval(w, If([test]), env, tr, fuel) == Eval(w, If([test, Lit(NilV), Lit(NilV)]), env, tr, fuel)
    ensures Eval(w, If([]), env, tr, fuel).0.Failed?
  {
  }

  // ---- Sequences ----

  /** `(do a... b...)`: the second part runs exactly if the first gives a value. */
  lemma {:induction false} DoConcat(w: World, a: seq<Form>, b: seq<Form>, last: Val, env: Env, tr: Trace, fuel: nat)
    ensures var (o, tr1) := EvalBody(w, a, last, env, tr, fuel);
      EvalBody(w, a + b, last, env, tr, fuel) == if o.Ok? then EvalBody(w, b, o.v, env, tr1, fuel) else (o, tr1)
    decreases |a|
  {
    if a == [] {
      assert a + b == b;
    } else {
      assert (a + b)[1..] == a[1..] + b;
      var (r, tr1) := Eval(w, a[0], env, tr, fuel);
      if r.Ok? {
        DoConcat(w, a[1..], b, r.v, env, tr1, fuel);
      }
    }
  }

  /** One form in a `do` is that form; none is nil. */
  lemma DoOne(w: World, f: Form, env: Env, tr: Trace, fuel: nat)
    ensures Eval(w, Do([f]), env, tr, fuel) == Eval(w, f, env, tr, fuel)
    ensures Eval(w, Do([]), env, tr, fuel) == (Ok(NilV), tr)
  {
    assert [f][1..] == [];
    var (o, tr1) := Eval(w, f, env, tr, fuel);
    if o.Ok? {
      assert EvalBody(w, [], o.v, env, tr1, fuel) == (o, tr1);
    }
  }

  /** Arguments are evaluated left to right, and their values kept in order. */
  lemma {:induction false} ArgsConcat(w: World, a: seq<Form>, b: seq<Form>, acc: seq<Val>, env: Env, tr: Trace,
                                      fuel: nat)
    ensures var (r, tr1) := EvalList(w, a, acc, env, tr, fuel);
      EvalList(w, a + b, acc, env, tr, fuel) == if r.Vals? then EvalList(w, b, r.vals, env, tr1, fuel) else (r, tr1)
    decreases |a|
  {
    if a == [] {
      assert a + b == b;
    } else {
      assert (a + b)[1..] == a[1..] + b;
      var (r, tr1) := Eval(w, a[0], env, tr, fuel);
      if r.Ok? {
        ArgsConcat(w, a[1..], b, acc + [r.v], env, tr1, fuel);
      }
    }
  }

  /** One argument gives its value, or stops the list with its outcome. */
  lemma ArgsOne(w: World, f: Form, acc: seq<Val>, env: Env, tr: Trace, fuel: nat)
    ensures var (o, tr1) := Eval(w, f, env, tr, fuel);
      EvalList(w, [f], acc, env, tr, fuel) == (if o.Ok? then Vals(acc + [o.v]) else Stop(o), tr1)
  {
    assert [f][1..] == [];
  }

  // ---- Literal arguments ----

  function Lits(vs: seq<Val>): seq<Form> {
    seq(|vs|, i requires 0 <= i < |vs| => Lit(vs[i]))
  }

  lemma {:induction false} LitsEvaluate(w: World, vs: seq<Val>, acc: seq<Val>, env: Env, tr: Trace, fuel: nat)
    ensures EvalList(w, Lits(vs), acc, env, tr, fuel) == (Vals(acc + vs), tr)
    decreases |vs|
  {
    if vs == [] {
      assert acc + vs == acc;
    } else {
      assert Lits(vs)[1..] == Lits(vs[1..]);
      assert acc + vs == acc + [vs[0]] + vs[1..];
      LitsEvaluate(w, vs[1..], acc + [vs[0]], env, tr, fuel);
    }
  }

  /** A call performs one event with its arguments in order and ends as the world answers it. */
  lemma CallPerforms(w: World, op: nat, vs: seq<Val>, env: Env, tr: Trace, fuel: nat)
    ensures var tr' := tr + [Called(op, vs)];
      Eval(w, Call(op, Lits(vs)), env, tr, fuel).1 == tr' &&
      match w.answer(tr')
      case Returned(v) => Eval(w, Call(op, Lits(vs)), env, tr, fuel).0 == Ok(v)
      case Raised(v) => Eval(w, Call(op, Lits(vs)), env, tr, fuel).0 == Thrown(v)
      case Errored(m) => Eval(w, Call(op, Lits(vs)), env, tr, fuel).0 == Failed(m)
      case OutOfGas => Eval(w, Call(op, Lits(vs)), env, tr, fuel).0 == GasExhausted
      case Exiting(c) => Eval(w, Call(op, Lits(vs)), env, tr, fuel).0 == Exit(c)
      case Interrupt => Eval(w, Call(op, Lits(vs)), env, tr, fuel).0 == Interrupted
  {
    LitsEvaluate(w, vs, [], env, tr, fuel);
    assert [] + vs == vs;
  }

  /** Vectors collect their elements, `recur` hands them on, `await` waits for a future and passes any other
      value through. */
  lemma LiteralForms(w: World, vs: seq<Val>, v: Val, id: nat, env: Env, tr: Trace, fuel: nat)
    ensures Eval(w, VecLit(Lits(vs)), env, tr, fuel) == (Ok(VecV(vs)), tr)
    ensures Eval(w, Recur(Lits(vs)), env, tr, fuel) == (RecurWith(vs), tr)
    ensures Eval(w, Lit(v), env, tr, fuel) == (Ok(v), tr)
    ensures Eval(w, Await([Lit(FutureV(id))]), env, tr, fuel) ==
      (FromAnswer(w.answer(tr + [Awaited(id)])), tr + [Awaited(id)])
    ensures !v.FutureV? ==> Eval(w, Await([Lit(v)]), env, tr, fuel) == (Ok(v), tr)
  {
    LitsEvaluate(w, vs, [], env, tr, fuel);
    assert [] + vs == vs;
  }

  /** A local shadows a global; a name that is neither is an error. */
  lemma SymbolLooksUp(w: World, x: string, v: Val, env: Env, tr: Trace, fuel: nat)
    ensures Eval(w, Sym(x), env[x := v], tr, fuel) == (Ok(v), tr)
    ensures x !in env && x in w.globals ==> Eval(w, Sym(x), env, tr, fuel) == (Ok(w.globals[x]), tr)
    ensures x !in env && x !in w.globals ==> Eval(w, Sym(x), env, tr, fuel).0.Failed?
  {
  }

  // ---- Patterns ----

  lemma {:induction false} BindEachConcat(a: seq<Pattern>, b: seq<Pattern>, items: seq<Val>, k: nat, env: Env)
    requires k <= |a|
    ensures var mid := BindEach(a, items, k, env);
      BindEach(a + b, items, k, env) == if mid.Some? then BindEach(a + b, items, |a|, mid.value) else None
    decreases |a| - k
  {
    if k < |a| {
      assert (a + b)[k] == a[k];
      var e := Bind(a[k], ItemAt(items, k), env);
      if e.Some? {
        BindEachConcat(a, b, items, k + 1, e.value);
      }
    }
  }

  /** A sequential pattern binds its parts in order, each to the item that stands where it stands; past the end
      of a vector, and in anything that is not one, items are nil. */
  lemma PatternBinds(pats: seq<Pattern>, p: Pattern, v: Val, env: Env)
    ensures var item := if v.VecV? && |pats| < |v.items| then v.items[|pats|] else NilV;
      Bind(VecPat(pats + [p]), v, env) ==
      match Bind(VecPat(pats), v, env)
      case None => None
      case Some(env') => Bind(p, item, env')
    ensures Bind(VecPat([]), v, env) == Some(env)
  {
    BindEachConcat(pats, [p], ItemsOf(v), 0, env);
    var mid := BindEach(pats, ItemsOf(v), 0, env);
    if mid.Some? {
      assert (pats + [p])[|pats|] == p;
      var e := Bind(p, ItemAt(ItemsOf(v), |pats|), mid.value);
      assert e.Some? ==> BindEach(pats + [p], ItemsOf(v), |pats| + 1, e.value) == e;
    }
  }

  // ---- let ----

  lemma {:induction false} LetTail(w: World, f: Form, g: Form, k: nat, env: Env, tr: Trace, fuel: nat)
    requires f.Let? && g.Let? && |f.pats| == |f.inits| > 0 && k <= |g.inits|
    requires g == Let(f.pats[1..], f.inits[1..], f.body)
    ensures EvalLet(w, f, k + 1, env, tr, fuel) == EvalLet(w, g, k, env, tr, fuel)
    decreases |g.inits| - k
  {
    if k < |g.inits| {
      var (r, tr1) := Eval(w, g.inits[k], env, tr, fuel);
      if r.Ok? {
        var e := Bind(g.pats[k], r.v, env);
        if e.Some? {
          LetTail(w, f, g, k + 1, e.value, tr1, fuel);
        }
      }
    }
  }

  /** `(let [p e more...] body)` evaluates `e`, and then `(let [more...] body)` with `p` bound to its value. */
  lemma LetBinds(w: World, p: Pattern, e: Form, pats: seq<Pattern>, inits: seq<Form>, body: seq<Form>,
                 env: Env, tr: Trace, fuel: nat)
    requires |pats| == |inits|
    ensures var (o, tr1) := Eval(w, e, env, tr, fuel);
      Eval(w, Let([p] + pats, [e] + inits, body), env, tr, fuel) ==
      if !o.Ok? then (o, tr1)
      else match Bind(p, o.v, env)
        case None => (Failed("unsupported binding pattern"), tr1)
        case Some(env') => Eval(w, Let(pats, inits, body), env', tr1, fuel)
  {
    var f, g := Let([p] + pats, [e] + inits, body), Let(pats, inits, body);
    assert f.pats[1..] == pats && f.inits[1..] == inits;
    var (o, tr1) := Eval(w, e, env, tr, fuel);
    if o.Ok? && Bind(p, o.v, env).Some? {
      LetTail(w, f, g, 0, Bind(p, o.v, env).value, tr1, fuel);
    }
  }

  /** A name is bound to the value; without bindings a `let` is a `do`; with a pattern short it is an error. */
  lemma LetEdges(w: World, x: string, v: Val, pats: seq<Pattern>, inits: seq<Form>, body: seq<Form>,
                 env: Env, tr: Trace, fuel: nat)
    ensures Bind(Name(x), v, env) == Some(env[x := v])
    ensures Eval(w, Let([], [], body), env, tr, fuel) == Eval(w, Do(body), env, tr, fuel)
    ensures |pats| != |inits| ==> Eval(w, Let(pats, inits, body), env, tr, fuel).0.Failed?
    ensures |pats| != |inits| ==> Eval(w, Loop(pats, inits, body), env, tr, fuel).0.Failed?
  {
  }

  // ---- loop ----

  lemma {:induction false} LetOfLits(w: World, f: Form, vs: seq<Val>, k: nat, env: Env, tr: Trace, fuel: nat)
    requires f.Let? && |f.pats| == |f.inits| == |vs| && f.inits == Lits(vs) && k <= |vs|
    ensures EvalLet(w, f, k, env, tr, fuel) ==
      match BindEach(f.pats, vs, k, env)
      case None => (Failed("unsupported binding pattern"), tr)
      case Some(env') => EvalBody(w, f.body, NilV, env', tr, fuel)
    decreases |vs| - k
  {
    if k < |vs| {
      var e := Bind(f.pats[k], vs[k], env);
      if e.Some? {
        LetOfLits(w, f, vs, k + 1, e.value, tr, fuel);
      }
    }
  }

  /** A loop of given values, without its inits. */
  lemma LoopOfLits(w: World, f: Form, vs: seq<Val>, env: Env, tr: Trace, fuel: nat)
    requires f.Loop? && |f.pats| == |vs| && f.inits == Lits(vs)
    ensures Eval(w, f, env, tr, fuel) == EvalLoop(w, f, vs, env, tr, fuel)
  {
    LitsEvaluate(w, vs, [], env, tr, fuel);
    assert [] + vs == vs;
  }

  /** An iteration is a `let` of the values at hand. If it ends in a `recur` of as many values as there are
      bindings, the loop goes on with those; of another number, that is an error; otherwise the loop ends as
      the iteration does. */
  lemma LoopIterates(w: World, pats: seq<Pattern>, vs: seq<Val>, body: seq<Form>, env: Env, tr: Trace, fuel: nat)
    requires |pats| == |vs| && fuel > 0
    ensures var (o, tr1) := Eval(w, Let(pats, Lits(vs), body), env, tr, fuel - 1);
      Eval(w, Loop(pats, Lits(vs), body), env, tr, fuel) ==
      if !o.RecurWith? then (o, tr1)
      else if |o.vals| == |pats| then Eval(w, Loop(pats, Lits(o.vals), body), env, tr1, fuel - 1)
      else (Failed("arity: recur"), tr1)
  {
    var f := Loop(pats, Lits(vs), body);
    LoopOfLits(w, f, vs, env, tr, fuel);
    LetOfLits(w, Let(pats, Lits(vs), body), vs, 0, env, tr, fuel - 1);
    var (o, tr1) := Eval(w, Let(pats, Lits(vs), body), env, tr, fuel - 1);
    if o.RecurWith? && |o.vals| == |pats| {
      var g := Loop(pats, Lits(o.vals), body);
      LoopOfLits(w, g, o.vals, env, tr1, fuel - 1);
      SameLoop(w, f, g, o.vals, env, tr1, fuel - 1);
    }
  }

  /** The inits of a loop matter to its first values only. */
  lemma {:induction false} SameLoop(w: World, f: Form, g: Form, vs: seq<Val>, env: Env, tr: Trace, fuel: nat)
    requires f.Loop? && g.Loop? && f.pats == g.pats && f.body == g.body
    ensures EvalLoop(w, f, vs, env, tr, fuel) == EvalLoop(w, g, vs, env, tr, fuel)
    decreases fuel
  {
    if fuel > 0 && BindEach(f.pats, vs, 0, env).Some? {
      var env' := BindEach(f.pats, vs, 0, env).value;
      var (r, tr1) := EvalBody(w, f.body, NilV, env', tr, fuel - 1);
      if r.RecurWith? && |r.vals| == |f.pats| {
        SameLoop(w, f, g, r.vals, env, tr1, fuel - 1);
      }
    }
  }

  /** The inits of a loop are evaluated in order before anything is bound. */
  lemma LoopInits(w: World, pats: seq<Pattern>, inits: seq<Form>, body: seq<Form>, env: Env, tr: Trace, fuel: nat)
    requires |pats| == |inits|
    ensures var (r, tr1) := EvalList(w, inits, [], env, tr, fuel);
      Eval(w, Loop(pats, inits, body), env, tr, fuel) ==
      if r.Vals? then Eval(w, Loop(pats, Lits(r.vals), body), env, tr1, fuel) else (r.o, tr1)
  {
    var (r, tr1) := EvalList(w, inits, [], env, tr, fuel);
    ValuesCount(w, inits, [], env, tr, fuel);
    if r.Vals? {
      LitsEvaluate(w, r.vals, [], env, tr1, fuel);
      assert [] + r.vals == r.vals;
      SameLoop(w, Loop(pats, inits, body), Loop(pats, Lits(r.vals), body), r.vals, env, tr1, fuel);
    }
  }

  lemma {:induction false} ValuesCount(w: World, forms: seq<Form>, acc: seq<Val>, env: Env, tr: Trace, fuel: nat)
    ensures var r := EvalList(w, forms, acc, env, tr, fuel).0;
      r.Vals? ==> |r.vals| == |acc| + |forms|
    decreases |forms|
  {
    if forms != [] {
      var (r, tr1) := Eval(w, forms[0], env, tr, fuel);
      if r.Ok? {
        ValuesCount(w, forms[1..], acc + [r.v], env, tr1, fuel);
      }
    }
  }

  // ---- catch ----

  predicate NoDot(s: string) {
    forall i :: 0 <= i < |s| ==> s[i] != '.'
  }

  /** A class name counts by what follows its last dot. */
  lemma {:induction false} SegmentAfterDot(p: string, q: string)
    requires NoDot(q)
    ensures LastSegment(p + "." + q) == q && LastSegment(q) == q
    decreases |q|
  {
    if q == "" {
      assert (p + "." + q)[|p + "." + q| - 1] == '.';
    } else {
      var n := |q| - 1;
      SegmentAfterDot(p, q[..n]);
      var s := p + "." + q;
      assert s[..|s| - 1] == p + "." + q[..n] && s[|s| - 1] == q[n];
      assert q == q[..n] + [q[n]];
    }
  }

  /** Five names catch everything, `ExceptionInfo` catches errors with data, and no other name catches. */
  lemma CatchNames(p: string, q: string, v: Val)
    requires NoDot(q)
    ensures CatchMatches(p + "." + q, v) == CatchMatches(q, v)
    ensures CatchMatches(q, v) <==>
      || q == "Object" || q == "Exception" || q == "Throwable" || q == "Error" || q == "default"
      || (q == "ExceptionInfo" && v.ErrorV?)
  {
    SegmentAfterDot(p, q);
  }

  /** A catch-all clause sees a thrown value as it is and an error of the evaluator as an error value, and
      nothing else. */
  lemma CatchSees(w: World, body: seq<Form>, x: string, handler: seq<Form>, env: Env, tr: Trace, fuel: nat)
    ensures var (o, tr1) := EvalBody(w, body, NilV, env, tr, fuel);
      Eval(w, Try(body, [Catch("Exception", x, handler)], []), env, tr, fuel) ==
      match o
      case Thrown(v) => EvalBody(w, handler, NilV, env[x := v], tr1, fuel)
      case Failed(m) => EvalBody(w, handler, NilV, env[x := ErrorV(m)], tr1, fuel)
      case _ => (o, tr1)
  {
    var c := Catch("Exception", x, handler);
    forall v ensures CatchMatches("Exception", v) && FirstMatch([c], 0, v) == Some(0) {
      CatchNames("", "Exception", v);
    }
  }
}
