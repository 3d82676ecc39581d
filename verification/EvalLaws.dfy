/** Laws of the evaluator, for all forms, environments, worlds and traces. */
module EvalLaws {
  import opened Common
  import opened EvalSpec

  /** The signals no catch may see. */
  predicate Control(o: Outcome) {
    o.RecurWith? || o.GasExhausted? || o.Exit? || o.Interrupted?
  }

  // ---- Helpers: one try, unfolded. `EvalSignals` has whole evaluations. ----

  /** A control signal from the body passes every list of catch clauses, and
      whatever `finally` does, as long as it ends. */
  lemma ControlPassesCatch(w: World, f: Form, env: Env, tr: Trace, fuel: nat)
    requires f.Try? && Control(EvalBody(w, f.body, NilV, env, tr, fuel).0)
    requires Eval(w, f, env, tr, fuel).0 != OutOfFuel
    ensures Eval(w, f, env, tr, fuel).0 == EvalBody(w, f.body, NilV, env, tr, fuel).0
  {
  }

  /** `finally` is run exactly once, after body and handler, in the environment of
      the try, and its own outcome changes nothing: the form answers as it does
      without `finally`, and the trace is that of the form without it followed by
      one run of the cleanup. */
  lemma FinallyRunsOnce(w: World, f: Form, env: Env, tr: Trace, fuel: nat)
    requires f.Try? && Eval(w, f, env, tr, fuel).0 != OutOfFuel
    ensures
      var (r, tr1) := Eval(w, f.(fin := []), env, tr, fuel);
      Eval(w, f, env, tr, fuel) == (r, EvalBody(w, f.fin, NilV, env, tr1, fuel).1)
  {
    var g := f.(fin := []);
    var (r, tr1) := EvalBody(w, f.body, NilV, env, tr, fuel);
    assert Eval(w, g, env, tr, fuel) == EvalCatch(w, f.catches, r, env, tr1, fuel);
  }

  /** A raised value is handled by the first clause that matches it, and by no
      other: clauses before and after can be dropped. */
  lemma FirstClauseHandles(w: World, catches: seq<Catch>, k: nat, v: Val, env: Env, tr: Trace, fuel: nat)
    requires k < |catches| && CatchMatches(catches[k].typeName, v)
    requires forall j :: 0 <= j < k ==> !CatchMatches(catches[j].typeName, v)
    ensures EvalCatch(w, catches, Thrown(v), env, tr, fuel) == EvalCatch(w, [catches[k]], Thrown(v), env, tr, fuel)
  {
    assert FirstMatch(catches, 0, v) == Some(k);
    assert FirstMatch([catches[k]], 0, v) == Some(0);
  }

  // ---- Laws ----

  /** A loop answers `recur` only if one of its inits did: its body's never leaves
      it. */
  lemma {:induction false} LoopAbsorbsRecur(w: World, f: Form, vals: seq<Val>, env: Env, tr: Trace, fuel: nat)
    requires f.Loop?
    ensures !EvalLoop(w, f, vals, env, tr, fuel).0.RecurWith?
    decreases fuel
  {
    if fuel > 0 && BindEach(f.pats, vals, 0, env).Some? {
      var env' := BindEach(f.pats, vals, 0, env).value;
      var (r, tr1) := EvalBody(w, f.body, NilV, env', tr, fuel - 1);
      if r.RecurWith? && |r.vals| == |f.pats| {
        LoopAbsorbsRecur(w, f, r.vals, env, tr1, fuel - 1);
      }
    }
  }

  // ---- Fuel ----

  /** An answer reached within some fuel is the answer within any more. */
  lemma {:induction false} FuelIrrelevant(w: World, f: Form, env: Env, tr: Trace, fuel: nat, more: nat)
    requires fuel <= more && Eval(w, f, env, tr, fuel).0 != OutOfFuel
    ensures Eval(w, f, env, tr, more) == Eval(w, f, env, tr, fuel)
    decreases fuel, f, 2
  {
    match f
    case Lit(_) =>
    case Sym(_) =>
    case VecLit(elems) => FuelList(w, elems, [], env, tr, fuel, more);
    case Do(body) => FuelBody(w, body, NilV, env, tr, fuel, more);
    case If(args) =>
      if args != [] {
        FuelIrrelevant(w, args[0], env, tr, fuel, more);
        var (test, tr1) := Eval(w, args[0], env, tr, fuel);
        if test.Ok? {
          var k := if Truthy(test.v) then 1 else 2;
          if k < |args| {
            FuelIrrelevant(w, args[k], env, tr1, fuel, more);
          }
        }
      }
    case Let(pats, inits, _) =>
      if |pats| == |inits| {
        FuelLet(w, f, 0, env, tr, fuel, more);
      }
    case Loop(pats, inits, _) =>
      if |pats| == |inits| {
        FuelList(w, inits, [], env, tr, fuel, more);
        var (r, tr1) := EvalList(w, inits, [], env, tr, fuel);
        if r.Vals? {
          FuelLoop(w, f, r.vals, env, tr1, fuel, more);
        }
      }
    case Recur(args) => FuelList(w, args, [], env, tr, fuel, more);
    case Try(body, catches, fin) => FuelTry(w, f, env, tr, fuel, more);
    case Await(args) =>
      if args != [] {
        FuelIrrelevant(w, args[0], env, tr, fuel, more);
      }
    case Call(_, args) => FuelList(w, args, [], env, tr, fuel, more);
  }

  lemma {:induction false} FuelTry(w: World, f: Form, env: Env, tr: Trace, fuel: nat, more: nat)
    requires f.Try? && fuel <= more && Eval(w, f, env, tr, fuel).0 != OutOfFuel
    ensures Eval(w, f, env, tr, more) == Eval(w, f, env, tr, fuel)
    decreases fuel, f, 1
  {
    var (r, tr1) := EvalBody(w, f.body, NilV, env, tr, fuel);
    FuelBody(w, f.body, NilV, env, tr, fuel, more);
    var (r2, tr2) := EvalCatch(w, f.catches, r, env, tr1, fuel);
    if Catchable(r).Some? && FirstMatch(f.catches, 0, Catchable(r).value).Some? {
      var c := f.catches[FirstMatch(f.catches, 0, Catchable(r).value).value];
      FuelBody(w, c.body, NilV, env[c.binding := Catchable(r).value], tr1, fuel, more);
    }
    if f.fin != [] {
      FuelBody(w, f.fin, NilV, env, tr2, fuel, more);
    }
  }

  lemma {:induction false} FuelBody(w: World, forms: seq<Form>, last: Val, env: Env, tr: Trace, fuel: nat, more: nat)
    requires fuel <= more && EvalBody(w, forms, last, env, tr, fuel).0 != OutOfFuel
    ensures EvalBody(w, forms, last, env, tr, more) == EvalBody(w, forms, last, env, tr, fuel)
    decreases fuel, forms, 0
  {
    if forms != [] {
      FuelIrrelevant(w, forms[0], env, tr, fuel, more);
      var (r, tr1) := Eval(w, forms[0], env, tr, fuel);
      if r.Ok? {
        FuelBody(w, forms[1..], r.v, env, tr1, fuel, more);
      }
    }
  }

  lemma {:induction false} FuelList(w: World, forms: seq<Form>, acc: seq<Val>, env: Env, tr: Trace, fuel: nat,
                                    more: nat)
    requires fuel <= more && EvalList(w, forms, acc, env, tr, fuel).0 != Stop(OutOfFuel)
    ensures EvalList(w, forms, acc, env, tr, more) == EvalList(w, forms, acc, env, tr, fuel)
    decreases fuel, forms, 0
  {
    if forms != [] {
      FuelIrrelevant(w, forms[0], env, tr, fuel, more);
      var (r, tr1) := Eval(w, forms[0], env, tr, fuel);
      if r.Ok? {
        FuelList(w, forms[1..], acc + [r.v], env, tr1, fuel, more);
      }
    }
  }

  lemma {:induction false} FuelLet(w: World, f: Form, k: nat, env: Env, tr: Trace, fuel: nat, more: nat)
    requires f.Let? && k <= |f.pats| == |f.inits|
    requires fuel <= more && EvalLet(w, f, k, env, tr, fuel).0 != OutOfFuel
    ensures EvalLet(w, f, k, env, tr, more) == EvalLet(w, f, k, env, tr, fuel)
    decreases fuel, f, 1, |f.inits| - k
  {
    if k == |f.inits| {
      FuelBody(w, f.body, NilV, env, tr, fuel, more);
    } else {
      FuelIrrelevant(w, f.inits[k], env, tr, fuel, more);
      var (r, tr1) := Eval(w, f.inits[k], env, tr, fuel);
      if r.Ok? && Bind(f.pats[k], r.v, env).Some? {
        FuelLet(w, f, k + 1, Bind(f.pats[k], r.v, env).value, tr1, fuel, more);
      }
    }
  }

  lemma {:induction false} FuelLoop(w: World, f: Form, vals: seq<Val>, env: Env, tr: Trace, fuel: nat, more: nat)
    requires f.Loop? && fuel <= more && EvalLoop(w, f, vals, env, tr, fuel).0 != OutOfFuel
    ensures EvalLoop(w, f, vals, env, tr, more) == EvalLoop(w, f, vals, env, tr, fuel)
    decreases fuel, f, 0
  {
    if BindEach(f.pats, vals, 0, env).Some? {
      var env' := BindEach(f.pats, vals, 0, env).value;
      FuelBody(w, f.body, NilV, env', tr, fuel - 1, more - 1);
      var (r, tr1) := EvalBody(w, f.body, NilV, env', tr, fuel - 1);
      if r.RecurWith? && |r.vals| == |f.pats| {
        FuelLoop(w, f, r.vals, env, tr1, fuel - 1, more - 1);
      }
    }
  }
}
