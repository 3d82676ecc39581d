/**
 Exceptions and control signals over whole evaluations. When an effect performed
 outside every `finally` answers with anything but a value, evaluation unwinds from
 that point. A control signal, or an exception that no clause around it matches, runs
 the `finally` blocks around it once each, innermost first, and nothing else, and is
 the outcome of the whole form, however deep it was. An exception that some clause
 matches runs the `finally` blocks inside the innermost such try, then that try's
 first matching clause, then that try's own `finally`.
 */
module EvalSignals {
  import opened Common
  import opened EvalSpec

  predicate Signal(o: Outcome) {
    o.GasExhausted? || o.Exit? || o.Interrupted?
  }

  /** A try around an event, with its environment and fuel. `clauses` are its catch clauses if
      the event is in its body, and none if it is in a handler. */
  datatype Frame = Frame(clauses: Option<seq<Catch>>, fin: seq<Form>, env: Env, fuel: nat)

  function AfterFin(w: World, c: Frame, tr: Trace): Trace {
    EvalBody(w, c.fin, NilV, c.env, tr, c.fuel).1
  }

  /** The trace after running the `finally` blocks of tries in order, whatever they answer. */
  function RunAll(w: World, cs: seq<Frame>, tr: Trace): Trace {
    if cs == [] then tr else AfterFin(w, cs[|cs| - 1], RunAll(w, cs[..|cs| - 1], tr))
  }

  /** The clause of a try that handles an outcome. */
  function Clause(c: Frame, o: Outcome): Option<Catch> {
    if c.clauses.None? || Catchable(o).None? then None
    else match FirstMatch(c.clauses.value, 0, Catchable(o).value)
      case None => None
      case Some(k) => Some(c.clauses.value[k])
  }

  /** The innermost of the tries around an event with a clause for its outcome. */
  function HandledAt(cs: seq<Frame>, o: Outcome): (r: Option<nat>)
    ensures r.Some? ==> r.value < |cs| && Clause(cs[r.value], o).Some?
    ensures forall j :: 0 <= j < (if r.Some? then r.value else |cs|) ==> Clause(cs[j], o).None?
  {
    if cs == [] then None
    else
      var n := |cs| - 1;
      match HandledAt(cs[..n], o)
      case Some(i) => Some(i)
      case None => if Clause(cs[n], o).Some? then Some(n) else None
  }

  /** What is left of an outcome that no clause handles: an error of the evaluator becomes a thrown
      value once it leaves the body of a try. */
  function Escaped(cs: seq<Frame>, o: Outcome): (r: Outcome)
    ensures !o.Ok? ==> !r.Ok?
    ensures !o.RecurWith? ==> !r.RecurWith?
    ensures Catchable(r) == Catchable(o)
    ensures Catchable(o).None? ==> r == o
  {
    if cs == [] then o
    else if cs[|cs| - 1].clauses.Some? && Catchable(o).Some? then Thrown(Catchable(o).value)
    else Escaped(cs[..|cs| - 1], o)
  }

  /** The trace after a try has handled an outcome and run its `finally`. */
  function AfterHandler(w: World, c: Frame, o: Outcome, tr: Trace): Trace
    requires Clause(c, o).Some?
  {
    var k := Clause(c, o).value;
    AfterFin(w, c, EvalBody(w, k.body, NilV, c.env[k.binding := Catchable(o).value], tr, c.fuel).1)
  }

  // ---- Where an event happens ----

  /** The tries around event `n` of an evaluation, innermost first, if that event is
      performed and not inside a `finally`. */
  function Around(w: World, f: Form, env: Env, tr: Trace, fuel: nat, n: nat): Option<seq<Frame>>
    decreases fuel, f, 2
  {
    match f
    case Lit(_) => None
    case Sym(_) => None
    case VecLit(elems) => AroundBody(w, elems, env, tr, fuel, n)
    case Do(body) => AroundBody(w, body, env, tr, fuel, n)
    case If(args) =>
      if args == [] then None
      else
        var (test, tr1) := Eval(w, args[0], env, tr, fuel);
        if n < |tr1| then Around(w, args[0], env, tr, fuel, n)
        else if !test.Ok? then None
        else
          var k := if Truthy(test.v) then 1 else 2;
          if k < |args| then Around(w, args[k], env, tr1, fuel, n) else None
    case Let(pats, inits, _) => if |pats| != |inits| then None else AroundLet(w, f, 0, env, tr, fuel, n)
    case Loop(pats, inits, _) =>
      if |pats| != |inits| then None
      else
        var (r, tr1) := EvalList(w, inits, [], env, tr, fuel);
        if n < |tr1| then AroundBody(w, inits, env, tr, fuel, n)
        else if r.Stop? then None
        else AroundLoop(w, f, r.vals, env, tr1, fuel, n)
    case Recur(args) => AroundBody(w, args, env, tr, fuel, n)
    case Try(body, catches, fin) =>
      var (r, tr1) := EvalBody(w, body, NilV, env, tr, fuel);
      if n < |tr1| then Within(AroundBody(w, body, env, tr, fuel, n), Frame(Some(catches), fin, env, fuel))
      else Within(AroundCatch(w, catches, r, env, tr1, fuel, n), Frame(None, fin, env, fuel))
    case Await(args) =>
      if args == [] then None
      else
        var (r, tr1) := Eval(w, args[0], env, tr, fuel);
        if n < |tr1| then Around(w, args[0], env, tr, fuel, n)
        else if n == |tr1| && r.Ok? && r.v.FutureV? then Some([])
        else None
    case Call(_, args) =>
      var (r, tr1) := EvalList(w, args, [], env, tr, fuel);
      if n < |tr1| then AroundBody(w, args, env, tr, fuel, n)
      else if n == |tr1| && r.Vals? then Some([])
      else None
  }

  function Within(inner: Option<seq<Frame>>, c: Frame): Option<seq<Frame>> {
    match inner case None => None case Some(cs) => Some(cs + [c])
  }

  function AroundBody(w: World, forms: seq<Form>, env: Env, tr: Trace, fuel: nat, n: nat): Option<seq<Frame>>
    decreases fuel, forms, 0
  {
    if forms == [] then None
    else
      var (r, tr1) := Eval(w, forms[0], env, tr, fuel);
      if n < |tr1| then Around(w, forms[0], env, tr, fuel, n)
      else if r.Ok? then AroundBody(w, forms[1..], env, tr1, fuel, n)
      else None
  }

  function AroundLet(w: World, f: Form, k: nat, env: Env, tr: Trace, fuel: nat, n: nat): Option<seq<Frame>>
    requires f.Let? && k <= |f.pats| == |f.inits|
    decreases fuel, f, 1, |f.inits| - k
  {
    if k == |f.inits| then AroundBody(w, f.body, env, tr, fuel, n)
    else
      var (r, tr1) := Eval(w, f.inits[k], env, tr, fuel);
      if n < |tr1| then Around(w, f.inits[k], env, tr, fuel, n)
      else if !r.Ok? then None
      else match Bind(f.pats[k], r.v, env)
        case None => None
        case Some(env') => AroundLet(w, f, k + 1, env', tr1, fuel, n)
  }

  function AroundLoop(w: World, f: Form, vals: seq<Val>, env: Env, tr: Trace, fuel: nat, n: nat): Option<seq<Frame>>
    requires f.Loop?
    decreases fuel, f, 0
  {
    if fuel == 0 then None
    else match BindEach(f.pats, vals, 0, env)
      case None => None
      case Some(env') =>
        var (r, tr1) := EvalBody(w, f.body, NilV, env', tr, fuel - 1);
        if n < |tr1| then AroundBody(w, f.body, env', tr, fuel - 1, n)
        else if !r.RecurWith? || |r.vals| != |f.pats| then None
        else AroundLoop(w, f, r.vals, env, tr1, fuel - 1, n)
  }

  function AroundCatch(w: World, catches: seq<Catch>, r: Outcome, env: Env, tr: Trace, fuel: nat, n: nat)
    : Option<seq<Frame>>
    decreases fuel, catches, 0
  {
    match Catchable(r)
    case None => None
    case Some(v) =>
      match FirstMatch(catches, 0, v)
      case None => None
      case Some(k) => AroundBody(w, catches[k].body, env[catches[k].binding := v], tr, fuel, n)
  }

  /** No `finally` anywhere in a form. */
  predicate NoFin(f: Form) {
    match f
    case Lit(_) => true
    case Sym(_) => true
    case VecLit(elems) => NoFinAll(elems)
    case Do(body) => NoFinAll(body)
    case If(args) => NoFinAll(args)
    case Let(_, inits, body) => NoFinAll(inits) && NoFinAll(body)
    case Loop(_, inits, body) => NoFinAll(inits) && NoFinAll(body)
    case Recur(args) => NoFinAll(args)
    case Try(body, catches, fin) => NoFinAll(body) && fin == [] && NoFinCatches(catches)
    case Await(args) => NoFinAll(args)
    case Call(_, args) => NoFinAll(args)
  }

  predicate NoFinAll(forms: seq<Form>) {
    forall i :: 0 <= i < |forms| ==> NoFin(forms[i])
  }

  predicate NoFinCatches(catches: seq<Catch>) {
    forall i :: 0 <= i < |catches| ==> NoFinAll(catches[i].body)
  }

  lemma NoFinArg(f: Form, k: nat)
    requires (f.If? || f.Await?) && k < |f.args|
    ensures NoFin(f) ==> NoFin(f.args[k])
  {
    if NoFin(f) {
      assert NoFinAll(f.args);
    }
  }

  lemma NoFinInit(f: Form, k: nat)
    requires f.Let? && k < |f.inits|
    ensures NoFin(f) ==> NoFin(f.inits[k])
  {
    if NoFin(f) {
      assert NoFinAll(f.inits);
    }
  }

  // ---- The theorem ----

  /** What becomes of an evaluation in which an outcome arises at trace `at`, inside tries `cs`. */
  ghost predicate Ends(w: World, cs: seq<Frame>, answer: Outcome, at: Trace, o: Outcome, tr': Trace) {
    match HandledAt(cs, answer)
    case None => o == Escaped(cs, answer) && tr' == RunAll(w, cs, at)
    case Some(i) => AfterHandler(w, cs[i], answer, RunAll(w, cs[..i], at)) <= tr'
  }

  /** What event `n` does to an evaluation that ends in `(o, tr')` if its answer is no value.
      Without any `finally` in sight every event counts. */
  ghost predicate Unwinds(w: World, cs: Option<seq<Frame>>, n: nat, o: Outcome, tr': Trace, noFin: bool) {
    && (cs.None? && noFin ==> n >= |tr'|)
    && (cs.Some? ==>
      n < |tr'| &&
      var answer := FromAnswer(w.answer(tr'[..n + 1]));
      (!answer.Ok? && o != OutOfFuel ==> Ends(w, cs.value, answer, tr'[..n + 1], o, tr')))
  }

  /** Where evaluation goes on after the event, the event was handled. */
  lemma Onward(w: World, cs: Option<seq<Frame>>, n: nat, o: Outcome, tr: Trace, noFin: bool,
               o': Outcome, tr': Trace, noFin': bool)
    requires Unwinds(w, cs, n, o, tr, noFin) && (o.Ok? || o.RecurWith?)
    requires n < |tr| && tr <= tr' && (noFin' ==> noFin)
    ensures Unwinds(w, cs, n, o', tr', noFin')
  {
    if cs.Some? {
      assert tr'[..n + 1] == tr[..n + 1];
      var answer := FromAnswer(w.answer(tr[..n + 1]));
      if !answer.Ok? {
        assert Ends(w, cs.value, answer, tr[..n + 1], o, tr);
        var i := HandledAt(cs.value, answer).value;
        assert AfterHandler(w, cs.value[i], answer, RunAll(w, cs.value[..i], tr[..n + 1])) <= tr';
      }
    }
  }

  lemma {:induction false} EventUnwinds(w: World, f: Form, env: Env, tr: Trace, fuel: nat, n: nat)
    requires n >= |tr|
    ensures tr <= Eval(w, f, env, tr, fuel).1
    ensures var (o, tr') := Eval(w, f, env, tr, fuel);
      Unwinds(w, Around(w, f, env, tr, fuel, n), n, o, tr', NoFin(f))
    decreases fuel, f, 2
  {
    match f
    case Lit(_) =>
    case Sym(_) =>
    case VecLit(_) => ElementsUnwind(w, f, env, tr, fuel, n);
    case Do(_) => FormsUnwind(w, f, env, tr, fuel, n);
    case If(args) => IfUnwinds(w, f, env, tr, fuel, n);
    case Let(_, _, _) => FormsUnwind(w, f, env, tr, fuel, n);
    case Loop(pats, inits, _) =>
      if |pats| == |inits| {
        LoopFormUnwinds(w, f, env, tr, fuel, n);
      }
    case Recur(_) => ElementsUnwind(w, f, env, tr, fuel, n);
    case Try(_, _, _) => TryUnwinds(w, f, env, tr, fuel, n);
    case Await(args) => if args != [] { AwaitUnwinds(w, f, env, tr, fuel, n); }
    case Call(_, _) => CallUnwinds(w, f, env, tr, fuel, n);
  }

  lemma {:induction false} ElementsUnwind(w: World, f: Form, env: Env, tr: Trace, fuel: nat, n: nat)
    requires n >= |tr| && (f.VecLit? || f.Recur?)
    ensures tr <= Eval(w, f, env, tr, fuel).1
    ensures var (o, tr') := Eval(w, f, env, tr, fuel);
      Unwinds(w, Around(w, f, env, tr, fuel, n), n, o, tr', NoFin(f))
    decreases fuel, f, 1
  {
    var forms := if f.VecLit? then f.elems else f.args;
    ListUnwinds(w, forms, [], env, tr, fuel, n);
    var (r, tr1) := EvalList(w, forms, [], env, tr, fuel);
    if r.Vals? && n < |tr1| {
      Onward(w, AroundBody(w, forms, env, tr, fuel, n), n, Ok(NilV), tr1, NoFinAll(forms),
        Eval(w, f, env, tr, fuel).0, tr1, NoFin(f));
    }
  }

  lemma {:induction false} FormsUnwind(w: World, f: Form, env: Env, tr: Trace, fuel: nat, n: nat)
    requires n >= |tr| && (f.Do? || f.Let?)
    ensures tr <= Eval(w, f, env, tr, fuel).1
    ensures var (o, tr') := Eval(w, f, env, tr, fuel);
      Unwinds(w, Around(w, f, env, tr, fuel, n), n, o, tr', NoFin(f))
    decreases fuel, f, 1, if f.Let? then |f.inits| + 1 else 0
  {
    if f.Do? {
      BodyUnwinds(w, f.body, NilV, env, tr, fuel, n);
    } else if |f.pats| == |f.inits| {
      LetUnwinds(w, f, 0, env, tr, fuel, n);
    }
  }

  lemma {:induction false} CallUnwinds(w: World, f: Form, env: Env, tr: Trace, fuel: nat, n: nat)
    requires n >= |tr| && f.Call?
    ensures tr <= Eval(w, f, env, tr, fuel).1
    ensures var (o, tr') := Eval(w, f, env, tr, fuel);
      Unwinds(w, Around(w, f, env, tr, fuel, n), n, o, tr', NoFin(f))
    decreases fuel, f, 1
  {
    ListUnwinds(w, f.args, [], env, tr, fuel, n);
    var (r, tr1) := EvalList(w, f.args, [], env, tr, fuel);
    var (o, tr2) := Eval(w, f, env, tr, fuel);
    if r.Vals? && n < |tr1| {
      Onward(w, AroundBody(w, f.args, env, tr, fuel, n), n, Ok(NilV), tr1, NoFinAll(f.args), o, tr2, NoFin(f));
    }
    assert n + 1 == |tr2| ==> tr2[..n + 1] == tr2;
  }

  lemma {:induction false} LoopFormUnwinds(w: World, f: Form, env: Env, tr: Trace, fuel: nat, n: nat)
    requires n >= |tr| && f.Loop? && |f.pats| == |f.inits|
    ensures tr <= Eval(w, f, env, tr, fuel).1
    ensures var (o, tr') := Eval(w, f, env, tr, fuel);
      Unwinds(w, Around(w, f, env, tr, fuel, n), n, o, tr', NoFin(f))
    decreases fuel, f, 1
  {
    ListUnwinds(w, f.inits, [], env, tr, fuel, n);
    var (r, tr1) := EvalList(w, f.inits, [], env, tr, fuel);
    if r.Vals? {
      LoopUnwinds(w, f, r.vals, env, tr1, fuel, if n < |tr1| then |tr1| else n);
      var (o, tr2) := EvalLoop(w, f, r.vals, env, tr1, fuel);
      if n < |tr1| {
        Onward(w, AroundBody(w, f.inits, env, tr, fuel, n), n, Ok(NilV), tr1, NoFinAll(f.inits), o, tr2, NoFin(f));
      }
    }
  }

  lemma {:induction false} IfUnwinds(w: World, f: Form, env: Env, tr: Trace, fuel: nat, n: nat)
    requires n >= |tr| && f.If?
    ensures tr <= Eval(w, f, env, tr, fuel).1
    ensures var (o, tr') := Eval(w, f, env, tr, fuel);
      Unwinds(w, Around(w, f, env, tr, fuel, n), n, o, tr', NoFin(f))
    decreases fuel, f, 1
  {
    if f.args != [] {
      NoFinArg(f, 0);
      EventUnwinds(w, f.args[0], env, tr, fuel, n);
      var (test, tr1) := Eval(w, f.args[0], env, tr, fuel);
      if test.Ok? {
        var k := if Truthy(test.v) then 1 else 2;
        if k < |f.args| {
          NoFinArg(f, k);
          EventUnwinds(w, f.args[k], env, tr1, fuel, if n < |tr1| then |tr1| else n);
        }
        if n < |tr1| {
          var (o, tr2) := Eval(w, f, env, tr, fuel);
          Onward(w, Around(w, f.args[0], env, tr, fuel, n), n, test, tr1, NoFin(f.args[0]), o, tr2, NoFin(f));
        }
      }
    }
  }

  lemma {:induction false} AwaitUnwinds(w: World, f: Form, env: Env, tr: Trace, fuel: nat, n: nat)
    requires n >= |tr| && f.Await? && f.args != []
    ensures tr <= Eval(w, f, env, tr, fuel).1
    ensures var (o, tr') := Eval(w, f, env, tr, fuel);
      Unwinds(w, Around(w, f, env, tr, fuel, n), n, o, tr', NoFin(f))
    decreases fuel, f, 1
  {
    NoFinArg(f, 0);
    EventUnwinds(w, f.args[0], env, tr, fuel, n);
    var (r, tr1) := Eval(w, f.args[0], env, tr, fuel);
    var (o, tr2) := Eval(w, f, env, tr, fuel);
    if r.Ok? && n < |tr1| {
      Onward(w, Around(w, f.args[0], env, tr, fuel, n), n, r, tr1, NoFin(f.args[0]), o, tr2, NoFin(f));
    }
    assert n + 1 == |tr2| ==> tr2[..n + 1] == tr2;
  }

  lemma {:induction false} BodyUnwinds(w: World, forms: seq<Form>, last: Val, env: Env, tr: Trace, fuel: nat, n: nat)
    requires n >= |tr|
    ensures tr <= EvalBody(w, forms, last, env, tr, fuel).1
    ensures var (o, tr') := EvalBody(w, forms, last, env, tr, fuel);
      Unwinds(w, AroundBody(w, forms, env, tr, fuel, n), n, o, tr', NoFinAll(forms))
    decreases fuel, forms, 0
  {
    if forms != [] {
      EventUnwinds(w, forms[0], env, tr, fuel, n);
      var (r, tr1) := Eval(w, forms[0], env, tr, fuel);
      if r.Ok? {
        BodyUnwinds(w, forms[1..], r.v, env, tr1, fuel, if n < |tr1| then |tr1| else n);
        if n < |tr1| {
          var (o, tr2) := EvalBody(w, forms[1..], r.v, env, tr1, fuel);
          Onward(w, Around(w, forms[0], env, tr, fuel, n), n, r, tr1, NoFin(forms[0]), o, tr2, NoFinAll(forms));
        }
      }
    }
  }

  lemma {:induction false} ListUnwinds(w: World, forms: seq<Form>, acc: seq<Val>, env: Env, tr: Trace, fuel: nat,
                                       n: nat)
    requires n >= |tr|
    ensures tr <= EvalList(w, forms, acc, env, tr, fuel).1
    ensures var (r, tr') := EvalList(w, forms, acc, env, tr, fuel);
      Unwinds(w, AroundBody(w, forms, env, tr, fuel, n), n, if r.Stop? then r.o else Ok(NilV), tr', NoFinAll(forms))
    decreases fuel, forms, 0
  {
    if forms != [] {
      EventUnwinds(w, forms[0], env, tr, fuel, n);
      var (r, tr1) := Eval(w, forms[0], env, tr, fuel);
      if r.Ok? {
        ListUnwinds(w, forms[1..], acc + [r.v], env, tr1, fuel, if n < |tr1| then |tr1| else n);
        if n < |tr1| {
          var (rest, tr2) := EvalList(w, forms[1..], acc + [r.v], env, tr1, fuel);
          Onward(w, Around(w, forms[0], env, tr, fuel, n), n, r, tr1, NoFin(forms[0]),
            if rest.Stop? then rest.o else Ok(NilV), tr2, NoFinAll(forms));
        }
      }
    }
  }

  lemma {:induction false} LetUnwinds(w: World, f: Form, k: nat, env: Env, tr: Trace, fuel: nat, n: nat)
    requires n >= |tr| && f.Let? && k <= |f.pats| == |f.inits|
    ensures tr <= EvalLet(w, f, k, env, tr, fuel).1
    ensures var (o, tr') := EvalLet(w, f, k, env, tr, fuel);
      Unwinds(w, AroundLet(w, f, k, env, tr, fuel, n), n, o, tr', NoFin(f))
    decreases fuel, f, 1, |f.inits| - k
  {
    if k == |f.inits| {
      BodyUnwinds(w, f.body, NilV, env, tr, fuel, n);
    } else {
      NoFinInit(f, k);
      EventUnwinds(w, f.inits[k], env, tr, fuel, n);
      var (r, tr1) := Eval(w, f.inits[k], env, tr, fuel);
      if r.Ok? && Bind(f.pats[k], r.v, env).Some? {
        var env' := Bind(f.pats[k], r.v, env).value;
        LetUnwinds(w, f, k + 1, env', tr1, fuel, if n < |tr1| then |tr1| else n);
      }
      if r.Ok? && n < |tr1| {
        var (o, tr2) := EvalLet(w, f, k, env, tr, fuel);
        Onward(w, Around(w, f.inits[k], env, tr, fuel, n), n, r, tr1, NoFin(f.inits[k]), o, tr2, NoFin(f));
      }
    }
  }

  lemma {:induction false} LoopUnwinds(w: World, f: Form, vals: seq<Val>, env: Env, tr: Trace, fuel: nat, n: nat)
    requires n >= |tr| && f.Loop?
    ensures tr <= EvalLoop(w, f, vals, env, tr, fuel).1
    ensures var (o, tr') := EvalLoop(w, f, vals, env, tr, fuel);
      Unwinds(w, AroundLoop(w, f, vals, env, tr, fuel, n), n, o, tr', NoFin(f))
    decreases fuel, f, 0
  {
    if fuel > 0 && BindEach(f.pats, vals, 0, env).Some? {
      var env' := BindEach(f.pats, vals, 0, env).value;
      BodyUnwinds(w, f.body, NilV, env', tr, fuel - 1, n);
      var (r, tr1) := EvalBody(w, f.body, NilV, env', tr, fuel - 1);
      if r.RecurWith? && |r.vals| == |f.pats| {
        LoopUnwinds(w, f, r.vals, env, tr1, fuel - 1, if n < |tr1| then |tr1| else n);
      }
      if r.RecurWith? && n < |tr1| {
        var (o, tr2) := EvalLoop(w, f, vals, env, tr, fuel);
        Onward(w, AroundBody(w, f.body, env', tr, fuel - 1, n), n, r, tr1, NoFinAll(f.body), o, tr2, NoFin(f));
      }
    }
  }

  lemma {:induction false} CatchUnwinds(w: World, catches: seq<Catch>, r: Outcome, env: Env, tr: Trace, fuel: nat,
                                        n: nat)
    requires n >= |tr|
    ensures tr <= EvalCatch(w, catches, r, env, tr, fuel).1
    ensures var (o, tr') := EvalCatch(w, catches, r, env, tr, fuel);
      Unwinds(w, AroundCatch(w, catches, r, env, tr, fuel, n), n, o, tr', NoFinCatches(catches))
    decreases fuel, catches, 0
  {
    if Catchable(r).Some? {
      var v := Catchable(r).value;
      var m := FirstMatch(catches, 0, v);
      if m.Some? {
        var c := catches[m.value];
        BodyUnwinds(w, c.body, NilV, env[c.binding := v], tr, fuel, n);
      }
    }
  }

  /** A try around an evaluation `(r, tr1)` of its body. */
  function Leave(w: World, c: Frame, r: Outcome, tr1: Trace): (Outcome, Trace) {
    var (r2, tr2) := if c.clauses.None? then (r, tr1) else EvalCatch(w, c.clauses.value, r, c.env, tr1, c.fuel);
    if r2 == OutOfFuel then (r2, tr2)
    else
      var (r3, tr3) := EvalBody(w, c.fin, NilV, c.env, tr2, c.fuel);
      (if r3 == OutOfFuel then OutOfFuel else r2, tr3)
  }

  lemma LeaveHandledInside(w: World, cs: seq<Frame>, c: Frame, answer: Outcome, at: Trace, r: Outcome, tr1: Trace)
    requires HandledAt(cs, answer).Some? && Ends(w, cs, answer, at, r, tr1) && tr1 <= Leave(w, c, r, tr1).1
    ensures Ends(w, cs + [c], answer, at, Leave(w, c, r, tr1).0, Leave(w, c, r, tr1).1)
  {
    var i := HandledAt(cs, answer).value;
    assert (cs + [c])[..|cs|] == cs;
    assert HandledAt(cs + [c], answer) == Some(i);
    assert (cs + [c])[..i] == cs[..i];
  }

  lemma LeaveHandledHere(w: World, cs: seq<Frame>, c: Frame, answer: Outcome, at: Trace, r: Outcome, tr1: Trace)
    requires HandledAt(cs, answer).None? && Clause(c, answer).Some? && Ends(w, cs, answer, at, r, tr1)
    requires Leave(w, c, r, tr1).0 != OutOfFuel
    ensures Ends(w, cs + [c], answer, at, Leave(w, c, r, tr1).0, Leave(w, c, r, tr1).1)
  {
    assert (cs + [c])[..|cs|] == cs;
    assert HandledAt(cs + [c], answer) == Some(|cs|);
    assert Leave(w, c, r, tr1).1 == AfterHandler(w, c, answer, RunAll(w, cs, at));
  }

  lemma LeaveEscapes(w: World, cs: seq<Frame>, c: Frame, answer: Outcome, at: Trace, r: Outcome, tr1: Trace)
    requires HandledAt(cs, answer).None? && Clause(c, answer).None? && Ends(w, cs, answer, at, r, tr1)
    requires Leave(w, c, r, tr1).0 != OutOfFuel
    ensures Ends(w, cs + [c], answer, at, Leave(w, c, r, tr1).0, Leave(w, c, r, tr1).1)
  {
    assert (cs + [c])[..|cs|] == cs;
    assert HandledAt(cs + [c], answer) == None;
    assert Leave(w, c, r, tr1).0 == Escaped(cs + [c], answer);
  }

  lemma LeaveUnwinds(w: World, cs: seq<Frame>, c: Frame, n: nat, r: Outcome, tr1: Trace, noFin: bool, noFin': bool)
    requires Unwinds(w, Some(cs), n, r, tr1, noFin) && tr1 <= Leave(w, c, r, tr1).1
    ensures Unwinds(w, Some(cs + [c]), n, Leave(w, c, r, tr1).0, Leave(w, c, r, tr1).1, noFin')
  {
    var (o, tr') := Leave(w, c, r, tr1);
    var at := tr1[..n + 1];
    assert tr'[..n + 1] == at;
    var answer := FromAnswer(w.answer(at));
    if !answer.Ok? && o != OutOfFuel {
      assert r != OutOfFuel;
      if HandledAt(cs, answer).Some? {
        LeaveHandledInside(w, cs, c, answer, at, r, tr1);
      } else if Clause(c, answer).Some? {
        LeaveHandledHere(w, cs, c, answer, at, r, tr1);
      } else {
        LeaveEscapes(w, cs, c, answer, at, r, tr1);
      }
    }
  }

  /** A try is left from its body, or from a handler. */
  lemma TryIsLeave(w: World, f: Form, env: Env, tr: Trace, fuel: nat)
    requires f.Try?
    ensures var (r, tr1) := EvalBody(w, f.body, NilV, env, tr, fuel);
      var (r2, tr2) := EvalCatch(w, f.catches, r, env, tr1, fuel);
      Eval(w, f, env, tr, fuel) == Leave(w, Frame(Some(f.catches), f.fin, env, fuel), r, tr1) &&
      Eval(w, f, env, tr, fuel) == Leave(w, Frame(None, f.fin, env, fuel), r2, tr2)
  {
  }

  lemma {:induction false} TryGrows(w: World, f: Form, env: Env, tr: Trace, fuel: nat, n: nat)
    requires n >= |tr| && f.Try?
    ensures var (r, tr1) := EvalBody(w, f.body, NilV, env, tr, fuel);
      var (r2, tr2) := EvalCatch(w, f.catches, r, env, tr1, fuel);
      && tr <= tr1 <= tr2 <= Eval(w, f, env, tr, fuel).1
      && Unwinds(w, AroundBody(w, f.body, env, tr, fuel, n), n, r, tr1, NoFinAll(f.body))
      && (n >= |tr1| ==>
        Unwinds(w, AroundCatch(w, f.catches, r, env, tr1, fuel, n), n, r2, tr2, NoFinCatches(f.catches)))
    decreases fuel, f, 0
  {
    BodyUnwinds(w, f.body, NilV, env, tr, fuel, n);
    var (r, tr1) := EvalBody(w, f.body, NilV, env, tr, fuel);
    CatchUnwinds(w, f.catches, r, env, tr1, fuel, if n < |tr1| then |tr1| else n);
    var tr2 := EvalCatch(w, f.catches, r, env, tr1, fuel).1;
    BodyUnwinds(w, f.fin, NilV, env, tr2, fuel, |tr2|);
  }

  lemma {:induction false} TryUnwinds(w: World, f: Form, env: Env, tr: Trace, fuel: nat, n: nat)
    requires n >= |tr| && f.Try?
    ensures tr <= Eval(w, f, env, tr, fuel).1
    ensures var (o, tr') := Eval(w, f, env, tr, fuel);
      Unwinds(w, Around(w, f, env, tr, fuel, n), n, o, tr', NoFin(f))
    decreases fuel, f, 1
  {
    TryGrows(w, f, env, tr, fuel, n);
    TryIsLeave(w, f, env, tr, fuel);
    var (r, tr1) := EvalBody(w, f.body, NilV, env, tr, fuel);
    var (r2, tr2) := EvalCatch(w, f.catches, r, env, tr1, fuel);
    var inner :=
      if n < |tr1| then AroundBody(w, f.body, env, tr, fuel, n) else AroundCatch(w, f.catches, r, env, tr1, fuel, n);
    if inner.Some? {
      if n < |tr1| {
        LeaveUnwinds(w, inner.value, Frame(Some(f.catches), f.fin, env, fuel), n, r, tr1, NoFinAll(f.body), NoFin(f));
      } else {
        LeaveUnwinds(w, inner.value, Frame(None, f.fin, env, fuel), n, r2, tr2, NoFinCatches(f.catches), NoFin(f));
      }
    }
  }

  /** An answer outside every `finally` that is no value and that no clause around it matches is the
      outcome of the whole form, and what follows it in the trace is one run of each `finally`
      block around it, innermost first. */
  lemma UncaughtEnds(w: World, f: Form, env: Env, fuel: nat, n: nat)
    requires Around(w, f, env, [], fuel, n).Some? && Eval(w, f, env, [], fuel).0 != OutOfFuel
    ensures var (o, tr) := Eval(w, f, env, [], fuel);
      var cs := Around(w, f, env, [], fuel, n).value;
      && n < |tr|
      && var answer := FromAnswer(w.answer(tr[..n + 1]));
         (!answer.Ok? && (forall i :: 0 <= i < |cs| ==> Clause(cs[i], answer).None?) ==>
           o == Escaped(cs, answer) && tr == RunAll(w, cs, tr[..n + 1]))
  {
    EventUnwinds(w, f, env, [], fuel, n);
  }

  /** A control signal is never caught. */
  lemma SignalEnds(w: World, f: Form, env: Env, fuel: nat, n: nat)
    requires Around(w, f, env, [], fuel, n).Some? && Eval(w, f, env, [], fuel).0 != OutOfFuel
    ensures var (o, tr) := Eval(w, f, env, [], fuel);
      && n < |tr|
      && var answer := FromAnswer(w.answer(tr[..n + 1]));
         (Signal(answer) ==> o == answer && tr == RunAll(w, Around(w, f, env, [], fuel, n).value, tr[..n + 1]))
  {
    UncaughtEnds(w, f, env, fuel, n);
  }

  /** An exception is handled by the innermost try around it with a matching clause, by the first
      such clause: after the exception come the `finally` blocks of the tries inside that one, then
      the clause, then that try's own `finally`. */
  lemma CaughtBy(w: World, f: Form, env: Env, fuel: nat, n: nat, i: nat)
    requires Around(w, f, env, [], fuel, n).Some? && Eval(w, f, env, [], fuel).0 != OutOfFuel
    requires i < |Around(w, f, env, [], fuel, n).value|
    ensures var tr := Eval(w, f, env, [], fuel).1;
      var cs := Around(w, f, env, [], fuel, n).value;
      && n < |tr|
      && var answer := FromAnswer(w.answer(tr[..n + 1]));
         (Clause(cs[i], answer).Some? && (forall j :: 0 <= j < i ==> Clause(cs[j], answer).None?) ==>
           AfterHandler(w, cs[i], answer, RunAll(w, cs[..i], tr[..n + 1])) <= tr)
  {
    EventUnwinds(w, f, env, [], fuel, n);
  }

  /** Without any `finally` a signal is the last event. */
  lemma {:induction false} SignalIsLast(w: World, f: Form, env: Env, fuel: nat, n: nat)
    requires NoFin(f) && n < |Eval(w, f, env, [], fuel).1| && Eval(w, f, env, [], fuel).0 != OutOfFuel
    ensures var (o, tr) := Eval(w, f, env, [], fuel);
      var answer := FromAnswer(w.answer(tr[..n + 1]));
      Signal(answer) ==> o == answer && n + 1 == |tr|
  {
    EventUnwinds(w, f, env, [], fuel, n);
    AroundNothing(w, f, env, [], fuel, n);
    var tr := Eval(w, f, env, [], fuel).1;
    RunNothing(w, Around(w, f, env, [], fuel, n).value, tr[..n + 1]);
  }

  ghost predicate NothingIn(cs: seq<Frame>) {
    forall i :: 0 <= i < |cs| ==> cs[i].fin == []
  }

  lemma {:induction false} RunNothing(w: World, cs: seq<Frame>, tr: Trace)
    requires NothingIn(cs)
    ensures RunAll(w, cs, tr) == tr
  {
    if cs != [] {
      RunNothing(w, cs[..|cs| - 1], tr);
    }
  }

  lemma {:induction false} AroundNothing(w: World, f: Form, env: Env, tr: Trace, fuel: nat, n: nat)
    requires NoFin(f)
    ensures Around(w, f, env, tr, fuel, n).Some? ==> NothingIn(Around(w, f, env, tr, fuel, n).value)
    decreases fuel, f, 2
  {
    match f
    case Lit(_) =>
    case Sym(_) =>
    case VecLit(elems) => BodyNothing(w, elems, env, tr, fuel, n);
    case Do(body) => BodyNothing(w, body, env, tr, fuel, n);
    case If(args) =>
      if args != [] {
        AroundNothing(w, args[0], env, tr, fuel, n);
        var (test, tr1) := Eval(w, args[0], env, tr, fuel);
        if test.Ok? {
          var k := if Truthy(test.v) then 1 else 2;
          if k < |args| {
            AroundNothing(w, args[k], env, tr1, fuel, n);
          }
        }
      }
    case Let(pats, inits, _) => if |pats| == |inits| { LetNothing(w, f, 0, env, tr, fuel, n); }
    case Loop(pats, inits, _) =>
      BodyNothing(w, inits, env, tr, fuel, n);
      var (r, tr1) := EvalList(w, inits, [], env, tr, fuel);
      if |pats| == |inits| && r.Vals? {
        LoopNothing(w, f, r.vals, env, tr1, fuel, n);
      }
    case Recur(args) => BodyNothing(w, args, env, tr, fuel, n);
    case Try(body, catches, _) =>
      BodyNothing(w, body, env, tr, fuel, n);
      var (r, tr1) := EvalBody(w, body, NilV, env, tr, fuel);
      CatchNothing(w, catches, r, env, tr1, fuel, n);
    case Await(args) => if args != [] { AroundNothing(w, args[0], env, tr, fuel, n); }
    case Call(_, args) => BodyNothing(w, args, env, tr, fuel, n);
  }

  lemma {:induction false} BodyNothing(w: World, forms: seq<Form>, env: Env, tr: Trace, fuel: nat, n: nat)
    requires NoFinAll(forms)
    ensures AroundBody(w, forms, env, tr, fuel, n).Some? ==> NothingIn(AroundBody(w, forms, env, tr, fuel, n).value)
    decreases fuel, forms, 0
  {
    if forms != [] {
      AroundNothing(w, forms[0], env, tr, fuel, n);
      BodyNothing(w, forms[1..], env, Eval(w, forms[0], env, tr, fuel).1, fuel, n);
    }
  }

  lemma {:induction false} LetNothing(w: World, f: Form, k: nat, env: Env, tr: Trace, fuel: nat, n: nat)
    requires f.Let? && k <= |f.pats| == |f.inits| && NoFin(f)
    ensures AroundLet(w, f, k, env, tr, fuel, n).Some? ==> NothingIn(AroundLet(w, f, k, env, tr, fuel, n).value)
    decreases fuel, f, 1, |f.inits| - k
  {
    if k == |f.inits| {
      BodyNothing(w, f.body, env, tr, fuel, n);
    } else {
      AroundNothing(w, f.inits[k], env, tr, fuel, n);
      var (r, tr1) := Eval(w, f.inits[k], env, tr, fuel);
      if r.Ok? && Bind(f.pats[k], r.v, env).Some? {
        LetNothing(w, f, k + 1, Bind(f.pats[k], r.v, env).value, tr1, fuel, n);
      }
    }
  }

  lemma {:induction false} LoopNothing(w: World, f: Form, vals: seq<Val>, env: Env, tr: Trace, fuel: nat, n: nat)
    requires f.Loop? && NoFin(f)
    ensures AroundLoop(w, f, vals, env, tr, fuel, n).Some? ==> NothingIn(AroundLoop(w, f, vals, env, tr, fuel, n).value)
    decreases fuel, f, 0
  {
    if fuel > 0 && BindEach(f.pats, vals, 0, env).Some? {
      var env' := BindEach(f.pats, vals, 0, env).value;
      BodyNothing(w, f.body, env', tr, fuel - 1, n);
      var (r, tr1) := EvalBody(w, f.body, NilV, env', tr, fuel - 1);
      if r.RecurWith? {
        LoopNothing(w, f, r.vals, env, tr1, fuel - 1, n);
      }
    }
  }

  lemma {:induction false} CatchNothing(w: World, catches: seq<Catch>, r: Outcome, env: Env, tr: Trace, fuel: nat,
                                        n: nat)
    requires NoFinCatches(catches)
    ensures AroundCatch(w, catches, r, env, tr, fuel, n).Some? ==>
      NothingIn(AroundCatch(w, catches, r, env, tr, fuel, n).value)
    decreases fuel, catches, 0
  {
    if Catchable(r).Some? {
      var v := Catchable(r).value;
      var m := FirstMatch(catches, 0, v);
      if m.Some? {
        var c := catches[m.value];
        BodyNothing(w, c.body, env[c.binding := v], tr, fuel, n);
      }
    }
  }
}
