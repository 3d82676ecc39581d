/**
 The core forms of the async evaluator and their meaning, as a pure evaluator
 that passes environments as values.

 Primitive calls and awaits are the observable effects: each appends an event to
 the trace, and the outcome of each may depend on the whole trace so far. `fuel`
 bounds loop iterations; `FuelIrrelevant` shows that answers do not depend on it.
 */
module EvalSpec {
  import opened Common

  datatype Val = NilV | BoolV(b: bool) | Data(n: int) | VecV(items: seq<Val>) | ErrorV(msg: string) | FutureV(id: nat)

  /** A binding pattern; `BadPat` stands for the unsupported ones. */
  datatype Pattern = Name(name: string) | VecPat(pats: seq<Pattern>) | BadPat

  datatype Catch = Catch(typeName: string, binding: string, body: seq<Form>)

  datatype Form =
    | Lit(v: Val)
    | Sym(name: string)
    | VecLit(elems: seq<Form>)
    | Do(body: seq<Form>)
    | If(args: seq<Form>)
    | Let(pats: seq<Pattern>, inits: seq<Form>, body: seq<Form>)
    | Loop(pats: seq<Pattern>, inits: seq<Form>, body: seq<Form>)
    | Recur(args: seq<Form>)
    | Try(body: seq<Form>, catches: seq<Catch>, fin: seq<Form>)
    | Await(args: seq<Form>)
    | Call(op: nat, args: seq<Form>)

  /** How an evaluation ends. `Failed` covers the evaluator's own errors, which
      a catch sees as error values. */
  datatype Outcome =
    | Ok(v: Val)
    | Thrown(v: Val)
    | Failed(msg: string)
    | RecurWith(vals: seq<Val>)
    | GasExhausted
    | Exit(code: int)
    | Interrupted
    | OutOfFuel

  /** What an effect can answer. */
  datatype Answer = Returned(v: Val) | Raised(v: Val) | Errored(msg: string) | OutOfGas | Exiting(code: int) | Interrupt

  function FromAnswer(a: Answer): (o: Outcome)
    ensures o != OutOfFuel
  {
    match a
    case Returned(v) => Ok(v)
    case Raised(v) => Thrown(v)
    case Errored(m) => Failed(m)
    case OutOfGas => GasExhausted
    case Exiting(c) => Exit(c)
    case Interrupt => Interrupted
  }

  datatype Event = Called(op: nat, args: seq<Val>) | Awaited(future: nat)
  type Trace = seq<Event>

  /** The world outside: answers effects from the trace up to and including them,
      and holds the namespace's globals. */
  datatype World = World(answer: Trace -> Answer, globals: map<string, Val>)

  type Env = map<string, Val>

  function Truthy(v: Val): bool {
    v != NilV && v != BoolV(false)
  }

  // ---- Patterns ----

  function ItemsOf(v: Val): seq<Val> {
    if v.VecV? then v.items else []
  }

  function ItemAt(items: seq<Val>, i: nat): Val {
    if i < |items| then items[i] else NilV
  }

  /** Bind a pattern, or `None` if it is unsupported. */
  function Bind(p: Pattern, v: Val, env: Env): Option<Env>
    decreases p, 1
  {
    match p
    case Name(x) => Some(env[x := v])
    case VecPat(pats) => BindEach(pats, ItemsOf(v), 0, env)
    case BadPat => None
  }

  /** Bind `pats[k..]` to the items from `k` on, left to right. */
  function BindEach(pats: seq<Pattern>, items: seq<Val>, k: nat, env: Env): Option<Env>
    requires k <= |pats|
    decreases pats, 0, |pats| - k
  {
    if k == |pats| then Some(env)
    else match Bind(pats[k], ItemAt(items, k), env)
      case None => None
      case Some(env') => BindEach(pats, items, k + 1, env')
  }

  // ---- Catch clauses ----

  /** What follows the last dot. */
  function LastSegment(s: string): string {
    if s == "" || s[|s| - 1] == '.' then ""
    else LastSegment(s[..|s| - 1]) + [s[|s| - 1]]
  }

  predicate CatchMatches(typeName: string, v: Val) {
    var short := LastSegment(typeName);
    short in {"Object", "Exception", "Throwable", "Error", "default"} ||
    (short == "ExceptionInfo" && v.ErrorV?)
  }

  /** The value a catch sees, if the outcome is one that a catch may see. */
  function Catchable(o: Outcome): Option<Val> {
    match o
    case Thrown(v) => Some(v)
    case Failed(m) => Some(ErrorV(m))
    case _ => None
  }

  /** Index of the first matching clause from `k` on. */
  function FirstMatch(catches: seq<Catch>, k: nat, v: Val): (r: Option<nat>)
    requires k <= |catches|
    ensures r.Some? ==> k <= r.value < |catches| && CatchMatches(catches[r.value].typeName, v)
    ensures forall j :: k <= j < (if r.Some? then r.value else |catches|) ==> !CatchMatches(catches[j].typeName, v)
    decreases |catches| - k
  {
    if k == |catches| then None
    else if CatchMatches(catches[k].typeName, v) then Some(k)
    else FirstMatch(catches, k + 1, v)
  }

  // ---- The evaluator ----

  /** Values of a list of forms, or the outcome that stopped it. */
  datatype Vals = Vals(vals: seq<Val>) | Stop(o: Outcome)

  function Eval(w: World, f: Form, env: Env, tr: Trace, fuel: nat): (Outcome, Trace)
    decreases fuel, f, 2
  {
    match f
    case Lit(v) => (Ok(v), tr)
    case Sym(x) =>
      if x in env then (Ok(env[x]), tr)
      else if x in w.globals then (Ok(w.globals[x]), tr)
      else (Failed("unbound symbol"), tr)
    case VecLit(elems) =>
      var (r, tr1) := EvalList(w, elems, [], env, tr, fuel);
      (match r case Vals(vs) => Ok(VecV(vs)) case Stop(o) => o, tr1)
    case Do(body) => EvalBody(w, body, NilV, env, tr, fuel)
    case If(args) =>
      if args == [] then (Failed("if requires a test"), tr)
      else
        var (test, tr1) := Eval(w, args[0], env, tr, fuel);
        if !test.Ok? then (test, tr1)
        else
          var k := if Truthy(test.v) then 1 else 2;
          if k < |args| then Eval(w, args[k], env, tr1, fuel) else (Ok(NilV), tr1)
    case Let(pats, inits, body) =>
      if |pats| != |inits| then (Failed("let* binding vector must have even length"), tr)
      else EvalLet(w, f, 0, env, tr, fuel)
    case Loop(pats, inits, body) =>
      if |pats| != |inits| then (Failed("loop binding vector must have even length"), tr)
      else
        var (r, tr1) := EvalList(w, inits, [], env, tr, fuel);
        (match r
         case Stop(o) => (o, tr1)
         case Vals(vs) => EvalLoop(w, f, vs, env, tr1, fuel))
    case Recur(args) =>
      var (r, tr1) := EvalList(w, args, [], env, tr, fuel);
      (match r case Vals(vs) => RecurWith(vs) case Stop(o) => o, tr1)
    case Try(body, catches, fin) =>
      var (r, tr1) := EvalBody(w, body, NilV, env, tr, fuel);
      var (r2, tr2) := EvalCatch(w, catches, r, env, tr1, fuel);
      if r2 == OutOfFuel || fin == [] then (r2, tr2)
      else
        var (r3, tr3) := EvalBody(w, fin, NilV, env, tr2, fuel);
        (if r3 == OutOfFuel then OutOfFuel else r2, tr3)
    case Await(args) =>
      if args == [] then (Failed("await requires one argument"), tr)
      else
        var (r, tr1) := Eval(w, args[0], env, tr, fuel);
        if r.Ok? && r.v.FutureV? then
          var tr2 := tr1 + [Awaited(r.v.id)];
          (FromAnswer(w.answer(tr2)), tr2)
        else (r, tr1)
    case Call(op, args) =>
      var (r, tr1) := EvalList(w, args, [], env, tr, fuel);
      (match r
       case Stop(o) => (o, tr1)
       case Vals(vs) =>
         var tr2 := tr1 + [Called(op, vs)];
         (FromAnswer(w.answer(tr2)), tr2))
  }

  /** Forms in order; the value of the last, or the first outcome that is not a
      value. */
  function EvalBody(w: World, forms: seq<Form>, last: Val, env: Env, tr: Trace, fuel: nat): (Outcome, Trace)
    decreases fuel, forms, 0
  {
    if forms == [] then (Ok(last), tr)
    else
      var (r, tr1) := Eval(w, forms[0], env, tr, fuel);
      if r.Ok? then EvalBody(w, forms[1..], r.v, env, tr1, fuel) else (r, tr1)
  }

  function EvalList(w: World, forms: seq<Form>, acc: seq<Val>, env: Env, tr: Trace, fuel: nat): (Vals, Trace)
    decreases fuel, forms, 0
  {
    if forms == [] then (Vals(acc), tr)
    else
      var (r, tr1) := Eval(w, forms[0], env, tr, fuel);
      if r.Ok? then EvalList(w, forms[1..], acc + [r.v], env, tr1, fuel) else (Stop(r), tr1)
  }

  /** The bindings of a let form from index `k` on, each init seeing those before
      it, and then the body. */
  function EvalLet(w: World, f: Form, k: nat, env: Env, tr: Trace, fuel: nat): (Outcome, Trace)
    requires f.Let? && k <= |f.pats| == |f.inits|
    decreases fuel, f, 1, |f.inits| - k
  {
    if k == |f.inits| then EvalBody(w, f.body, NilV, env, tr, fuel)
    else
      var (r, tr1) := Eval(w, f.inits[k], env, tr, fuel);
      if !r.Ok? then (r, tr1)
      else match Bind(f.pats[k], r.v, env)
        case None => (Failed("unsupported binding pattern"), tr1)
        case Some(env') => EvalLet(w, f, k + 1, env', tr1, fuel)
  }

  /** Iterations of a loop form from given binding values. */
  function EvalLoop(w: World, f: Form, vals: seq<Val>, env: Env, tr: Trace, fuel: nat): (Outcome, Trace)
    requires f.Loop?
    decreases fuel, f, 0
  {
    if fuel == 0 then (OutOfFuel, tr)
    else match BindEach(f.pats, vals, 0, env)
      case None => (Failed("unsupported binding pattern"), tr)
      case Some(env') =>
        var (r, tr1) := EvalBody(w, f.body, NilV, env', tr, fuel - 1);
        if !r.RecurWith? then (r, tr1)
        else if |r.vals| != |f.pats| then (Failed("arity: recur"), tr1)
        else EvalLoop(w, f, r.vals, env, tr1, fuel - 1)
  }

  /** The first matching clause handles a catchable outcome; the rest pass. */
  function EvalCatch(w: World, catches: seq<Catch>, r: Outcome, env: Env, tr: Trace, fuel: nat): (Outcome, Trace)
    decreases fuel, catches, 0
  {
    match Catchable(r)
    case None => (r, tr)
    case Some(v) =>
      match FirstMatch(catches, 0, v)
      case None => (Thrown(v), tr)
      case Some(k) => EvalBody(w, catches[k].body, NilV, env[catches[k].binding := v], tr, fuel)
  }
}
