/**
 The async evaluator as it is written: one mutable stack of frames, pushed,
 bound in place and popped on every path. Each method is proved to restore the
 stack whatever the outcome and to have the meaning `EvalSpec` gives the form.
 */
module EvalAsync {
  import opened Common
  import opened EvalSpec

  /** Bindings in order; later ones shadow earlier ones. */
  type Frame = seq<(string, Val)>

  function FrameEnv(f: Frame): Env {
    if f == [] then map[]
    else FrameEnv(f[..|f| - 1])[f[|f| - 1].0 := f[|f| - 1].1]
  }

  /** The environment a frame stack stands for; inner frames shadow outer ones. */
  function EnvOf(frames: seq<Frame>): Env {
    if frames == [] then map[]
    else EnvOf(frames[..|frames| - 1]) + FrameEnv(frames[|frames| - 1])
  }

  lemma EnvOfPush(frames: seq<Frame>)
    ensures EnvOf(frames + [[]]) == EnvOf(frames)
  {
    var pushed := frames + [[]];
    assert pushed[..|pushed| - 1] == frames;
  }

  /** Binding a name in the top frame updates the environment. */
  lemma EnvOfBind(frames: seq<Frame>, x: string, v: Val)
    requires frames != []
    ensures var n := |frames| - 1;
      EnvOf(frames[n := frames[n] + [(x, v)]]) == EnvOf(frames)[x := v]
  {
    var n := |frames| - 1;
    var top := frames[n] + [(x, v)];
    var bound := frames[n := top];
    assert bound[..n] == frames[..n];
    assert top[..|top| - 1] == frames[n];
  }

  class Evaluator {
    var frames: seq<Frame>
    var trace: Trace
    const w: World

    constructor (w: World)
      ensures frames == [] && trace == [] && this.w == w
    {
      frames, trace := [], [];
      this.w := w;
    }

    method PushFrame()
      modifies this`frames
      ensures frames == old(frames) + [[]]
      ensures EnvOf(frames) == EnvOf(old(frames))
    {
      EnvOfPush(frames);
      frames := frames + [[]];
    }

    method PopFrame()
      modifies this`frames
      ensures frames == if old(frames) == [] then [] else old(frames)[..|old(frames)| - 1]
    {
      if frames != [] {
        frames := frames[..|frames| - 1];
      }
    }

    /** Dropped silently when there is no frame. */
    method BindName(x: string, v: Val)
      modifies this`frames
      ensures |frames| == |old(frames)|
      ensures old(frames) == [] ==> frames == []
      ensures old(frames) != [] ==> frames[..|frames| - 1] == old(frames)[..|frames| - 1]
      ensures old(frames) != [] ==> EnvOf(frames) == EnvOf(old(frames))[x := v]
    {
      if frames != [] {
        EnvOfBind(frames, x, v);
        var n := |frames| - 1;
        frames := frames[n := frames[n] + [(x, v)]];
      }
    }

    /** The last binding of a name in one frame. */
    static method LookupFrame(f: Frame, x: string) returns (r: Option<Val>)
      ensures r == if x in FrameEnv(f) then Some(FrameEnv(f)[x]) else None
    {
      var j := |f|;
      assert f[..j] == f;
      while j > 0
        invariant 0 <= j <= |f|
        invariant x in FrameEnv(f) <==> x in FrameEnv(f[..j])
        invariant x in FrameEnv(f) ==> FrameEnv(f)[x] == FrameEnv(f[..j])[x]
      {
        j := j - 1;
        assert f[..j + 1][..j] == f[..j];
        if f[j].0 == x {
          return Some(f[j].1);
        }
      }
      return None;
    }

    /** Innermost frame first, last binding first, then the globals. */
    method Lookup(x: string) returns (r: Option<Val>)
      ensures r == if x in EnvOf(frames) then Some(EnvOf(frames)[x])
                   else if x in w.globals then Some(w.globals[x]) else None
    {
      var i := |frames|;
      assert frames[..i] == frames;
      while i > 0
        invariant 0 <= i <= |frames|
        invariant x in EnvOf(frames) <==> x in EnvOf(frames[..i])
        invariant x in EnvOf(frames) ==> EnvOf(frames)[x] == EnvOf(frames[..i])[x]
      {
        i := i - 1;
        assert frames[..i + 1][..i] == frames[..i];
        r := LookupFrame(frames[i], x);
        if r.Some? {
          return;
        }
      }
      return if x in w.globals then Some(w.globals[x]) else None;
    }

    /** Binds in place in the top frame, even if it fails half-way. */
    method BindPattern(p: Pattern, v: Val) returns (ok: bool)
      requires frames != []
      modifies this`frames
      ensures |frames| == |old(frames)| && frames[..|frames| - 1] == old(frames)[..|frames| - 1]
      ensures ok == Bind(p, v, EnvOf(old(frames))).Some?
      ensures ok ==> EnvOf(frames) == Bind(p, v, EnvOf(old(frames))).value
      decreases p, 1
    {
      match p {
        case Name(x) =>
          BindName(x, v);
          ok := true;
        case VecPat(pats) =>
          ok := BindAll(pats, ItemsOf(v));
        case BadPat =>
          ok := false;
      }
    }

    method BindAll(pats: seq<Pattern>, items: seq<Val>) returns (ok: bool)
      requires frames != []
      modifies this`frames
      ensures |frames| == |old(frames)| && frames[..|frames| - 1] == old(frames)[..|frames| - 1]
      ensures ok == BindEach(pats, items, 0, EnvOf(old(frames))).Some?
      ensures ok ==> EnvOf(frames) == BindEach(pats, items, 0, EnvOf(old(frames))).value
      decreases pats, 0
    {
      ok := true;
      for k := 0 to |pats|
        invariant |frames| == |old(frames)| && frames[..|frames| - 1] == old(frames)[..|frames| - 1]
        invariant BindEach(pats, items, 0, EnvOf(old(frames))) == BindEach(pats, items, k, EnvOf(frames))
      {
        ok := BindPattern(pats[k], ItemAt(items, k));
        if !ok {
          return;
        }
      }
      ok := true;
    }

    method Effect(e: Event) returns (r: Outcome)
      modifies this`trace
      ensures trace == old(trace) + [e] && r == FromAnswer(w.answer(trace))
    {
      trace := trace + [e];
      r := FromAnswer(w.answer(trace));
    }

    method EvalForm(f: Form, fuel: nat) returns (r: Outcome)
      modifies this
      ensures frames == old(frames)
      ensures (r, trace) == Eval(w, f, EnvOf(old(frames)), old(trace), fuel)
      decreases fuel, f, 2
    {
      match f {
        case Lit(v) => r := Ok(v);
        case Sym(x) =>
          var v := Lookup(x);
          r := if v.Some? then Ok(v.value) else Failed("unbound symbol");
        case VecLit(elems) =>
          var vs := EvalAll(elems, fuel);
          r := match vs case Vals(vals) => Ok(VecV(vals)) case Stop(o) => o;
        case Do(body) => r := EvalForms(body, fuel);
        case If(_) => r := EvalIf(f, fuel);
        case Let(_, _, _) => r := EvalLetForm(f, fuel);
        case Loop(_, _, _) => r := EvalLoopForm(f, fuel);
        case Recur(args) =>
          var vs := EvalAll(args, fuel);
          r := match vs case Vals(vals) => RecurWith(vals) case Stop(o) => o;
        case Try(_, _, _) => r := EvalTry(f, fuel);
        case Await(args) =>
          if args == [] {
            r := Failed("await requires one argument");
          } else {
            r := EvalForm(args[0], fuel);
            if r.Ok? && r.v.FutureV? {
              r := Effect(Awaited(r.v.id));
            }
          }
        case Call(op, args) =>
          var vs := EvalAll(args, fuel);
          match vs {
            case Stop(o) => r := o;
            case Vals(vals) => r := Effect(Called(op, vals));
          }
      }
    }

    method EvalForms(forms: seq<Form>, fuel: nat) returns (r: Outcome)
      modifies this
      ensures frames == old(frames)
      ensures (r, trace) == EvalBody(w, forms, NilV, EnvOf(old(frames)), old(trace), fuel)
      decreases fuel, forms, 0
    {
      ghost var env := EnvOf(frames);
      var last := NilV;
      for i := 0 to |forms|
        invariant frames == old(frames)
        invariant EvalBody(w, forms, NilV, env, old(trace), fuel) == EvalBody(w, forms[i..], last, env, trace, fuel)
      {
        r := EvalForm(forms[i], fuel);
        if !r.Ok? {
          return;
        }
        assert forms[i..][1..] == forms[i + 1..];
        last := r.v;
      }
      r := Ok(last);
    }

    method EvalAll(forms: seq<Form>, fuel: nat) returns (r: Vals)
      modifies this
      ensures frames == old(frames)
      ensures (r, trace) == EvalList(w, forms, [], EnvOf(old(frames)), old(trace), fuel)
      decreases fuel, forms, 0
    {
      ghost var env := EnvOf(frames);
      var vals := [];
      for i := 0 to |forms|
        invariant frames == old(frames)
        invariant EvalList(w, forms, [], env, old(trace), fuel) == EvalList(w, forms[i..], vals, env, trace, fuel)
      {
        var o := EvalForm(forms[i], fuel);
        if !o.Ok? {
          return Stop(o);
        }
        assert forms[i..][1..] == forms[i + 1..];
        vals := vals + [o.v];
      }
      r := Vals(vals);
    }

    method EvalIf(f: Form, fuel: nat) returns (r: Outcome)
      requires f.If?
      modifies this
      ensures frames == old(frames)
      ensures (r, trace) == Eval(w, f, EnvOf(old(frames)), old(trace), fuel)
      decreases fuel, f, 1
    {
      if f.args == [] {
        return Failed("if requires a test");
      }
      r := EvalForm(f.args[0], fuel);
      if !r.Ok? {
        return;
      }
      if Truthy(r.v) {
        if |f.args| > 1 {
          r := EvalForm(f.args[1], fuel);
        } else {
          r := Ok(NilV);
        }
      } else {
        if |f.args| > 2 {
          r := EvalForm(f.args[2], fuel);
        } else {
          r := Ok(NilV);
        }
      }
    }

    method EvalLetForm(f: Form, fuel: nat) returns (r: Outcome)
      requires f.Let?
      modifies this
      ensures frames == old(frames)
      ensures (r, trace) == Eval(w, f, EnvOf(old(frames)), old(trace), fuel)
      decreases fuel, f, 1
    {
      if |f.pats| != |f.inits| {
        return Failed("let* binding vector must have even length");
      }
      ghost var env := EnvOf(frames);
      PushFrame();
      for k := 0 to |f.inits|
        invariant |frames| == |old(frames)| + 1 && frames[..|frames| - 1] == old(frames)
        invariant EvalLet(w, f, 0, env, old(trace), fuel) == EvalLet(w, f, k, EnvOf(frames), trace, fuel)
      {
        r := EvalForm(f.inits[k], fuel);
        if !r.Ok? {
          PopFrame();
          return;
        }
        var ok := BindPattern(f.pats[k], r.v);
        if !ok {
          PopFrame();
          return Failed("unsupported binding pattern");
        }
      }
      r := EvalForms(f.body, fuel);
      PopFrame();
    }

    method EvalLoopForm(f: Form, fuel: nat) returns (r: Outcome)
      requires f.Loop?
      modifies this
      ensures frames == old(frames)
      ensures (r, trace) == Eval(w, f, EnvOf(old(frames)), old(trace), fuel)
      decreases fuel, f, 1
    {
      if |f.pats| != |f.inits| {
        return Failed("loop binding vector must have even length");
      }
      var vs := EvalAll(f.inits, fuel);
      if vs.Stop? {
        return vs.o;
      }
      var vals, left: nat := vs.vals, fuel;
      ghost var env := EnvOf(frames);
      while true
        invariant frames == old(frames) && left <= fuel
        invariant Eval(w, f, env, old(trace), fuel) == EvalLoop(w, f, vals, env, trace, left)
        decreases left
      {
        if left == 0 {
          return OutOfFuel;
        }
        left := left - 1;
        PushFrame();
        var ok := BindAll(f.pats, vals);
        if !ok {
          PopFrame();
          return Failed("unsupported binding pattern");
        }
        r := EvalForms(f.body, left);
        PopFrame();
        if !r.RecurWith? {
          return;
        }
        if |r.vals| != |f.pats| {
          return Failed("arity: recur");
        }
        vals := r.vals;
      }
    }

    method EvalTry(f: Form, fuel: nat) returns (r: Outcome)
      requires f.Try?
      modifies this
      ensures frames == old(frames)
      ensures (r, trace) == Eval(w, f, EnvOf(old(frames)), old(trace), fuel)
      decreases fuel, f, 1
    {
      r := EvalForms(f.body, fuel);
      var thrown := Catchable(r);
      if thrown.Some? {
        r := HandleWith(f, thrown.value, fuel);
      }
      if r != OutOfFuel && f.fin != [] {
        var ignored := EvalForms(f.fin, fuel);
        if ignored == OutOfFuel {
          r := OutOfFuel;
        }
      }
    }

    /** The clauses are tried in order; the first match handles. */
    method HandleWith(f: Form, v: Val, fuel: nat) returns (r: Outcome)
      requires f.Try?
      modifies this
      ensures frames == old(frames)
      ensures (r, trace) == EvalCatch(w, f.catches, Thrown(v), EnvOf(old(frames)), old(trace), fuel)
      decreases fuel, f, 0
    {
      for k := 0 to |f.catches|
        invariant frames == old(frames) && trace == old(trace)
        invariant FirstMatch(f.catches, 0, v) == FirstMatch(f.catches, k, v)
      {
        var c := f.catches[k];
        if CatchMatches(c.typeName, v) {
          PushFrame();
          BindName(c.binding, v);
          r := EvalForms(c.body, fuel);
          PopFrame();
          return;
        }
      }
      r := Thrown(v);
    }
  }
}
