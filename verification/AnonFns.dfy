/**
 Expansion of `#(...)` into `(fn* [p__1 ... & rest__] (...))`: positional
 references are found, the parameter vector is built, the body is rewritten, and
 the result is expanded again for what is nested inside.
 */
module AnonFns {
  import opened Common
  import opened Decimal
  import opened ReaderConds

  // ---- References ----

  predicate IsDigit(c: char) {
    '0' <= c <= '9'
  }

  predicate AllDigits(s: string) {
    forall i :: 0 <= i < |s| ==> IsDigit(s[i])
  }

  function ToDigits(s: string): seq<Digit>
    requires AllDigits(s)
  {
    seq(|s|, i requires 0 <= i < |s| => s[i] as int - '0' as int)
  }

  /** Parsing of an unsigned machine word: digits, with an optional plus sign. */
  function ParseWord(s: string): Option<nat> {
    var t := if |s| > 1 && s[0] == '+' then s[1..] else s;
    if t != "" && AllDigits(t) && Value(ToDigits(t)) <= U64_MAX then Some(Value(ToDigits(t))) else None
  }

  datatype Ref = Arg(n: nat) | Rest | NotRef

  function Classify(s: string): Ref {
    if s == "%" || s == "%1" then Arg(1)
    else if s == "%&" then Rest
    else if s != "" && s[0] == '%' then
      match ParseWord(s[1..]) case Some(n) => Arg(n) case None => NotRef
    else NotRef
  }

  /** Positions referred to in a form, not looking inside nested `#(...)`. */
  function Refs(f: Form): set<nat> {
    match f
    case Symbol(s) => (match Classify(s) case Arg(n) => {n} case _ => {})
    case List(v) => RefsAll(v)
    case Vector(v) => RefsAll(v)
    case SetForm(v) => RefsAll(v)
    case MapForm(v) => RefsAll(v)
    case Sugared(_, inner) => Refs(inner)
    case Meta(m, inner) => Refs(m) + Refs(inner)
    case ReaderCond(_, clauses) => RefsAll(clauses)
    case _ => {}
  }

  function RefsAll(forms: seq<Form>): set<nat> {
    if forms == [] then {} else RefsAll(forms[..|forms| - 1]) + Refs(forms[|forms| - 1])
  }

  predicate UsesRest(f: Form) {
    match f
    case Symbol(s) => Classify(s) == Rest
    case List(v) => UsesRestAll(v)
    case Vector(v) => UsesRestAll(v)
    case SetForm(v) => UsesRestAll(v)
    case MapForm(v) => UsesRestAll(v)
    case Sugared(_, inner) => UsesRest(inner)
    case Meta(m, inner) => UsesRest(m) || UsesRest(inner)
    case ReaderCond(_, clauses) => UsesRestAll(clauses)
    case _ => false
  }

  predicate UsesRestAll(forms: seq<Form>) {
    forms != [] && (UsesRestAll(forms[..|forms| - 1]) || UsesRest(forms[|forms| - 1]))
  }

  /** `m` is the greatest position, or `start` if none is greater. */
  ghost predicate IsMax(m: nat, start: nat, refs: set<nat>) {
    m >= start && (forall n :: n in refs ==> n <= m) && (m == start || m in refs)
  }

  method FindPctRefs(forms: seq<Form>, maxPos: nat, hasRest: bool) returns (max: nat, rest: bool)
    ensures IsMax(max, maxPos, RefsAll(forms))
    ensures rest <==> hasRest || UsesRestAll(forms)
    decreases forms, 0
  {
    max, rest := maxPos, hasRest;
    for i := 0 to |forms|
      invariant IsMax(max, maxPos, RefsAll(forms[..i]))
      invariant rest <==> hasRest || UsesRestAll(forms[..i])
    {
      assert forms[..i + 1][..i] == forms[..i];
      max, rest := FindPctRefsForm(forms[i], max, rest);
    }
    assert forms[..|forms|] == forms;
  }

  method FindPctRefsForm(f: Form, maxPos: nat, hasRest: bool) returns (max: nat, rest: bool)
    ensures IsMax(max, maxPos, Refs(f))
    ensures rest <==> hasRest || UsesRest(f)
    decreases f, 1
  {
    max, rest := maxPos, hasRest;
    match f {
      case Symbol(s) =>
        if (s == "%" || s == "%1") && max < 1 {
          max := 1;
        } else if s == "%&" {
          rest := true;
        } else if s != "" && s[0] == '%' {
          var n := ParseWord(s[1..]);
          if n.Some? && n.value > max {
            max := n.value;
          }
          if s == "%1" {
            OneParses();
          }
        }
      case List(v) => max, rest := FindPctRefs(v, max, rest);
      case Vector(v) => max, rest := FindPctRefs(v, max, rest);
      case SetForm(v) => max, rest := FindPctRefs(v, max, rest);
      case MapForm(v) => max, rest := FindPctRefs(v, max, rest);
      case Sugared(_, inner) => max, rest := FindPctRefsForm(inner, max, rest);
      case Meta(m, inner) =>
        max, rest := FindPctRefsForm(m, max, rest);
        max, rest := FindPctRefsForm(inner, max, rest);
      case ReaderCond(_, clauses) => max, rest := FindPctRefs(clauses, max, rest);
      case _ =>
    }
  }

  lemma OneParses()
    ensures ParseWord("%1"[1..]) == Some(1)
  {
    assert "%1"[1..] == "1";
    assert ToDigits("1") == [1];
    assert [1 as Digit][..0] == [];
  }

  // ---- Rewriting ----

  function Show(n: nat): (s: string)
    ensures |s| == |Digits(n)|
    ensures forall i :: 0 <= i < |s| ==> s[i] == '0' + Digits(n)[i] as char
  {
    seq(|Digits(n)|, i requires 0 <= i < |Digits(n)| => '0' + Digits(n)[i] as char)
  }

  function ArgName(n: nat): string {
    "p__" + Show(n)
  }

  lemma ArgNameInjective(m: nat, n: nat)
    requires ArgName(m) == ArgName(n)
    ensures m == n
  {
    assert Show(m) == ArgName(m)[3..] && Show(n) == ArgName(n)[3..];
    forall i | 0 <= i < |Digits(m)| ensures Digits(m)[i] == Digits(n)[i] {
      assert Show(m)[i] == Show(n)[i];
    }
    DigitsInjective(m, n);
  }

  function RewriteForm(f: Form): Form {
    match f
    case Symbol(s) =>
      (match Classify(s)
       case Arg(n) => Symbol(ArgName(n))
       case Rest => Symbol("rest__")
       case NotRef => f)
    case List(v) => List(RewriteAll(v))
    case Vector(v) => Vector(RewriteAll(v))
    case SetForm(v) => SetForm(RewriteAll(v))
    case MapForm(v) => MapForm(RewriteAll(v))
    case Sugared(k, inner) => Sugared(k, RewriteForm(inner))
    case Meta(m, inner) => Meta(RewriteForm(m), RewriteForm(inner))
    case ReaderCond(splicing, clauses) => ReaderCond(splicing, RewriteAll(clauses))
    case _ => f
  }

  function RewriteAll(forms: seq<Form>): seq<Form> {
    if forms == [] then [] else RewriteAll(forms[..|forms| - 1]) + [RewriteForm(forms[|forms| - 1])]
  }

  function ArgSymbols(n: nat): (ps: seq<Form>)
    ensures |ps| == n && forall i :: 0 <= i < n ==> ps[i] == Symbol(ArgName(i + 1))
  {
    seq(n, i requires 0 <= i < n => Symbol(ArgName(i + 1)))
  }

  function Params(max: nat, rest: bool): seq<Form> {
    ArgSymbols(max) + if rest then [Symbol("&"), Symbol("rest__")] else []
  }

  /** `(fn* [params] (body))`. */
  function FnForm(body: seq<Form>, max: nat, rest: bool): Form {
    List([Symbol("fn*"), Vector(Params(max, rest)), List(RewriteAll(body))])
  }

  ghost function MaxRef(refs: set<nat>): (m: nat)
    ensures IsMax(m, 0, refs)
  {
    if refs == {} then 0
    else
      var n :| n in refs;
      var rest := refs - {n};
      var m := MaxRef(rest);
      assert refs == rest + {n};
      if n > m then n else m
  }

  lemma MaxUnique(m: nat, m': nat, refs: set<nat>)
    requires IsMax(m, 0, refs) && IsMax(m', 0, refs)
    ensures m == m'
  {
  }

  ghost function ExpandAnonFn(body: seq<Form>): Form {
    FnForm(body, MaxRef(RefsAll(body)), UsesRestAll(body))
  }

  method MakeFn(body: seq<Form>) returns (f: Form)
    ensures f == ExpandAnonFn(body)
  {
    var max, rest := FindPctRefs(body, 0, false);
    MaxUnique(max, MaxRef(RefsAll(body)), RefsAll(body));
    f := FnForm(body, max, rest);
  }

  // ---- What rewriting does ----

  /** Symbols of a form, not looking inside nested `#(...)`. */
  ghost function Names(f: Form): set<string> {
    match f
    case Symbol(s) => {s}
    case List(v) => NamesAll(v)
    case Vector(v) => NamesAll(v)
    case SetForm(v) => NamesAll(v)
    case MapForm(v) => NamesAll(v)
    case Sugared(_, inner) => Names(inner)
    case Meta(m, inner) => Names(m) + Names(inner)
    case ReaderCond(_, clauses) => NamesAll(clauses)
    case _ => {}
  }

  ghost function NamesAll(forms: seq<Form>): set<string> {
    if forms == [] then {} else NamesAll(forms[..|forms| - 1]) + Names(forms[|forms| - 1])
  }

  /** What the rewriting makes of one symbol. */
  function Rename(s: string): string {
    match Classify(s)
    case Arg(n) => ArgName(n)
    case Rest => "rest__"
    case NotRef => s
  }

  ghost function Renamed(names: set<string>): set<string> {
    set s | s in names :: Rename(s)
  }

  lemma ArgNameIsNoRef(n: nat)
    ensures Classify(ArgName(n)) == NotRef && Classify("rest__") == NotRef
  {
    assert ArgName(n)[0] == 'p';
  }

  lemma RenamedJoin(a: set<string>, b: set<string>)
    ensures Renamed(a + b) == Renamed(a) + Renamed(b)
  {
  }

  lemma SymbolRenamed(s: string)
    ensures Names(RewriteForm(Symbol(s))) == Renamed(Names(Symbol(s)))
  {
    assert Names(RewriteForm(Symbol(s))) == {Rename(s)};
  }

  /** A form that holds a sequence of forms and is no nested `#(...)`, and what it holds. */
  function Held(f: Form): Option<seq<Form>> {
    match f
    case List(v) => Some(v)
    case Vector(v) => Some(v)
    case SetForm(v) => Some(v)
    case MapForm(v) => Some(v)
    case ReaderCond(_, clauses) => Some(clauses)
    case _ => None
  }

  lemma HeldNames(f: Form)
    requires Held(f).Some?
    ensures Names(f) == NamesAll(Held(f).value)
  {
  }

  lemma HeldRewritten(f: Form)
    requires Held(f).Some?
    ensures Held(RewriteForm(f)) == Some(RewriteAll(Held(f).value))
  {
  }

  /** The symbols after rewriting are exactly the renamed symbols of the original. */
  lemma {:induction false} RewriteNames(f: Form)
    ensures Names(RewriteForm(f)) == Renamed(Names(f))
    decreases f, 1
  {
    if Held(f).Some? {
      HeldNames(f);
      HeldRewritten(f);
      HeldNames(RewriteForm(f));
      RewriteNamesAll(Held(f).value);
    } else {
      RewriteNamesOther(f);
    }
  }

  lemma {:induction false} RewriteNamesOther(f: Form)
    requires Held(f).None?
    ensures Names(RewriteForm(f)) == Renamed(Names(f))
    decreases f, 0
  {
    match f
    case Symbol(s) => SymbolRenamed(s);
    case Sugared(_, inner) => RewriteNames(inner);
    case Meta(m, inner) =>
      RewriteNames(m);
      RewriteNames(inner);
      RenamedJoin(Names(m), Names(inner));
    case _ =>
  }

  lemma {:induction false} RewriteNamesAll(forms: seq<Form>)
    ensures NamesAll(RewriteAll(forms)) == Renamed(NamesAll(forms))
    decreases forms, 0
  {
    if forms != [] {
      var n := |forms| - 1;
      var out := RewriteAll(forms);
      assert out[..|out| - 1] == RewriteAll(forms[..n]);
      RewriteNamesAll(forms[..n]);
      RewriteNames(forms[n]);
      RenamedJoin(NamesAll(forms[..n]), Names(forms[n]));
    }
  }

  /** The positions among the references in a set of names. */
  ghost function ArgsIn(names: set<string>): set<nat> {
    set s | s in names && Classify(s).Arg? :: Classify(s).n
  }

  ghost predicate RestIn(names: set<string>) {
    exists s :: s in names && Classify(s) == Rest
  }

  /** The references of a form are those among its symbols. */
  lemma {:induction false} RefsAreNames(f: Form)
    ensures Refs(f) == ArgsIn(Names(f)) && (UsesRest(f) <==> RestIn(Names(f)))
    decreases f, 1
  {
    match f
    case Symbol(s) => assert s in Names(f);
    case List(v) => RefsAreNamesAll(v);
    case Vector(v) => RefsAreNamesAll(v);
    case SetForm(v) => RefsAreNamesAll(v);
    case MapForm(v) => RefsAreNamesAll(v);
    case Sugared(_, inner) => RefsAreNames(inner);
    case Meta(m, inner) =>
      RefsAreNames(m);
      RefsAreNames(inner);
      ArgsJoin(Names(m), Names(inner));
    case ReaderCond(_, clauses) => RefsAreNamesAll(clauses);
    case _ =>
  }

  lemma ArgsJoin(a: set<string>, b: set<string>)
    ensures ArgsIn(a + b) == ArgsIn(a) + ArgsIn(b) && (RestIn(a + b) <==> RestIn(a) || RestIn(b))
  {
  }

  lemma {:induction false} RefsAreNamesAll(forms: seq<Form>)
    ensures RefsAll(forms) == ArgsIn(NamesAll(forms)) && (UsesRestAll(forms) <==> RestIn(NamesAll(forms)))
    decreases forms, 0
  {
    if forms != [] {
      var n := |forms| - 1;
      RefsAreNamesAll(forms[..n]);
      RefsAreNames(forms[n]);
      ArgsJoin(NamesAll(forms[..n]), Names(forms[n]));
    }
  }

  /** The parameter vector of an expanded `#(...)` binds every name the rewriting
      introduced, except the one standing for `%0`: a positional reference is
      bound exactly if it is not zero, and the rest exactly if it is used. */
  lemma ParamsBind(body: seq<Form>, n: nat)
    ensures var ps := Params(MaxRef(RefsAll(body)), UsesRestAll(body));
      (n in RefsAll(body) ==> (Symbol(ArgName(n)) in ps <==> n != 0)) &&
      (Symbol("rest__") in ps <==> UsesRestAll(body))
  {
    var max, rest := MaxRef(RefsAll(body)), UsesRestAll(body);
    var ps := Params(max, rest);
    if n != 0 && n <= max {
      assert ps[n - 1] == Symbol(ArgName(n));
    }
    if rest {
      assert ps[max + 1] == Symbol("rest__");
    }
    forall i | 0 <= i < max ensures ps[i] != Symbol("rest__") && (n == 0 ==> ps[i] != Symbol(ArgName(n))) {
      assert ArgName(i + 1)[0] == 'p' && "rest__"[0] == 'r';
      if ArgName(i + 1) == ArgName(n) {
        ArgNameInjective(i + 1, n);
      }
    }
    assert ArgName(n)[0] == 'p' && "rest__"[0] == 'r' && "&"[0] == '&';
  }

  /** A name that stands in the rewritten body for a reference of the original. */
  ghost predicate Introduced(x: string, body: seq<Form>) {
    exists s :: s in NamesAll(body) && Classify(s) != NotRef && Rename(s) == x
  }

  /** The rewritten body mentions introduced names and untouched ones, and nothing else. */
  lemma RewrittenNames(body: seq<Form>, x: string)
    ensures x in NamesAll(RewriteAll(body)) <==>
      Introduced(x, body) || (x in NamesAll(body) && Classify(x) == NotRef)
  {
    RewriteNamesAll(body);
  }

  lemma IntroducedByRef(x: string, body: seq<Form>)
    ensures Introduced(x, body) <==>
      (exists n :: n in RefsAll(body) && x == ArgName(n)) || (UsesRestAll(body) && x == "rest__")
  {
    RefsAreNamesAll(body);
    if n :| n in RefsAll(body) && x == ArgName(n) {
      var s :| s in NamesAll(body) && Classify(s).Arg? && Classify(s).n == n;
      assert Rename(s) == x;
    }
  }

  /** Every introduced name is a parameter if and only if the body does not refer to `%0`. */
  lemma IntroducedBound(body: seq<Form>)
    ensures var ps := Params(MaxRef(RefsAll(body)), UsesRestAll(body));
      (forall x :: Introduced(x, body) ==> Symbol(x) in ps) <==> 0 !in RefsAll(body)
  {
    var ps := Params(MaxRef(RefsAll(body)), UsesRestAll(body));
    if 0 in RefsAll(body) {
      ParamsBind(body, 0);
      IntroducedByRef(ArgName(0), body);
    } else {
      forall x | Introduced(x, body) ensures Symbol(x) in ps {
        IntroducedByRef(x, body);
        if n :| n in RefsAll(body) && x == ArgName(n) {
          ParamsBind(body, n);
        } else {
          ParamsBind(body, 0);
        }
      }
    }
  }

  /** No reference is left, so a rewritten body needs no second rewriting. */
  lemma {:induction false} RewriteLeavesNoRef(f: Form)
    ensures Refs(RewriteForm(f)) == {} && !UsesRest(RewriteForm(f))
    decreases f, 1
  {
    match f
    case Symbol(s) =>
      if Classify(s).Arg? { ArgNameIsNoRef(Classify(s).n); }
    case List(v) => RewriteAllLeavesNoRef(v);
    case Vector(v) => RewriteAllLeavesNoRef(v);
    case SetForm(v) => RewriteAllLeavesNoRef(v);
    case MapForm(v) => RewriteAllLeavesNoRef(v);
    case Sugared(_, inner) => RewriteLeavesNoRef(inner);
    case Meta(m, inner) =>
      RewriteLeavesNoRef(m);
      RewriteLeavesNoRef(inner);
    case ReaderCond(_, clauses) => RewriteAllLeavesNoRef(clauses);
    case _ =>
  }

  lemma {:induction false} RewriteAllLeavesNoRef(forms: seq<Form>)
    ensures RefsAll(RewriteAll(forms)) == {} && !UsesRestAll(RewriteAll(forms))
    decreases forms, 0
  {
    if forms != [] {
      var n := |forms| - 1;
      var out := RewriteAll(forms);
      assert out[..|out| - 1] == RewriteAll(forms[..n]);
      RewriteAllLeavesNoRef(forms[..n]);
      RewriteLeavesNoRef(forms[n]);
    }
  }

  // ---- The recursive expansion ----

  function AnonCount(f: Form): nat {
    match f
    case List(v) => AnonCountAll(v)
    case Vector(v) => AnonCountAll(v)
    case SetForm(v) => AnonCountAll(v)
    case MapForm(v) => AnonCountAll(v)
    case AnonFn(v) => 1 + AnonCountAll(v)
    case Sugared(_, inner) => AnonCount(inner)
    case Meta(m, inner) => AnonCount(m) + AnonCount(inner)
    case ReaderCond(_, clauses) => AnonCountAll(clauses)
    case _ => 0
  }

  function AnonCountAll(forms: seq<Form>): nat {
    if forms == [] then 0 else AnonCountAll(forms[..|forms| - 1]) + AnonCount(forms[|forms| - 1])
  }

  /** Rewriting touches neither nested `#(...)` nor conditionals. */
  lemma {:induction false} RewriteKeepsShape(f: Form)
    ensures AnonCount(RewriteForm(f)) == AnonCount(f) && CondFree(RewriteForm(f)) == CondFree(f)
    decreases f, 1
  {
    match f
    case List(v) => RewriteAllKeepsShape(v);
    case Vector(v) => RewriteAllKeepsShape(v);
    case SetForm(v) => RewriteAllKeepsShape(v);
    case MapForm(v) => RewriteAllKeepsShape(v);
    case Sugared(_, inner) => RewriteKeepsShape(inner);
    case Meta(m, inner) =>
      RewriteKeepsShape(m);
      RewriteKeepsShape(inner);
    case ReaderCond(_, clauses) => RewriteAllKeepsShape(clauses);
    case _ =>
  }

  lemma {:induction false} RewriteAllKeepsShape(forms: seq<Form>)
    ensures AnonCountAll(RewriteAll(forms)) == AnonCountAll(forms)
    ensures CondFreeAll(RewriteAll(forms)) == CondFreeAll(forms)
    decreases forms, 0
  {
    if forms != [] {
      var n := |forms| - 1;
      var out := RewriteAll(forms);
      assert out[..|out| - 1] == RewriteAll(forms[..n]);
      RewriteAllKeepsShape(forms[..n]);
      RewriteKeepsShape(forms[n]);
    }
  }

  lemma {:induction false} SymbolsArePlain(forms: seq<Form>)
    requires forall i :: 0 <= i < |forms| ==> forms[i].Symbol?
    ensures AnonCountAll(forms) == 0 && CondFreeAll(forms)
  {
    if forms != [] {
      SymbolsArePlain(forms[..|forms| - 1]);
    }
  }

  lemma ThreeForms(a: Form, b: Form, c: Form)
    ensures AnonCountAll([a, b, c]) == AnonCount(a) + AnonCount(b) + AnonCount(c)
    ensures CondFreeAll([a, b, c]) == (CondFree(a) && CondFree(b) && CondFree(c))
  {
    Snoc([], a);
    Snoc([a], b);
    Snoc([a, b], c);
    assert [] + [a] == [a] && [a] + [b] == [a, b] && [a, b] + [c] == [a, b, c];
  }

  lemma FnShape(head: Form, ps: seq<Form>, out: seq<Form>)
    requires head.Symbol? && AnonCountAll(ps) == 0 && CondFreeAll(ps)
    ensures AnonCount(List([head, Vector(ps), List(out)])) == AnonCountAll(out)
    ensures CondFree(List([head, Vector(ps), List(out)])) == CondFreeAll(out)
  {
    ThreeForms(head, Vector(ps), List(out));
  }

  lemma ExpandAnonFnShape(body: seq<Form>)
    ensures AnonCount(ExpandAnonFn(body)) == AnonCountAll(body)
    ensures CondFreeAll(body) ==> CondFree(ExpandAnonFn(body))
  {
    var ps := Params(MaxRef(RefsAll(body)), UsesRestAll(body));
    RewriteAllKeepsShape(body);
    SymbolsArePlain(ps);
    FnShape(Symbol("fn*"), ps, RewriteAll(body));
  }

  lemma Snoc(forms: seq<Form>, f: Form)
    ensures AnonCountAll(forms + [f]) == AnonCountAll(forms) + AnonCount(f)
    ensures CondFreeAll(forms + [f]) == (CondFreeAll(forms) && CondFree(f))
  {
    assert (forms + [f])[..|forms|] == forms;
  }

  lemma {:induction false} AnonCountAt(forms: seq<Form>, i: nat)
    requires i < |forms|
    ensures AnonCount(forms[i]) <= AnonCountAll(forms)
  {
    if i < |forms| - 1 {
      AnonCountAt(forms[..|forms| - 1], i);
    }
  }

  /** Expand, then expand the result: each round has one `#(...)` fewer, and
      between rounds forms get smaller. */
  ghost function ExpandAnon(f: Form): Form
    decreases AnonCount(f), Size(f), 0
  {
    match f
    case AnonFn(body) =>
      ExpandAnonFnShape(body);
      ExpandAnon(ExpandAnonFn(body))
    case List(v) => List(ExpandAnonEach(v))
    case Vector(v) => Vector(ExpandAnonEach(v))
    case MapForm(v) => MapForm(ExpandAnonEach(v))
    case SetForm(v) => SetForm(ExpandAnonEach(v))
    case Sugared(k, inner) => Sugared(k, ExpandAnon(inner))
    case Meta(m, inner) => Meta(ExpandAnon(m), ExpandAnon(inner))
    case _ => f
  }

  ghost function ExpandAnonEach(forms: seq<Form>): seq<Form>
    decreases AnonCountAll(forms), SizeAll(forms), 1, |forms|
  {
    if forms == [] then []
    else
      var n := |forms| - 1;
      AnonCountAt(forms, n);
      SizeAt(forms, n);
      ExpandAnonEach(forms[..n]) + [ExpandAnon(forms[n])]
  }

  /** On forms without reader conditionals no `#(...)` is left at any depth, and
      no conditional appears. */
  lemma {:induction false} AnonExpanded(f: Form)
    requires CondFree(f)
    ensures AnonCount(ExpandAnon(f)) == 0 && CondFree(ExpandAnon(f))
    decreases AnonCount(f), Size(f), 0
  {
    match f
    case AnonFn(body) =>
      ExpandAnonFnShape(body);
      AnonExpanded(ExpandAnonFn(body));
    case List(v) => AnonExpandedEach(v);
    case Vector(v) => AnonExpandedEach(v);
    case MapForm(v) => AnonExpandedEach(v);
    case SetForm(v) => AnonExpandedEach(v);
    case Sugared(_, inner) => AnonExpanded(inner);
    case Meta(m, inner) =>
      AnonExpanded(m);
      AnonExpanded(inner);
    case _ =>
  }

  lemma {:induction false} AnonExpandedEach(forms: seq<Form>)
    requires CondFreeAll(forms)
    ensures AnonCountAll(ExpandAnonEach(forms)) == 0 && CondFreeAll(ExpandAnonEach(forms))
    decreases AnonCountAll(forms), SizeAll(forms), 1, |forms|
  {
    if forms != [] {
      var n := |forms| - 1;
      AnonCountAt(forms, n);
      SizeAt(forms, n);
      AnonExpandedEach(forms[..n]);
      AnonExpanded(forms[n]);
      var out := ExpandAnonEach(forms);
      assert out[..|out| - 1] == ExpandAnonEach(forms[..n]);
    }
  }

  /** The whole normalisation, conditionals first: neither construct is left. */
  lemma NormalisationComplete(f: Form, feats: Features)
    ensures AnonCount(ExpandAnon(ExpandForm(f, feats))) == 0
    ensures CondFree(ExpandAnon(ExpandForm(f, feats)))
  {
    FormExpanded(f, feats);
    AnonExpanded(ExpandForm(f, feats));
  }
}
