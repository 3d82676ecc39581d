/**
 Which names of a `#(...)` body its expansion confuses. The parameters are ordinary
 symbols `p__1`, ..., `rest__`, so a body that already mentions one of them has it
 captured, or read as a reference that it is not.
 */
module AnonHygiene {
  import opened Common
  import opened Decimal
  import opened ReaderConds
  import opened AnonFns

  // ---- Nothing but symbols changes ----

  /** A form with its symbols outside nested `#(...)` blanked. */
  function Erase(f: Form): Form {
    match f
    case Symbol(_) => Symbol("")
    case List(v) => List(EraseAll(v))
    case Vector(v) => Vector(EraseAll(v))
    case SetForm(v) => SetForm(EraseAll(v))
    case MapForm(v) => MapForm(EraseAll(v))
    case Sugared(k, inner) => Sugared(k, Erase(inner))
    case Meta(m, inner) => Meta(Erase(m), Erase(inner))
    case ReaderCond(splicing, clauses) => ReaderCond(splicing, EraseAll(clauses))
    case _ => f
  }

  function EraseAll(forms: seq<Form>): seq<Form> {
    if forms == [] then [] else EraseAll(forms[..|forms| - 1]) + [Erase(forms[|forms| - 1])]
  }

  /** Rewriting changes only symbols outside nested `#(...)`. */
  lemma {:induction false} OnlySymbolsChange(f: Form)
    ensures Erase(RewriteForm(f)) == Erase(f)
    decreases f, 1
  {
    match f
    case List(v) => OnlySymbolsChangeAll(v);
    case Vector(v) => OnlySymbolsChangeAll(v);
    case SetForm(v) => OnlySymbolsChangeAll(v);
    case MapForm(v) => OnlySymbolsChangeAll(v);
    case ReaderCond(_, clauses) => OnlySymbolsChangeAll(clauses);
    case _ => OnlySymbolsChangeOther(f);
  }

  lemma {:induction false} OnlySymbolsChangeOther(f: Form)
    requires Held(f).None?
    ensures Erase(RewriteForm(f)) == Erase(f)
    decreases f, 0
  {
    match f
    case Sugared(_, inner) => OnlySymbolsChange(inner);
    case Meta(m, inner) =>
      OnlySymbolsChange(m);
      OnlySymbolsChange(inner);
    case _ =>
  }

  lemma {:induction false} OnlySymbolsChangeAll(forms: seq<Form>)
    ensures EraseAll(RewriteAll(forms)) == EraseAll(forms)
    decreases forms, 0
  {
    if forms != [] {
      var n := |forms| - 1;
      var out := RewriteAll(forms);
      assert out[..|out| - 1] == RewriteAll(forms[..n]);
      OnlySymbolsChangeAll(forms[..n]);
      OnlySymbolsChange(forms[n]);
    }
  }

  // ---- Names made one ----

  ghost predicate Untouched(x: string, body: seq<Form>) {
    x in NamesAll(body) && Classify(x) == NotRef
  }

  /** Two symbols of a body stand for the same thing: the same argument, or the same symbol. */
  predicate SameMeaning(s: string, t: string) {
    Classify(s) == Classify(t) && (Classify(s) == NotRef ==> s == t)
  }

  lemma RenamedRefs(s: string, t: string)
    requires Classify(s) != NotRef && Classify(t) != NotRef
    ensures Rename(s) == Rename(t) <==> Classify(s) == Classify(t)
  {
    match (Classify(s), Classify(t))
    case (Arg(m), Arg(n)) =>
      if Rename(s) == Rename(t) {
        ArgNameInjective(m, n);
      }
    case (Arg(m), Rest) => assert Rename(s)[0] == 'p' && Rename(t)[0] == 'r';
    case (Rest, Arg(n)) => assert Rename(s)[0] == 'r' && Rename(t)[0] == 'p';
    case (Rest, Rest) =>
  }

  /** Rewriting keeps different things apart if and only if no symbol that is not a
      reference is a name introduced for one. */
  lemma KeptApart(body: seq<Form>)
    ensures (forall s, t :: s in NamesAll(body) && t in NamesAll(body) ==>
        (Rename(s) == Rename(t) <==> SameMeaning(s, t)))
      <==> (forall x :: Untouched(x, body) ==> !Introduced(x, body))
  {
    if x :| Untouched(x, body) && Introduced(x, body) {
      var s :| s in NamesAll(body) && Classify(s) != NotRef && Rename(s) == x;
      assert Rename(x) == x && !SameMeaning(s, x);
    } else {
      forall s, t | s in NamesAll(body) && t in NamesAll(body)
        ensures Rename(s) == Rename(t) <==> SameMeaning(s, t)
      {
        if Classify(s) != NotRef && Classify(t) != NotRef {
          RenamedRefs(s, t);
        } else if Classify(s) == NotRef {
          assert Untouched(s, body);
        } else {
          assert Untouched(t, body);
        }
      }
    }
  }

  // ---- Names captured ----

  /** The names the parameter vector of an expanded `#(...)` binds. */
  ghost predicate Binds(body: seq<Form>, x: string) {
    x != "&" && Symbol(x) in Params(MaxRef(RefsAll(body)), UsesRestAll(body))
  }

  /** The name of an argument up to the greatest one used, or of the rest where that is used. */
  ghost predicate ParamName(body: seq<Form>, x: string) {
    || (exists n: nat :: 1 <= n <= MaxRef(RefsAll(body)) && x == ArgName(n))
    || (UsesRestAll(body) && x == "rest__")
  }

  lemma BindsExactly(body: seq<Form>, x: string)
    ensures Binds(body, x) <==> ParamName(body, x)
  {
    var max := MaxRef(RefsAll(body));
    var ps := Params(max, UsesRestAll(body));
    if n: nat :| 1 <= n <= max && x == ArgName(n) {
      assert ps[n - 1] == Symbol(x) && x[0] == 'p' && "&"[0] == '&';
    }
    ParamsBind(body, 0);
  }

  lemma RefBinds(body: seq<Form>, n: nat)
    requires n in RefsAll(body) && n > 0
    ensures Binds(body, ArgName(n))
  {
    BindsExactly(body, ArgName(n));
    assert ParamName(body, ArgName(n));
  }

  lemma RestBinds(body: seq<Form>)
    requires UsesRestAll(body)
    ensures Binds(body, "rest__")
  {
    BindsExactly(body, "rest__");
  }

  lemma IntroducedBinds(body: seq<Form>, x: string)
    requires Introduced(x, body)
    ensures Binds(body, x) || (0 in RefsAll(body) && x == ArgName(0))
  {
    IntroducedByRef(x, body);
    if UsesRestAll(body) && x == "rest__" {
      RestBinds(body);
    } else {
      var n :| n in RefsAll(body) && x == ArgName(n);
      if n > 0 {
        RefBinds(body, n);
      }
    }
  }

  lemma ZeroFree(body: seq<Form>)
    requires 0 in RefsAll(body)
    ensures Introduced(ArgName(0), body) && !Binds(body, ArgName(0))
  {
    IntroducedByRef(ArgName(0), body);
    ParamsBind(body, 0);
  }

  /** What the expansion leaves free: the symbols of the body that are no references and
      are not parameters, and the name that stands for `%0`. */
  lemma FreeAfter(body: seq<Form>, x: string)
    ensures x in NamesAll(RewriteAll(body)) && !Binds(body, x) <==>
      (Untouched(x, body) && !Binds(body, x)) || (0 in RefsAll(body) && x == ArgName(0))
  {
    RewrittenNames(body, x);
    if Introduced(x, body) {
      IntroducedBinds(body, x);
    }
    if 0 in RefsAll(body) {
      ZeroFree(body);
    }
  }

  lemma ParamNameUntouched(body: seq<Form>, x: string)
    requires ParamName(body, x)
    ensures Classify(x) == NotRef
  {
    ArgNameIsNoRef(0);
    if n: nat :| x == ArgName(n) {
      ArgNameIsNoRef(n);
    }
  }

  /** Every symbol of the body that is no reference is still free in the expansion if and
      only if none of them is the name of a parameter. */
  lemma NothingCaptured(body: seq<Form>)
    ensures
      (forall x :: Untouched(x, body) ==> x in NamesAll(RewriteAll(body)) && !Binds(body, x)) <==>
      (forall x :: x in NamesAll(body) ==> !ParamName(body, x))
  {
    forall x | x in NamesAll(body)
      ensures ParamName(body, x) ==> Untouched(x, body) && Binds(body, x)
      ensures Untouched(x, body) && !ParamName(body, x) ==> x in NamesAll(RewriteAll(body)) && !Binds(body, x)
    {
      RewrittenNames(body, x);
      BindsExactly(body, x);
      if ParamName(body, x) {
        ParamNameUntouched(body, x);
      }
    }
  }

  // ---- A body that is not hygienic ----

  lemma ShowOne()
    ensures ArgName(1) == "p__1"
  {
    assert Digits(1) == [1];
    assert Show(1) == "1";
  }

  lemma Append(forms: seq<Form>, f: Form)
    ensures RewriteAll(forms + [f]) == RewriteAll(forms) + [RewriteForm(f)]
    ensures RefsAll(forms + [f]) == RefsAll(forms) + Refs(f)
    ensures NamesAll(forms + [f]) == NamesAll(forms) + Names(f)
  {
    assert (forms + [f])[..|forms|] == forms;
  }

  /** In `#(% p__1)` both symbols become the one parameter. */
  lemma Captured()
    ensures var body := [Symbol("%"), Symbol("p__1")];
      && RewriteAll(body) == [Symbol("p__1"), Symbol("p__1")]
      && Untouched("p__1", body) && Introduced("p__1", body) && Binds(body, "p__1")
  {
    var a, b := Symbol("%"), Symbol("p__1");
    ShowOne();
    ArgNameIsNoRef(1);
    Append([], a);
    Append([a], b);
    assert [] + [a] == [a] && [a] + [b] == [a, b];
    assert Rename("%") == "p__1" && "%" in NamesAll([a, b]);
    ParamsBind([a, b], 1);
  }
}
