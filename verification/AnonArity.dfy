/**
 The order of the two normalisations. The interpreter expands `#(...)` before the
 reader conditionals inside it, so references in branches that are not selected
 count towards its arity; the compiler expands conditionals first. The two agree
 exactly when no dropped reference exceeds the kept ones.
 */
module AnonArity {
  import opened Common
  import opened Decimal
  import opened ReaderConds
  import opened AnonFns

  /** Index of the selected branch, clauses read in pairs from `i`. */
  function BranchFrom(clauses: seq<Form>, i: nat, feats: Features): (r: Option<nat>)
    ensures r.Some? ==> i < r.value < |clauses|
    ensures SelectFrom(clauses, i, feats) == if r.Some? then Some(clauses[r.value]) else None
    decreases |clauses| - i
  {
    if i + 1 >= |clauses| then None
    else if Chosen(clauses, i, feats) then Some(i + 1)
    else BranchFrom(clauses, i + 2, feats)
  }

  function Branch(clauses: seq<Form>, feats: Features): (r: Option<nat>)
    ensures r.Some? ==> r.value < |clauses| && Size(clauses[r.value]) <= SizeAll(clauses)
    ensures Select(clauses, feats) == if r.Some? then Some(clauses[r.value]) else None
  {
    SelectSmaller(clauses, feats);
    BranchFrom(clauses, 0, feats)
  }

  function Others(clauses: seq<Form>, k: nat): seq<Form>
    requires k < |clauses|
  {
    clauses[..k] + clauses[k + 1..]
  }

  predicate Splices(splicing: bool, f: Form) {
    splicing && (f.Vector? || f.List?)
  }

  // ---- Names kept ----

  /** Symbols outside nested `#(...)` that survive the selection of branches. */
  ghost function Kept(f: Form, feats: Features): set<string>
    decreases Size(f), 0
  {
    match f
    case Symbol(s) => {s}
    case List(v) => KeptAll(v, feats)
    case Vector(v) => KeptAll(v, feats)
    case SetForm(v) => KeptAll(v, feats)
    case MapForm(v) => KeptAll(v, feats)
    case Sugared(_, inner) => Kept(inner, feats)
    case Meta(m, inner) => Kept(m, feats) + Kept(inner, feats)
    case ReaderCond(splicing, clauses) =>
      var k := Branch(clauses, feats);
      if splicing || k.None? then {} else Kept(clauses[k.value], feats)
    case _ => {}
  }

  /** In a sequence a splicing conditional contributes the elements of its branch. */
  ghost function KeptIn(f: Form, feats: Features): set<string>
    decreases Size(f), 1
  {
    if !f.ReaderCond? then Kept(f, feats)
    else
      var k := Branch(f.clauses, feats);
      if k.None? then {}
      else if Splices(f.splicing, f.clauses[k.value]) then KeptAll(f.clauses[k.value].v, feats)
      else Kept(f.clauses[k.value], feats)
  }

  ghost function KeptAll(forms: seq<Form>, feats: Features): set<string>
    decreases SizeAll(forms), 2, |forms|
  {
    if forms == [] then {}
    else
      var n := |forms| - 1;
      SizeAt(forms, n);
      KeptAll(forms[..n], feats) + KeptIn(forms[n], feats)
  }

  // ---- Names dropped ----

  /** Symbols of the branches and keys passed over, at every depth. */
  ghost function Dropped(f: Form, feats: Features): set<string>
    decreases Size(f), 0
  {
    match f
    case List(v) => DroppedAll(v, feats)
    case Vector(v) => DroppedAll(v, feats)
    case SetForm(v) => DroppedAll(v, feats)
    case MapForm(v) => DroppedAll(v, feats)
    case Sugared(_, inner) => Dropped(inner, feats)
    case Meta(m, inner) => Dropped(m, feats) + Dropped(inner, feats)
    case ReaderCond(splicing, clauses) =>
      var k := Branch(clauses, feats);
      if splicing || k.None? then NamesAll(clauses)
      else NamesAll(Others(clauses, k.value)) + Dropped(clauses[k.value], feats)
    case _ => {}
  }

  ghost function DroppedIn(f: Form, feats: Features): set<string>
    decreases Size(f), 1
  {
    if !f.ReaderCond? then Dropped(f, feats)
    else
      var k := Branch(f.clauses, feats);
      if k.None? then NamesAll(f.clauses)
      else
        NamesAll(Others(f.clauses, k.value)) +
        if Splices(f.splicing, f.clauses[k.value]) then DroppedAll(f.clauses[k.value].v, feats)
        else Dropped(f.clauses[k.value], feats)
  }

  ghost function DroppedAll(forms: seq<Form>, feats: Features): set<string>
    decreases SizeAll(forms), 2, |forms|
  {
    if forms == [] then {}
    else
      var n := |forms| - 1;
      SizeAt(forms, n);
      DroppedAll(forms[..n], feats) + DroppedIn(forms[n], feats)
  }

  // ---- Every name is kept or dropped ----

  lemma {:induction false} NamesConcat(a: seq<Form>, b: seq<Form>)
    ensures NamesAll(a + b) == NamesAll(a) + NamesAll(b)
    decreases |b|
  {
    if b == [] {
      assert a + b == a;
    } else {
      var n := |b| - 1;
      assert (a + b)[..|a + b| - 1] == a + b[..n];
      NamesConcat(a, b[..n]);
    }
  }

  lemma NamesAround(a: seq<Form>, f: Form, b: seq<Form>)
    ensures NamesAll(a + [f] + b) == NamesAll(a + b) + Names(f)
  {
    assert (a + [f])[..|a|] == a;
    NamesConcat(a + [f], b);
    NamesConcat(a, b);
  }

  lemma SplitAt<T>(s: seq<T>, k: nat)
    requires k < |s|
    ensures s == s[..k] + [s[k]] + s[k + 1..]
  {
  }

  lemma NamesOthers(clauses: seq<Form>, k: nat)
    requires k < |clauses|
    ensures NamesAll(clauses) == NamesAll(Others(clauses, k)) + Names(clauses[k])
  {
    SplitAt(clauses, k);
    NamesAround(clauses[..k], clauses[k], clauses[k + 1..]);
  }

  lemma {:induction false} Partition(f: Form, feats: Features)
    ensures Names(f) == Kept(f, feats) + Dropped(f, feats)
    decreases Size(f), 0
  {
    match f
    case List(v) => PartitionAll(v, feats);
    case Vector(v) => PartitionAll(v, feats);
    case SetForm(v) => PartitionAll(v, feats);
    case MapForm(v) => PartitionAll(v, feats);
    case Sugared(_, inner) => Partition(inner, feats);
    case Meta(m, inner) =>
      Partition(m, feats);
      Partition(inner, feats);
    case ReaderCond(splicing, clauses) =>
      var k := Branch(clauses, feats);
      if k.Some? {
        NamesOthers(clauses, k.value);
        Partition(clauses[k.value], feats);
      }
    case _ =>
  }

  lemma {:induction false} PartitionIn(f: Form, feats: Features)
    ensures Names(f) == KeptIn(f, feats) + DroppedIn(f, feats)
    decreases Size(f), 1
  {
    if f.ReaderCond? {
      var k := Branch(f.clauses, feats);
      if k.Some? {
        var sel := f.clauses[k.value];
        NamesOthers(f.clauses, k.value);
        if Splices(f.splicing, sel) {
          PartitionAll(sel.v, feats);
        } else {
          Partition(sel, feats);
        }
      }
    } else {
      Partition(f, feats);
    }
  }

  lemma {:induction false} PartitionAll(forms: seq<Form>, feats: Features)
    ensures NamesAll(forms) == KeptAll(forms, feats) + DroppedAll(forms, feats)
    decreases SizeAll(forms), 2, |forms|
  {
    if forms != [] {
      var n := |forms| - 1;
      SizeAt(forms, n);
      PartitionAll(forms[..n], feats);
      PartitionIn(forms[n], feats);
    }
  }

  // ---- Expansion keeps exactly the kept names ----

  /** Kept names of forms each expanded on its own. */
  ghost function KeptEach(forms: seq<Form>, feats: Features): set<string> {
    if forms == [] then {} else KeptEach(forms[..|forms| - 1], feats) + Kept(forms[|forms| - 1], feats)
  }

  lemma {:induction false} KeptEachConcat(a: seq<Form>, b: seq<Form>, feats: Features)
    ensures KeptEach(a + b, feats) == KeptEach(a, feats) + KeptEach(b, feats)
    decreases |b|
  {
    if b == [] {
      assert a + b == a;
    } else {
      var n := |b| - 1;
      assert (a + b)[..|a + b| - 1] == a + b[..n];
      KeptEachConcat(a, b[..n], feats);
    }
  }

  lemma {:induction false} OneKept(f: Form, feats: Features)
    ensures KeptEach(ExpandOne(f, feats), feats) == KeptIn(f, feats)
    decreases Size(f), 0
  {
    if f.ReaderCond? {
      var k := Branch(f.clauses, feats);
      if k.Some? {
        var sel := f.clauses[k.value];
        if Splices(f.splicing, sel) {
          LevelKept(sel.v, feats);
        } else {
          assert [sel][..0] == [];
        }
      }
    } else {
      assert [f][..0] == [];
    }
  }

  lemma {:induction false} LevelKept(forms: seq<Form>, feats: Features)
    ensures KeptEach(ExpandLevel(forms, feats), feats) == KeptAll(forms, feats)
    decreases SizeAll(forms), 1, |forms|
  {
    if forms != [] {
      var n := |forms| - 1;
      SizeAt(forms, n);
      LevelKept(forms[..n], feats);
      OneKept(forms[n], feats);
      KeptEachConcat(ExpandLevel(forms[..n], feats), ExpandOne(forms[n], feats), feats);
    }
  }

  lemma {:induction false} FormKept(f: Form, feats: Features)
    ensures Names(ExpandForm(f, feats)) == Kept(f, feats)
    decreases Size(f), 0
  {
    match f
    case List(v) => DeepKept(v, feats);
    case Vector(v) => DeepKept(v, feats);
    case SetForm(v) => DeepKept(v, feats);
    case MapForm(v) => DeepKept(v, feats);
    case Sugared(_, inner) => FormKept(inner, feats);
    case Meta(m, inner) =>
      FormKept(m, feats);
      FormKept(inner, feats);
    case ReaderCond(splicing, clauses) =>
      var k := Branch(clauses, feats);
      if !splicing && k.Some? {
        FormKept(clauses[k.value], feats);
      }
    case _ =>
  }

  lemma {:induction false} EachKept(forms: seq<Form>, feats: Features)
    ensures NamesAll(ExpandEach(forms, feats)) == KeptEach(forms, feats)
    decreases SizeAll(forms), 2, |forms|
  {
    if forms != [] {
      var n := |forms| - 1;
      SizeAt(forms, n);
      EachKept(forms[..n], feats);
      FormKept(forms[n], feats);
      var out := ExpandEach(forms, feats);
      assert out[..|out| - 1] == ExpandEach(forms[..n], feats);
    }
  }

  lemma {:induction false} DeepKept(forms: seq<Form>, feats: Features)
    ensures NamesAll(ExpandDeep(forms, feats)) == KeptAll(forms, feats)
    decreases SizeAll(forms), 3
  {
    ExpandLevelSmaller(forms, feats);
    LevelKept(forms, feats);
    EachKept(ExpandLevel(forms, feats), feats);
  }

  // ---- Arity ----

  /** Some dropped position exceeds every kept one. */
  ghost predicate Outgrows(dropped: set<nat>, kept: set<nat>) {
    exists n :: n in dropped && n > 0 && forall k :: k in kept ==> k < n
  }

  lemma MaxOfUnion(kept: set<nat>, dropped: set<nat>)
    ensures MaxRef(kept) <= MaxRef(kept + dropped)
    ensures MaxRef(kept) == MaxRef(kept + dropped) <==> !Outgrows(dropped, kept)
  {
    var m, all := MaxRef(kept), MaxRef(kept + dropped);
    assert forall n :: n in kept + dropped <==> n in kept || n in dropped;
    if m < all {
      assert all in dropped;
      assert Outgrows(dropped, kept);
    }
  }

  lemma ParamsSame(m: nat, r: bool, m': nat, r': bool)
    ensures Params(m, r) == Params(m', r') <==> m == m' && r == r'
  {
    var ps, ps' := Params(m, r), Params(m', r');
    if r != r' && |ps| == |ps'| {
      var n := |ps| - 1;
      assert ArgName(n + 1)[0] == 'p' && "rest__"[0] == 'r';
      assert {ps[n], ps'[n]} == {Symbol("rest__"), Symbol(ArgName(n + 1))};
    }
  }

  /** For every body and feature set: expanding the conditionals first never raises the arity or adds a
      rest parameter, and gives the same parameter vector if and only if no dropped reference exceeds
      every kept one and a dropped rest reference has a kept one beside it. */
  lemma ArityByOrder(body: seq<Form>, feats: Features)
    ensures var kept, dropped := KeptAll(body, feats), DroppedAll(body, feats);
      var before, after := MaxRef(RefsAll(body)), MaxRef(RefsAll(ExpandDeep(body, feats)));
      var rest, rest' := UsesRestAll(body), UsesRestAll(ExpandDeep(body, feats));
      && after <= before && (after == before <==> !Outgrows(ArgsIn(dropped), ArgsIn(kept)))
      && (rest' ==> rest) && (rest' == rest <==> (RestIn(dropped) ==> RestIn(kept)))
      && (Params(after, rest') == Params(before, rest) <==>
          !Outgrows(ArgsIn(dropped), ArgsIn(kept)) && (RestIn(dropped) ==> RestIn(kept)))
  {
    var kept, dropped := KeptAll(body, feats), DroppedAll(body, feats);
    PartitionAll(body, feats);
    DeepKept(body, feats);
    RefsAreNamesAll(body);
    RefsAreNamesAll(ExpandDeep(body, feats));
    ArgsJoin(kept, dropped);
    MaxOfUnion(ArgsIn(kept), ArgsIn(dropped));
    ParamsSame(MaxRef(RefsAll(ExpandDeep(body, feats))), UsesRestAll(ExpandDeep(body, feats)),
               MaxRef(RefsAll(body)), UsesRestAll(body));
  }

  lemma FiveParses()
    ensures Classify("%5") == Arg(5)
  {
    assert "%5"[1..] == "5" && ToDigits("5") == [5] && [5 as Digit][..0] == [];
  }

  lemma ExampleBefore(clauses: seq<Form>)
    requires clauses == [Keyword("clj"), Symbol("%5"), Keyword("rust"), Symbol("%1")]
    ensures RefsAll([ReaderCond(false, clauses)]) == {5, 1}
  {
    FiveParses();
    assert clauses[..3] == [Keyword("clj"), Symbol("%5"), Keyword("rust")];
    assert clauses[..3][..2] == [Keyword("clj"), Symbol("%5")];
    assert clauses[..3][..2][..1] == [Keyword("clj")] && clauses[..3][..2][..1][..0] == [];
    assert RefsAll([Keyword("clj"), Symbol("%5")]) == {5};
    assert RefsAll(clauses[..3]) == {5};
    assert RefsAll(clauses) == {5, 1};
    assert [ReaderCond(false, clauses)][..0] == [];
  }

  lemma ExampleAfter(clauses: seq<Form>)
    requires clauses == [Keyword("clj"), Symbol("%5"), Keyword("rust"), Symbol("%1")]
    ensures RefsAll(ExpandDeep([ReaderCond(false, clauses)], {"rust"})) == {1}
  {
    var cond := ReaderCond(false, clauses);
    assert SelectFrom(clauses, 2, {"rust"}) == Some(Symbol("%1"));
    assert Select(clauses, {"rust"}) == Some(Symbol("%1"));
    assert ExpandOne(cond, {"rust"}) == [Symbol("%1")];
    assert [cond][..0] == [];
    assert ExpandLevel([cond], {"rust"}) == [Symbol("%1")];
    assert [Symbol("%1")][..0] == [];
    assert ExpandEach([Symbol("%1")], {"rust"}) == [Symbol("%1")];
  }

  /** A body on which the orders differ. */
  lemma ArityDependsOnOrder()
    ensures var body := [ReaderCond(false, [Keyword("clj"), Symbol("%5"), Keyword("rust"), Symbol("%1")])];
      MaxRef(RefsAll(body)) == 5 && MaxRef(RefsAll(ExpandDeep(body, {"rust"}))) == 1
  {
    var clauses := [Keyword("clj"), Symbol("%5"), Keyword("rust"), Symbol("%1")];
    ExampleBefore(clauses);
    ExampleAfter(clauses);
    MaxUnique(MaxRef({5, 1}), 5, {5, 1});
    MaxUnique(MaxRef({1}), 1, {1});
  }
}
