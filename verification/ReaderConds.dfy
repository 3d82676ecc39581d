/**
 Reader forms and the expansion of reader conditionals: `#?(...)` becomes its
 selected branch, `#?@(...)` is spliced into the sequence around it.
 */
module ReaderConds {
  import opened Common

  datatype Sugar = Quote | SyntaxQuote | Unquote | UnquoteSplice | Deref | VarQuote | Tagged(tag: string)

  /** A form; `Datum` stands for the literals without parts. */
  datatype Form =
    | NilForm
    | Symbol(name: string)
    | Keyword(key: string)
    | Datum(id: nat)
    | List(v: seq<Form>)
    | Vector(v: seq<Form>)
    | SetForm(v: seq<Form>)
    | MapForm(v: seq<Form>)
    | AnonFn(v: seq<Form>)
    | Sugared(kind: Sugar, inner: Form)
    | Meta(meta: Form, inner: Form)
    | ReaderCond(splicing: bool, clauses: seq<Form>)

  function Size(f: Form): (n: nat)
    ensures n >= 1
  {
    match f
    case List(v) => 1 + SizeAll(v)
    case Vector(v) => 1 + SizeAll(v)
    case SetForm(v) => 1 + SizeAll(v)
    case MapForm(v) => 1 + SizeAll(v)
    case AnonFn(v) => 1 + SizeAll(v)
    case Sugared(_, inner) => 1 + Size(inner)
    case Meta(m, inner) => 1 + Size(m) + Size(inner)
    case ReaderCond(_, clauses) => 1 + SizeAll(clauses)
    case _ => 1
  }

  function SizeAll(forms: seq<Form>): nat {
    if forms == [] then 0 else SizeAll(forms[..|forms| - 1]) + Size(forms[|forms| - 1])
  }

  lemma {:induction false} SizeAt(forms: seq<Form>, i: nat)
    requires i < |forms|
    ensures Size(forms[i]) <= SizeAll(forms)
  {
    if i < |forms| - 1 {
      SizeAt(forms[..|forms| - 1], i);
    }
  }

  lemma {:induction false} SizeConcat(a: seq<Form>, b: seq<Form>)
    ensures SizeAll(a + b) == SizeAll(a) + SizeAll(b)
    decreases |b|
  {
    if b == [] {
      assert a + b == a;
    } else {
      var n := |b| - 1;
      assert (a + b)[..|a + b| - 1] == a + b[..n];
      SizeConcat(a, b[..n]);
    }
  }

  // ---- Selection ----

  type Features = set<string>

  predicate Chosen(clauses: seq<Form>, i: nat, feats: Features)
    requires i < |clauses|
  {
    clauses[i].Keyword? && (clauses[i].key == "default" || clauses[i].key in feats)
  }

  /** The first branch whose key is chosen, clauses read in pairs from `i`. */
  function SelectFrom(clauses: seq<Form>, i: nat, feats: Features): (r: Option<Form>)
    ensures r.Some? ==>
      exists j ::
        i <= j < |clauses| - 1 && (j - i) % 2 == 0 && Chosen(clauses, j, feats) && r.value == clauses[j + 1] &&
        (forall k :: i <= k < j && (k - i) % 2 == 0 ==> !Chosen(clauses, k, feats))
    ensures r.None? ==> forall k :: i <= k < |clauses| - 1 && (k - i) % 2 == 0 ==> !Chosen(clauses, k, feats)
    decreases |clauses| - i
  {
    if i + 1 >= |clauses| then None
    else if Chosen(clauses, i, feats) then Some(clauses[i + 1])
    else
      var r := SelectFrom(clauses, i + 2, feats);
      assert r.Some? ==> forall j {:trigger clauses[j + 1]} :: i + 2 <= j ==> (j - (i + 2)) % 2 == (j - i) % 2;
      r
  }

  function Select(clauses: seq<Form>, feats: Features): Option<Form> {
    SelectFrom(clauses, 0, feats)
  }

  method SelectReaderCond(clauses: seq<Form>, feats: Features) returns (r: Option<Form>)
    ensures r == Select(clauses, feats)
  {
    var i := 0;
    while i + 1 < |clauses|
      invariant 0 <= i && Select(clauses, feats) == SelectFrom(clauses, i, feats)
    {
      if Chosen(clauses, i, feats) {
        return Some(clauses[i + 1]);
      }
      i := i + 2;
    }
    r := None;
  }

  lemma SelectSmaller(clauses: seq<Form>, feats: Features)
    ensures Select(clauses, feats).Some? ==> Size(Select(clauses, feats).value) <= SizeAll(clauses)
  {
    if Select(clauses, feats).Some? {
      var j :| 0 <= j < |clauses| - 1 && Select(clauses, feats).value == clauses[j + 1];
      SizeAt(clauses, j + 1);
    }
  }

  // ---- Expansion of one level ----

  /** What one form of a sequence becomes. */
  function ExpandOne(f: Form, feats: Features): (r: seq<Form>)
    decreases Size(f), 0
  {
    if !f.ReaderCond? then [f]
    else match Select(f.clauses, feats)
      case None => []
      case Some(sel) =>
        if f.splicing && (sel.Vector? || sel.List?) then
          SelectSmaller(f.clauses, feats);
          ExpandLevel(sel.v, feats)
        else [sel]
  }

  /** Reader conditionals of a sequence resolved, splices inlined. */
  function ExpandLevel(forms: seq<Form>, feats: Features): (r: seq<Form>)
    decreases SizeAll(forms), 1, |forms|
  {
    if forms == [] then []
    else
      var n := |forms| - 1;
      SizeAt(forms, n);
      ExpandLevel(forms[..n], feats) + ExpandOne(forms[n], feats)
  }

  method ExpandReaderConds(forms: seq<Form>, feats: Features) returns (out: seq<Form>)
    ensures out == ExpandLevel(forms, feats)
    decreases SizeAll(forms)
  {
    out := [];
    for i := 0 to |forms|
      invariant out == ExpandLevel(forms[..i], feats)
    {
      assert forms[..i + 1][..i] == forms[..i];
      SizeAt(forms, i);
      var form := forms[i];
      if form.ReaderCond? {
        var sel := SelectReaderCond(form.clauses, feats);
        SelectSmaller(form.clauses, feats);
        if sel.Some? {
          if form.splicing && (sel.value.Vector? || sel.value.List?) {
            var inner := ExpandReaderConds(sel.value.v, feats);
            out := out + inner;
          } else {
            out := out + [sel.value];
          }
        }
      } else {
        out := out + [form];
      }
    }
    assert forms[..|forms|] == forms;
  }

  lemma {:induction false} ExpandOneSmaller(f: Form, feats: Features)
    ensures SizeAll(ExpandOne(f, feats)) <= Size(f)
    decreases Size(f), 0
  {
    assert [f][..0] == [];
    assert SizeAll([f]) == Size(f);
    if f.ReaderCond? {
      SelectSmaller(f.clauses, feats);
      match Select(f.clauses, feats)
      case None =>
      case Some(sel) =>
        if f.splicing && (sel.Vector? || sel.List?) {
          ExpandLevelSmaller(sel.v, feats);
        } else {
          assert [sel][..0] == [];
          assert SizeAll([sel]) == Size(sel);
        }
    }
  }

  lemma {:induction false} ExpandLevelSmaller(forms: seq<Form>, feats: Features)
    ensures SizeAll(ExpandLevel(forms, feats)) <= SizeAll(forms)
    decreases SizeAll(forms), 1, |forms|
  {
    if forms != [] {
      var n := |forms| - 1;
      SizeAt(forms, n);
      ExpandLevelSmaller(forms[..n], feats);
      ExpandOneSmaller(forms[n], feats);
      SizeConcat(ExpandLevel(forms[..n], feats), ExpandOne(forms[n], feats));
    }
  }

  // ---- Expansion at every depth ----

  function ExpandDeep(forms: seq<Form>, feats: Features): seq<Form>
    decreases SizeAll(forms), 3
  {
    ExpandLevelSmaller(forms, feats);
    ExpandEach(ExpandLevel(forms, feats), feats)
  }

  function ExpandEach(forms: seq<Form>, feats: Features): seq<Form>
    decreases SizeAll(forms), 2, |forms|
  {
    if forms == [] then []
    else
      var n := |forms| - 1;
      SizeAt(forms, n);
      ExpandEach(forms[..n], feats) + [ExpandForm(forms[n], feats)]
  }

  /** A conditional met outside a sequence is resolved here; a splice with nothing
      around it, or no match, becomes nil. */
  function ExpandForm(f: Form, feats: Features): Form
    decreases Size(f), 0
  {
    match f
    case List(v) => List(ExpandDeep(v, feats))
    case Vector(v) => Vector(ExpandDeep(v, feats))
    case SetForm(v) => SetForm(ExpandDeep(v, feats))
    case MapForm(v) => MapForm(ExpandDeep(v, feats))
    case AnonFn(v) => AnonFn(ExpandDeep(v, feats))
    case Sugared(k, inner) => Sugared(k, ExpandForm(inner, feats))
    case Meta(m, inner) => Meta(ExpandForm(m, feats), ExpandForm(inner, feats))
    case ReaderCond(splicing, clauses) =>
      SelectSmaller(clauses, feats);
      if splicing then NilForm
      else (match Select(clauses, feats)
            case Some(sel) => ExpandForm(sel, feats)
            case None => NilForm)
    case _ => f
  }

  /** No reader conditional at any depth. */
  predicate CondFree(f: Form) {
    match f
    case List(v) => CondFreeAll(v)
    case Vector(v) => CondFreeAll(v)
    case SetForm(v) => CondFreeAll(v)
    case MapForm(v) => CondFreeAll(v)
    case AnonFn(v) => CondFreeAll(v)
    case Sugared(_, inner) => CondFree(inner)
    case Meta(m, inner) => CondFree(m) && CondFree(inner)
    case ReaderCond(_, _) => false
    case _ => true
  }

  predicate CondFreeAll(forms: seq<Form>) {
    forms == [] || (CondFreeAll(forms[..|forms| - 1]) && CondFree(forms[|forms| - 1]))
  }

  /** Completeness: no conditional is left at any depth. */
  lemma {:induction false} FormExpanded(f: Form, feats: Features)
    ensures CondFree(ExpandForm(f, feats))
    decreases Size(f), 0
  {
    match f
    case List(v) => DeepExpanded(v, feats);
    case Vector(v) => DeepExpanded(v, feats);
    case SetForm(v) => DeepExpanded(v, feats);
    case MapForm(v) => DeepExpanded(v, feats);
    case AnonFn(v) => DeepExpanded(v, feats);
    case Sugared(_, inner) => FormExpanded(inner, feats);
    case Meta(m, inner) =>
      FormExpanded(m, feats);
      FormExpanded(inner, feats);
    case ReaderCond(splicing, clauses) =>
      SelectSmaller(clauses, feats);
      if !splicing && Select(clauses, feats).Some? {
        FormExpanded(Select(clauses, feats).value, feats);
      }
    case _ =>
  }

  lemma {:induction false} EachExpanded(forms: seq<Form>, feats: Features)
    ensures CondFreeAll(ExpandEach(forms, feats))
    decreases SizeAll(forms), 2, |forms|
  {
    if forms != [] {
      var n := |forms| - 1;
      SizeAt(forms, n);
      EachExpanded(forms[..n], feats);
      FormExpanded(forms[n], feats);
      assert ExpandEach(forms, feats)[..|ExpandEach(forms, feats)| - 1] == ExpandEach(forms[..n], feats);
    }
  }

  lemma {:induction false} DeepExpanded(forms: seq<Form>, feats: Features)
    ensures CondFreeAll(ExpandDeep(forms, feats))
    decreases SizeAll(forms), 3
  {
    ExpandLevelSmaller(forms, feats);
    EachExpanded(ExpandLevel(forms, feats), feats);
  }

  /** A form without conditionals is left alone. */
  lemma {:induction false} FormUnchanged(f: Form, feats: Features)
    requires CondFree(f)
    ensures ExpandForm(f, feats) == f
    decreases Size(f), 0
  {
    match f
    case List(v) => DeepUnchanged(v, feats);
    case Vector(v) => DeepUnchanged(v, feats);
    case SetForm(v) => DeepUnchanged(v, feats);
    case MapForm(v) => DeepUnchanged(v, feats);
    case AnonFn(v) => DeepUnchanged(v, feats);
    case Sugared(_, inner) => FormUnchanged(inner, feats);
    case Meta(m, inner) =>
      FormUnchanged(m, feats);
      FormUnchanged(inner, feats);
    case _ =>
  }

  lemma {:induction false} DeepUnchanged(forms: seq<Form>, feats: Features)
    requires CondFreeAll(forms)
    ensures ExpandLevel(forms, feats) == forms && ExpandDeep(forms, feats) == forms
    decreases SizeAll(forms), 3, |forms|
  {
    if forms != [] {
      var n := |forms| - 1;
      SizeAt(forms, n);
      DeepUnchanged(forms[..n], feats);
      FormUnchanged(forms[n], feats);
      assert forms == forms[..n] + [forms[n]];
    }
  }

  /** Expanding twice is expanding once. */
  lemma ExpandIdempotent(forms: seq<Form>, feats: Features)
    ensures ExpandDeep(ExpandDeep(forms, feats), feats) == ExpandDeep(forms, feats)
  {
    DeepExpanded(forms, feats);
    DeepUnchanged(ExpandDeep(forms, feats), feats);
  }
}
