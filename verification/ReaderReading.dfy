/**
 What the expansion of reader conditionals yields, read as text. A form is spelled as
 its sequence of tokens; the reading of a form under a set of features is the
 spelling with every conditional replaced, where it stands, by the reading of its
 selected branch. Expanding and then spelling gives exactly that reading, so nothing
 is moved, lost or added at any depth.
 */
module ReaderReading {
  import opened Common
  import opened ReaderConds

  // ---- Selection ----

  /** The key at `j` is `:default` or names a feature. */
  predicate Matches(key: Form, feats: Features) {
    key.Keyword? && (key.key == "default" || key.key in feats)
  }

  /** The key at `j` matches and none before it does. */
  predicate FirstMatch(clauses: seq<Form>, j: nat, feats: Features) {
    && j < |clauses| - 1 && j % 2 == 0 && Matches(clauses[j], feats)
    && forall k :: 0 <= k < j && k % 2 == 0 ==> !Matches(clauses[k], feats)
  }

  /** `:default` and feature keywords select, in the order of the clauses, and nothing else does. */
  lemma SelectsFirst(clauses: seq<Form>, feats: Features)
    ensures forall j :: FirstMatch(clauses, j, feats) ==> Select(clauses, feats) == Some(clauses[j + 1])
    ensures Select(clauses, feats).Some? ==> exists j :: FirstMatch(clauses, j, feats)
  {
    assert forall j :: 0 <= j < |clauses| ==> (Chosen(clauses, j, feats) <==> Matches(clauses[j], feats));
    if Select(clauses, feats).Some? {
      var j :| 0 <= j < |clauses| - 1 && j % 2 == 0 && Chosen(clauses, j, feats) &&
        forall k :: 0 <= k < j && k % 2 == 0 ==> !Chosen(clauses, k, feats);
      assert FirstMatch(clauses, j, feats);
    }
  }

  /** `#?(:rust a :default b)`. */
  lemma DefaultSelects(a: Form, b: Form)
    ensures Select([Keyword("rust"), a, Keyword("default"), b], {"rust"}) == Some(a)
    ensures Select([Keyword("rust"), a, Keyword("default"), b], {}) == Some(b)
    ensures Select([Keyword("rust"), a], {"clj"}) == None
  {
    var clauses := [Keyword("rust"), a, Keyword("default"), b];
    assert SelectFrom(clauses, 2, {}) == Some(b);
  }

  // ---- Concatenation ----

  lemma {:induction false} LevelConcat(a: seq<Form>, b: seq<Form>, feats: Features)
    ensures ExpandLevel(a + b, feats) == ExpandLevel(a, feats) + ExpandLevel(b, feats)
    decreases |b|
  {
    if b == [] {
      assert a + b == a;
    } else {
      var n := |b| - 1;
      assert (a + b)[..|a + b| - 1] == a + b[..n];
      LevelConcat(a, b[..n], feats);
    }
  }

  lemma {:induction false} EachConcat(a: seq<Form>, b: seq<Form>, feats: Features)
    ensures ExpandEach(a + b, feats) == ExpandEach(a, feats) + ExpandEach(b, feats)
    decreases |b|
  {
    if b == [] {
      assert a + b == a;
    } else {
      var n := |b| - 1;
      assert (a + b)[..|a + b| - 1] == a + b[..n];
      EachConcat(a, b[..n], feats);
    }
  }

  /** The expansion of a sequence is that of its parts, in order. */
  lemma DeepConcat(a: seq<Form>, b: seq<Form>, feats: Features)
    ensures ExpandDeep(a + b, feats) == ExpandDeep(a, feats) + ExpandDeep(b, feats)
  {
    LevelConcat(a, b, feats);
    EachConcat(ExpandLevel(a, feats), ExpandLevel(b, feats), feats);
  }

  /** One conditional among other forms: its branch in its place, the elements of its branch if it splices a
      list or vector, or nothing. */
  lemma ConditionalInPlace(a: seq<Form>, splicing: bool, clauses: seq<Form>, b: seq<Form>, feats: Features)
    ensures var sel := Select(clauses, feats);
      ExpandLevel(a + [ReaderCond(splicing, clauses)] + b, feats) ==
      ExpandLevel(a, feats) +
      (if sel.None? then []
       else if splicing && (sel.value.Vector? || sel.value.List?) then ExpandLevel(sel.value.v, feats)
       else [sel.value]) +
      ExpandLevel(b, feats)
  {
    var cond := ReaderCond(splicing, clauses);
    LevelConcat(a + [cond], b, feats);
    LevelConcat(a, [cond], feats);
    assert [cond][..0] == [];
    assert ExpandLevel([cond], feats) == ExpandOne(cond, feats);
  }

  // ---- Spelling ----

  /** `Open` carries the form with its parts emptied. */
  datatype Token = Atom(f: Form) | Open(shape: Form) | Shut

  function Spell(f: Form): seq<Token> {
    match f
    case List(v) => [Open(List([]))] + SpellAll(v) + [Shut]
    case Vector(v) => [Open(Vector([]))] + SpellAll(v) + [Shut]
    case SetForm(v) => [Open(SetForm([]))] + SpellAll(v) + [Shut]
    case MapForm(v) => [Open(MapForm([]))] + SpellAll(v) + [Shut]
    case AnonFn(v) => [Open(AnonFn([]))] + SpellAll(v) + [Shut]
    case Sugared(k, inner) => [Open(Sugared(k, NilForm))] + Spell(inner) + [Shut]
    case Meta(m, inner) => [Open(Meta(NilForm, NilForm))] + Spell(m) + Spell(inner) + [Shut]
    case ReaderCond(splicing, clauses) => [Open(ReaderCond(splicing, []))] + SpellAll(clauses) + [Shut]
    case _ => [Atom(f)]
  }

  function SpellAll(forms: seq<Form>): seq<Token> {
    if forms == [] then [] else SpellAll(forms[..|forms| - 1]) + Spell(forms[|forms| - 1])
  }

  /** The spelling under a set of features; a conditional that stands alone and selects nothing, or splices, is nil. */
  function Reading(f: Form, feats: Features): seq<Token>
    decreases Size(f), 0
  {
    match f
    case List(v) => [Open(List([]))] + ReadingAll(v, feats) + [Shut]
    case Vector(v) => [Open(Vector([]))] + ReadingAll(v, feats) + [Shut]
    case SetForm(v) => [Open(SetForm([]))] + ReadingAll(v, feats) + [Shut]
    case MapForm(v) => [Open(MapForm([]))] + ReadingAll(v, feats) + [Shut]
    case AnonFn(v) => [Open(AnonFn([]))] + ReadingAll(v, feats) + [Shut]
    case Sugared(k, inner) => [Open(Sugared(k, NilForm))] + Reading(inner, feats) + [Shut]
    case Meta(m, inner) => [Open(Meta(NilForm, NilForm))] + Reading(m, feats) + Reading(inner, feats) + [Shut]
    case ReaderCond(splicing, clauses) =>
      SelectSmaller(clauses, feats);
      if splicing || Select(clauses, feats).None? then [Atom(NilForm)]
      else Reading(Select(clauses, feats).value, feats)
    case _ => [Atom(f)]
  }

  /** Among other forms a conditional that selects nothing leaves no trace, and one that splices leaves the
      elements of its branch. */
  function ReadingIn(f: Form, feats: Features): seq<Token>
    decreases Size(f), 1
  {
    if !f.ReaderCond? then Reading(f, feats)
    else
      SelectSmaller(f.clauses, feats);
      var sel := Select(f.clauses, feats);
      if sel.None? then []
      else if f.splicing && (sel.value.Vector? || sel.value.List?) then ReadingAll(sel.value.v, feats)
      else Reading(sel.value, feats)
  }

  function ReadingAll(forms: seq<Form>, feats: Features): seq<Token>
    decreases SizeAll(forms), 2, |forms|
  {
    if forms == [] then []
    else
      var n := |forms| - 1;
      SizeAt(forms, n);
      ReadingAll(forms[..n], feats) + ReadingIn(forms[n], feats)
  }

  // ---- Expansion is reading ----

  /** Forms each read on its own. */
  function ReadingEach(forms: seq<Form>, feats: Features): seq<Token> {
    if forms == [] then [] else ReadingEach(forms[..|forms| - 1], feats) + Reading(forms[|forms| - 1], feats)
  }

  lemma ReadingEachSnoc(forms: seq<Form>, f: Form, feats: Features)
    ensures ReadingEach(forms + [f], feats) == ReadingEach(forms, feats) + Reading(f, feats)
  {
    assert (forms + [f])[..|forms|] == forms;
  }

  lemma {:induction false} ReadingEachConcat(a: seq<Form>, b: seq<Form>, feats: Features)
    ensures ReadingEach(a + b, feats) == ReadingEach(a, feats) + ReadingEach(b, feats)
    decreases |b|
  {
    if b == [] {
      assert a + b == a;
    } else {
      var init, last := b[..|b| - 1], b[|b| - 1];
      assert b == init + [last] && a + b == a + init + [last];
      ReadingEachConcat(a, init, feats);
      ReadingEachSnoc(a + init, last, feats);
      ReadingEachSnoc(init, last, feats);
    }
  }

  lemma ReadingOne(f: Form, feats: Features)
    ensures ReadingEach([f], feats) == Reading(f, feats)
  {
    assert [f][..0] == [];
  }

  lemma {:induction false} OneReads(f: Form, feats: Features)
    ensures ReadingEach(ExpandOne(f, feats), feats) == ReadingIn(f, feats)
    decreases Size(f), 0
  {
    if f.ReaderCond? {
      SelectSmaller(f.clauses, feats);
      var sel := Select(f.clauses, feats);
      if sel.Some? {
        if f.splicing && (sel.value.Vector? || sel.value.List?) {
          LevelReads(sel.value.v, feats);
        } else {
          ReadingOne(sel.value, feats);
        }
      }
    } else {
      ReadingOne(f, feats);
    }
  }

  lemma {:induction false} LevelReads(forms: seq<Form>, feats: Features)
    ensures ReadingEach(ExpandLevel(forms, feats), feats) == ReadingAll(forms, feats)
    decreases SizeAll(forms), 1, |forms|
  {
    if forms != [] {
      var n := |forms| - 1;
      SizeAt(forms, n);
      LevelReads(forms[..n], feats);
      OneReads(forms[n], feats);
      ReadingEachConcat(ExpandLevel(forms[..n], feats), ExpandOne(forms[n], feats), feats);
    }
  }

  lemma {:induction false} EachReads(forms: seq<Form>, feats: Features)
    ensures SpellAll(ExpandEach(forms, feats)) == ReadingEach(forms, feats)
    decreases SizeAll(forms), 2, |forms|
  {
    if forms != [] {
      var n := |forms| - 1;
      SizeAt(forms, n);
      EachReads(forms[..n], feats);
      FormReads(forms[n], feats);
      var out := ExpandEach(forms, feats);
      assert out[..|out| - 1] == ExpandEach(forms[..n], feats);
    }
  }

  /** A sequence expanded at every depth spells its reading. */
  lemma {:induction false} DeepReads(forms: seq<Form>, feats: Features)
    ensures SpellAll(ExpandDeep(forms, feats)) == ReadingAll(forms, feats)
    decreases SizeAll(forms), 3
  {
    ExpandLevelSmaller(forms, feats);
    EachReads(ExpandLevel(forms, feats), feats);
    LevelReads(forms, feats);
  }

  /** And so does a form. */
  lemma {:induction false} FormReads(f: Form, feats: Features)
    ensures Spell(ExpandForm(f, feats)) == Reading(f, feats)
    decreases Size(f), 1
  {
    match f
    case List(v) => DeepReads(v, feats);
    case Vector(v) => DeepReads(v, feats);
    case SetForm(v) => DeepReads(v, feats);
    case MapForm(v) => DeepReads(v, feats);
    case AnonFn(v) => DeepReads(v, feats);
    case _ => OtherReads(f, feats);
  }

  lemma {:induction false} OtherReads(f: Form, feats: Features)
    requires !f.List? && !f.Vector? && !f.SetForm? && !f.MapForm? && !f.AnonFn?
    ensures Spell(ExpandForm(f, feats)) == Reading(f, feats)
    decreases Size(f), 0
  {
    match f
    case Sugared(_, inner) => FormReads(inner, feats);
    case Meta(m, inner) =>
      FormReads(m, feats);
      FormReads(inner, feats);
    case ReaderCond(splicing, clauses) =>
      SelectSmaller(clauses, feats);
      if !splicing && Select(clauses, feats).Some? {
        FormReads(Select(clauses, feats).value, feats);
      }
    case _ =>
  }
}
