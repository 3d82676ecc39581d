/**
 The language the decoder accepts, as a grammar. A text is a tree of what stands in
 the bytes: signs and digits as written, entries in the order they stand. `Legal` says
 which texts are messages, `Means` what they stand for. The decoder reads a value
 exactly where a legal text of it stands.
 */
module BencodeGrammar {
  import opened Common
  import opened Decimal
  import opened Bencode
  import opened BencodeLaws

  datatype Text =
    | IntText(minus: bool, digits: seq<Digit>)
    | BytesText(digits: seq<Digit>, data: seq<Byte>)
    | ListText(items: seq<Text>)
    | DictText(pairs: seq<PairText>)
  datatype PairText = PairText(digits: seq<Digit>, key: seq<Byte>, val: Text)

  function RenderBytes(digits: seq<Digit>, data: seq<Byte>): seq<Byte> {
    Ascii(digits) + [COLON] + data
  }

  function Render(t: Text): seq<Byte>
    decreases t, 1
  {
    match t
    case IntText(minus, digits) => [LOWER_I] + ((if minus then [MINUS] else []) + (Ascii(digits) + [LOWER_E]))
    case BytesText(digits, data) => RenderBytes(digits, data)
    case ListText(items) => [LOWER_L] + (RenderItems(items) + [LOWER_E])
    case DictText(pairs) => [LOWER_D] + (RenderPairs(pairs) + [LOWER_E])
  }

  function RenderItems(items: seq<Text>): seq<Byte>
    decreases items, 0
  {
    if items == [] then [] else Render(items[0]) + RenderItems(items[1..])
  }

  function RenderPair(p: PairText): seq<Byte>
    decreases p, 0
  {
    RenderBytes(p.digits, p.key) + Render(p.val)
  }

  function RenderPairs(pairs: seq<PairText>): seq<Byte>
    decreases pairs, 0
  {
    if pairs == [] then [] else RenderPair(pairs[0]) + RenderPairs(pairs[1..])
  }

  function Signed(minus: bool, digits: seq<Digit>): int {
    var n: int := Decimal.Value(digits);
    if minus then -n else n
  }

  /** Some digits in range, a length that is the length, parts that are legal. Leading zeros, negative zeros
      and keys in any order are. */
  predicate Legal(t: Text) {
    match t
    case IntText(minus, digits) => digits != [] && I64_MIN <= Signed(minus, digits) <= I64_MAX
    case BytesText(digits, data) => digits != [] && Decimal.Value(digits) == |data|
    case ListText(items) => forall i :: 0 <= i < |items| ==> Legal(items[i])
    case DictText(pairs) => forall i :: 0 <= i < |pairs| ==> LegalPair(pairs[i])
  }

  predicate LegalPair(p: PairText) {
    p.digits != [] && Decimal.Value(p.digits) == |p.key| && Legal(p.val)
  }

  function Means(t: Text): Value
    requires Legal(t)
    decreases t, 1
  {
    match t
    case IntText(minus, digits) => Int(Signed(minus, digits))
    case BytesText(_, data) => Bytes(data)
    case ListText(items) => List(MeansEach(items))
    case DictText(pairs) => Dict(Entered(pairs, []))
  }

  function MeansEach(items: seq<Text>): seq<Value>
    requires forall i :: 0 <= i < |items| ==> Legal(items[i])
    decreases items, 0
  {
    if items == [] then [] else [Means(items[0])] + MeansEach(items[1..])
  }

  /** A map with the entries put into it from left to right, a later one replacing an earlier of the same key. */
  function Entered(pairs: seq<PairText>, acc: seq<Entry>): seq<Entry>
    requires forall i :: 0 <= i < |pairs| ==> LegalPair(pairs[i])
    decreases pairs, 0
  {
    if pairs == [] then acc
    else
      assert LegalPair(pairs[0]);
      Entered(pairs[1..], Insert(acc, Entry(pairs[0].key, Means(pairs[0].val))))
  }

  // ---- A legal text is read as what it means ----

  lemma DigitsRead(buf: seq<Byte>, k: nat, ds: seq<Digit>, stop: Byte)
    requires ds != [] && !IsDigit(stop) && At(buf, k, Ascii(ds) + [stop])
    ensures ScanDigits(buf, k, stop) == Stop(k + |ds|) && IsDigit(buf[k])
    ensures buf[k..k + |ds|] == Ascii(ds) && DigitsIn(buf[k..k + |ds|]) == ds
  {
    ShownPlace(buf, k, Ascii(ds), stop);
    AsciiDigits(ds);
    ScanHits(buf, k, |ds|, stop);
    assert buf[k] == buf[k..k + |ds|][0];
  }

  lemma IntRead(buf: seq<Byte>, pos: nat, minus: bool, digits: seq<Digit>)
    requires Legal(IntText(minus, digits)) && At(buf, pos, Render(IntText(minus, digits)))
    ensures ParseValue(buf, pos) == Ok(Int(Signed(minus, digits)), pos + |Render(IntText(minus, digits))|)
  {
    var rest := Ascii(digits) + [LOWER_E];
    AtHead(buf, pos, LOWER_I, (if minus then [MINUS] else []) + rest);
    if minus {
      AtHead(buf, pos + 1, MINUS, rest);
      DigitsRead(buf, pos + 2, digits, LOWER_E);
    } else {
      assert [] + rest == rest;
      DigitsRead(buf, pos + 1, digits, LOWER_E);
    }
  }

  lemma BytesRead(buf: seq<Byte>, pos: nat, digits: seq<Digit>, data: seq<Byte>)
    requires digits != [] && Decimal.Value(digits) == |data| && At(buf, pos, RenderBytes(digits, data))
    requires |buf| <= U64_MAX
    ensures ParseValue(buf, pos) == Ok(Bytes(data), pos + |RenderBytes(digits, data)|)
    ensures pos < |buf| && buf[pos] != LOWER_E
  {
    var colon := BytesPlace(buf, pos, digits, data);
    BytesParsed(buf, pos, colon, data);
  }

  lemma BytesPlace(buf: seq<Byte>, pos: nat, digits: seq<Digit>, data: seq<Byte>) returns (colon: nat)
    requires digits != [] && At(buf, pos, RenderBytes(digits, data))
    ensures colon == pos + |digits| < |buf| && |RenderBytes(digits, data)| == |digits| + 1 + |data|
    ensures IsDigit(buf[pos]) && ScanDigits(buf, pos, COLON) == Stop(colon) && At(buf, colon + 1, data)
    ensures DigitsIn(buf[pos..colon]) == digits
  {
    colon := pos + |digits|;
    AtSplit(buf, pos, Ascii(digits) + [COLON], data);
    DigitsRead(buf, pos, digits, COLON);
  }

  lemma BytesParsed(buf: seq<Byte>, pos: nat, colon: nat, data: seq<Byte>)
    requires pos < colon < |buf| <= U64_MAX && IsDigit(buf[pos]) && ScanDigits(buf, pos, COLON) == Stop(colon)
    requires Decimal.Value(DigitsIn(buf[pos..colon])) == |data| && At(buf, colon + 1, data)
    ensures ParseValue(buf, pos) == Ok(Bytes(data), colon + 1 + |data|)
  {
    assert buf[colon + 1..][..|data|] == data;
  }

  lemma {:induction false} TextRead(buf: seq<Byte>, pos: nat, t: Text)
    requires Legal(t) && At(buf, pos, Render(t)) && |buf| <= U64_MAX
    ensures ParseValue(buf, pos) == Ok(Means(t), pos + |Render(t)|) && pos < |buf| && buf[pos] != LOWER_E
    decreases t, 1
  {
    match t
    case IntText(minus, digits) =>
      IntRead(buf, pos, minus, digits);
      AtHead(buf, pos, LOWER_I, (if minus then [MINUS] else []) + (Ascii(digits) + [LOWER_E]));
    case BytesText(digits, data) => BytesRead(buf, pos, digits, data);
    case ListText(items) =>
      AtHead(buf, pos, LOWER_L, RenderItems(items) + [LOWER_E]);
      ItemsRead(buf, pos + 1, items, []);
      assert [] + MeansEach(items) == MeansEach(items);
    case DictText(pairs) =>
      AtHead(buf, pos, LOWER_D, RenderPairs(pairs) + [LOWER_E]);
      PairsRead(buf, pos + 1, pairs, []);
  }

  lemma {:induction false} ItemsRead(buf: seq<Byte>, pos: nat, items: seq<Text>, acc: seq<Value>)
    requires (forall i :: 0 <= i < |items| ==> Legal(items[i])) && |buf| <= U64_MAX
    requires At(buf, pos, RenderItems(items) + [LOWER_E])
    ensures ListReads(buf, pos, acc, acc + MeansEach(items), pos + |RenderItems(items)| + 1)
    decreases items, 0
  {
    if items == [] {
      Closing(buf, pos, RenderItems(items));
      assert acc + [] == acc;
    } else {
      var head, rest := Render(items[0]), RenderItems(items[1..]) + [LOWER_E];
      assert RenderItems(items) + [LOWER_E] == head + rest;
      AtSplit(buf, pos, head, rest);
      var v, next := ItemRead(buf, pos, items[0]);
      ItemsRead(buf, next, items[1..], acc + [v]);
      assert acc + MeansEach(items) == acc + [v] + MeansEach(items[1..]);
      ItemReads(buf, pos, next, acc, v, acc + MeansEach(items), pos + |RenderItems(items)| + 1);
    }
  }

  lemma {:induction false} ItemRead(buf: seq<Byte>, pos: nat, t: Text) returns (v: Value, next: nat)
    requires Legal(t) && At(buf, pos, Render(t)) && |buf| <= U64_MAX
    ensures v == Means(t) && next == pos + |Render(t)| <= |buf|
    ensures ParseValue(buf, pos) == Ok(v, next) && pos < |buf| && buf[pos] != LOWER_E
    decreases t, 2
  {
    TextRead(buf, pos, t);
    v, next := Means(t), pos + |Render(t)|;
  }

  lemma {:induction false} PairRead(buf: seq<Byte>, pos: nat, p: PairText) returns (e: Entry, mid: nat, next: nat)
    requires LegalPair(p) && At(buf, pos, RenderPair(p)) && |buf| <= U64_MAX
    ensures e == Entry(p.key, Means(p.val)) && next == pos + |RenderPair(p)|
    ensures pos < |buf| && buf[pos] != LOWER_E && mid <= |buf|
    ensures ParseValue(buf, pos) == Ok(Bytes(e.key), mid) && ParseValue(buf, mid) == Ok(e.val, next)
    decreases p, 0
  {
    AtSplit(buf, pos, RenderBytes(p.digits, p.key), Render(p.val));
    BytesRead(buf, pos, p.digits, p.key);
    mid := pos + |RenderBytes(p.digits, p.key)|;
    TextRead(buf, mid, p.val);
    e, next := Entry(p.key, Means(p.val)), pos + |RenderPair(p)|;
  }

  lemma {:induction false} PairsRead(buf: seq<Byte>, pos: nat, pairs: seq<PairText>, acc: seq<Entry>)
    requires (forall i :: 0 <= i < |pairs| ==> LegalPair(pairs[i])) && |buf| <= U64_MAX
    requires At(buf, pos, RenderPairs(pairs) + [LOWER_E])
    ensures DictReads(buf, pos, acc, Entered(pairs, acc), pos + |RenderPairs(pairs)| + 1)
    decreases pairs, 0
  {
    if pairs == [] {
      Closing(buf, pos, RenderPairs(pairs));
    } else {
      var head, rest := RenderPair(pairs[0]), RenderPairs(pairs[1..]) + [LOWER_E];
      assert RenderPairs(pairs) + [LOWER_E] == head + rest;
      AtSplit(buf, pos, head, rest);
      var e, mid, next := PairRead(buf, pos, pairs[0]);
      PairsRead(buf, next, pairs[1..], Insert(acc, e));
      EntryReads(buf, pos, mid, next, acc, e, Entered(pairs, acc), pos + |RenderPairs(pairs)| + 1);
    }
  }

  // ---- What is read is a legal text ----

  ghost predicate Stands(buf: seq<Byte>, pos: nat, end: nat, s: seq<Byte>) {
    pos <= end <= |buf| && buf[pos..end] == s
  }

  lemma StandsJoin(buf: seq<Byte>, pos: nat, mid: nat, end: nat, s: seq<Byte>, t: seq<Byte>)
    requires Stands(buf, pos, mid, s) && Stands(buf, mid, end, t)
    ensures Stands(buf, pos, end, s + t)
  {
    assert buf[pos..end] == buf[pos..mid] + buf[mid..end];
  }

  lemma AsciiOf(s: seq<Byte>)
    requires DigitRun(s)
    ensures Ascii(DigitsIn(s)) == s
  {
  }

  lemma IntStands(buf: seq<Byte>, pos: nat) returns (t: Text)
    requires pos < |buf| && buf[pos] == LOWER_I && ParseInt(buf, pos).Ok?
    ensures Legal(t) && Means(t) == ParseInt(buf, pos).v && Stands(buf, pos, ParseInt(buf, pos).pos, Render(t))
  {
    var minus := buf[pos + 1] == MINUS;
    var k, end := if minus then pos + 2 else pos + 1, ParseInt(buf, pos).pos;
    var digits := DigitsIn(buf[k..end - 1]);
    AsciiOf(buf[k..end - 1]);
    t := IntText(minus, digits);
    assert buf[pos..end] == [LOWER_I] + ((if minus then [MINUS] else []) + (buf[k..end - 1] + [LOWER_E]));
  }

  lemma BytesStand(buf: seq<Byte>, pos: nat) returns (digits: seq<Digit>, data: seq<Byte>)
    requires pos < |buf| && IsDigit(buf[pos]) && ParseBytes(buf, pos).Ok?
    ensures digits != [] && Decimal.Value(digits) == |data| && ParseBytes(buf, pos).v == Bytes(data)
    ensures Stands(buf, pos, ParseBytes(buf, pos).pos, RenderBytes(digits, data))
  {
    var colon := ScanDigits(buf, pos, COLON).at;
    digits := DigitsIn(buf[pos..colon]);
    AsciiOf(buf[pos..colon]);
    var end := ParseBytes(buf, pos).pos;
    data := buf[colon + 1..end];
    assert buf[pos..end] == buf[pos..colon] + [COLON] + data;
  }

  lemma {:induction false} TextOf(buf: seq<Byte>, pos: nat) returns (t: Text)
    requires pos <= |buf| && ParseValue(buf, pos).Ok?
    ensures Legal(t) && Means(t) == ParseValue(buf, pos).v && Stands(buf, pos, ParseValue(buf, pos).pos, Render(t))
    decreases |buf| - pos, 0
  {
    var end := ParseValue(buf, pos).pos;
    if buf[pos] == LOWER_I {
      t := IntStands(buf, pos);
    } else if buf[pos] == LOWER_L {
      var items := ItemsOf(buf, pos + 1, []);
      t := ListText(items);
      assert [] + MeansEach(items) == MeansEach(items);
      StandsJoin(buf, pos, pos + 1, end, [LOWER_L], RenderItems(items) + [LOWER_E]);
    } else if buf[pos] == LOWER_D {
      var pairs := PairsOf(buf, pos + 1, []);
      t := DictText(pairs);
      StandsJoin(buf, pos, pos + 1, end, [LOWER_D], RenderPairs(pairs) + [LOWER_E]);
    } else {
      var digits, data := BytesStand(buf, pos);
      t := BytesText(digits, data);
    }
  }

  lemma {:induction false} ItemsOf(buf: seq<Byte>, pos: nat, acc: seq<Value>) returns (items: seq<Text>)
    requires pos <= |buf| && ParseItems(buf, pos, acc).Ok?
    ensures forall i :: 0 <= i < |items| ==> Legal(items[i])
    ensures ParseItems(buf, pos, acc).v == List(acc + MeansEach(items))
    ensures Stands(buf, pos, ParseItems(buf, pos, acc).pos, RenderItems(items) + [LOWER_E])
    decreases |buf| - pos, 1
  {
    var end := ParseItems(buf, pos, acc).pos;
    if pos < |buf| && buf[pos] == LOWER_E {
      items := [];
      assert acc + [] == acc;
      assert buf[pos..end] == [] + [LOWER_E];
    } else {
      var r := ParseValue(buf, pos);
      var t := TextOf(buf, pos);
      var rest := ItemsOf(buf, r.pos, acc + [r.v]);
      items := [t] + rest;
      ItemsSplit(t, rest, acc);
      StandsJoin(buf, pos, r.pos, end, Render(t), RenderItems(rest) + [LOWER_E]);
    }
  }

  lemma ItemsSplit(t: Text, rest: seq<Text>, acc: seq<Value>)
    requires Legal(t) && forall i :: 0 <= i < |rest| ==> Legal(rest[i])
    ensures acc + MeansEach([t] + rest) == acc + [Means(t)] + MeansEach(rest)
    ensures RenderItems([t] + rest) + [LOWER_E] == Render(t) + (RenderItems(rest) + [LOWER_E])
  {
    assert ([t] + rest)[1..] == rest;
  }

  lemma {:induction false} PairsOf(buf: seq<Byte>, pos: nat, acc: seq<Entry>) returns (pairs: seq<PairText>)
    requires pos <= |buf| && ParseEntries(buf, pos, acc).Ok?
    ensures forall i :: 0 <= i < |pairs| ==> LegalPair(pairs[i])
    ensures ParseEntries(buf, pos, acc).v == Dict(Entered(pairs, acc))
    ensures Stands(buf, pos, ParseEntries(buf, pos, acc).pos, RenderPairs(pairs) + [LOWER_E])
    decreases |buf| - pos, 1
  {
    var end := ParseEntries(buf, pos, acc).pos;
    if pos < |buf| && buf[pos] == LOWER_E {
      pairs := [];
      assert buf[pos..end] == [] + [LOWER_E];
    } else {
      var p, e, next := PairOf(buf, pos);
      var rest := PairsOf(buf, next, Insert(acc, e));
      pairs := [p] + rest;
      assert pairs[1..] == rest;
      StandsJoin(buf, pos, next, end, RenderPair(p), RenderPairs(rest) + [LOWER_E]);
      assert RenderPairs(pairs) + [LOWER_E] == RenderPair(p) + (RenderPairs(rest) + [LOWER_E]);
    }
  }

  lemma {:induction false} PairOf(buf: seq<Byte>, pos: nat) returns (p: PairText, e: Entry, next: nat)
    requires pos <= |buf| && ParseValue(buf, pos).Ok? && ParseValue(buf, pos).v.Bytes?
    requires ParseValue(buf, ParseValue(buf, pos).pos).Ok?
    ensures var k := ParseValue(buf, pos);
      var r := ParseValue(buf, k.pos);
      e == Entry(k.v.b, r.v) && next == r.pos
    ensures LegalPair(p) && e == Entry(p.key, Means(p.val)) && Stands(buf, pos, next, RenderPair(p))
    decreases |buf| - pos, 0
  {
    var k := ParseValue(buf, pos);
    var r := ParseValue(buf, k.pos);
    OnlyBytes(buf, pos);
    var digits, key := BytesStand(buf, pos);
    var t := TextOf(buf, k.pos);
    p, e, next := PairText(digits, key, t), Entry(k.v.b, r.v), r.pos;
    StandsJoin(buf, pos, k.pos, r.pos, RenderBytes(digits, key), Render(t));
  }

  /** A byte string is read only where a digit stands. */
  lemma {:induction false} OnlyBytes(buf: seq<Byte>, pos: nat)
    requires pos <= |buf| && ParseValue(buf, pos).Ok? && ParseValue(buf, pos).v.Bytes?
    ensures pos < |buf| && IsDigit(buf[pos]) && ParseValue(buf, pos) == ParseBytes(buf, pos)
  {
    if buf[pos] == LOWER_L {
      NotBytesItems(buf, pos + 1, []);
    } else if buf[pos] == LOWER_D {
      NotBytesEntries(buf, pos + 1, []);
    }
  }

  lemma {:induction false} NotBytesItems(buf: seq<Byte>, pos: nat, acc: seq<Value>)
    requires pos <= |buf| && ParseItems(buf, pos, acc).Ok?
    ensures ParseItems(buf, pos, acc).v.List?
    decreases |buf| - pos
  {
    if !(pos < |buf| && buf[pos] == LOWER_E) {
      var r := ParseValue(buf, pos);
      NotBytesItems(buf, r.pos, acc + [r.v]);
    }
  }

  lemma {:induction false} NotBytesEntries(buf: seq<Byte>, pos: nat, acc: seq<Entry>)
    requires pos <= |buf| && ParseEntries(buf, pos, acc).Ok?
    ensures ParseEntries(buf, pos, acc).v.Dict?
    decreases |buf| - pos
  {
    if !(pos < |buf| && buf[pos] == LOWER_E) {
      var k := ParseValue(buf, pos);
      var r := ParseValue(buf, k.pos);
      NotBytesEntries(buf, r.pos, Insert(acc, Entry(k.v.b, r.v)));
    }
  }

  // ---- The theorem ----

  /** The decoder reads `v` and stops at `end` if and only if the bytes up to there are a legal text of `v`. */
  lemma DecodesExactly(buf: seq<Byte>, pos: nat, v: Value, end: nat)
    requires pos <= |buf| <= U64_MAX
    ensures ParseValue(buf, pos) == Ok(v, end) <==>
      exists t :: Legal(t) && Means(t) == v && Stands(buf, pos, end, Render(t))
  {
    if ParseValue(buf, pos) == Ok(v, end) {
      var t := TextOf(buf, pos);
    }
    if t :| Legal(t) && Means(t) == v && Stands(buf, pos, end, Render(t)) {
      assert buf[pos..][..|Render(t)|] == Render(t);
      TextRead(buf, pos, t);
    }
  }
}
