/**
 Which inputs the lenient decoder reads back as they were written. A text is
 canonical if no number in it has a leading zero, no zero is negative and the keys
 of every dictionary strictly ascend, as the bencoding section of BEP 3 asks. The
 decoder accepts others too; exactly the canonical ones are what the encoder writes.
 */
module BencodeCanonical {
  import opened Common
  import opened Decimal
  import opened Bencode
  import opened BencodeLaws

  /** No zero stands before another digit. */
  predicate NoLeadingZero(buf: seq<Byte>, k: nat, stop: Byte)
    requires k < |buf|
  {
    buf[k] == ZERO ==> k + 1 < |buf| && buf[k + 1] == stop
  }

  predicate CanonicalInt(buf: seq<Byte>, pos: nat)
    requires pos < |buf|
  {
    pos + 1 < |buf| &&
    if buf[pos + 1] == MINUS then pos + 2 < |buf| && buf[pos + 2] != ZERO
    else NoLeadingZero(buf, pos + 1, LOWER_E)
  }

  /** The value read at `pos` is written canonically. */
  predicate Canonical(buf: seq<Byte>, pos: nat)
    requires pos <= |buf|
    decreases |buf| - pos, 0
  {
    if !ParseValue(buf, pos).Ok? then false
    else if buf[pos] == LOWER_I then CanonicalInt(buf, pos)
    else if buf[pos] == LOWER_L then CanonicalItems(buf, pos + 1)
    else if buf[pos] == LOWER_D then CanonicalEntries(buf, pos + 1, None)
    else NoLeadingZero(buf, pos, COLON)
  }

  predicate CanonicalItems(buf: seq<Byte>, pos: nat)
    requires pos <= |buf|
    decreases |buf| - pos, 1
  {
    if pos < |buf| && buf[pos] == LOWER_E then true
    else Canonical(buf, pos) && CanonicalItems(buf, ParseValue(buf, pos).pos)
  }

  /** `last` is the key before. */
  predicate CanonicalEntries(buf: seq<Byte>, pos: nat, last: Option<seq<Byte>>)
    requires pos <= |buf|
    decreases |buf| - pos, 1
  {
    if pos < |buf| && buf[pos] == LOWER_E then true
    else
      Canonical(buf, pos) &&
      var k := ParseValue(buf, pos);
      && k.v.Bytes? && (last.Some? ==> Less(last.value, k.v.b))
      && Canonical(buf, k.pos)
      && CanonicalEntries(buf, ParseValue(buf, k.pos).pos, Some(k.v.b))
  }

  // ---- Numbers ----

  /** Decimal notation without leading zeros is the one the encoder writes. */
  lemma {:induction false} DigitsOfValue(ds: seq<Digit>)
    requires |ds| == 1 || (|ds| > 1 && ds[0] != 0)
    ensures Digits(Decimal.Value(ds)) == ds
    ensures (|ds| > 1 ==> Decimal.Value(ds) >= 10) && (ds[0] != 0 ==> Decimal.Value(ds) > 0)
  {
    var n := |ds| - 1;
    if n == 0 {
      assert ds[..0] == [];
      assert Decimal.Value(ds) == ds[0];
    } else {
      DigitsOfValue(ds[..n]);
      assert ds == ds[..n] + [ds[n]];
    }
  }

  lemma {:induction false} DigitsLead(n: nat)
    ensures Digits(n)[0] == 0 ==> n == 0
  {
    if n >= 10 {
      DigitsLead(n / 10);
    }
  }

  /** A run of digits is the notation of its value if and only if it has no leading zero. */
  lemma NumberCanonical(buf: seq<Byte>, k: nat, end: nat, stop: Byte)
    requires k < end < |buf| && DigitRun(buf[k..end]) && buf[end] == stop && !IsDigit(stop)
    ensures buf[k..end] == ShowNat(Decimal.Value(DigitsIn(buf[k..end]))) <==> NoLeadingZero(buf, k, stop)
    ensures buf[k] != ZERO ==> Decimal.Value(DigitsIn(buf[k..end])) > 0
    ensures buf[k] == ZERO && NoLeadingZero(buf, k, stop) ==> Decimal.Value(DigitsIn(buf[k..end])) == 0
  {
    var s := buf[k..end];
    var ds := DigitsIn(s);
    var n := Decimal.Value(ds);
    assert s[0] == buf[k] && Ascii(ds) == s;
    if end == k + 1 {
      DigitsOfValue(ds);
      assert ds[..0] == [];
    } else if ds[0] != 0 {
      DigitsOfValue(ds);
    } else {
      assert IsDigit(s[1]) && s[1] == buf[k + 1];
      DigitsLead(n);
    }
  }

  ghost predicate Written(buf: seq<Byte>, pos: nat, end: nat, s: seq<Byte>) {
    pos <= end <= |buf| && buf[pos..end] == s
  }

  lemma Framed(buf: seq<Byte>, pos: nat, k: nat, end: nat, pre: seq<Byte>, s: seq<Byte>, post: seq<Byte>)
    requires pos <= k <= end <= end + |post| <= |buf| && buf[pos..k] == pre && buf[end..end + |post|] == post
    ensures Written(buf, pos, end + |post|, pre + s + post) <==> buf[k..end] == s
  {
    var whole := buf[pos..end + |post|];
    assert whole == pre + buf[k..end] + post;
    if whole == pre + s + post {
      assert |s| == |buf[k..end]|;
      assert s == (pre + s + post)[|pre|..|pre| + |s|];
      assert buf[k..end] == (pre + buf[k..end] + post)[|pre|..|pre| + |s|];
    }
  }

  lemma NegativeWritten(buf: seq<Byte>, pos: nat, end: nat, n: int)
    requires pos + 2 < end < |buf| && buf[pos] == LOWER_I && buf[pos + 1] == MINUS && buf[end] == LOWER_E && n > 0
    ensures Written(buf, pos, end + 1, [LOWER_I] + ShowInt(-n) + [LOWER_E]) <==> buf[pos + 2..end] == ShowNat(n)
  {
    Framed(buf, pos, pos + 2, end, [LOWER_I, MINUS], ShowNat(n), [LOWER_E]);
    assert [LOWER_I, MINUS] + ShowNat(n) == [LOWER_I] + ShowInt(-n);
  }

  /** Zero is never written with a minus. */
  lemma ZeroUnsigned(buf: seq<Byte>, pos: nat, end: nat)
    requires pos + 2 < end < |buf| && buf[pos + 1] == MINUS
    ensures !Written(buf, pos, end + 1, [LOWER_I] + ShowInt(0) + [LOWER_E])
  {
    assert ShowInt(0) == [ZERO];
    assert ([LOWER_I] + ShowInt(0) + [LOWER_E])[1] == ZERO;
    assert buf[pos..end + 1][1] == MINUS;
  }

  lemma NegativeCanonical(buf: seq<Byte>, pos: nat, end: nat, n: int)
    requires pos + 2 < end < |buf| && buf[pos] == LOWER_I && buf[pos + 1] == MINUS && buf[end] == LOWER_E
    requires DigitRun(buf[pos + 2..end]) && n == Decimal.Value(DigitsIn(buf[pos + 2..end]))
    ensures Written(buf, pos, end + 1, [LOWER_I] + ShowInt(-n) + [LOWER_E]) <==> buf[pos + 2] != ZERO
  {
    NumberCanonical(buf, pos + 2, end, LOWER_E);
    if n > 0 {
      assert NoLeadingZero(buf, pos + 2, LOWER_E) <==> buf[pos + 2] != ZERO;
      NegativeWritten(buf, pos, end, n);
    } else {
      ZeroUnsigned(buf, pos, end);
    }
  }

  lemma PositiveCanonical(buf: seq<Byte>, pos: nat, end: nat)
    requires pos + 1 < end < |buf| && buf[pos] == LOWER_I && buf[end] == LOWER_E
    requires DigitRun(buf[pos + 1..end])
    ensures var n := Decimal.Value(DigitsIn(buf[pos + 1..end]));
      Written(buf, pos, end + 1, [LOWER_I] + ShowInt(n) + [LOWER_E]) <==> NoLeadingZero(buf, pos + 1, LOWER_E)
  {
    NumberCanonical(buf, pos + 1, end, LOWER_E);
    Framed(buf, pos, pos + 1, end, [LOWER_I], ShowNat(Decimal.Value(DigitsIn(buf[pos + 1..end]))), [LOWER_E]);
  }

  lemma IntCanonical(buf: seq<Byte>, pos: nat)
    requires pos < |buf| && buf[pos] == LOWER_I && ParseInt(buf, pos).Ok?
    ensures Written(buf, pos, ParseInt(buf, pos).pos, Encode(ParseInt(buf, pos).v)) <==> CanonicalInt(buf, pos)
  {
    var end := ParseInt(buf, pos).pos - 1;
    if buf[pos + 1] == MINUS {
      NegativeCanonical(buf, pos, end, Decimal.Value(DigitsIn(buf[pos + 2..end])));
    } else {
      PositiveCanonical(buf, pos, end);
      assert IsDigit(buf[pos + 1..end][0]);
    }
  }

  lemma BytesCanonical(buf: seq<Byte>, pos: nat)
    requires pos < |buf| && IsDigit(buf[pos]) && ParseBytes(buf, pos).Ok?
    ensures Written(buf, pos, ParseBytes(buf, pos).pos, Encode(ParseBytes(buf, pos).v)) <==>
      NoLeadingZero(buf, pos, COLON)
  {
    var colon := ScanDigits(buf, pos, COLON).at;
    NumberCanonical(buf, pos, colon, COLON);
    BytesWritten(buf, pos, colon, ParseBytes(buf, pos).v.b);
  }

  lemma BytesWritten(buf: seq<Byte>, pos: nat, colon: nat, b: seq<Byte>)
    requires pos < colon < colon + 1 + |b| <= |buf| && buf[colon] == COLON && buf[colon + 1..colon + 1 + |b|] == b
    ensures Written(buf, pos, colon + 1 + |b|, EncodeBytes(b)) <==> buf[pos..colon] == ShowNat(|b|)
  {
    Framed(buf, pos, pos, colon, [], ShowNat(|b|), [COLON] + b);
    assert [] + ShowNat(|b|) + ([COLON] + b) == EncodeBytes(b);
  }

  // ---- Lists and dictionaries ----

  ghost predicate ItemsWritten(buf: seq<Byte>, pos: nat, end: nat, acc: seq<Value>, all: seq<Value>) {
    acc <= all && Written(buf, pos, end, EncodeItems(all[|acc|..]) + [LOWER_E])
  }

  ghost predicate EntriesWritten(buf: seq<Byte>, pos: nat, end: nat, acc: seq<Entry>, all: seq<Entry>) {
    acc <= all && Written(buf, pos, end, EncodeEntries(all[|acc|..]) + [LOWER_E])
  }

  /** What is written in two parts, the first of known length. */
  lemma WrittenParts(buf: seq<Byte>, pos: nat, mid: nat, end: nat, s: seq<Byte>, t: seq<Byte>)
    requires pos <= mid <= end <= |buf| && (Written(buf, pos, end, s + t) ==> |s| == mid - pos)
    ensures Written(buf, pos, end, s + t) <==> Written(buf, pos, mid, s) && Written(buf, mid, end, t)
  {
    var whole := buf[pos..end];
    assert whole == buf[pos..mid] + buf[mid..end];
    if whole == s + t {
      assert s == (s + t)[..|s|] == buf[pos..mid];
      assert t == (s + t)[|s|..] == buf[mid..end];
    }
  }

  lemma WrittenAt(buf: seq<Byte>, pos: nat, end: nat, s: seq<Byte>, t: seq<Byte>)
    requires Written(buf, pos, end, s + t)
    ensures At(buf, pos, s)
  {
    assert buf[pos..][..|s|] == (s + t)[..|s|];
  }

  /** The bytes a value was read from are those the encoder writes for it if and only if they are canonical. */
  lemma {:induction false} WrittenIffCanonical(buf: seq<Byte>, pos: nat)
    requires pos <= |buf| <= U64_MAX && ParseValue(buf, pos).Ok?
    ensures Written(buf, pos, ParseValue(buf, pos).pos, Encode(ParseValue(buf, pos).v)) <==> Canonical(buf, pos)
    decreases |buf| - pos, 0
  {
    if buf[pos] == LOWER_I {
      IntCanonical(buf, pos);
    } else if buf[pos] == LOWER_L {
      ListCanonical(buf, pos);
    } else if buf[pos] == LOWER_D {
      DictCanonical(buf, pos);
    } else {
      BytesCanonical(buf, pos);
    }
  }

  lemma {:induction false} ListCanonical(buf: seq<Byte>, pos: nat)
    requires pos < |buf| <= U64_MAX && buf[pos] == LOWER_L && ParseValue(buf, pos).Ok?
    ensures Written(buf, pos, ParseValue(buf, pos).pos, Encode(ParseValue(buf, pos).v)) <==>
      CanonicalItems(buf, pos + 1)
    decreases |buf| - pos - 1, 2
  {
    ItemsCanonical(buf, pos + 1, []);
    var (v, end) := (ParseValue(buf, pos).v, ParseValue(buf, pos).pos);
    assert v.items[0..] == v.items;
    assert Encode(v) == [LOWER_L] + (EncodeItems(v.items) + [LOWER_E]);
    WrittenParts(buf, pos, pos + 1, end, [LOWER_L], EncodeItems(v.items) + [LOWER_E]);
  }

  lemma {:induction false} DictCanonical(buf: seq<Byte>, pos: nat)
    requires pos < |buf| <= U64_MAX && buf[pos] == LOWER_D && ParseValue(buf, pos).Ok?
    ensures Written(buf, pos, ParseValue(buf, pos).pos, Encode(ParseValue(buf, pos).v)) <==>
      CanonicalEntries(buf, pos + 1, None)
    decreases |buf| - pos - 1, 3
  {
    EntriesCanonical(buf, pos + 1, [], None);
    var (v, end) := (ParseValue(buf, pos).v, ParseValue(buf, pos).pos);
    assert v.entries[0..] == v.entries;
    assert Encode(v) == [LOWER_D] + (EncodeEntries(v.entries) + [LOWER_E]);
    WrittenParts(buf, pos, pos + 1, end, [LOWER_D], EncodeEntries(v.entries) + [LOWER_E]);
  }

  /** An item is as long as its encoding, if that is what stands there. */
  lemma ItemLength(buf: seq<Byte>, pos: nat, end: nat, s: seq<Byte>)
    requires pos <= |buf| <= U64_MAX && ParseValue(buf, pos).Ok?
    requires Written(buf, pos, end, Encode(ParseValue(buf, pos).v) + s)
    ensures |Encode(ParseValue(buf, pos).v)| == ParseValue(buf, pos).pos - pos
  {
    var v := ParseValue(buf, pos).v;
    ParseValid(buf, pos);
    WrittenAt(buf, pos, end, Encode(v), s);
    RoundTripAt(buf, pos, v);
  }

  lemma {:induction false} ItemsGrow(buf: seq<Byte>, pos: nat, acc: seq<Value>)
    requires pos <= |buf| && ParseItems(buf, pos, acc).Ok?
    ensures ParseItems(buf, pos, acc).v.List? && acc <= ParseItems(buf, pos, acc).v.items
    decreases |buf| - pos
  {
    if !(pos < |buf| && buf[pos] == LOWER_E) {
      var r := ParseValue(buf, pos);
      ItemsGrow(buf, r.pos, acc + [r.v]);
    }
  }

  lemma {:induction false} ItemsCanonical(buf: seq<Byte>, pos: nat, acc: seq<Value>)
    requires pos <= |buf| <= U64_MAX && ParseItems(buf, pos, acc).Ok?
    ensures ParseItems(buf, pos, acc).v.List?
    ensures ItemsWritten(buf, pos, ParseItems(buf, pos, acc).pos, acc, ParseItems(buf, pos, acc).v.items) <==>
      CanonicalItems(buf, pos)
    decreases |buf| - pos, 1
  {
    ItemsGrow(buf, pos, acc);
    var all, end := ParseItems(buf, pos, acc).v.items, ParseItems(buf, pos, acc).pos;
    if pos < |buf| && buf[pos] == LOWER_E {
      assert all[|acc|..] == [];
      assert buf[pos..end] == [] + [LOWER_E];
    } else {
      var r := ParseValue(buf, pos);
      ItemsGrow(buf, r.pos, acc + [r.v]);
      WrittenIffCanonical(buf, pos);
      ItemsCanonical(buf, r.pos, acc + [r.v]);
      ItemsWrittenStep(buf, pos, end, acc, all);
    }
  }

  lemma ItemsWrittenStep(buf: seq<Byte>, pos: nat, end: nat, acc: seq<Value>, all: seq<Value>)
    requires pos <= |buf| <= U64_MAX && ParseValue(buf, pos).Ok? && acc + [ParseValue(buf, pos).v] <= all
    requires ParseValue(buf, pos).pos <= end <= |buf|
    ensures var r := ParseValue(buf, pos);
      ItemsWritten(buf, pos, end, acc, all) <==>
      Written(buf, pos, r.pos, Encode(r.v)) && ItemsWritten(buf, r.pos, end, acc + [r.v], all)
  {
    var r := ParseValue(buf, pos);
    var head, rest := Encode(r.v), EncodeItems(all[|acc| + 1..]) + [LOWER_E];
    assert all[|acc|..][0] == r.v && all[|acc|..][1..] == all[|acc| + 1..];
    assert EncodeItems(all[|acc|..]) + [LOWER_E] == head + rest;
    if Written(buf, pos, end, head + rest) {
      ItemLength(buf, pos, end, rest);
    }
    WrittenParts(buf, pos, r.pos, end, head, rest);
  }

  /** The last key read. */
  function LastKey(acc: seq<Entry>): Option<seq<Byte>> {
    if acc == [] then None else Some(acc[|acc| - 1].key)
  }

  lemma {:induction false} EntriesGrow(buf: seq<Byte>, pos: nat, acc: seq<Entry>)
    requires pos <= |buf| && ParseEntries(buf, pos, acc).Ok? && ValidEntries(acc)
    ensures ParseEntries(buf, pos, acc).v.Dict? && ValidEntries(ParseEntries(buf, pos, acc).v.entries)
    decreases |buf| - pos
  {
    if !(pos < |buf| && buf[pos] == LOWER_E) {
      var k := ParseValue(buf, pos);
      var r := ParseValue(buf, k.pos);
      ParseValid(buf, k.pos);
      InsertValid(acc, Entry(k.v.b, r.v));
      EntriesGrow(buf, r.pos, Insert(acc, Entry(k.v.b, r.v)));
    }
  }

  /** What the decoder reads at `pos`, if it reads an entry there. */
  ghost predicate EntryAt(buf: seq<Byte>, pos: nat, mid: nat, next: nat, e: Entry) {
    && pos < mid < next <= |buf| && buf[pos] != LOWER_E
    && ParseValue(buf, pos) == Ok(Bytes(e.key), mid) && ParseValue(buf, mid) == Ok(e.val, next)
  }

  /** An entry read is written as encoded if and only if its key and its value are canonical. */
  lemma {:induction false} EntryCanonical(buf: seq<Byte>, pos: nat, mid: nat, next: nat, e: Entry)
    requires EntryAt(buf, pos, mid, next, e) && |buf| <= U64_MAX
    ensures Written(buf, pos, next, EncodeEntry(e)) <==> Canonical(buf, pos) && Canonical(buf, mid)
    decreases |buf| - pos, 1
  {
    WrittenIffCanonical(buf, pos);
    WrittenIffCanonical(buf, mid);
    if Written(buf, pos, next, EncodeEntry(e)) {
      ItemLength(buf, pos, next, Encode(e.val));
    }
    WrittenParts(buf, pos, mid, next, EncodeBytes(e.key), Encode(e.val));
  }

  lemma InsertLast(acc: seq<Entry>, e: Entry)
    requires LastKey(acc).Some? ==> Less(LastKey(acc).value, e.key)
    ensures Insert(acc, e) == acc + [e] && LastKey(acc + [e]) == Some(e.key)
  {
  }

  /** If the entries to come are what is written, the first of them is what is read. */
  lemma FirstEntry(buf: seq<Byte>, pos: nat, mid: nat, next: nat, end: nat, acc: seq<Entry>, all: seq<Entry>, e: Entry)
    requires EntryAt(buf, pos, mid, next, e) && |buf| <= U64_MAX && ValidEntries(all)
    requires EntriesWritten(buf, pos, end, acc, all)
    ensures |acc| < |all| && all[|acc|] == e && |EncodeEntry(e)| == next - pos
    ensures LastKey(acc).Some? ==> Less(LastKey(acc).value, e.key)
  {
    var n := |acc|;
    assert buf[pos..end][0] == buf[pos] != LOWER_E;
    var first, rest := all[n], EncodeEntries(all[n + 1..]) + [LOWER_E];
    assert all[n..][1..] == all[n + 1..];
    assert EncodeEntries(all[n..]) + [LOWER_E] == EncodeEntry(first) + rest;
    WrittenAt(buf, pos, end, EncodeEntry(first), rest);
    var m, x := EntryRoundTrip(buf, pos, first);
  }

  lemma EntriesWrittenStep(buf: seq<Byte>, pos: nat, mid: nat, next: nat, end: nat, acc: seq<Entry>, all: seq<Entry>,
                           e: Entry)
    requires EntryAt(buf, pos, mid, next, e) && next <= end <= |buf| <= U64_MAX && ValidEntries(all)
    ensures EntriesWritten(buf, pos, end, acc, all) <==>
      && (LastKey(acc).Some? ==> Less(LastKey(acc).value, e.key))
      && Written(buf, pos, next, EncodeEntry(e)) && EntriesWritten(buf, next, end, acc + [e], all)
  {
    if EntriesWritten(buf, pos, end, acc, all) {
      FirstEntry(buf, pos, mid, next, end, acc, all, e);
    }
    if acc + [e] <= all {
      var n := |acc|;
      assert all[n..][0] == e && all[n..][1..] == all[n + 1..];
      var head, rest := EncodeEntry(e), EncodeEntries(all[n + 1..]) + [LOWER_E];
      assert EncodeEntries(all[n..]) + [LOWER_E] == head + rest;
      WrittenParts(buf, pos, next, end, head, rest);
    }
  }

  lemma {:induction false} EntriesCanonical(buf: seq<Byte>, pos: nat, acc: seq<Entry>, last: Option<seq<Byte>>)
    requires pos <= |buf| <= U64_MAX && ParseEntries(buf, pos, acc).Ok? && ValidEntries(acc) && last == LastKey(acc)
    ensures ParseEntries(buf, pos, acc).v.Dict?
    ensures EntriesWritten(buf, pos, ParseEntries(buf, pos, acc).pos, acc, ParseEntries(buf, pos, acc).v.entries) <==>
      CanonicalEntries(buf, pos, last)
    decreases |buf| - pos, 2
  {
    EntriesGrow(buf, pos, acc);
    var all, end := ParseEntries(buf, pos, acc).v.entries, ParseEntries(buf, pos, acc).pos;
    if pos < |buf| && buf[pos] == LOWER_E {
      assert all[|acc|..] == [];
      assert buf[pos..end] == [] + [LOWER_E];
    } else {
      var k := ParseValue(buf, pos);
      var r := ParseValue(buf, k.pos);
      var e := Entry(k.v.b, r.v);
      EntryCanonical(buf, pos, k.pos, r.pos, e);
      EntriesWrittenStep(buf, pos, k.pos, r.pos, end, acc, all, e);
      if last.Some? ==> Less(last.value, e.key) {
        InsertLast(acc, e);
        ParseValid(buf, k.pos);
        InsertValid(acc, e);
        EntriesCanonical(buf, r.pos, acc + [e], Some(e.key));
      }
    }
  }

  // ---- The theorem ----

  /** The decoder consumes exactly what the encoder would write for the value it returns if and only if
      the message has no leading zero, no negative zero and strictly ascending keys. */
  lemma ReadsBackIff(buf: seq<Byte>)
    requires |buf| <= U64_MAX && ParseValue(buf, 0).Ok?
    ensures buf[..ParseValue(buf, 0).pos] == Encode(ParseValue(buf, 0).v) <==> Canonical(buf, 0)
  {
    WrittenIffCanonical(buf, 0);
    assert buf[0..ParseValue(buf, 0).pos] == buf[..ParseValue(buf, 0).pos];
  }

  /** `i-0e` is read as zero, which is written `i0e`. */
  lemma NegativeZeroRead()
    ensures var buf := [LOWER_I, MINUS, ZERO, LOWER_E];
      ParseValue(buf, 0) == Ok(Int(0), 4) && !Canonical(buf, 0) && Encode(Int(0)) == [LOWER_I, ZERO, LOWER_E]
  {
    var buf := [LOWER_I, MINUS, ZERO, LOWER_E];
    assert ScanDigits(buf, 3, LOWER_E) == Stop(3);
    assert ScanDigits(buf, 2, LOWER_E) == Stop(3);
    assert DigitsIn(buf[2..3]) == [0];
    assert [0 as Digit][..0] == [];
    assert Decimal.Value([0]) == 0;
    assert ShowNat(0) == [ZERO];
  }
}
