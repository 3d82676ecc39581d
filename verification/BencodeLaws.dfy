/**
 What the codec promises: decoding undoes encoding wherever the bytes stand,
 a verdict never changes when more bytes arrive, a proper prefix of a message
 is never taken for a message or for an error, and decoded dictionaries are sorted.
 */
module BencodeLaws {
  import opened Common
  import opened Decimal
  import opened Bencode

  /** Every dictionary inside is sorted by key without repeats, as a sorted map is. */
  ghost predicate Valid(v: Value) {
    match v
    case Int(_) => true
    case Bytes(_) => true
    case List(items) => forall i :: 0 <= i < |items| ==> Valid(items[i])
    case Dict(entries) => Sorted(entries) && forall i :: 0 <= i < |entries| ==> Valid(entries[i].val)
  }

  ghost predicate ValidEntries(entries: seq<Entry>) {
    Sorted(entries) && forall i :: 0 <= i < |entries| ==> Valid(entries[i].val)
  }

  // ---- More bytes never change a verdict ----

  lemma {:induction false} ScanStable(buf: seq<Byte>, ext: seq<Byte>, k: nat, stop: Byte)
    requires k <= |buf| && !ScanDigits(buf, k, stop).RunsOut?
    ensures ScanDigits(buf + ext, k, stop) == ScanDigits(buf, k, stop)
    decreases |buf| - k
  {
    if k < |buf| && buf[k] != stop && IsDigit(buf[k]) {
      ScanStable(buf, ext, k + 1, stop);
    }
  }

  lemma IntStable(buf: seq<Byte>, ext: seq<Byte>, pos: nat)
    requires pos < |buf| && !ParseInt(buf, pos).Incomplete?
    ensures ParseInt(buf + ext, pos) == ParseInt(buf, pos)
  {
    var digits := if pos + 1 < |buf| && buf[pos + 1] == MINUS then pos + 2 else pos + 1;
    ScanStable(buf, ext, digits, LOWER_E);
    var s := ScanDigits(buf, digits, LOWER_E);
    if s.Stop? {
      assert (buf + ext)[digits..s.at] == buf[digits..s.at];
    }
  }

  lemma BytesStable(buf: seq<Byte>, ext: seq<Byte>, pos: nat)
    requires pos < |buf| && IsDigit(buf[pos]) && !ParseBytes(buf, pos).Incomplete?
    ensures ParseBytes(buf + ext, pos) == ParseBytes(buf, pos)
  {
    ScanStable(buf, ext, pos, COLON);
    var s := ScanDigits(buf, pos, COLON);
    if s.Stop? {
      assert (buf + ext)[pos..s.at] == buf[pos..s.at];
      var end := s.at + 1 + Decimal.Value(DigitsIn(buf[pos..s.at]));
      assert end <= |buf| ==> (buf + ext)[s.at + 1..end] == buf[s.at + 1..end];
    }
  }

  lemma {:induction false} ParseStable(buf: seq<Byte>, ext: seq<Byte>, pos: nat)
    requires pos <= |buf| && !ParseValue(buf, pos).Incomplete?
    ensures ParseValue(buf + ext, pos) == ParseValue(buf, pos)
    decreases |buf| - pos, 0
  {
    if buf[pos] == LOWER_I {
      IntStable(buf, ext, pos);
    } else if buf[pos] == LOWER_L {
      ItemsStable(buf, ext, pos + 1, []);
    } else if buf[pos] == LOWER_D {
      EntriesStable(buf, ext, pos + 1, []);
    } else if IsDigit(buf[pos]) {
      BytesStable(buf, ext, pos);
    }
  }

  lemma {:induction false} ItemsStable(buf: seq<Byte>, ext: seq<Byte>, pos: nat, items: seq<Value>)
    requires pos <= |buf| && !ParseItems(buf, pos, items).Incomplete?
    ensures ParseItems(buf + ext, pos, items) == ParseItems(buf, pos, items)
    decreases |buf| - pos, 1
  {
    if !(pos < |buf| && buf[pos] == LOWER_E) {
      ParseStable(buf, ext, pos);
      var r := ParseValue(buf, pos);
      if r.Ok? {
        ItemsStable(buf, ext, r.pos, items + [r.v]);
      }
    }
  }

  lemma {:induction false} EntriesStable(buf: seq<Byte>, ext: seq<Byte>, pos: nat, entries: seq<Entry>)
    requires pos <= |buf| && !ParseEntries(buf, pos, entries).Incomplete?
    ensures ParseEntries(buf + ext, pos, entries) == ParseEntries(buf, pos, entries)
    decreases |buf| - pos, 1
  {
    if !(pos < |buf| && buf[pos] == LOWER_E) {
      ParseStable(buf, ext, pos);
      var k := ParseValue(buf, pos);
      if k.Ok? && k.v.Bytes? {
        ParseStable(buf, ext, k.pos);
        var r := ParseValue(buf, k.pos);
        if r.Ok? {
          EntriesStable(buf, ext, r.pos, Insert(entries, Entry(k.v.b, r.v)));
        }
      }
    }
  }

  /** A cut anywhere inside a message asks for more bytes: no shorter message, no error. */
  lemma PrefixIncomplete(buf: seq<Byte>, cut: nat)
    requires ParseValue(buf, 0).Ok? && cut < ParseValue(buf, 0).pos
    ensures ParseValue(buf[..cut], 0) == Incomplete
  {
    assert buf == buf[..cut] + buf[cut..];
    if !ParseValue(buf[..cut], 0).Incomplete? {
      ParseStable(buf[..cut], buf[cut..], 0);
    }
  }

  // ---- Decoding undoes encoding ----

  ghost predicate At(buf: seq<Byte>, pos: nat, s: seq<Byte>) {
    pos <= |buf| && s <= buf[pos..]
  }

  lemma AtSplit(buf: seq<Byte>, pos: nat, a: seq<Byte>, b: seq<Byte>)
    requires At(buf, pos, a + b)
    ensures At(buf, pos, a) && pos + |a| + |b| <= |buf| && At(buf, pos + |a|, b)
    ensures buf[pos..pos + |a|] == a
  {
    assert a + b == buf[pos..][..|a + b|];
    assert buf[pos..pos + |a|] == (a + b)[..|a|] == a;
    assert buf[pos + |a|..][..|b|] == (a + b)[|a|..] == b;
  }

  lemma {:induction false} ScanHits(buf: seq<Byte>, k: nat, n: nat, stop: Byte)
    requires k + n < |buf| && DigitRun(buf[k..k + n]) && buf[k + n] == stop && !IsDigit(stop)
    ensures ScanDigits(buf, k, stop) == Stop(k + n)
    decreases n
  {
    if n > 0 {
      assert buf[k] == buf[k..k + n][0];
      assert buf[k + 1..k + 1 + (n - 1)] == buf[k..k + n][1..];
      ScanHits(buf, k + 1, n - 1, stop);
    }
  }

  lemma AsciiDigits(ds: seq<Digit>)
    ensures DigitRun(Ascii(ds)) && DigitsIn(Ascii(ds)) == ds
  {
  }

  lemma ByteAt(buf: seq<Byte>, pos: nat, b: Byte)
    requires At(buf, pos, [b])
    ensures pos < |buf| && buf[pos] == b
  {
    assert buf[pos..][0] == [b][0];
  }

  lemma ShownPlace(buf: seq<Byte>, k: nat, s: seq<Byte>, stop: Byte)
    requires At(buf, k, s + [stop])
    ensures k + |s| < |buf| && buf[k..k + |s|] == s && buf[k + |s|] == stop
  {
    AtSplit(buf, k, s, [stop]);
    ByteAt(buf, k + |s|, stop);
  }

  lemma ShownDigits(buf: seq<Byte>, k: nat, n: nat, stop: Byte)
    requires At(buf, k, ShowNat(n) + [stop]) && !IsDigit(stop)
    ensures ScanDigits(buf, k, stop) == Stop(k + |ShowNat(n)|)
    ensures |ShowNat(n)| > 0 && IsDigit(buf[k])
    ensures Decimal.Value(DigitsIn(buf[k..k + |ShowNat(n)|])) == n
  {
    var s := ShowNat(n);
    ShownPlace(buf, k, s, stop);
    AsciiDigits(Digits(n));
    ValueOfDigits(n);
    ScanHits(buf, k, |s|, stop);
    assert buf[k] == buf[k..k + |s|][0];
  }

  lemma AtHead(buf: seq<Byte>, pos: nat, b: Byte, rest: seq<Byte>)
    requires At(buf, pos, [b] + rest)
    ensures pos < |buf| && buf[pos] == b && At(buf, pos + 1, rest)
  {
    AtSplit(buf, pos, [b], rest);
    assert buf[pos] == buf[pos..pos + 1][0];
  }

  lemma ParseNegative(buf: seq<Byte>, pos: nat, n: int)
    requires 0 < n <= -I64_MIN && At(buf, pos, [LOWER_I] + ([MINUS] + (ShowNat(n) + [LOWER_E])))
    ensures ParseValue(buf, pos) == Ok(Int(-n), pos + |ShowNat(n)| + 3)
  {
    AtHead(buf, pos, LOWER_I, [MINUS] + (ShowNat(n) + [LOWER_E]));
    AtHead(buf, pos + 1, MINUS, ShowNat(n) + [LOWER_E]);
    ShownDigits(buf, pos + 2, n, LOWER_E);
  }

  lemma ParsePositive(buf: seq<Byte>, pos: nat, n: nat)
    requires n <= I64_MAX && At(buf, pos, [LOWER_I] + (ShowNat(n) + [LOWER_E]))
    ensures ParseValue(buf, pos) == Ok(Int(n), pos + |ShowNat(n)| + 2)
  {
    AtHead(buf, pos, LOWER_I, ShowNat(n) + [LOWER_E]);
    ShownDigits(buf, pos + 1, n, LOWER_E);
  }

  lemma ParseShownInt(buf: seq<Byte>, pos: nat, i: I64)
    requires At(buf, pos, Encode(Int(i)))
    ensures ParseValue(buf, pos) == Ok(Int(i), pos + |Encode(Int(i))|)
  {
    var n: int := i;
    if n < 0 {
      assert Encode(Int(i)) == [LOWER_I] + ([MINUS] + (ShowNat(-n) + [LOWER_E]));
      ParseNegative(buf, pos, -n);
    } else {
      assert Encode(Int(i)) == [LOWER_I] + (ShowNat(n) + [LOWER_E]);
      ParsePositive(buf, pos, n);
    }
  }

  lemma ParseShownBytes(buf: seq<Byte>, pos: nat, b: seq<Byte>)
    requires At(buf, pos, EncodeBytes(b)) && pos + |EncodeBytes(b)| <= U64_MAX
    ensures ParseValue(buf, pos) == Ok(Bytes(b), pos + |EncodeBytes(b)|)
  {
    AtSplit(buf, pos, ShowNat(|b|) + [COLON], b);
    ShownDigits(buf, pos, |b|, COLON);
  }

  lemma {:induction false} RoundTripAt(buf: seq<Byte>, pos: nat, v: Value)
    requires Valid(v) && At(buf, pos, Encode(v)) && pos + |Encode(v)| <= U64_MAX
    ensures ParseValue(buf, pos) == Ok(v, pos + |Encode(v)|)
    decreases v, 1
  {
    match v
    case Int(i) => ParseShownInt(buf, pos, i);
    case Bytes(b) => ParseShownBytes(buf, pos, b);
    case List(items) => ListRoundTrip(buf, pos, items);
    case Dict(entries) => DictRoundTrip(buf, pos, entries);
  }

  lemma {:induction false} ListRoundTrip(buf: seq<Byte>, pos: nat, items: seq<Value>)
    requires forall i :: 0 <= i < |items| ==> Valid(items[i])
    requires At(buf, pos, Encode(List(items))) && pos + |Encode(List(items))| <= U64_MAX
    ensures ParseValue(buf, pos) == Ok(List(items), pos + |Encode(List(items))|)
    decreases items, 2
  {
    var body := EncodeItems(items);
    assert Encode(List(items)) == [LOWER_L] + (body + [LOWER_E]);
    AtHead(buf, pos, LOWER_L, body + [LOWER_E]);
    assert items[0..] == items && items[..0] == [];
    ItemsRoundTrip(buf, pos + 1, items, 0);
  }

  lemma {:induction false} DictRoundTrip(buf: seq<Byte>, pos: nat, entries: seq<Entry>)
    requires ValidEntries(entries)
    requires At(buf, pos, Encode(Dict(entries))) && pos + |Encode(Dict(entries))| <= U64_MAX
    ensures ParseValue(buf, pos) == Ok(Dict(entries), pos + |Encode(Dict(entries))|)
    decreases entries, 2
  {
    var body := EncodeEntries(entries);
    assert Encode(Dict(entries)) == [LOWER_D] + (body + [LOWER_E]);
    AtHead(buf, pos, LOWER_D, body + [LOWER_E]);
    assert entries[0..] == entries && entries[..0] == [];
    EntriesRoundTrip(buf, pos + 1, entries, 0);
  }

  /** No encoding starts with the byte that closes a list or dictionary. */
  lemma NotClosed(buf: seq<Byte>, pos: nat, v: Value)
    requires At(buf, pos, Encode(v))
    ensures pos < |buf| && buf[pos] != LOWER_E
  {
    if v.Bytes? {
      AtSplit(buf, pos, ShowNat(|v.b|) + [COLON], v.b);
      ShownDigits(buf, pos, |v.b|, COLON);
    } else {
      assert buf[pos] == buf[pos..pos + |Encode(v)|][0];
    }
  }

  lemma ItemsFrom(buf: seq<Byte>, pos: nat, all: seq<Value>, k: nat)
    requires k < |all| && At(buf, pos, EncodeItems(all[k..]) + [LOWER_E])
    ensures |EncodeItems(all[k..])| == |Encode(all[k])| + |EncodeItems(all[k + 1..])|
    ensures At(buf, pos, Encode(all[k]))
    ensures At(buf, pos + |Encode(all[k])|, EncodeItems(all[k + 1..]) + [LOWER_E])
  {
    assert all[k..][1..] == all[k + 1..];
    var head, rest := Encode(all[k]), EncodeItems(all[k + 1..]);
    assert EncodeItems(all[k..]) + [LOWER_E] == head + (rest + [LOWER_E]);
    AtSplit(buf, pos, head, rest + [LOWER_E]);
  }

  lemma ItemsEnd(buf: seq<Byte>, pos: nat, all: seq<Value>)
    requires At(buf, pos, EncodeItems(all[|all|..]) + [LOWER_E])
    ensures |EncodeItems(all[|all|..])| == 0
    ensures ListReads(buf, pos, all[..|all|], all, pos + 1)
  {
    Closing(buf, pos, EncodeItems(all[|all|..]));
    assert all[..|all|] == all;
  }

  lemma {:induction false} ItemsRoundTrip(buf: seq<Byte>, pos: nat, all: seq<Value>, k: nat)
    requires k <= |all| && forall i :: 0 <= i < |all| ==> Valid(all[i])
    requires At(buf, pos, EncodeItems(all[k..]) + [LOWER_E]) && pos + |EncodeItems(all[k..])| <= U64_MAX
    ensures ListReads(buf, pos, all[..k], all, pos + |EncodeItems(all[k..])| + 1)
    decreases all, 1, |all| - k
  {
    if k == |all| {
      ItemsEnd(buf, pos, all);
    } else {
      ItemsFrom(buf, pos, all, k);
      ItemsRoundTrip(buf, pos + |Encode(all[k])|, all, k + 1);
      assert all[..k] + [all[k]] == all[..k + 1];
      ItemsStep(buf, pos, all[..k], all[k], all, pos + |EncodeItems(all[k..])| + 1);
    }
  }

  lemma Closing(buf: seq<Byte>, pos: nat, nothing: seq<Byte>)
    requires nothing == [] && At(buf, pos, nothing + [LOWER_E])
    ensures pos < |buf| && buf[pos] == LOWER_E
  {
    assert nothing + [LOWER_E] == [LOWER_E] + [];
    AtHead(buf, pos, LOWER_E, []);
  }

  lemma {:induction false} ItemsStep(buf: seq<Byte>, pos: nat, acc: seq<Value>, v: Value, all: seq<Value>, end: nat)
    requires Valid(v) && At(buf, pos, Encode(v)) && pos + |Encode(v)| <= U64_MAX
    requires ListReads(buf, pos + |Encode(v)|, acc + [v], all, end)
    ensures ListReads(buf, pos, acc, all, end)
    decreases v, 3
  {
    var next := ItemRoundTrip(buf, pos, v);
    ItemReads(buf, pos, next, acc, v, all, end);
  }

  lemma {:induction false} ItemRoundTrip(buf: seq<Byte>, pos: nat, v: Value) returns (next: nat)
    requires Valid(v) && At(buf, pos, Encode(v)) && pos + |Encode(v)| <= U64_MAX
    ensures next == pos + |Encode(v)| && pos < |buf| && buf[pos] != LOWER_E && ParseValue(buf, pos) == Ok(v, next)
    decreases v, 2
  {
    next := pos + |Encode(v)|;
    RoundTripAt(buf, pos, v);
    NotClosed(buf, pos, v);
  }

  /** A value in place extends the items read. */
  lemma ItemReads(buf: seq<Byte>, pos: nat, next: nat, acc: seq<Value>, v: Value, all: seq<Value>, end: nat)
    requires pos < |buf| && buf[pos] != LOWER_E && ParseValue(buf, pos) == Ok(v, next)
    requires ListReads(buf, next, acc + [v], all, end)
    ensures ListReads(buf, pos, acc, all, end)
  {
  }

  /** From `pos`, with `acc` read so far, the decoder finds the rest of `all` and stops at `end`. */
  ghost predicate DictReads(buf: seq<Byte>, pos: nat, acc: seq<Entry>, all: seq<Entry>, end: nat) {
    pos <= |buf| && ParseEntries(buf, pos, acc) == Ok(Dict(all), end)
  }

  ghost predicate ListReads(buf: seq<Byte>, pos: nat, acc: seq<Value>, all: seq<Value>, end: nat) {
    pos <= |buf| && ParseItems(buf, pos, acc) == Ok(List(all), end)
  }

  lemma EntriesFrom(buf: seq<Byte>, pos: nat, all: seq<Entry>, k: nat)
    requires k < |all| && At(buf, pos, EncodeEntries(all[k..]) + [LOWER_E])
    ensures |EncodeEntries(all[k..])| == |EncodeEntry(all[k])| + |EncodeEntries(all[k + 1..])|
    ensures At(buf, pos, EncodeEntry(all[k]))
    ensures At(buf, pos + |EncodeEntry(all[k])|, EncodeEntries(all[k + 1..]) + [LOWER_E])
  {
    assert all[k..][1..] == all[k + 1..];
    var head, rest := EncodeEntry(all[k]), EncodeEntries(all[k + 1..]);
    assert EncodeEntries(all[k..]) + [LOWER_E] == head + (rest + [LOWER_E]);
    AtSplit(buf, pos, head, rest + [LOWER_E]);
  }

  lemma EntriesEnd(buf: seq<Byte>, pos: nat, all: seq<Entry>)
    requires At(buf, pos, EncodeEntries(all[|all|..]) + [LOWER_E])
    ensures |EncodeEntries(all[|all|..])| == 0
    ensures DictReads(buf, pos, all[..|all|], all, pos + 1)
  {
    Closing(buf, pos, EncodeEntries(all[|all|..]));
    assert all[..|all|] == all;
  }

  lemma InsertNext(all: seq<Entry>, k: nat)
    requires Sorted(all) && k < |all|
    ensures Insert(all[..k], all[k]) == all[..k + 1]
  {
    assert all[..k] + [all[k]] == all[..k + 1];
  }

  lemma {:induction false} EntriesRoundTrip(buf: seq<Byte>, pos: nat, all: seq<Entry>, k: nat)
    requires ValidEntries(all) && k <= |all|
    requires At(buf, pos, EncodeEntries(all[k..]) + [LOWER_E]) && pos + |EncodeEntries(all[k..])| <= U64_MAX
    ensures DictReads(buf, pos, all[..k], all, pos + |EncodeEntries(all[k..])| + 1)
    decreases all, 1, |all| - k
  {
    if k == |all| {
      EntriesEnd(buf, pos, all);
    } else {
      EntriesFrom(buf, pos, all, k);
      EntriesRoundTrip(buf, pos + |EncodeEntry(all[k])|, all, k + 1);
      InsertNext(all, k);
      EntriesStep(buf, pos, all[..k], all[k], all, pos + |EncodeEntries(all[k..])| + 1);
    }
  }

  lemma {:induction false} EntriesStep(buf: seq<Byte>, pos: nat, acc: seq<Entry>, e: Entry, all: seq<Entry>, end: nat)
    requires Valid(e.val) && At(buf, pos, EncodeEntry(e)) && pos + |EncodeEntry(e)| <= U64_MAX
    requires DictReads(buf, pos + |EncodeEntry(e)|, Insert(acc, e), all, end)
    ensures DictReads(buf, pos, acc, all, end)
    decreases e, 1
  {
    var mid, next := EntryRoundTrip(buf, pos, e);
    EntryReads(buf, pos, mid, next, acc, e, all, end);
  }

  lemma EntryKey(buf: seq<Byte>, pos: nat, e: Entry)
    requires At(buf, pos, EncodeEntry(e)) && pos + |EncodeEntry(e)| <= U64_MAX
    ensures pos < |buf| && buf[pos] != LOWER_E
    ensures ParseValue(buf, pos) == Ok(Bytes(e.key), pos + |EncodeBytes(e.key)|)
    ensures At(buf, pos + |EncodeBytes(e.key)|, Encode(e.val))
  {
    AtSplit(buf, pos, EncodeBytes(e.key), Encode(e.val));
    NotClosed(buf, pos, Bytes(e.key));
    ParseShownBytes(buf, pos, e.key);
  }

  lemma {:induction false} EntryRoundTrip(buf: seq<Byte>, pos: nat, e: Entry) returns (mid: nat, next: nat)
    requires Valid(e.val) && At(buf, pos, EncodeEntry(e)) && pos + |EncodeEntry(e)| <= U64_MAX
    ensures next == pos + |EncodeEntry(e)|
    ensures pos < |buf| && buf[pos] != LOWER_E && mid <= |buf|
    ensures ParseValue(buf, pos) == Ok(Bytes(e.key), mid)
    ensures ParseValue(buf, mid) == Ok(e.val, next)
    decreases e, 0
  {
    mid, next := pos + |EncodeBytes(e.key)|, pos + |EncodeEntry(e)|;
    EntryKey(buf, pos, e);
    RoundTripAt(buf, mid, e.val);
  }

  /** A key and a value in place extend the entries read. */
  lemma EntryReads(buf: seq<Byte>, pos: nat, mid: nat, next: nat, acc: seq<Entry>, e: Entry, all: seq<Entry>, end: nat)
    requires pos < |buf| && buf[pos] != LOWER_E && mid <= |buf|
    requires ParseValue(buf, pos) == Ok(Bytes(e.key), mid) && ParseValue(buf, mid) == Ok(e.val, next)
    requires DictReads(buf, next, Insert(acc, e), all, end)
    ensures DictReads(buf, pos, acc, all, end)
  {
  }

  /** Decoding what was encoded gives the value back and consumes exactly its bytes, whatever follows. */
  lemma RoundTrip(v: Value, suffix: seq<Byte>)
    requires Valid(v) && |Encode(v)| <= U64_MAX
    ensures ParseValue(Encode(v) + suffix, 0) == Ok(v, |Encode(v)|)
  {
    assert (Encode(v) + suffix)[0..0 + |Encode(v)|] == Encode(v);
    RoundTripAt(Encode(v) + suffix, 0, v);
  }

  /** Two values with the same bytes are the same value. */
  lemma EncodeInjective(v: Value, w: Value)
    requires Valid(v) && Valid(w) && |Encode(v)| <= U64_MAX && Encode(v) == Encode(w)
    ensures v == w
  {
    RoundTrip(v, []);
    RoundTrip(w, []);
  }

  /** No encoding is a proper prefix of another: a stream of messages parses one way only. */
  lemma PrefixFree(v: Value, w: Value, suffix: seq<Byte>)
    requires Valid(v) && Valid(w) && |Encode(v)| <= U64_MAX && |Encode(w)| <= U64_MAX
    requires Encode(w) == Encode(v) + suffix
    ensures v == w && suffix == []
  {
    RoundTrip(v, suffix);
    RoundTrip(w, []);
    assert Encode(w) + [] == Encode(w);
  }

  // ---- Decoded dictionaries are sorted ----

  lemma {:induction false} LessTotal(a: seq<Byte>, b: seq<Byte>)
    ensures Less(a, b) || a == b || Less(b, a)
    decreases |a|
  {
    if a != [] && b != [] {
      LessTotal(a[1..], b[1..]);
      assert a == [a[0]] + a[1..] && b == [b[0]] + b[1..];
    }
  }

  lemma {:induction false} LessTransitive(a: seq<Byte>, b: seq<Byte>, c: seq<Byte>)
    requires Less(a, b) && Less(b, c)
    ensures Less(a, c)
    decreases |a|
  {
    if a != [] && a[0] == b[0] && b[0] == c[0] {
      LessTransitive(a[1..], b[1..], c[1..]);
    }
  }

  /** Every entry after an insertion comes from the map or is the new one. */
  lemma {:induction false} InsertFrom(entries: seq<Entry>, e: Entry)
    ensures forall x :: x in Insert(entries, e) ==> x in entries || x == e
  {
    if entries != [] {
      InsertFrom(entries[..|entries| - 1], e);
    }
  }

  lemma SortedSnoc(front: seq<Entry>, last: Entry)
    requires Sorted(front) && forall x :: x in front ==> Less(x.key, last.key)
    ensures Sorted(front + [last])
  {
  }

  /** Insertion keeps a map sorted. */
  lemma {:induction false} InsertSorted(entries: seq<Entry>, e: Entry)
    requires Sorted(entries)
    ensures Sorted(Insert(entries, e))
  {
    if entries != [] {
      var n := |entries| - 1;
      var last, init := entries[n], entries[..n];
      if Less(last.key, e.key) {
        forall x | x in entries ensures Less(x.key, e.key) {
          if x != last {
            LessTransitive(x.key, last.key, e.key);
          }
        }
        SortedSnoc(entries, e);
      } else if last.key == e.key {
        SortedSnoc(init, e);
      } else {
        InsertSorted(init, e);
        InsertFrom(init, e);
        LessTotal(last.key, e.key);
        SortedSnoc(Insert(init, e), last);
      }
    }
  }

  /** And keeps its values valid, adding nothing but the new entry. */
  lemma InsertValid(entries: seq<Entry>, e: Entry)
    requires ValidEntries(entries) && Valid(e.val)
    ensures ValidEntries(Insert(entries, e))
    ensures forall x :: x in Insert(entries, e) ==> x in entries || x == e
  {
    InsertSorted(entries, e);
    InsertFrom(entries, e);
    var out := Insert(entries, e);
    forall i | 0 <= i < |out| ensures Valid(out[i].val) {
      assert out[i] in out;
    }
  }

  function Find(entries: seq<Entry>, key: seq<Byte>): Option<Value> {
    if entries == [] then None
    else if entries[|entries| - 1].key == key then Some(entries[|entries| - 1].val)
    else Find(entries[..|entries| - 1], key)
  }

  /** Insertion is the map update: the new key finds the new value, every other key what it found before. */
  lemma {:induction false} InsertUpdates(entries: seq<Entry>, e: Entry, key: seq<Byte>)
    requires Sorted(entries)
    ensures Find(Insert(entries, e), key) == if key == e.key then Some(e.val) else Find(entries, key)
  {
    if entries != [] {
      var n := |entries| - 1;
      var init := entries[..n];
      if Less(entries[n].key, e.key) {
        assert (entries + [e])[..n + 1] == entries;
      } else if entries[n].key == e.key {
        assert (init + [e])[..n] == init;
      } else {
        InsertUpdates(init, e, key);
        var ins := Insert(init, e);
        assert (ins + [entries[n]])[..|ins|] == ins;
      }
    } else {
      assert [e][..0] == [];
    }
  }

  lemma {:induction false} ParseValid(buf: seq<Byte>, pos: nat)
    requires pos <= |buf| && ParseValue(buf, pos).Ok?
    ensures Valid(ParseValue(buf, pos).v)
    decreases |buf| - pos, 0
  {
    if buf[pos] == LOWER_L {
      ItemsValid(buf, pos + 1, []);
    } else if buf[pos] == LOWER_D {
      EntriesValid(buf, pos + 1, []);
    }
  }

  lemma {:induction false} ItemsValid(buf: seq<Byte>, pos: nat, items: seq<Value>)
    requires pos <= |buf| && ParseItems(buf, pos, items).Ok?
    requires Valid(List(items))
    ensures Valid(ParseItems(buf, pos, items).v)
    decreases |buf| - pos, 1
  {
    if !(pos < |buf| && buf[pos] == LOWER_E) {
      ParseValid(buf, pos);
      var r := ParseValue(buf, pos);
      ItemsValid(buf, r.pos, items + [r.v]);
    }
  }

  lemma {:induction false} EntriesValid(buf: seq<Byte>, pos: nat, entries: seq<Entry>)
    requires pos <= |buf| && ParseEntries(buf, pos, entries).Ok?
    requires ValidEntries(entries)
    ensures Valid(ParseEntries(buf, pos, entries).v)
    decreases |buf| - pos, 1
  {
    if !(pos < |buf| && buf[pos] == LOWER_E) {
      var k := ParseValue(buf, pos);
      var r := ParseValue(buf, k.pos);
      ParseValid(buf, k.pos);
      InsertValid(entries, Entry(k.v.b, r.v));
      EntriesValid(buf, r.pos, Insert(entries, Entry(k.v.b, r.v)));
    }
  }

  /** However lenient the input, what comes out re-encodes to bytes that decode to the same value. */
  lemma Normalises(buf: seq<Byte>)
    requires ParseValue(buf, 0).Ok? && |Encode(ParseValue(buf, 0).v)| <= U64_MAX
    ensures var v := ParseValue(buf, 0).v;
      ParseValue(Encode(v), 0) == Ok(v, |Encode(v)|)
  {
    ParseValid(buf, 0);
    var v := ParseValue(buf, 0).v;
    RoundTrip(v, []);
    assert Encode(v) + [] == Encode(v);
  }
}
