/**
 When "need more bytes" is the truth. The decoder answers `Incomplete` whenever
 the buffer ends early, also where no continuation can be a value: a number
 already out of range, or a dictionary key that is not a byte string.
 */
module BencodeViable {
  import opened Common
  import opened Decimal
  import opened Bencode
  import opened BencodeLaws

  function Zeros(n: nat): seq<Byte> {
    seq(n, i => 0)
  }

  /** Bytes that finish the token cut off at the end of the buffer, when some do. */
  function CompleteInt(buf: seq<Byte>, pos: nat): Option<seq<Byte>>
    requires pos < |buf| && ParseInt(buf, pos).Incomplete?
  {
    var negative := pos + 1 < |buf| && buf[pos + 1] == MINUS;
    var digits := if negative then pos + 2 else pos + 1;
    RunsToEnd(buf, digits, LOWER_E);
    if digits == |buf| then Some([ZERO, LOWER_E])
    else
      var n: int := Decimal.Value(DigitsIn(buf[digits..]));
      if I64_MIN <= (if negative then -n else n) <= I64_MAX then Some([LOWER_E]) else None
  }

  function CompleteBytes(buf: seq<Byte>, pos: nat): Option<seq<Byte>>
    requires pos < |buf| && IsDigit(buf[pos]) && ParseBytes(buf, pos).Incomplete?
  {
    var s := ScanDigits(buf, pos, COLON);
    if s.Stop? then
      Some(Zeros(s.at + 1 + Decimal.Value(DigitsIn(buf[pos..s.at])) - |buf|))
    else
      RunsToEnd(buf, pos, COLON);
      var len := Decimal.Value(DigitsIn(buf[pos..]));
      if |buf| + 1 + len <= U64_MAX then Some([COLON] + Zeros(len)) else None
  }

  function Close(inner: Option<seq<Byte>>, tail: seq<Byte>): Option<seq<Byte>> {
    if inner.Some? then Some(inner.value + tail) else None
  }

  function Complete(buf: seq<Byte>, pos: nat): Option<seq<Byte>>
    requires pos <= |buf| && ParseValue(buf, pos).Incomplete?
    decreases |buf| - pos, 0
  {
    if pos == |buf| then Some([LOWER_I, ZERO, LOWER_E])
    else if buf[pos] == LOWER_I then CompleteInt(buf, pos)
    else if buf[pos] == LOWER_L then CompleteItems(buf, pos + 1, [])
    else if buf[pos] == LOWER_D then CompleteEntries(buf, pos + 1, [])
    else CompleteBytes(buf, pos)
  }

  function CompleteItems(buf: seq<Byte>, pos: nat, items: seq<Value>): Option<seq<Byte>>
    requires pos <= |buf| && ParseItems(buf, pos, items).Incomplete?
    decreases |buf| - pos, 1
  {
    if pos == |buf| then Some([LOWER_E])
    else
      var r := ParseValue(buf, pos);
      if r.Ok? then CompleteItems(buf, r.pos, items + [r.v])
      else Close(Complete(buf, pos), [LOWER_E])
  }

  function CompleteEntries(buf: seq<Byte>, pos: nat, entries: seq<Entry>): Option<seq<Byte>>
    requires pos <= |buf| && ParseEntries(buf, pos, entries).Incomplete?
    decreases |buf| - pos, 1
  {
    if pos == |buf| then Some([LOWER_E])
    else
      var k := ParseValue(buf, pos);
      if !k.Ok? then
        if IsDigit(buf[pos]) then Close(Complete(buf, pos), [LOWER_I, ZERO, LOWER_E, LOWER_E]) else None
      else
        var r := ParseValue(buf, k.pos);
        if r.Ok? then CompleteEntries(buf, r.pos, Insert(entries, Entry(k.v.b, r.v)))
        else Close(Complete(buf, k.pos), [LOWER_E])
  }

  lemma {:induction false} RunsToEnd(buf: seq<Byte>, k: nat, stop: Byte)
    requires k <= |buf| && ScanDigits(buf, k, stop).RunsOut?
    ensures DigitRun(buf[k..])
    decreases |buf| - k
  {
    if k < |buf| {
      RunsToEnd(buf, k + 1, stop);
      assert buf[k..] == [buf[k]] + buf[k + 1..];
    }
  }

  // ---- A completion completes ----

  lemma IntCompleted(buf: seq<Byte>, pos: nat)
    requires pos < |buf| && buf[pos] == LOWER_I && ParseInt(buf, pos).Incomplete? && CompleteInt(buf, pos).Some?
    ensures var all := buf + CompleteInt(buf, pos).value;
      ParseInt(all, pos).Ok? && ParseInt(all, pos).pos == |all|
  {
    var negative := pos + 1 < |buf| && buf[pos + 1] == MINUS;
    var digits := if negative then pos + 2 else pos + 1;
    RunsToEnd(buf, digits, LOWER_E);
    var all := buf + CompleteInt(buf, pos).value;
    var n := |all| - 1 - digits;
    if digits == |buf| {
      assert all[digits..digits + n] == [ZERO];
      assert DigitsIn(all[digits..digits + n]) == [0];
      assert [0 as Digit][..0] == [];
      assert Decimal.Value([0]) == 0;
    } else {
      assert all[digits..digits + n] == buf[digits..];
    }
    ScanHits(all, digits, n, LOWER_E);
  }

  lemma BytesCompleted(buf: seq<Byte>, pos: nat)
    requires pos < |buf| && IsDigit(buf[pos]) && ParseBytes(buf, pos).Incomplete? && CompleteBytes(buf, pos).Some?
    ensures var all := buf + CompleteBytes(buf, pos).value;
      ParseBytes(all, pos).Ok? && ParseBytes(all, pos).pos == |all|
  {
    var ext := CompleteBytes(buf, pos).value;
    var all := buf + ext;
    var s := ScanDigits(buf, pos, COLON);
    if s.Stop? {
      ScanStable(buf, ext, pos, COLON);
      assert all[pos..s.at] == buf[pos..s.at];
    } else {
      RunsToEnd(buf, pos, COLON);
      assert all[pos..|buf|] == buf[pos..];
      ScanHits(all, pos, |buf| - pos, COLON);
    }
  }

  lemma {:induction false} ValueCompleted(buf: seq<Byte>, pos: nat)
    requires pos <= |buf| && ParseValue(buf, pos).Incomplete? && Complete(buf, pos).Some?
    ensures var all := buf + Complete(buf, pos).value;
      ParseValue(all, pos).Ok? && ParseValue(all, pos).pos == |all|
    decreases |buf| - pos, 0
  {
    if pos == |buf| {
      EmptyCompleted(buf);
    } else if buf[pos] == LOWER_I {
      IntCompleted(buf, pos);
    } else if buf[pos] == LOWER_L {
      ItemsCompleted(buf, pos + 1, []);
    } else if buf[pos] == LOWER_D {
      EntriesCompleted(buf, pos + 1, []);
    } else {
      BytesCompleted(buf, pos);
    }
  }

  /** Any value does at the end of the buffer; zero is the shortest. */
  lemma EmptyCompleted(buf: seq<Byte>)
    ensures var all := buf + [LOWER_I, ZERO, LOWER_E];
      ParseValue(all, |buf|) == Ok(Int(0), |all|)
  {
    var all := buf + [LOWER_I, ZERO, LOWER_E];
    assert all[|buf| + 1..|buf| + 2] == [ZERO];
    ScanHits(all, |buf| + 1, 1, LOWER_E);
    assert DigitsIn([ZERO]) == [0];
    assert [0 as Digit][..0] == [];
    assert Decimal.Value([0]) == 0;
  }

  lemma {:induction false} ItemsCompleted(buf: seq<Byte>, pos: nat, items: seq<Value>)
    requires pos <= |buf| && ParseItems(buf, pos, items).Incomplete? && CompleteItems(buf, pos, items).Some?
    ensures var all := buf + CompleteItems(buf, pos, items).value;
      ParseItems(all, pos, items).Ok? && ParseItems(all, pos, items).pos == |all|
    decreases |buf| - pos, 1
  {
    var ext := CompleteItems(buf, pos, items).value;
    if pos < |buf| {
      var r := ParseValue(buf, pos);
      if r.Ok? {
        ParseStable(buf, ext, pos);
        ItemsCompleted(buf, r.pos, items + [r.v]);
      } else {
        ValueCompleted(buf, pos);
        var c := Complete(buf, pos).value;
        ParseStable(buf + c, [LOWER_E], pos);
        assert buf + c + [LOWER_E] == buf + ext;
      }
    }
  }

  lemma {:induction false} EntriesCompleted(buf: seq<Byte>, pos: nat, entries: seq<Entry>)
    requires pos <= |buf| && ParseEntries(buf, pos, entries).Incomplete?
    requires CompleteEntries(buf, pos, entries).Some?
    ensures var all := buf + CompleteEntries(buf, pos, entries).value;
      ParseEntries(all, pos, entries).Ok? && ParseEntries(all, pos, entries).pos == |all|
    decreases |buf| - pos, 1
  {
    var ext := CompleteEntries(buf, pos, entries).value;
    if pos < |buf| {
      var k := ParseValue(buf, pos);
      if !k.Ok? {
        KeyCompleted(buf, pos, entries);
      } else {
        ParseStable(buf, ext, pos);
        var r := ParseValue(buf, k.pos);
        if r.Ok? {
          ParseStable(buf, ext, k.pos);
          EntriesCompleted(buf, r.pos, Insert(entries, Entry(k.v.b, r.v)));
        } else {
          ValueCompleted(buf, k.pos);
          var c := Complete(buf, k.pos).value;
          ParseStable(buf + c, [LOWER_E], k.pos);
          assert buf + c + [LOWER_E] == buf + ext;
        }
      }
    }
  }

  /** After a finished key, a zero and the closing byte finish the dictionary. */
  lemma PairCompleted(key: seq<Byte>, pos: nat, entries: seq<Entry>)
    requires pos < |key| && key[pos] != LOWER_E
    requires ParseValue(key, pos).Ok? && ParseValue(key, pos).v.Bytes? && ParseValue(key, pos).pos == |key|
    ensures var all := key + [LOWER_I, ZERO, LOWER_E] + [LOWER_E];
      ParseEntries(all, pos, entries).Ok? && ParseEntries(all, pos, entries).pos == |all|
  {
    var pair := key + [LOWER_I, ZERO, LOWER_E];
    EmptyCompleted(key);
    ParseStable(key, [LOWER_I, ZERO, LOWER_E], pos);
    ParseStable(pair, [LOWER_E], pos);
    ParseStable(pair, [LOWER_E], |key|);
  }

  lemma {:induction false} KeyCompleted(buf: seq<Byte>, pos: nat, entries: seq<Entry>)
    requires pos < |buf| && IsDigit(buf[pos]) && ParseValue(buf, pos).Incomplete? && Complete(buf, pos).Some?
    ensures var all := buf + (Complete(buf, pos).value + [LOWER_I, ZERO, LOWER_E, LOWER_E]);
      ParseEntries(all, pos, entries).Ok? && ParseEntries(all, pos, entries).pos == |all|
    decreases |buf| - pos, 0
  {
    BytesCompleted(buf, pos);
    var ext := Complete(buf, pos).value;
    PairCompleted(buf + ext, pos, entries);
    assert buf + ext + [LOWER_I, ZERO, LOWER_E] + [LOWER_E] == buf + (ext + [LOWER_I, ZERO, LOWER_E, LOWER_E]);
  }

  // ---- Without a completion nothing helps ----

  lemma {:induction false} ValueGrows(a: seq<Digit>, b: seq<Digit>)
    ensures Decimal.Value(a + b) >= Decimal.Value(a)
    decreases |b|
  {
    if b == [] {
      assert a + b == a;
    } else {
      ValueGrows(a, b[..|b| - 1]);
      assert (a + b)[..|a + b| - 1] == a + b[..|b| - 1];
    }
  }

  /** A run of digits that reached the end can only get longer. */
  lemma {:induction false} ScanExtends(buf: seq<Byte>, ext: seq<Byte>, k: nat, stop: Byte)
    requires k <= |buf| && ScanDigits(buf, k, stop).RunsOut?
    ensures var s := ScanDigits(buf + ext, k, stop);
      s.Stop? ==> s.at >= |buf|
    decreases |buf| - k
  {
    if k < |buf| {
      ScanExtends(buf, ext, k + 1, stop);
    }
  }

  lemma LongerNumber(buf: seq<Byte>, ext: seq<Byte>, k: nat, stop: Byte)
    requires k <= |buf| && ScanDigits(buf, k, stop).RunsOut? && DigitRun(buf[k..])
    ensures var s := ScanDigits(buf + ext, k, stop);
      s.Stop? ==> (
        && s.at >= |buf|
        && Decimal.Value(DigitsIn((buf + ext)[k..s.at])) >= Decimal.Value(DigitsIn(buf[k..])))
  {
    ScanExtends(buf, ext, k, stop);
    var all := buf + ext;
    var s := ScanDigits(all, k, stop);
    if s.Stop? {
      var grown := DigitsIn(all[k..s.at]);
      assert grown == DigitsIn(buf[k..]) + grown[|buf| - k..];
      ValueGrows(DigitsIn(buf[k..]), grown[|buf| - k..]);
    }
  }

  lemma {:induction false} ValueHopeless(buf: seq<Byte>, pos: nat, ext: seq<Byte>)
    requires pos <= |buf| && ParseValue(buf, pos).Incomplete? && Complete(buf, pos).None?
    ensures !ParseValue(buf + ext, pos).Ok?
    decreases |buf| - pos, 0
  {
    if buf[pos] == LOWER_I {
      IntHopeless(buf, pos, ext);
    } else if buf[pos] == LOWER_L {
      ItemsHopeless(buf, pos + 1, [], ext);
    } else if buf[pos] == LOWER_D {
      EntriesHopeless(buf, pos + 1, [], ext);
    } else {
      BytesHopeless(buf, pos, ext);
    }
  }

  lemma IntHopeless(buf: seq<Byte>, pos: nat, ext: seq<Byte>)
    requires pos < |buf| && ParseInt(buf, pos).Incomplete? && CompleteInt(buf, pos).None?
    ensures !ParseInt(buf + ext, pos).Ok?
  {
    var digits := if pos + 1 < |buf| && buf[pos + 1] == MINUS then pos + 2 else pos + 1;
    RunsToEnd(buf, digits, LOWER_E);
    LongerNumber(buf, ext, digits, LOWER_E);
  }

  lemma BytesHopeless(buf: seq<Byte>, pos: nat, ext: seq<Byte>)
    requires pos < |buf| && IsDigit(buf[pos]) && ParseBytes(buf, pos).Incomplete? && CompleteBytes(buf, pos).None?
    ensures !ParseBytes(buf + ext, pos).Ok?
  {
    RunsToEnd(buf, pos, COLON);
    LongerNumber(buf, ext, pos, COLON);
  }

  lemma {:induction false} ItemsHopeless(buf: seq<Byte>, pos: nat, items: seq<Value>, ext: seq<Byte>)
    requires pos <= |buf| && ParseItems(buf, pos, items).Incomplete? && CompleteItems(buf, pos, items).None?
    ensures !ParseItems(buf + ext, pos, items).Ok?
    decreases |buf| - pos, 1
  {
    var r := ParseValue(buf, pos);
    if r.Ok? {
      ParseStable(buf, ext, pos);
      ItemsHopeless(buf, r.pos, items + [r.v], ext);
    } else {
      ValueHopeless(buf, pos, ext);
    }
  }

  /** A value whose first byte is not a digit is not a byte string. */
  lemma NotBytes(buf: seq<Byte>, pos: nat)
    requires pos < |buf| && !IsDigit(buf[pos]) && ParseValue(buf, pos).Ok?
    ensures !ParseValue(buf, pos).v.Bytes?
  {
    if buf[pos] == LOWER_L {
      ItemsGiveList(buf, pos + 1, []);
    } else if buf[pos] == LOWER_D {
      EntriesGiveDict(buf, pos + 1, []);
    }
  }

  lemma {:induction false} ItemsGiveList(buf: seq<Byte>, pos: nat, items: seq<Value>)
    requires pos <= |buf| && ParseItems(buf, pos, items).Ok?
    ensures ParseItems(buf, pos, items).v.List?
    decreases |buf| - pos
  {
    if !(pos < |buf| && buf[pos] == LOWER_E) {
      var r := ParseValue(buf, pos);
      ItemsGiveList(buf, r.pos, items + [r.v]);
    }
  }

  lemma {:induction false} EntriesGiveDict(buf: seq<Byte>, pos: nat, entries: seq<Entry>)
    requires pos <= |buf| && ParseEntries(buf, pos, entries).Ok?
    ensures ParseEntries(buf, pos, entries).v.Dict?
    decreases |buf| - pos
  {
    if !(pos < |buf| && buf[pos] == LOWER_E) {
      var k := ParseValue(buf, pos);
      var r := ParseValue(buf, k.pos);
      EntriesGiveDict(buf, r.pos, Insert(entries, Entry(k.v.b, r.v)));
    }
  }

  lemma {:induction false} EntriesHopeless(buf: seq<Byte>, pos: nat, entries: seq<Entry>, ext: seq<Byte>)
    requires pos <= |buf| && ParseEntries(buf, pos, entries).Incomplete?
    requires CompleteEntries(buf, pos, entries).None?
    ensures !ParseEntries(buf + ext, pos, entries).Ok?
    decreases |buf| - pos, 1
  {
    var k := ParseValue(buf, pos);
    if k.Ok? {
      ParseStable(buf, ext, pos);
      var r := ParseValue(buf, k.pos);
      if r.Ok? {
        ParseStable(buf, ext, k.pos);
        EntriesHopeless(buf, r.pos, Insert(entries, Entry(k.v.b, r.v)), ext);
      } else {
        ValueHopeless(buf, k.pos, ext);
      }
    } else if IsDigit(buf[pos]) {
      ValueHopeless(buf, pos, ext);
    } else if ParseValue(buf + ext, pos).Ok? {
      NotBytes(buf + ext, pos);
    }
  }

  /** "Need more bytes" can be satisfied exactly when the cut-off token can be finished. */
  lemma IncompleteIsPrefix(buf: seq<Byte>)
    requires ParseValue(buf, 0).Incomplete?
    ensures Complete(buf, 0).Some? <==> exists ext: seq<Byte> :: ParseValue(buf + ext, 0).Ok?
  {
    if Complete(buf, 0).Some? {
      ValueCompleted(buf, 0);
    } else {
      forall ext: seq<Byte> ensures !ParseValue(buf + ext, 0).Ok? {
        ValueHopeless(buf, 0, ext);
      }
    }
  }

  /** `di`: an integer where a key belongs. The decoder waits, and waits in vain. */
  lemma WaitsInVain(ext: seq<Byte>)
    ensures ParseValue([LOWER_D, LOWER_I], 0) == Incomplete
    ensures !ParseValue([LOWER_D, LOWER_I] + ext, 0).Ok?
  {
    var buf := [LOWER_D, LOWER_I];
    assert ScanDigits(buf, 2, LOWER_E) == RunsOut;
    assert ParseInt(buf, 1) == Incomplete;
    assert ParseValue(buf, 1) == Incomplete;
    assert ParseEntries(buf, 1, []) == Incomplete;
    EntriesHopeless(buf, 1, [], ext);
  }
}
