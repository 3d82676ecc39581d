/**
 The bencode codec: an encoder that appends to a buffer, and an incremental
 decoder that tells "need more bytes" from malformed input. It follows the
 bencoding section of BEP 3 but accepts more: `i-0e`, leading zeros, and unsorted
 or repeated dictionary keys.
 */
module Bencode {
  import opened Common
  import opened Decimal

  type Byte = b: int | 0 <= b < 256

  /** A dictionary lists its entries in key order, as a sorted map iterates. */
  datatype Value = Int(i: I64) | Bytes(b: seq<Byte>) | List(items: seq<Value>) | Dict(entries: seq<Entry>)
  datatype Entry = Entry(key: seq<Byte>, val: Value)

  const LOWER_I: Byte := 105
  const LOWER_L: Byte := 108
  const LOWER_D: Byte := 100
  const LOWER_E: Byte := 101
  const COLON: Byte := 58
  const MINUS: Byte := 45
  const ZERO: Byte := 48
  const NINE: Byte := 57

  // ---- Key order ----

  predicate Less(a: seq<Byte>, b: seq<Byte>) {
    if b == [] then false
    else if a == [] then true
    else a[0] < b[0] || (a[0] == b[0] && Less(a[1..], b[1..]))
  }

  ghost predicate Sorted(entries: seq<Entry>) {
    forall i, j :: 0 <= i < j < |entries| ==> Less(entries[i].key, entries[j].key)
  }

  /** Insertion into a sorted map; an equal key is overwritten. */
  function Insert(entries: seq<Entry>, e: Entry): seq<Entry> {
    if entries == [] then [e]
    else
      var n := |entries| - 1;
      if Less(entries[n].key, e.key) then entries + [e]
      else if entries[n].key == e.key then entries[..n] + [e]
      else Insert(entries[..n], e) + [entries[n]]
  }

  // ---- Encoding ----

  function Ascii(ds: seq<Digit>): seq<Byte> {
    seq(|ds|, i requires 0 <= i < |ds| => ZERO + ds[i])
  }

  function ShowNat(n: nat): seq<Byte> {
    Ascii(Digits(n))
  }

  function ShowInt(i: int): seq<Byte> {
    if i < 0 then [MINUS] + ShowNat(-i) else ShowNat(i)
  }

  function EncodeBytes(b: seq<Byte>): seq<Byte> {
    ShowNat(|b|) + [COLON] + b
  }

  function Encode(v: Value): seq<Byte>
    decreases v, 1
  {
    match v
    case Int(i) => [LOWER_I] + ShowInt(i) + [LOWER_E]
    case Bytes(b) => EncodeBytes(b)
    case List(items) => [LOWER_L] + EncodeItems(items) + [LOWER_E]
    case Dict(entries) => [LOWER_D] + EncodeEntries(entries) + [LOWER_E]
  }

  function EncodeItems(items: seq<Value>): seq<Byte>
    decreases items, 0
  {
    if items == [] then [] else Encode(items[0]) + EncodeItems(items[1..])
  }

  function EncodeEntries(entries: seq<Entry>): seq<Byte>
    decreases entries, 0
  {
    if entries == [] then []
    else EncodeEntry(entries[0]) + EncodeEntries(entries[1..])
  }

  function EncodeEntry(e: Entry): seq<Byte>
    decreases e, 0
  {
    EncodeBytes(e.key) + Encode(e.val)
  }

  lemma ItemsFrom(items: seq<Value>, k: nat, out: seq<Byte>)
    requires k < |items|
    ensures out + EncodeItems(items[k..]) == out + Encode(items[k]) + EncodeItems(items[k + 1..])
  {
    assert items[k..][1..] == items[k + 1..];
  }

  lemma EntriesFrom(entries: seq<Entry>, k: nat, out: seq<Byte>)
    requires k < |entries|
    ensures out + EncodeEntries(entries[k..]) == out + EncodeEntry(entries[k]) + EncodeEntries(entries[k + 1..])
  {
    assert entries[k..][1..] == entries[k + 1..];
  }

  method EncodeTo(v: Value, out: seq<Byte>) returns (out': seq<Byte>)
    ensures out' == out + Encode(v)
    decreases v, 1
  {
    match v {
      case Int(i) =>
        out' := out + [LOWER_I];
        out' := out' + ShowInt(i);
        out' := out' + [LOWER_E];
      case Bytes(b) =>
        out' := out + ShowNat(|b|);
        out' := out' + [COLON];
        out' := out' + b;
      case List(items) =>
        out' := EncodeItemsTo(items, out + [LOWER_L]);
        out' := out' + [LOWER_E];
      case Dict(entries) =>
        out' := EncodeEntriesTo(entries, out + [LOWER_D]);
        out' := out' + [LOWER_E];
    }
  }

  method EncodeItemsTo(items: seq<Value>, out: seq<Byte>) returns (out': seq<Byte>)
    ensures out' == out + EncodeItems(items)
    decreases items, 0
  {
    out' := out;
    for k := 0 to |items|
      invariant out' + EncodeItems(items[k..]) == out + EncodeItems(items)
    {
      ItemsFrom(items, k, out');
      out' := EncodeTo(items[k], out');
    }
  }

  method EncodeEntriesTo(entries: seq<Entry>, out: seq<Byte>) returns (out': seq<Byte>)
    ensures out' == out + EncodeEntries(entries)
    decreases entries, 0
  {
    out' := out;
    for k := 0 to |entries|
      invariant out' + EncodeEntries(entries[k..]) == out + EncodeEntries(entries)
    {
      EntriesFrom(entries, k, out');
      out' := EncodeEntryTo(entries[k], out');
    }
  }

  method EncodeEntryTo(e: Entry, out: seq<Byte>) returns (out': seq<Byte>)
    ensures out' == out + EncodeEntry(e)
    decreases e, 0
  {
    out' := out + EncodeBytes(e.key);
    out' := EncodeTo(e.val, out');
  }

  // ---- Decoding ----

  datatype Parse = Ok(v: Value, pos: nat) | Incomplete | Invalid(msg: string)

  predicate IsDigit(b: Byte) {
    ZERO <= b <= NINE
  }

  predicate DigitRun(s: seq<Byte>) {
    forall i :: 0 <= i < |s| ==> IsDigit(s[i])
  }

  function DigitsIn(s: seq<Byte>): seq<Digit>
    requires DigitRun(s)
  {
    seq(|s|, i requires 0 <= i < |s| => s[i] - ZERO)
  }

  /** The end of a run of digits closed by `stop`. */
  datatype Scan = Stop(at: nat) | RunsOut | NonDigit

  function ScanDigits(buf: seq<Byte>, k: nat, stop: Byte): (r: Scan)
    requires k <= |buf|
    ensures r.Stop? ==> k <= r.at < |buf| && buf[r.at] == stop && DigitRun(buf[k..r.at])
    decreases |buf| - k
  {
    if k == |buf| then RunsOut
    else if buf[k] == stop then Stop(k)
    else if IsDigit(buf[k]) then
      var r := ScanDigits(buf, k + 1, stop);
      assert r.Stop? ==> buf[k..r.at] == [buf[k]] + buf[k + 1..r.at];
      r
    else NonDigit
  }

  function ParseInt(buf: seq<Byte>, pos: nat): (r: Parse)
    requires pos < |buf|
    ensures r.Ok? ==> pos < r.pos <= |buf|
  {
    var start := pos + 1;
    var negative := start < |buf| && buf[start] == MINUS;
    var digits := if negative then start + 1 else start;
    match ScanDigits(buf, digits, LOWER_E)
    case RunsOut => Incomplete
    case NonDigit => Invalid("non-digit in integer")
    case Stop(end) =>
      var n: int := Decimal.Value(DigitsIn(buf[digits..end]));
      var i: int := if negative then -n else n;
      if end == digits || i < I64_MIN || i > I64_MAX then Invalid("integer out of range or empty")
      else Ok(Int(i), end + 1)
  }

  function ParseBytes(buf: seq<Byte>, pos: nat): (r: Parse)
    requires pos < |buf| && IsDigit(buf[pos])
    ensures r.Ok? ==> pos < r.pos <= |buf| && r.v.Bytes?
  {
    match ScanDigits(buf, pos, COLON)
    case RunsOut => Incomplete
    case NonDigit => Invalid("non-digit in string length")
    case Stop(colon) =>
      var len := Decimal.Value(DigitsIn(buf[pos..colon]));
      if len > U64_MAX then Invalid("bad string length")
      else if colon + 1 + len > U64_MAX then Invalid("string length overflow")
      else if |buf| < colon + 1 + len then Incomplete
      else Ok(Bytes(buf[colon + 1..colon + 1 + len]), colon + 1 + len)
  }

  function ParseValue(buf: seq<Byte>, pos: nat): (r: Parse)
    requires pos <= |buf|
    ensures r.Ok? ==> pos < r.pos <= |buf|
    decreases |buf| - pos, 0
  {
    if pos == |buf| then Incomplete
    else if buf[pos] == LOWER_I then ParseInt(buf, pos)
    else if buf[pos] == LOWER_L then ParseItems(buf, pos + 1, [])
    else if buf[pos] == LOWER_D then ParseEntries(buf, pos + 1, [])
    else if IsDigit(buf[pos]) then ParseBytes(buf, pos)
    else Invalid("unexpected type marker")
  }

  function ParseItems(buf: seq<Byte>, pos: nat, items: seq<Value>): (r: Parse)
    requires pos <= |buf|
    ensures r.Ok? ==> pos < r.pos <= |buf|
    decreases |buf| - pos, 1
  {
    if pos < |buf| && buf[pos] == LOWER_E then Ok(List(items), pos + 1)
    else
      var r := ParseValue(buf, pos);
      if r.Ok? then ParseItems(buf, r.pos, items + [r.v]) else r
  }

  function ParseEntries(buf: seq<Byte>, pos: nat, entries: seq<Entry>): (r: Parse)
    requires pos <= |buf|
    ensures r.Ok? ==> pos < r.pos <= |buf|
    decreases |buf| - pos, 1
  {
    if pos < |buf| && buf[pos] == LOWER_E then Ok(Dict(entries), pos + 1)
    else
      var k := ParseValue(buf, pos);
      if !k.Ok? then k
      else if !k.v.Bytes? then Invalid("dict key must be a byte string")
      else
        var r := ParseValue(buf, k.pos);
        if r.Ok? then ParseEntries(buf, r.pos, Insert(entries, Entry(k.v.b, r.v))) else r
  }

  /** One loop finds the closing byte and lets a minus through only at the start. */
  method ParseIntAt(buf: seq<Byte>, pos: nat) returns (r: Parse)
    requires pos < |buf|
    ensures r == ParseInt(buf, pos)
  {
    var start := pos + 1;
    var end := start;
    ghost var digits := if start < |buf| && buf[start] == MINUS then start + 1 else start;
    while true
      invariant start <= end <= |buf|
      invariant end == start || (digits <= end && ScanDigits(buf, digits, LOWER_E) == ScanDigits(buf, end, LOWER_E))
      decreases |buf| - end
    {
      if end == |buf| {
        return Incomplete;
      } else if buf[end] == LOWER_E {
        break;
      } else if buf[end] == MINUS && end == start {
        end := end + 1;
      } else if IsDigit(buf[end]) {
        end := end + 1;
      } else {
        return Invalid("non-digit in integer");
      }
    }
    assert ScanDigits(buf, digits, LOWER_E) == Stop(end);
    var negative := buf[start] == MINUS;
    var from := if negative then start + 1 else start;
    if end == from {
      return Invalid("integer out of range or empty");
    }
    var n: int := Decimal.Value(DigitsIn(buf[from..end]));
    n := if negative then -n else n;
    if n < I64_MIN || n > I64_MAX {
      return Invalid("integer out of range or empty");
    }
    return Ok(Int(n), end + 1);
  }

  method ParseBytesAt(buf: seq<Byte>, pos: nat) returns (r: Parse)
    requires pos < |buf| && IsDigit(buf[pos])
    ensures r == ParseBytes(buf, pos)
  {
    var colon := pos;
    while true
      invariant pos <= colon <= |buf|
      invariant ScanDigits(buf, pos, COLON) == ScanDigits(buf, colon, COLON)
      decreases |buf| - colon
    {
      if colon == |buf| {
        return Incomplete;
      } else if buf[colon] == COLON {
        break;
      } else if IsDigit(buf[colon]) {
        colon := colon + 1;
      } else {
        return Invalid("non-digit in string length");
      }
    }
    assert ScanDigits(buf, pos, COLON) == Stop(colon);
    var len := Decimal.Value(DigitsIn(buf[pos..colon]));
    if len > U64_MAX {
      return Invalid("bad string length");
    }
    var dataStart := colon + 1;
    if dataStart + len > U64_MAX {
      return Invalid("string length overflow");
    }
    var dataEnd := dataStart + len;
    if |buf| < dataEnd {
      return Incomplete;
    }
    return Ok(Bytes(buf[dataStart..dataEnd]), dataEnd);
  }

  /** The decoder with its cursor, loops and growing collections. */
  method ParseAt(buf: seq<Byte>, start: nat) returns (r: Parse)
    requires start <= |buf|
    ensures r == ParseValue(buf, start)
    decreases |buf| - start, 0
  {
    if start == |buf| {
      r := Incomplete;
    } else if buf[start] == LOWER_I {
      r := ParseIntAt(buf, start);
    } else if buf[start] == LOWER_L {
      r := ParseItemsAt(buf, start + 1);
    } else if buf[start] == LOWER_D {
      r := ParseEntriesAt(buf, start + 1);
    } else if IsDigit(buf[start]) {
      r := ParseBytesAt(buf, start);
    } else {
      r := Invalid("unexpected type marker");
    }
  }

  method ParseItemsAt(buf: seq<Byte>, start: nat) returns (r: Parse)
    requires start <= |buf|
    ensures r == ParseItems(buf, start, [])
    decreases |buf| - start, 1
  {
    var pos: nat, items := start, [];
    while true
      invariant start <= pos <= |buf|
      invariant ParseItems(buf, start, []) == ParseItems(buf, pos, items)
      decreases |buf| - pos
    {
      if pos < |buf| && buf[pos] == LOWER_E {
        return Ok(List(items), pos + 1);
      }
      r := ParseAt(buf, pos);
      if !r.Ok? {
        return;
      }
      items, pos := items + [r.v], r.pos;
    }
  }

  method ParseEntriesAt(buf: seq<Byte>, start: nat) returns (r: Parse)
    requires start <= |buf|
    ensures r == ParseEntries(buf, start, [])
    decreases |buf| - start, 1
  {
    var pos: nat, entries := start, [];
    while true
      invariant start <= pos <= |buf|
      invariant ParseEntries(buf, start, []) == ParseEntries(buf, pos, entries)
      decreases |buf| - pos
    {
      if pos < |buf| && buf[pos] == LOWER_E {
        return Ok(Dict(entries), pos + 1);
      }
      r := ParseAt(buf, pos);
      if !r.Ok? {
        return;
      }
      if !r.v.Bytes? {
        return Invalid("dict key must be a byte string");
      }
      var key := r.v.b;
      r := ParseAt(buf, r.pos);
      if !r.Ok? {
        return;
      }
      entries, pos := Insert(entries, Entry(key, r.v)), r.pos;
    }
  }
}
