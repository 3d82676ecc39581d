/**
 The nREPL reader: bytes arrive in arbitrary chunks, every complete message in
 the buffer is taken off its front, malformed input drops the connection.
 */
module BencodeStream {
  import opened Common
  import opened Bencode
  import opened BencodeLaws

  /** Messages dispatched so far, bytes left over, and whether the connection was dropped. */
  datatype Stream = Stream(msgs: seq<Value>, buf: seq<Byte>, dropped: bool)

  function Then(s: Stream, t: Stream): Stream {
    Stream(s.msgs + t.msgs, t.buf, t.dropped)
  }

  function Drain(buf: seq<Byte>): Stream
    decreases |buf|
  {
    match ParseValue(buf, 0)
    case Ok(v, n) => Then(Stream([v], [], false), Drain(buf[n..]))
    case Incomplete => Stream([], buf, false)
    case Invalid(_) => Stream([], buf, true)
  }

  /** A chunk of no bytes is the end of the input. */
  function Feed(s: Stream, chunks: seq<seq<Byte>>): Stream
    decreases |chunks|
  {
    if s.dropped || chunks == [] || chunks[0] == [] then s
    else Feed(Then(s, Drain(s.buf + chunks[0])), chunks[1..])
  }

  method DrainBuffer(s: Stream) returns (s': Stream)
    ensures s' == Then(s, Drain(s.buf))
  {
    s' := s;
    while true
      invariant Then(s', Drain(s'.buf)) == Then(s, Drain(s.buf))
      decreases |s'.buf|
    {
      var r := ParseAt(s'.buf, 0);
      match r {
        case Ok(v, n) =>
          assert s'.msgs + ([v] + Drain(s'.buf[n..]).msgs) == s'.msgs + [v] + Drain(s'.buf[n..]).msgs;
          s' := Stream(s'.msgs + [v], s'.buf[n..], s'.dropped);
        case Incomplete =>
          return Stream(s'.msgs, s'.buf, false);
        case Invalid(_) =>
          return Stream(s'.msgs, s'.buf, true);
      }
    }
  }

  method ReaderTask(chunks: seq<seq<Byte>>) returns (s: Stream)
    ensures s == Feed(Stream([], [], false), chunks)
  {
    s := Stream([], [], false);
    var next := 0;
    s := DrainBuffer(s);
    while next < |chunks|
      invariant next <= |chunks|
      invariant Feed(Stream([], [], false), chunks) == Feed(s, chunks[next..])
    {
      if s.dropped || chunks[next] == [] {
        return;
      }
      assert chunks[next..][1..] == chunks[next + 1..];
      s := DrainBuffer(Stream(s.msgs, s.buf + chunks[next], false));
      next := next + 1;
    }
  }

  // ---- Chunk boundaries do not matter ----

  /** The bytes before the end of the input. */
  function Received(chunks: seq<seq<Byte>>): seq<Byte> {
    if chunks == [] || chunks[0] == [] then [] else chunks[0] + Received(chunks[1..])
  }

  /** The same messages and the same fate; the leftover bytes matter only while connected. */
  ghost predicate Agree(s: Stream, t: Stream) {
    s.msgs == t.msgs && s.dropped == t.dropped && (!s.dropped ==> s.buf == t.buf)
  }

  lemma {:induction false} DrainAppend(buf: seq<Byte>, ext: seq<Byte>)
    ensures var d := Drain(buf);
      Agree(Drain(buf + ext), if d.dropped then d else Then(d, Drain(d.buf + ext)))
    decreases |buf|
  {
    match ParseValue(buf, 0)
    case Ok(v, n) =>
      ParseStable(buf, ext, 0);
      assert (buf + ext)[n..] == buf[n..] + ext;
      DrainAppend(buf[n..], ext);
      var d := Drain(buf[n..]);
      assert [v] + (d.msgs + Drain(d.buf + ext).msgs) == [v] + d.msgs + Drain(d.buf + ext).msgs;
    case Incomplete =>
      assert [] + Drain(buf + ext).msgs == Drain(buf + ext).msgs;
    case Invalid(_) =>
      ParseStable(buf, ext, 0);
  }

  lemma {:induction false} FeedIsDrain(sofar: seq<Byte>, s: Stream, chunks: seq<seq<Byte>>)
    requires Agree(s, Drain(sofar))
    ensures Agree(Feed(s, chunks), Drain(sofar + Received(chunks)))
    decreases |chunks|
  {
    if chunks == [] || chunks[0] == [] {
      assert sofar + [] == sofar;
    } else if s.dropped {
      DrainAppend(sofar, Received(chunks));
    } else {
      DrainAppend(sofar, chunks[0]);
      FeedIsDrain(sofar + chunks[0], Then(s, Drain(s.buf + chunks[0])), chunks[1..]);
      assert sofar + chunks[0] + Received(chunks[1..]) == sofar + Received(chunks);
    }
  }

  /** On any bytes, well formed or not, how they were cut into reads changes nothing. */
  lemma ChunkingIrrelevant(chunks: seq<seq<Byte>>)
    ensures Agree(Feed(Stream([], [], false), chunks), Drain(Received(chunks)))
  {
    FeedIsDrain([], Stream([], [], false), chunks);
    assert [] + Received(chunks) == Received(chunks);
  }

  // ---- Every message sent arrives, in order ----

  ghost predicate Sendable(v: Value) {
    Valid(v) && |Encode(v)| <= U64_MAX
  }

  function EncodeAll(vs: seq<Value>): seq<Byte> {
    if vs == [] then [] else Encode(vs[0]) + EncodeAll(vs[1..])
  }

  lemma Regroup<T>(a: seq<T>, b: seq<T>, c: seq<T>)
    ensures (a + b) + c == a + (b + c)
  {
  }

  lemma DrainOne(v: Value, others: seq<Byte>)
    requires Sendable(v)
    ensures Drain(Encode(v) + others) == Then(Stream([v], [], false), Drain(others))
  {
    RoundTrip(v, others);
    assert (Encode(v) + others)[|Encode(v)|..] == others;
  }

  lemma {:induction false} DrainMessages(vs: seq<Value>, rest: seq<Byte>)
    requires forall i :: 0 <= i < |vs| ==> Sendable(vs[i])
    ensures Drain(EncodeAll(vs) + rest) == Then(Stream(vs, [], false), Drain(rest))
    decreases |vs|
  {
    if vs == [] {
      assert [] + rest == rest && [] + Drain(rest).msgs == Drain(rest).msgs;
    } else {
      Regroup(Encode(vs[0]), EncodeAll(vs[1..]), rest);
      DrainOne(vs[0], EncodeAll(vs[1..]) + rest);
      DrainMessages(vs[1..], rest);
      Regroup([vs[0]], vs[1..], Drain(rest).msgs);
      assert [vs[0]] + vs[1..] == vs;
    }
  }

  /** Messages sent whole are all dispatched in order; the start of one more waits in the buffer. */
  lemma AllDelivered(vs: seq<Value>, w: Value, cut: nat, chunks: seq<seq<Byte>>)
    requires forall i :: 0 <= i < |vs| ==> Sendable(vs[i])
    requires Sendable(w) && cut < |Encode(w)|
    requires Received(chunks) == EncodeAll(vs) + Encode(w)[..cut]
    ensures Feed(Stream([], [], false), chunks) == Stream(vs, Encode(w)[..cut], false)
  {
    ChunkingIrrelevant(chunks);
    DrainMessages(vs, Encode(w)[..cut]);
    RoundTrip(w, []);
    assert Encode(w) + [] == Encode(w);
    PrefixIncomplete(Encode(w), cut);
    assert vs + [] == vs;
  }
}
