/**
 The upload rate test's framing: each frame a 32-bit length and that many
 bytes, a zero length at the end (integration/net/client.py), and the fixture
 that counts what it is sent (integration/fixture-net/itest-net.pl).
 */
module Rate {
  import opened Bytes
  import opened Sockets

  ghost predicate Framable(chunks: seq<bytes>) {
    forall i :: 0 <= i < |chunks| ==> 0 < |chunks[i]| < 0x1_0000_0000
  }

  function Frame(chunk: bytes): (f: bytes)
    requires |chunk| < 0x1_0000_0000
    ensures |f| == 4 + |chunk| && U32(f) == |chunk| && f[4..] == chunk
  {
    PutU32(|chunk|) + chunk
  }

  ghost function Encoded(chunks: seq<bytes>): bytes
    requires Framable(chunks)
  {
    if chunks == [] then Frame([]) else Frame(chunks[0]) + Encoded(chunks[1..])
  }

  function Total(chunks: seq<bytes>): nat {
    if chunks == [] then 0 else |chunks[0]| + Total(chunks[1..])
  }

  datatype Decoding = Decoding(chunks: seq<bytes>, rest: bytes)

  /** The frames up to the zero one, and what follows it; nothing if the stream ends before. */
  function Decode(s: bytes): Option<Decoding>
    decreases |s|
  {
    if |s| < 4 then None
    else
      var n := U32(s);
      if n == 0 then Some(Decoding([], s[4..]))
      else if |s| < 4 + n then None
      else match Decode(s[4 + n..])
        case None => None
        case Some(d) => Some(Decoding([s[4..4 + n]] + d.chunks, d.rest))
  }

  lemma FrameAhead(chunk: bytes, s: bytes)
    requires |chunk| < 0x1_0000_0000
    ensures var t := Frame(chunk) + s;
      |t| >= 4 + |chunk| && U32(t) == |chunk| && t[4..4 + |chunk|] == chunk && t[4 + |chunk|..] == s
  {
    var t := Frame(chunk) + s;
    assert t[4..4 + |chunk|] == Frame(chunk)[4..];
  }

  /** Round trip: whatever the chunks hold, they are what is decoded, and nothing after the zero frame is taken. */
  lemma {:induction false} DecodesEncoded(chunks: seq<bytes>, tail: bytes)
    requires Framable(chunks)
    ensures Decode(Encoded(chunks) + tail) == Some(Decoding(chunks, tail))
  {
    if chunks == [] {
      FrameAhead([], tail);
    } else {
      var c, more := chunks[0], chunks[1..];
      DecodesEncoded(more, tail);
      Regroup(Frame(c), Encoded(more), tail, []);
      FrameAhead(c, Encoded(more) + tail);
      assert chunks == [c] + more;
    }
  }

  /** Only encodings decode: the stream was frames, the zero frame and what is left. */
  lemma {:induction false} DecodedWasEncoded(s: bytes)
    requires Decode(s).Some?
    ensures var d := Decode(s).value; Framable(d.chunks) && s == Encoded(d.chunks) + d.rest
    decreases |s|
  {
    var d, n := Decode(s).value, U32(s);
    SameFrame(s[..4 + n]);
    assert s == s[..4 + n] + s[4 + n..];
    if n > 0 {
      DecodedWasEncoded(s[4 + n..]);
      var more := Decode(s[4 + n..]).value;
      assert d.chunks[1..] == more.chunks;
      Regroup(s[..4 + n], Encoded(more.chunks), more.rest, []);
    }
  }

  /** The length prefix is determined by the chunk. */
  lemma SameFrame(f: bytes)
    requires |f| >= 4 && |f| == 4 + U32(f)
    ensures f == Frame(f[4..])
  {
    SameU32(f[..4], PutU32(U32(f)));
    assert f == f[..4] + f[4..];
  }

  lemma SameU32(a: bytes, b: bytes)
    requires |a| == |b| == 4 && U32(a) == U32(b)
    ensures a == b
  {
    var x, y := (a[0] as int * 256 + a[1] as int) * 256 + a[2] as int,
        (b[0] as int * 256 + b[1] as int) * 256 + b[2] as int;
    assert U32(a) == x * 256 + a[3] as int && U32(b) == y * 256 + b[3] as int;
    assert x == y && a[3] == b[3];
    var v, w := a[0] as int * 256 + a[1] as int, b[0] as int * 256 + b[1] as int;
    assert x == v * 256 + a[2] as int && y == w * 256 + b[2] as int;
    assert v == w && a[2] == b[2];
  }

  /** Two uploads on one stream are the same upload: no encoding is the start of another. */
  lemma EncodingIsUnique(these: seq<bytes>, a: bytes, those: seq<bytes>, b: bytes)
    requires Framable(these) && Framable(those) && Encoded(these) + a == Encoded(those) + b
    ensures these == those && a == b
  {
    DecodesEncoded(these, a);
    DecodesEncoded(those, b);
  }

  // ---- The two ends ----

  function Counted(n: nat, d: Option<Decoding>): Option<nat> {
    if d.None? then None else Some(n + Total(d.value.chunks))
  }

  /** Having counted n and with rest to read, the outcome is the one the whole stream s calls for. */
  ghost predicate Counting(s: bytes, n: nat, rest: bytes) {
    && Counted(0, Decode(s)) == Counted(n, Decode(rest))
    && (Decode(rest).Some? ==> Decode(s).value.rest == Decode(rest).value.rest)
  }

  lemma CountOn(s: bytes, n: nat, t: bytes)
    requires Counting(s, n, t) && |t| >= 4 && U32(t) > 0 && |t| >= 4 + U32(t)
    ensures Counting(s, n + U32(t), t[4 + U32(t)..])
  {
    var k := U32(t);
    var more := Decode(t[4 + k..]);
    if more.Some? {
      assert Decode(t).value.chunks == [t[4..4 + k]] + more.value.chunks;
      assert Decode(t).value.chunks[1..] == more.value.chunks;
    }
  }

  /** One frame's length, its bytes read and dropped; nothing when the stream ends before they do. */
  method ReadFrame(sock: Socket) returns (length: Option<nat>)
    modifies sock`rest
    ensures length.Some? <==> |old(sock.rest)| >= 4 && |old(sock.rest)| >= 4 + U32(old(sock.rest))
    ensures length.Some? ==> length.value == U32(old(sock.rest)) && sock.rest == old(sock.rest)[4 + length.value..]
  {
    var head := RecvExact(sock, 4);
    if head.None? {
      return None;
    }
    var n := U32(head.value);
    if n == 0 {
      return Some(0);
    }
    var chunk := RecvExact(sock, n);
    length := if chunk.None? then None else Some(n);
  }

  /** The fixture: the bytes counted, or no reply when the stream ends early. */
  method ServeCount(sock: Socket) returns (n: Option<nat>)
    modifies sock`rest
    ensures n == Counted(0, Decode(old(sock.rest)))
    ensures n.Some? ==> sock.rest == Decode(old(sock.rest)).value.rest
  {
    var count := 0;
    ghost var s := sock.rest;
    while true
      invariant Counting(s, count, sock.rest)
      decreases |sock.rest|
    {
      ghost var before := sock.rest;
      var length := ReadFrame(sock);
      if length.None? {
        return None;
      }
      if length.value == 0 {
        return Some(count);
      }
      CountOn(s, count, before);
      count := count + length.value;
    }
  }

  function Copies(chunk: bytes, times: nat): seq<bytes> {
    if times == 0 then [] else [chunk] + Copies(chunk, times - 1)
  }

  lemma {:induction false} CopiesAre(chunk: bytes, times: nat)
    requires 0 < |chunk| < 0x1_0000_0000
    ensures Framable(Copies(chunk, times)) && Total(Copies(chunk, times)) == times * |chunk|
  {
    if times > 0 {
      CopiesAre(chunk, times - 1);
      var more := Copies(chunk, times - 1);
      assert Copies(chunk, times)[1..] == more;
      assert times * |chunk| == |chunk| + (times - 1) * |chunk|;
    }
  }

  /** The client: as many frames as there is time for, counting what it sends. */
  method RateUp(sock: Socket, chunk: bytes, times: nat) returns (n: nat)
    requires 0 < |chunk| < 0x1_0000_0000
    modifies sock`sent
    ensures Framable(Copies(chunk, times)) && sock.sent == old(sock.sent) + Encoded(Copies(chunk, times))
    ensures n == Total(Copies(chunk, times))
  {
    n := 0;
    var frame := PutU32(|chunk|) + chunk;
    CopiesAre(chunk, times);
    for i := 0 to times
      invariant Framable(Copies(chunk, times - i))
      invariant sock.sent + Encoded(Copies(chunk, times - i)) == old(sock.sent) + Encoded(Copies(chunk, times))
      invariant n + Total(Copies(chunk, times - i)) == Total(Copies(chunk, times))
    {
      ghost var more := Copies(chunk, times - i);
      assert more[1..] == Copies(chunk, times - (i + 1));
      CopiesAre(chunk, times - (i + 1));
      Regroup(sock.sent, frame, Encoded(more[1..]), []);
      sock.SendAll(frame);
      n := n + |chunk|;
    }
    sock.SendAll(PutU32(0));
    assert PutU32(0) == Frame([]);
  }

  /** So the fixture's count of what the client sent is the client's own, and it takes exactly that. */
  lemma CountsAgree(chunk: bytes, times: nat, tail: bytes)
    requires 0 < |chunk| < 0x1_0000_0000
    ensures Framable(Copies(chunk, times))
    ensures Counted(0, Decode(Encoded(Copies(chunk, times)) + tail)) == Some(times * |chunk|)
  {
    CopiesAre(chunk, times);
    DecodesEncoded(Copies(chunk, times), tail);
  }
}
