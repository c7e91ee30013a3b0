/**
 Reading a stream that arrives in pieces (integration/net/client.py and its
 fixture server, integration/fixture-net/itest-net.pl): whatever each read
 returns, a head, a counted field and the whole stream are cut at the same
 places.
 */
module Sockets {
  import opened Bytes

  /** One end of a connection: what the other end sends that is still unread, until its EOF, and what was sent. */
  class Socket {
    var rest: bytes
    var sent: bytes

    constructor (incoming: bytes)
      ensures rest == incoming && sent == []
    {
      rest, sent := incoming, [];
    }

    /** recv: some of what is there, at most n bytes, and nothing only at EOF. */
    method Recv(n: nat) returns (data: bytes)
      requires n > 0
      modifies `rest
      ensures old(rest) == data + rest && |data| <= n && (data == [] <==> old(rest) == [])
    {
      var k: nat :| k <= n && k <= |rest| && (k == 0 <==> rest == []) by {
        assert (if rest == [] then 0 else 1) <= |rest|;
      }
      data := rest[..k];
      rest := rest[k..];
    }

    /** One write: some of what is given, at least a byte. */
    method Write(data: bytes) returns (k: nat)
      requires data != []
      modifies `sent
      ensures 0 < k <= |data| && sent == old(sent) + data[..k]
    {
      k :| 0 < k <= |data| by {
        assert 0 < |data|;
      }
      sent := sent + data[..k];
    }

    method SendAll(data: bytes)
      modifies `sent
      ensures sent == old(sent) + data
    {
      var left := data;
      while left != []
        invariant sent + left == old(sent) + data
        decreases |left|
      {
        var k := Write(left);
        assert left == left[..k] + left[k..];
        left := left[k..];
      }
    }
  }

  method ReadToEof(sock: Socket) returns (all: bytes)
    modifies sock`rest
    ensures all == old(sock.rest) && sock.rest == []
  {
    all := [];
    while true
      invariant all + sock.rest == old(sock.rest)
      decreases |sock.rest|
    {
      var data := sock.Recv(65536);
      if data == [] {
        return;
      }
      all := all + data;
    }
  }

  /** Exactly n bytes, or nothing when the stream ends before. */
  method RecvExact(sock: Socket, n: nat) returns (buf: Option<bytes>)
    modifies sock`rest
    ensures buf.Some? <==> n <= |old(sock.rest)|
    ensures buf.Some? ==> buf.value == old(sock.rest)[..n] && sock.rest == old(sock.rest)[n..]
  {
    var got: bytes := [];
    while |got| < n
      invariant |got| <= n && got + sock.rest == old(sock.rest)
      decreases |sock.rest|
    {
      var data := sock.Recv(n - |got|);
      if data == [] {
        return None;
      }
      got := got + data;
    }
    buf := Some(got);
  }

  // ---- Heads ----

  const BLANK_LINE: bytes := [13, 10, 13, 10]

  /** Where the head of a stream ends: after its first blank line, or at its end. */
  function HeadEnd(s: bytes): (e: nat)
    ensures e <= |s|
  {
    if |s| < 4 then |s| else if s[..4] == BLANK_LINE then 4 else 1 + HeadEnd(s[1..])
  }

  /** A complete head: one blank line, at its end. */
  ghost predicate IsHead(h: bytes) {
    forall i :: OccursAt(h, i, BLANK_LINE) <==> i == |h| - 4
  }

  lemma {:induction false} HeadEndIs(s: bytes)
    ensures Contains(s, BLANK_LINE) ==> OccursAt(s, HeadEnd(s) - 4, BLANK_LINE)
    ensures !Contains(s, BLANK_LINE) ==> HeadEnd(s) == |s|
    ensures forall i :: i + 4 < HeadEnd(s) ==> !OccursAt(s, i, BLANK_LINE)
  {
    if |s| >= 4 && s[..4] != BLANK_LINE {
      var t := s[1..];
      HeadEndIs(t);
      forall i | 0 < i ensures OccursAt(s, i, BLANK_LINE) <==> OccursAt(t, i - 1, BLANK_LINE) {
        OccursInSuffix(s, 1, i, BLANK_LINE);
      }
      if Contains(t, BLANK_LINE) {
        assert OccursAt(s, HeadEnd(t) - 4 + 1, BLANK_LINE);
      }
      assert forall i :: i <= 0 ==> !OccursAt(s, i, BLANK_LINE);
    } else if |s| >= 4 {
      assert OccursAt(s, 0, BLANK_LINE);
    }
  }

  /** A head is cut where it ends, whatever follows. */
  lemma HeadIsCut(h: bytes, more: bytes)
    requires IsHead(h)
    ensures HeadEnd(h + more) == |h|
  {
    var s := h + more;
    HeadEndIs(s);
    assert OccursAt(h, |h| - 4, BLANK_LINE);
    OccursInPrefix(h, more, |h| - 4, BLANK_LINE);
    OccursInPrefix(h, more, HeadEnd(s) - 4, BLANK_LINE);
  }

  method ReadHead(sock: Socket) returns (head: bytes)
    modifies sock`rest
    ensures var s, e := old(sock.rest), HeadEnd(old(sock.rest)); head == s[..e] && sock.rest == s[e..]
  {
    head := [];
    ghost var s := sock.rest;
    HeadEndIs(s);
    while true
      invariant head + sock.rest == s && |head| <= HeadEnd(s)
      decreases |sock.rest|
    {
      var blank := Find(head, BLANK_LINE);
      if blank.Some? {
        OccursInPrefix(head, sock.rest, blank.value, BLANK_LINE);
        return;
      }
      ghost var seen := head;
      var data := sock.Recv(1);
      if data == [] {
        NoHeadYet(seen, s);
        return;
      }
      head := head + data;
      NoHeadYet(seen, s);
    }
  }

  /** A prefix without a blank line is not past the head, and is the whole of it only at the end of the stream. */
  lemma NoHeadYet(seen: bytes, s: bytes)
    requires seen <= s && !Contains(seen, BLANK_LINE)
    ensures |seen| < HeadEnd(s) || seen == s
  {
    HeadEndIs(s);
    assert s == seen + s[|seen|..];
    if |seen| >= HeadEnd(s) {
      OccursInPrefix(seen, s[|seen|..], HeadEnd(s) - 4, BLANK_LINE);
    }
  }

  /**
   A stream of two heads and a short frame is split exactly there: neither
   head takes a byte of what follows it, and the frame's two reads take its
   header and its body.
   */
  method ReadTwoHeadsAndFrame(sock: Socket, ghost first: bytes, ghost second: bytes, ghost start: bytes,
      ghost body: bytes, ghost tail: bytes)
    returns (connected: bytes, upgraded: bytes, header: Option<bytes>, frame: Option<bytes>)
    requires IsHead(first) && IsHead(second) && |start| == 2 && |body| == start[1] as int % 128
    requires sock.rest == first + (second + (start + (body + tail)))
    modifies sock`rest
    ensures connected == first && upgraded == second && header == Some(start) && frame == Some(body)
      && sock.rest == tail
  {
    HeadIsCut(first, second + (start + (body + tail)));
    connected := ReadHead(sock);
    assert sock.rest == second + (start + (body + tail));
    HeadIsCut(second, start + (body + tail));
    upgraded := ReadHead(sock);
    assert sock.rest == start + (body + tail);
    header := RecvExact(sock, 2);
    assert sock.rest == body + tail;
    frame := RecvExact(sock, header.value[1] as int % 128);
  }

  // ---- The echo ----

  /** The sender's slices, and what the fixture writes back as pieces arrive: the same bytes. */
  method SendSlices(sock: Socket, data: bytes)
    modifies sock`sent
    ensures sock.sent == old(sock.sent) + data
  {
    var off := 0;
    while off < |data|
      invariant 0 <= off && sock.sent == old(sock.sent) + data[..if off <= |data| then off else |data|]
      decreases |data| - off
    {
      var upto := if off + 16384 <= |data| then off + 16384 else |data|;
      assert data[..upto] == data[..off] + data[off..upto];
      sock.SendAll(data[off..upto]);
      off := off + 16384;
    }
  }

  method ServeEcho(sock: Socket)
    modifies sock
    ensures sock.sent == old(sock.sent) + old(sock.rest)
  {
    while true
      invariant sock.sent + sock.rest == old(sock.sent) + old(sock.rest)
      decreases |sock.rest|
    {
      var data := sock.Recv(65536);
      if data == [] {
        return;
      }
      sock.SendAll(data);
    }
  }
}
