/**
 The WebSocket exchange of the network client (integration/net/client.py) with
 its fixture server (integration/fixture-net/itest-net.pl): a frame by sections
 5.2 and 5.3 of RFC 6455, inside a CONNECT tunnel (section 9.3.6 of RFC 9110).

 A text is its characters, which is what the client's guard counts; what is
 sent is its UTF-8 form, and what comes back is decoded with a replacement
 character for whatever is not UTF-8.
 */
module WebSocket {
  import opened Bytes
  import opened Sockets

  // ---- Masking (section 5.3) ----

  /** Exclusive or of the low n bits. */
  function XorBits(a: nat, b: nat, n: nat): nat {
    if n == 0 then 0 else XorBit(a % 2, b % 2) + 2 * XorBits(a / 2, b / 2, n - 1)
  }

  function XorBit(x: nat, y: nat): (r: nat)
    ensures r < 2
  {
    if x == y then 0 else 1
  }

  function Power2(n: nat): nat {
    if n == 0 then 1 else 2 * Power2(n - 1)
  }

  lemma Halves(low: nat, high: nat)
    requires low < 2
    ensures (low + 2 * high) % 2 == low && (low + 2 * high) / 2 == high
  {
  }

  lemma {:induction false} XorUndone(a: nat, b: nat, n: nat)
    requires a < Power2(n)
    ensures XorBits(a, b, n) < Power2(n) && XorBits(XorBits(a, b, n), b, n) == a
  {
    if n > 0 {
      XorUndone(a / 2, b / 2, n - 1);
      var low, high := XorBit(a % 2, b % 2), XorBits(a / 2, b / 2, n - 1);
      Halves(low, high);
      var x := low + 2 * high;
      assert XorBits(a, b, n) == x;
      assert XorBits(x, b, n) == XorBit(low, b % 2) + 2 * XorBits(high, b / 2, n - 1);
    }
  }

  lemma XorFits(a: byte, b: byte)
    ensures XorBits(a as int, b as int, 8) < 256
    ensures XorBits(XorBits(a as int, b as int, 8), b as int, 8) == a as int
  {
    assert Power2(8) == 256;
    XorUndone(a as int, b as int, 8);
  }

  function Xor(a: byte, b: byte): byte {
    XorFits(a, b);
    XorBits(a as int, b as int, 8) as byte
  }

  function Masked(mask: bytes, data: bytes): (r: bytes)
    requires |mask| == 4
    ensures |r| == |data|
  {
    seq(|data|, i requires 0 <= i < |data| => Xor(data[i], mask[i % 4]))
  }

  /** Masking twice with the same key gives the data back. */
  lemma MaskUndone(mask: bytes, data: bytes)
    requires |mask| == 4
    ensures Masked(mask, Masked(mask, data)) == data
  {
    forall i | 0 <= i < |data| ensures Masked(mask, Masked(mask, data))[i] == data[i] {
      XorFits(data[i], mask[i % 4]);
    }
  }

  // ---- Frames (section 5.2) ----

  const TEXT: byte := 0x81
  const CLOSE: bytes := [0x88, 0]
  const ECHO: bytes := [101, 99, 104, 111, 58]

  /** 0x80 | n: its value is a byte only for n under 256. */
  function MaskBit(n: nat): nat {
    if n / 128 % 2 == 1 then n else n + 128
  }

  /** The client's frame; nothing is sent when the length does not fit a byte. */
  function Frame(mask: bytes, payload: bytes): Option<bytes>
    requires |mask| == 4
  {
    if MaskBit(|payload|) >= 256 then None
    else Some([TEXT, MaskBit(|payload|) as byte] + mask + Masked(mask, payload))
  }

  function Big(b: bytes): nat {
    if b == [] then 0 else Big(b[..|b| - 1]) * 256 + b[|b| - 1] as int
  }

  datatype Parsed = Parsed(payload: bytes, rest: bytes)

  /**
   A frame as section 5.2 reads it: a 7-bit length, 126 and 127 announcing 2 or 8 bytes of length,
   then a mask if there is one.
   */
  function Parse(s: bytes): (r: Option<Parsed>)
    ensures r.Some? ==> |r.value.payload| + |r.value.rest| + 2 <= |s|
  {
    if |s| < 2 then None
    else
      var short := s[1] as int % 128;
      var extended := if short == 126 then 2 else if short == 127 then 8 else 0;
      var masked := if s[1] >= 128 then 4 else 0;
      var start := 2 + extended + masked;
      if |s| < start then None
      else
        var length := if extended == 0 then short else Big(s[2..2 + extended]);
        if |s| < start + length then None
        else
          var data := s[start..start + length];
          Some(Parsed(if masked == 4 then Masked(s[start - 4..start], data) else data, s[start + length..]))
  }

  /** What the fixture sends for a frame it could read: the length as one byte, whatever it is. */
  function Reply(payload: bytes): bytes {
    [TEXT, ((5 + |payload|) % 256) as byte] + ECHO + payload + CLOSE
  }

  /** The client's frame says what it carries exactly when its length is literal. */
  lemma FrameParsesIff(mask: bytes, payload: bytes)
    requires |mask| == 4
    ensures (Frame(mask, payload).Some? && Parse(Frame(mask, payload).value) == Some(Parsed(payload, []))) <==>
      |payload| <= 125
  {
    if |payload| <= 125 {
      FrameParses(mask, payload);
    }
  }

  lemma FrameParses(mask: bytes, payload: bytes)
    requires |mask| == 4 && |payload| <= 125
    ensures Frame(mask, payload).Some? && Parse(Frame(mask, payload).value) == Some(Parsed(payload, []))
  {
    var n := |payload|;
    MaskUndone(mask, payload);
    ParseLiteral(128 + n, mask, Masked(mask, payload));
    assert Frame(mask, payload) == Some([TEXT, (128 + n) as byte] + mask + Masked(mask, payload));
  }

  lemma ParseLiteral(b: nat, mask: bytes, data: bytes)
    requires |mask| == 4 && |data| <= 125 && b == 128 + |data|
    ensures Parse([TEXT, b as byte] + mask + data) == Some(Parsed(Masked(mask, data), []))
  {
    var f := [TEXT, b as byte] + mask + data;
    assert f[1] as int % 128 == |data|;
    assert f[2..6] == mask;
    assert f[6..6 + |data|] == data;
    assert f[6 + |data|..] == [];
  }

  /** The fixture's reply says what it carries exactly when the echo's prefix still leaves the length literal. */
  lemma ReplyParsesIff(payload: bytes)
    requires |payload| <= 125
    ensures Parse(Reply(payload)) == Some(Parsed(ECHO + payload, CLOSE)) <==> |payload| <= 120
  {
    var f := Reply(payload);
    assert f[1] as int == 5 + |payload|;
    if |payload| <= 120 {
      assert f[2..7 + |payload|] == ECHO + payload && f[7 + |payload|..] == CLOSE;
    }
  }

  /** Both frames keep section 5.2 exactly up to 120 bytes of UTF-8. */
  lemma BothFramesValidIff(mask: bytes, payload: bytes)
    requires |mask| == 4
    ensures
      (&& Frame(mask, payload).Some? && Parse(Frame(mask, payload).value) == Some(Parsed(payload, []))
       && Parse(Reply(payload)) == Some(Parsed(ECHO + payload, CLOSE)))
      <==> |payload| <= 120
  {
    FrameParsesIff(mask, payload);
    if |payload| <= 125 {
      ReplyParsesIff(payload);
    }
  }

  // ---- Text ----

  /** A character's UTF-8 form. */
  function Utf8(c: char): (b: bytes)
    ensures 1 <= |b| <= 4
  {
    var cp := c as int;
    if cp < 0x80 then [cp as byte]
    else if cp < 0x800 then [(0xC0 + cp / 64) as byte, (0x80 + cp % 64) as byte]
    else if cp < 0x10000 then [(0xE0 + cp / 4096) as byte, (0x80 + cp / 64 % 64) as byte, (0x80 + cp % 64) as byte]
    else [(0xF0 + cp / 262144) as byte, (0x80 + cp / 4096 % 64) as byte, (0x80 + cp / 64 % 64) as byte,
        (0x80 + cp % 64) as byte]
  }

  function Encode(text: string): bytes {
    if text == "" then [] else Utf8(text[0]) + Encode(text[1..])
  }

  lemma {:induction false} EncodeSplits(a: string, b: string)
    ensures Encode(a + b) == Encode(a) + Encode(b)
  {
    if a == "" {
      assert a + b == b;
    } else {
      assert (a + b)[1..] == a[1..] + b;
      EncodeSplits(a[1..], b);
      Regroup(Utf8(a[0]), Encode(a[1..]), Encode(b), []);
    }
  }

  const GREETING := "echo:"

  lemma GreetingEncoded()
    ensures Encode(GREETING) == ECHO
  {
    assert Encode(GREETING[4..]) == Utf8(':') + Encode(GREETING[5..]);
    assert Encode(GREETING[3..]) == Utf8('o') + Encode(GREETING[3..][1..]) && GREETING[3..][1..] == GREETING[4..];
    assert Encode(GREETING[2..]) == Utf8('h') + Encode(GREETING[2..][1..]) && GREETING[2..][1..] == GREETING[3..];
    assert Encode(GREETING[1..]) == Utf8('c') + Encode(GREETING[1..][1..]) && GREETING[1..][1..] == GREETING[2..];
    assert Encode(GREETING) == Utf8('e') + Encode(GREETING[1..]);
  }

  lemma EchoEncoded(text: string)
    ensures Encode(GREETING + text) == ECHO + Encode(text)
  {
    GreetingEncoded();
    EncodeSplits(GREETING, text);
  }

  /** Every character takes one byte to four, and exactly one in a text of ASCII. */
  lemma {:induction false} EncodeLength(text: string)
    ensures |text| <= |Encode(text)| <= 4 * |text|
    ensures (forall i :: 0 <= i < |text| ==> text[i] as int < 0x80) ==> |Encode(text)| == |text|
  {
    if text != "" {
      EncodeLength(text[1..]);
    }
  }

  const REPLACEMENT: char := '\U{FFFD}'

  /** Decoding with replacement: what was encoded comes back, and a result without replacements was its own encoding. */
  ghost predicate Decodes(decode: bytes -> string) {
    && (forall t :: decode(Encode(t)) == t)
    && (forall b :: REPLACEMENT !in decode(b) ==> Encode(decode(b)) == b)
  }

  /** How many bytes a character takes shows in its first one. */
  function Width(lead: byte): nat {
    if lead < 0x80 then 1 else if lead < 0xE0 then 2 else if lead < 0xF0 then 3 else 4
  }

  lemma WidthIs(c: char)
    ensures Width(Utf8(c)[0]) == |Utf8(c)|
  {
  }

  /** The code point a character's UTF-8 form spells. */
  function Spelled(b: bytes): int
    requires 1 <= |b| <= 4
  {
    if |b| == 1 then b[0] as int
    else if |b| == 2 then (b[0] as int - 0xC0) * 64 + (b[1] as int - 0x80)
    else if |b| == 3 then ((b[0] as int - 0xE0) * 64 + (b[1] as int - 0x80)) * 64 + (b[2] as int - 0x80)
    else (((b[0] as int - 0xF0) * 64 + (b[1] as int - 0x80)) * 64 + (b[2] as int - 0x80)) * 64 + (b[3] as int - 0x80)
  }

  lemma SpelledIs(c: char)
    ensures Spelled(Utf8(c)) == c as int
  {
    var cp := c as int;
    var b, d, e := cp / 64, cp / 4096, cp / 262144;
    assert cp == b * 64 + cp % 64 && b == d * 64 + b % 64 && d == e * 64 + d % 64;
  }

  /** No two texts have the same UTF-8 form. */
  lemma {:induction false} EncodeIsInjective(s: string, t: string)
    requires Encode(s) == Encode(t)
    ensures s == t
  {
    if s != "" && t != "" {
      var a, b := Utf8(s[0]), Utf8(t[0]);
      var both := Encode(s);
      WidthIs(s[0]);
      WidthIs(t[0]);
      assert both[0] == a[0] && both[0] == b[0];
      assert a == both[..|a|] && b == both[..|a|];
      SpelledIs(s[0]);
      SpelledIs(t[0]);
      assert Encode(s[1..]) == both[|a|..] && Encode(t[1..]) == both[|a|..];
      EncodeIsInjective(s[1..], t[1..]);
      assert s == [s[0]] + s[1..] && t == [t[0]] + t[1..];
    }
  }

  ghost predicate IsText(b: bytes) {
    exists t :: Encode(t) == b
  }

  /** A decoder of that kind: what is no text at all becomes one replacement character. */
  ghost function Strict(b: bytes): (t: string)
    ensures IsText(b) ==> Encode(t) == b
    ensures !IsText(b) ==> t == [REPLACEMENT]
  {
    if IsText(b) then var t :| Encode(t) == b; t else [REPLACEMENT]
  }

  /** There is one. */
  lemma StrictDecodes()
    ensures Decodes(Strict)
  {
    forall t ensures Strict(Encode(t)) == t {
      assert IsText(Encode(t));
      EncodeIsInjective(Strict(Encode(t)), t);
    }
  }

  // ---- The client's reading of the reply ----

  datatype Outcome = TooLong | NotConnected | NotUpgraded | BadAccept | Unframable | CutOff | WrongFrame | Echoed

  /** The client reads a 7-bit length and compares. */
  function ReadEcho(decode: bytes -> string, s: bytes, text: string): Outcome {
    if |s| < 2 || |s| < 2 + s[1] as int % 128 then CutOff
    else if s[0] == TEXT && decode(s[2..2 + s[1] as int % 128]) == GREETING + text then Echoed
    else WrongFrame
  }

  /** What the fixture sends back for what the client sent, if it makes out a frame in it. */
  function Served(sent: Option<bytes>): bytes {
    match sent
    case None => []
    case Some(frame) => (
      match Parse(frame)
      case None => []
      case Some(p) => Reply(p.payload))
  }

  /**
   Whoever answers, an echo of more than 122 bytes is not recognised, as the
   client never reads that many; unless replacement characters in the text stand
   for bytes that could not be decoded.
   */
  lemma NeverEchoedBeyond(decode: bytes -> string, s: bytes, text: string)
    requires Decodes(decode) && REPLACEMENT !in text
    ensures ReadEcho(decode, s, text) == Echoed ==> |Encode(text)| <= 122
  {
    if ReadEcho(decode, s, text) == Echoed {
      var got := s[2..2 + s[1] as int % 128];
      assert REPLACEMENT !in decode(got) by {
        assert forall c :: c in GREETING + text ==> c in GREETING || c in text;
        assert REPLACEMENT !in GREETING;
      }
      EchoEncoded(text);
      assert got == ECHO + Encode(text);
    }
  }

  /** With the fixture at the other end the exchange succeeds exactly up to 122 bytes of UTF-8. */
  lemma EchoedIff(decode: bytes -> string, mask: bytes, text: string)
    requires Decodes(decode) && |mask| == 4
    ensures var sent := Frame(mask, Encode(text));
      && (|Encode(text)| <= 122 ==> sent.Some? && ReadEcho(decode, Served(sent), text) == Echoed)
      && (REPLACEMENT !in text ==> (ReadEcho(decode, Served(sent), text) == Echoed <==> |Encode(text)| <= 122))
  {
    if |Encode(text)| <= 122 {
      FrameParses(mask, Encode(text));
      ReplyIsRead(decode, text);
    } else if REPLACEMENT !in text {
      NeverEchoedBeyond(decode, Served(Frame(mask, Encode(text))), text);
    }
  }

  lemma ReplyBody(payload: bytes)
    requires |payload| <= 122
    ensures var r, n := Reply(payload), 5 + |payload|;
      |r| >= 2 + n && r[0] == TEXT && r[1] as int % 128 == n && r[2..2 + n] == ECHO + payload
  {
    var r, n := Reply(payload), 5 + |payload|;
    assert r[1] as int == n && |r| == 4 + n;
    assert r[2..2 + n] == ECHO + payload;
  }

  lemma ReplyIsRead(decode: bytes -> string, text: string)
    requires Decodes(decode) && |Encode(text)| <= 122
    ensures ReadEcho(decode, Reply(Encode(text)), text) == Echoed
  {
    ReplyBody(Encode(text));
    EchoEncoded(text);
    assert decode(Encode(GREETING + text)) == GREETING + text;
  }

  // ---- The command ----

  const CONNECTED: bytes := [32, 50, 48, 48]
  const UPGRADED: bytes := [32, 49, 48, 49]
  const CRLF: bytes := [13, 10]

  /** The status line: what stands before the first CRLF, or the whole head. */
  function StatusLine(head: bytes): bytes {
    if |head| < 2 then head else if head[..2] == CRLF then [] else [head[0]] + StatusLine(head[1..])
  }

  /** Where the frames begin: after two heads. */
  function FramesFrom(s: bytes): (e: nat)
    ensures e <= |s|
  {
    HeadEnd(s) + HeadEnd(s[HeadEnd(s)..])
  }

  /** What is wrong with the heads, if anything; accepted says whether one carries the expected Sec-WebSocket-Accept. */
  ghost function HeadProblem(s: bytes, accepted: bytes -> bool): Option<Outcome> {
    var first, after := s[..HeadEnd(s)], s[HeadEnd(s)..];
    var second := after[..HeadEnd(after)];
    if !Contains(StatusLine(first), CONNECTED) then Some(NotConnected)
    else if !Contains(StatusLine(second), UPGRADED) then Some(NotUpgraded)
    else if !accepted(second) then Some(BadAccept)
    else None
  }

  /** What the client makes of the server's stream. */
  ghost function Exchange(decode: bytes -> string, s: bytes, accepted: bytes -> bool, mask: bytes,
      text: string): Outcome
    requires |mask| == 4
  {
    if |text| > 100 then TooLong
    else if HeadProblem(s, accepted).Some? then HeadProblem(s, accepted).value
    else if Frame(mask, Encode(text)).None? then Unframable
    else ReadEcho(decode, s[FramesFrom(s)..], text)
  }

  method ReadStatusLine(head: bytes) returns (line: bytes)
    ensures line == StatusLine(head)
  {
    line := [];
    var left := head;
    while |left| >= 2 && left[..2] != CRLF
      invariant StatusLine(head) == line + StatusLine(left)
      decreases |left|
    {
      line, left := line + [left[0]], left[1..];
    }
    if |left| < 2 {
      line := line + left;
    }
  }

  /** connect and upgrade are the two requests the client sends first. */
  method Ws(decode: bytes -> string, sock: Socket, accepted: bytes -> bool, connect: bytes, upgrade: bytes,
      mask: bytes, text: string)
    returns (outcome: Outcome)
    requires |mask| == 4
    modifies sock
    ensures outcome == Exchange(decode, old(sock.rest), accepted, mask, text)
    ensures outcome == TooLong ==> sock.sent == old(sock.sent)
    ensures outcome == NotConnected ==> sock.sent == old(sock.sent) + connect
    ensures outcome == NotUpgraded || outcome == BadAccept || outcome == Unframable ==>
      sock.sent == old(sock.sent) + connect + upgrade
    ensures outcome == CutOff || outcome == WrongFrame || outcome == Echoed ==>
      Frame(mask, Encode(text)).Some?
        && sock.sent == old(sock.sent) + connect + upgrade + Frame(mask, Encode(text)).value
  {
    if |text| > 100 {
      return TooLong;
    }
    var problem := OpenTunnel(sock, accepted, connect, upgrade);
    if problem.Some? {
      return problem.value;
    }
    var payload := Encode(text);
    if MaskBit(|payload|) >= 256 {
      return Unframable;
    }
    sock.SendAll([TEXT, MaskBit(|payload|) as byte] + mask + Masked(mask, payload));
    outcome := RecvEcho(decode, sock, text);
  }

  method OpenTunnel(sock: Socket, accepted: bytes -> bool, connect: bytes, upgrade: bytes)
      returns (problem: Option<Outcome>)
    modifies sock
    ensures problem == HeadProblem(old(sock.rest), accepted)
    ensures problem == None ==> sock.rest == old(sock.rest)[FramesFrom(old(sock.rest))..]
    ensures sock.sent == old(sock.sent) + connect + if problem == Some(NotConnected) then [] else upgrade
  {
    sock.SendAll(connect);
    var first := ReadHead(sock);
    var status := ReadStatusLine(first);
    var at := Find(status, CONNECTED);
    if at.None? {
      return Some(NotConnected);
    }
    sock.SendAll(upgrade);
    var second := ReadHead(sock);
    status := ReadStatusLine(second);
    at := Find(status, UPGRADED);
    if at.None? {
      return Some(NotUpgraded);
    }
    problem := if accepted(second) then None else Some(BadAccept);
  }

  method RecvEcho(decode: bytes -> string, sock: Socket, text: string) returns (outcome: Outcome)
    modifies sock`rest
    ensures outcome == ReadEcho(decode, old(sock.rest), text)
  {
    var header := RecvExact(sock, 2);
    if header.None? {
      return CutOff;
    }
    var n := header.value[1] as int % 128;
    var reply := RecvExact(sock, n);
    if reply.None? {
      return CutOff;
    }
    assert reply.value == old(sock.rest)[2..2 + n];
    outcome := if header.value[0] == TEXT && decode(reply.value) == GREETING + text then Echoed else WrongFrame;
  }

  /** The heads of a proxy that connects and a server that upgrades. */
  ghost predicate GoodHeads(first: bytes, second: bytes, accepted: bytes -> bool) {
    && IsHead(first) && IsHead(second) && accepted(second)
    && Contains(StatusLine(first), CONNECTED) && Contains(StatusLine(second), UPGRADED)
  }

  /**
   The whole command against the proxy's and the fixture's heads, however the
   stream is cut up: it ends in the echo exactly when the guard lets the text
   through and its UTF-8 form is at most 122 bytes.
   */
  lemma CommandSucceedsIff(decode: bytes -> string, first: bytes, second: bytes, accepted: bytes -> bool, mask: bytes,
      text: string)
    requires Decodes(decode) && GoodHeads(first, second, accepted) && |mask| == 4
    ensures var outcome := Exchange(decode, first + (second + Served(Frame(mask, Encode(text)))), accepted, mask, text);
      && (|text| <= 100 && |Encode(text)| <= 122 ==> outcome == Echoed)
      && (REPLACEMENT !in text ==> (outcome == Echoed <==> |text| <= 100 && |Encode(text)| <= 122))
  {
    HeadsAreGood(first, second, Served(Frame(mask, Encode(text))), accepted);
    EchoedIff(decode, mask, text);
  }

  lemma HeadsAreGood(first: bytes, second: bytes, served: bytes, accepted: bytes -> bool)
    requires GoodHeads(first, second, accepted)
    ensures var s := first + (second + served); HeadProblem(s, accepted) == None && s[FramesFrom(s)..] == served
  {
    var s := first + (second + served);
    HeadIsCut(first, second + served);
    HeadIsCut(second, served);
    assert s[..|first|] == first && s[|first|..] == second + served;
    assert (second + served)[..|second|] == second && (second + served)[|second|..] == served;
  }

  /** The guard is enough for ASCII: every such text it lets through comes back. */
  lemma GuardEnoughForAscii(decode: bytes -> string, first: bytes, second: bytes, accepted: bytes -> bool,
      mask: bytes, text: string)
    requires Decodes(decode) && GoodHeads(first, second, accepted) && |mask| == 4
    requires |text| <= 100 && forall i :: 0 <= i < |text| ==> text[i] as int < 0x80
    ensures Exchange(decode, first + (second + Served(Frame(mask, Encode(text)))), accepted, mask, text) == Echoed
  {
    EncodeLength(text);
    CommandSucceedsIff(decode, first, second, accepted, mask, text);
  }

  const EURO: char := '\U{20AC}'

  /** And not beyond: 41 to 100 euro signs pass the guard, and their 123 bytes or more do not come back. */
  lemma GuardAdmitsTooMuch(decode: bytes -> string, first: bytes, second: bytes, accepted: bytes -> bool, mask: bytes,
      n: nat)
    requires Decodes(decode) && GoodHeads(first, second, accepted) && |mask| == 4 && 41 <= n <= 100
    ensures var text := Repeated(EURO, n);
      var outcome := Exchange(decode, first + (second + Served(Frame(mask, Encode(text)))), accepted, mask, text);
      |text| == n && |Encode(text)| == 3 * n && outcome != TooLong && outcome != Echoed
  {
    var text := Repeated(EURO, n);
    RepeatedLength(EURO, n);
    assert REPLACEMENT !in text;
    CommandSucceedsIff(decode, first, second, accepted, mask, text);
    HeadsAreGood(first, second, Served(Frame(mask, Encode(text))), accepted);
  }

  function Repeated(c: char, n: nat): string {
    if n == 0 then "" else [c] + Repeated(c, n - 1)
  }

  lemma {:induction false} RepeatedLength(c: char, n: nat)
    ensures |Repeated(c, n)| == n && |Encode(Repeated(c, n))| == |Utf8(c)| * n
    ensures forall x :: x in Repeated(c, n) ==> x == c
  {
    if n > 0 {
      RepeatedLength(c, n - 1);
      assert Repeated(c, n)[1..] == Repeated(c, n - 1);
    }
  }
}
