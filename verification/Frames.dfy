/** The length-prefixed frame codec of the bundled Engine.IO client
    (api/mods/reference/entry.1c0Ptbnq.js, lines 2915-2989).

    The encoder writes a one-, three- or nine-byte header and the payload. The decoder is fed
    chunks of any size, keeps the unread ones in a list, and emits a message as soon as the whole
    payload is there. Bytes are integers below 256, so `b & 128` is `b >= 128` and `b & 127` is
    `b % 128`. */
module Frames {

  type byte = b: int | 0 <= b < 256

  const TWO_POW_21: nat := 2097152
  const TWO_POW_32: nat := 4294967296
  const TWO_POW_53: nat := 9007199254740992
  const TWO_POW_64: nat := 18446744073709551616

  // ---------------------------------------------------------------------------------------------
  // Big-endian integers (DataView.setUint16, setBigUint64, getUint16, getUint32)
  // ---------------------------------------------------------------------------------------------

  function ToBigEndian(n: nat, width: nat): (bytes: seq<byte>)
    ensures |bytes| == width
  {
    if width == 0 then [] else ToBigEndian(n / 256, width - 1) + [n % 256]
  }

  function FromBigEndian(bytes: seq<byte>): nat {
    if |bytes| == 0 then 0 else 256 * FromBigEndian(bytes[..|bytes| - 1]) + bytes[|bytes| - 1]
  }

  function Power256(k: nat): nat {
    if k == 0 then 1 else 256 * Power256(k - 1)
  }

  lemma {:induction false} BigEndianRoundTrip(n: nat, width: nat)
    requires n < Power256(width)
    ensures FromBigEndian(ToBigEndian(n, width)) == n
  {
    if width > 0 {
      BigEndianRoundTrip(n / 256, width - 1);
      assert ToBigEndian(n, width)[..width - 1] == ToBigEndian(n / 256, width - 1);
    }
  }

  lemma FromBigEndianSnoc(bytes: seq<byte>, last: byte)
    ensures FromBigEndian(bytes + [last]) == 256 * FromBigEndian(bytes) + last
  {
    assert (bytes + [last])[..|bytes|] == bytes;
  }

  /** The eight-byte length is read as two four-byte halves. */
  lemma FromBigEndianHalves(high: seq<byte>, low: seq<byte>)
    requires |low| == 4
    ensures FromBigEndian(high + low) == FromBigEndian(high) * TWO_POW_32 + FromBigEndian(low)
  {
    var a, b, c, d := low[..1], low[..2], low[..3], low;
    assert a == [] + [low[0]] && b == a + [low[1]] && c == b + [low[2]] && d == c + [low[3]];
    FromBigEndianSnoc([], low[0]);
    FromBigEndianSnoc(a, low[1]);
    FromBigEndianSnoc(b, low[2]);
    FromBigEndianSnoc(c, low[3]);
    assert high + a == high + [low[0]] && high + b == (high + a) + [low[1]];
    assert high + c == (high + b) + [low[2]] && high + d == (high + c) + [low[3]];
    FromBigEndianSnoc(high, low[0]);
    FromBigEndianSnoc(high + a, low[1]);
    FromBigEndianSnoc(high + b, low[2]);
    FromBigEndianSnoc(high + c, low[3]);
  }

  lemma {:induction false} FromBigEndianBound(bytes: seq<byte>)
    ensures FromBigEndian(bytes) < Power256(|bytes|)
  {
    if bytes != [] {
      FromBigEndianBound(bytes[..|bytes| - 1]);
    }
  }

  function Zeros(n: nat): (z: seq<byte>)
    ensures |z| == n && forall i | 0 <= i < n :: z[i] == 0
  {
    seq(n, i => 0)
  }

  lemma {:induction false} FromBigEndianZeros(n: nat)
    ensures FromBigEndian(Zeros(n)) == 0
  {
    if n > 0 {
      FromBigEndianZeros(n - 1);
      assert Zeros(n)[..n - 1] == Zeros(n - 1);
    }
  }

  // ---------------------------------------------------------------------------------------------
  // Encoder
  // ---------------------------------------------------------------------------------------------

  /** A packet already turned into bytes; `binary` is `data && typeof data != "string"`. */
  datatype Packet = Packet(payload: seq<byte>, binary: bool)

  function Header(length: nat, binary: bool): seq<byte> {
    var flag := if binary then 128 else 0;
    if length < 126 then [flag + length]
    else if length < 65536 then [flag + 126] + ToBigEndian(length, 2)
    else [flag + 127] + ToBigEndian(length, 8)
  }

  function Frame(p: Packet): seq<byte> {
    Header(|p.payload|, p.binary) + p.payload
  }

  function Wire(packets: seq<Packet>): seq<byte> {
    if packets == [] then [] else Frame(packets[0]) + Wire(packets[1..])
  }

  /** The form of the length, from the length alone: the shortest of the three that holds it. */
  lemma HeaderForm(length: nat, binary: bool)
    requires length < TWO_POW_64
    ensures var h := Header(length, binary);
            && |h| == (if length < 126 then 1 else if length < 65536 then 3 else 9)
            && (h[0] >= 128 <==> binary)
            && h[0] % 128 == (if length < 126 then length else if length < 65536 then 126 else 127)
            && (length >= 126 ==> FromBigEndian(h[1..]) == length)
  {
    Power256Values();
    if 126 <= length < 65536 {
      BigEndianRoundTrip(length, 2);
      assert Header(length, binary)[1..] == ToBigEndian(length, 2);
    } else if length >= 65536 {
      BigEndianRoundTrip(length, 8);
      assert Header(length, binary)[1..] == ToBigEndian(length, 8);
    }
  }

  /** DataView.setUint16 and setBigUint64: the low `width` bytes of `n`, most significant first. */
  method PutBigEndian(a: array<byte>, width: nat, n: nat)
    requires width < a.Length
    modifies a
    ensures a[..] == old(a[..a.Length - width]) + ToBigEndian(n, width)
  {
    var k, rest := a.Length, n;
    ghost var offset := a.Length - width;
    while k > a.Length - width
      invariant offset <= k <= a.Length
      invariant ToBigEndian(n, width) == ToBigEndian(rest, k - offset) + a[k..]
      invariant a[..offset] == old(a[..offset])
    {
      ghost var tail := a[k..];
      a[k - 1] := rest % 256;
      assert a[k - 1..] == [rest % 256] + tail;
      k, rest := k - 1, rest / 256;
    }
    assert a[..] == a[..offset] + a[offset..];
  }

  /** The `transform` of the encoder stream: the two chunks it enqueues for a packet. */
  method EncodeFrame(p: Packet) returns (header: seq<byte>, body: seq<byte>)
    ensures header + body == Frame(p)
    ensures header == Header(|p.payload|, p.binary)
  {
    var length := |p.payload|;
    var a: array<byte>;
    var first: byte := if length < 126 then length else if length < 65536 then 126 else 127;
    var width := if length < 126 then 0 else if length < 65536 then 2 else 8;
    a := new byte[1 + width];
    a[0] := first;
    if width > 0 {
      PutBigEndian(a, width, length);
    }
    assert a[..] == [first] + ToBigEndian(length, width);
    if p.binary {
      ghost var plain := a[..];
      a[0] := a[0] + 128;
      assert a[..] == [first + 128] + plain[1..];
    }
    header, body := a[..], p.payload;
  }

  // ---------------------------------------------------------------------------------------------
  // Decoder: what one turn of its loop does with the bytes it took
  // ---------------------------------------------------------------------------------------------

  datatype Phase = AwaitHeader | AwaitLength16 | AwaitLength64 | AwaitPayload

  datatype Event = Message(payload: seq<byte>, binary: bool) | ParseError

  /** The decoder's variables `r`, `s` and `i`. */
  datatype Control = Control(phase: Phase, expected: int, binary: bool) {
    function Needed(): int {
      match phase
      case AwaitHeader => 1
      case AwaitLength16 => 2
      case AwaitLength64 => 8
      case AwaitPayload => expected
    }
  }

  const INITIAL := Control(AwaitHeader, -1, false)

  datatype Turn = Turn(control: Control, events: seq<Event>, halt: bool)

  /** The test that closes every turn: a zero or oversized length emits an error and leaves the loop. */
  function Check(c: Control, events: seq<Event>, limit: nat): Turn {
    if c.expected == 0 || c.expected > limit
    then Turn(c, events + [ParseError], true)
    else Turn(c, events, false)
  }

  function Consume(c: Control, taken: seq<byte>, limit: nat): (t: Turn)
    requires |taken| == c.Needed()
    ensures !t.halt ==> 0 < t.control.Needed()
    ensures t.halt <==> ParseError in t.events
  {
    match c.phase
    case AwaitHeader =>
      var length := taken[0] % 128;
      var phase := if length < 126 then AwaitPayload else if length == 126 then AwaitLength16 else AwaitLength64;
      Check(Control(phase, length, taken[0] >= 128), [], limit)
    case AwaitLength16 =>
      Check(Control(AwaitPayload, FromBigEndian(taken), c.binary), [], limit)
    case AwaitLength64 =>
      var high := FromBigEndian(taken[..4]);
      if high > TWO_POW_21 - 1 then Turn(c, [ParseError], true)
      else Check(Control(AwaitPayload, high * TWO_POW_32 + FromBigEndian(taken[4..]), c.binary), [], limit)
    case AwaitPayload =>
      Check(Control(AwaitHeader, c.expected, c.binary), [Message(taken, c.binary)], limit)
  }

  // ---------------------------------------------------------------------------------------------
  // The reference decoder: the same turns over one flat buffer
  // ---------------------------------------------------------------------------------------------

  datatype Parsed = Parsed(control: Control, rest: seq<byte>, events: seq<Event>, halted: bool) {
    function After(earlier: seq<Event>): Parsed {
      this.(events := earlier + events)
    }
  }

  function Parse(c: Control, buffer: seq<byte>, limit: nat): Parsed
    requires 0 <= c.Needed()
    decreases |buffer|
  {
    var n := c.Needed();
    if |buffer| < n then Parsed(c, buffer, [], false)
    else
      var t := Consume(c, buffer[..n], limit);
      if t.halt then Parsed(t.control, buffer[n..], t.events, true)
      else Parse(t.control, buffer[n..], limit).After(t.events)
  }

  function Resume(t: Turn, rest: seq<byte>, limit: nat): Parsed
    requires !t.halt ==> 0 <= t.control.Needed()
  {
    if t.halt then Parsed(t.control, rest, t.events, true) else Parse(t.control, rest, limit).After(t.events)
  }

  lemma ParseTurn(c: Control, taken: seq<byte>, rest: seq<byte>, limit: nat)
    requires |taken| == c.Needed()
    ensures Parse(c, taken + rest, limit) == Resume(Consume(c, taken, limit), rest, limit)
  {
    assert (taken + rest)[..|taken|] == taken && (taken + rest)[|taken|..] == rest;
  }

  lemma ResumeCheck(c: Control, rest: seq<byte>, limit: nat)
    requires 0 < c.Needed()
    ensures var r := Resume(Check(c, [], limit), rest, limit);
            if 1 <= c.expected <= limit then r == Parse(c, rest, limit)
            else (c.expected == 0 || c.expected > limit ==> r.halted && r.events == [ParseError])
  {
    if !Check(c, [], limit).halt {
      var p := Parse(c, rest, limit);
      assert [] + p.events == p.events;
    }
  }

  /** Parsing can be suspended after any prefix of the input. */
  lemma {:induction false} ParseInTwoParts(c: Control, a: seq<byte>, b: seq<byte>, limit: nat)
    requires 0 <= c.Needed()
    ensures var p := Parse(c, a, limit);
            && 0 <= p.control.Needed()
            && Parse(c, a + b, limit) ==
               if p.halted then p.(rest := p.rest + b)
               else Parse(p.control, p.rest + b, limit).After(p.events)
    decreases |a|
  {
    var n := c.Needed();
    if |a| < n {
      var q := Parse(c, a + b, limit);
      assert [] + q.events == q.events;
    } else {
      assert (a + b)[..n] == a[..n] && (a + b)[n..] == a[n..] + b;
      var t := Consume(c, a[..n], limit);
      if !t.halt {
        ParseInTwoParts(t.control, a[n..], b, limit);
        var p := Parse(t.control, a[n..], limit);
        if !p.halted {
          var q := Parse(p.control, p.rest + b, limit);
          assert t.events + (p.events + q.events) == (t.events + p.events) + q.events;
        }
      }
    }
  }

  /** What the decoder can deliver under its limit, judged from the payload's length alone. */
  predicate Deliverable(p: Packet, limit: nat) {
    1 <= |p.payload| <= limit && |p.payload| < TWO_POW_53
  }

  function Messages(packets: seq<Packet>): (m: seq<Event>)
    ensures |m| == |packets|
    ensures forall i | 0 <= i < |m| :: m[i] == Message(packets[i].payload, packets[i].binary)
  {
    seq(|packets|, i requires 0 <= i < |packets| => Message(packets[i].payload, packets[i].binary))
  }

  lemma Power256Values()
    ensures Power256(2) == 65536 && Power256(4) == TWO_POW_32 && Power256(8) == TWO_POW_64
  {
    assert Power256(4) == 256 * (256 * Power256(2));
    assert Power256(8) == 256 * (256 * (256 * (256 * Power256(4))));
  }

  /** The nine-byte form reads back the length, or refuses it when it does not fit 53 bits. */
  lemma ConsumeLength64(c: Control, length: nat, limit: nat)
    requires c.phase == AwaitLength64 && length < TWO_POW_64
    ensures var t := Consume(c, ToBigEndian(length, 8), limit);
            t == if length < TWO_POW_53 then Check(Control(AwaitPayload, length, c.binary), [], limit)
                 else Turn(c, [ParseError], true)
  {
    Power256Values();
    BigEndianRoundTrip(length, 8);
    var bytes := ToBigEndian(length, 8);
    assert bytes == bytes[..4] + bytes[4..];
    FromBigEndianHalves(bytes[..4], bytes[4..]);
    FromBigEndianBound(bytes[4..]);
    assert TWO_POW_53 == TWO_POW_21 * TWO_POW_32;
  }

  /** After its header, a frame of a deliverable packet leaves the decoder waiting for the payload;
      any other packet makes it emit an error and nothing else. */
  ghost predicate HeaderRead(c: Control, p: Packet, rest: seq<byte>, limit: nat)
    requires c.phase == AwaitHeader
  {
    var r := Parse(c, Header(|p.payload|, p.binary) + rest, limit);
    if Deliverable(p, limit)
    then r == Parse(Control(AwaitPayload, |p.payload|, p.binary), rest, limit)
    else r.halted && r.events == [ParseError]
  }

  /** The marker of an extended length is itself tested against the limit. */
  lemma ConsumeMarker(c: Control, marker: byte, binary: bool, limit: nat)
    requires c.phase == AwaitHeader && marker in {126, 127}
    ensures Consume(c, [(if binary then 128 else 0) + marker], limit)
         == Check(Control(if marker == 126 then AwaitLength16 else AwaitLength64, marker, binary), [], limit)
  {
  }

  lemma ParseShortHeader(c: Control, p: Packet, rest: seq<byte>, limit: nat)
    requires c.phase == AwaitHeader && |p.payload| < 126
    ensures HeaderRead(c, p, rest, limit)
  {
    var h := Header(|p.payload|, p.binary);
    ParseTurn(c, h, rest, limit);
    var waiting := Control(AwaitPayload, |p.payload|, p.binary);
    assert Consume(c, h, limit) == Check(waiting, [], limit);
    if p.payload != [] {
      ResumeCheck(waiting, rest, limit);
    }
  }

  /** What the decoder does once it has read the extended length. */
  lemma ParseExtendedLength(waiting: Control, p: Packet, length: seq<byte>, rest: seq<byte>, limit: nat)
    requires waiting.phase in {AwaitLength16, AwaitLength64}
    requires |length| == waiting.Needed() && p.payload != []
    requires Consume(waiting, length, limit)
             == if |p.payload| < TWO_POW_53 then Check(Control(AwaitPayload, |p.payload|, p.binary), [], limit)
                else Turn(waiting, [ParseError], true)
    ensures var r := Parse(waiting, length + rest, limit);
            if Deliverable(p, limit)
            then r == Parse(Control(AwaitPayload, |p.payload|, p.binary), rest, limit)
            else r.halted && r.events == [ParseError]
  {
    ParseTurn(waiting, length, rest, limit);
    ResumeCheck(Control(AwaitPayload, |p.payload|, p.binary), rest, limit);
  }

  lemma ParseMarker(c: Control, marker: byte, binary: bool, more: seq<byte>, limit: nat)
    requires c.phase == AwaitHeader && marker in {126, 127}
    ensures var r := Parse(c, [(if binary then 128 else 0) + marker] + more, limit);
            var waiting := Control(if marker == 126 then AwaitLength16 else AwaitLength64, marker, binary);
            if marker <= limit then r == Parse(waiting, more, limit) else r.halted && r.events == [ParseError]
  {
    ParseTurn(c, [(if binary then 128 else 0) + marker], more, limit);
    ConsumeMarker(c, marker, binary, limit);
    ResumeCheck(Control(if marker == 126 then AwaitLength16 else AwaitLength64, marker, binary), more, limit);
  }

  lemma ParseFrameHeader(c: Control, p: Packet, rest: seq<byte>, limit: nat)
    requires c.phase == AwaitHeader && |p.payload| < TWO_POW_64
    ensures HeaderRead(c, p, rest, limit)
  {
    var size := |p.payload|;
    if size < 126 {
      ParseShortHeader(c, p, rest, limit);
    } else {
      var marker := if size < 65536 then 126 else 127;
      var length := ToBigEndian(size, if size < 65536 then 2 else 8);
      var first: byte := (if p.binary then 128 else 0) + marker;
      assert Header(size, p.binary) + rest == [first] + (length + rest);
      ParseMarker(c, marker, p.binary, length + rest, limit);
      ReadExtendedLength(p, rest, limit);
    }
  }

  lemma ReadExtendedLength(p: Packet, rest: seq<byte>, limit: nat)
    requires 126 <= |p.payload| < TWO_POW_64
    ensures var size := |p.payload|;
            var waiting := if size < 65536 then Control(AwaitLength16, 126, p.binary)
                           else Control(AwaitLength64, 127, p.binary);
            var length := ToBigEndian(size, if size < 65536 then 2 else 8);
            var r := Parse(waiting, length + rest, limit);
            if Deliverable(p, limit)
            then r == Parse(Control(AwaitPayload, size, p.binary), rest, limit)
            else r.halted && r.events == [ParseError]
  {
    var size := |p.payload|;
    if size < 65536 {
      Power256Values();
      BigEndianRoundTrip(size, 2);
      ParseExtendedLength(Control(AwaitLength16, 126, p.binary), p, ToBigEndian(size, 2), rest, limit);
    } else {
      ConsumeLength64(Control(AwaitLength64, 127, p.binary), size, limit);
      ParseExtendedLength(Control(AwaitLength64, 127, p.binary), p, ToBigEndian(size, 8), rest, limit);
    }
  }

  /** A whole frame. */
  lemma ParseFrame(c: Control, p: Packet, rest: seq<byte>, limit: nat)
    requires c.phase == AwaitHeader && |p.payload| < TWO_POW_64
    ensures var r := Parse(c, Frame(p) + rest, limit);
            if Deliverable(p, limit)
            then r == Parse(Control(AwaitHeader, |p.payload|, p.binary), rest, limit)
                      .After([Message(p.payload, p.binary)])
            else r.halted && r.events == [ParseError]
  {
    assert Frame(p) + rest == Header(|p.payload|, p.binary) + (p.payload + rest);
    ParseFrameHeader(c, p, p.payload + rest, limit);
    ParseTurn(Control(AwaitPayload, |p.payload|, p.binary), p.payload, rest, limit);
  }

  predicate FitsHeader(packets: seq<Packet>) {
    forall p | p in packets :: |p.payload| < TWO_POW_64
  }

  /** The leading packets that can all be delivered. */
  function DeliverablePrefix(packets: seq<Packet>, limit: nat): (k: nat)
    ensures k <= |packets|
    ensures forall i | 0 <= i < k :: Deliverable(packets[i], limit)
    ensures k < |packets| ==> !Deliverable(packets[k], limit)
  {
    if packets == [] || !Deliverable(packets[0], limit) then 0
    else 1 + DeliverablePrefix(packets[1..], limit)
  }

  /** All messages and a clean end, or the messages up to the first undeliverable packet and an error. */
  predicate ReadsBack(r: Parsed, packets: seq<Packet>, limit: nat) {
    var k := DeliverablePrefix(packets, limit);
    if k == |packets|
    then r.control.phase == AwaitHeader && r.rest == [] && !r.halted && r.events == Messages(packets)
    else r.halted && r.events == Messages(packets[..k]) + [ParseError]
  }

  lemma MessagesCons(packets: seq<Packet>, k: nat)
    requires 0 < k <= |packets|
    ensures Messages(packets[..k])
         == [Message(packets[0].payload, packets[0].binary)] + Messages(packets[1..][..k - 1])
  {
    assert packets[..k] == [packets[0]] + packets[1..][..k - 1];
  }

  lemma ReadsBackCons(r: Parsed, q: Parsed, packets: seq<Packet>, limit: nat)
    requires packets != []
    requires Deliverable(packets[0], limit) ==>
               && ReadsBack(q, packets[1..], limit)
               && r == q.After([Message(packets[0].payload, packets[0].binary)])
    requires !Deliverable(packets[0], limit) ==> r.halted && r.events == [ParseError]
    ensures ReadsBack(r, packets, limit)
  {
    var rest := packets[1..];
    var k := DeliverablePrefix(packets, limit);
    if k > 0 {
      assert DeliverablePrefix(rest, limit) == k - 1;
      MessagesCons(packets, k);
      assert rest[..|rest|] == rest && packets[..|packets|] == packets;
    }
  }

  /** The flat decoder on the encoder's output. */
  lemma {:induction false} ParseWire(c: Control, packets: seq<Packet>, limit: nat)
    requires c.phase == AwaitHeader && FitsHeader(packets)
    ensures ReadsBack(Parse(c, Wire(packets), limit), packets, limit)
    decreases |packets|
  {
    if packets != [] {
      var p, rest := packets[0], packets[1..];
      ParseFrame(c, p, Wire(rest), limit);
      var next := Control(AwaitHeader, |p.payload|, p.binary);
      if Deliverable(p, limit) {
        ParseWire(next, rest, limit);
      }
      ReadsBackCons(Parse(c, Wire(packets), limit), Parse(next, Wire(rest), limit), packets, limit);
    }
  }

  // ---------------------------------------------------------------------------------------------
  // The shipped decoder: the same turns over a list of chunks
  // ---------------------------------------------------------------------------------------------

  function Total(chunks: seq<seq<byte>>): nat {
    if chunks == [] then 0 else |chunks[0]| + Total(chunks[1..])
  }

  function Flatten(chunks: seq<seq<byte>>): seq<byte> {
    if chunks == [] then [] else chunks[0] + Flatten(chunks[1..])
  }

  datatype Taken = Taken(bytes: seq<byte>, left: seq<seq<byte>>) {
    function After(earlier: seq<byte>): Taken {
      Taken(earlier + bytes, left)
    }
  }

  lemma AfterAfter(t: Taken, b: seq<byte>, a: seq<byte>)
    ensures t.After(b).After(a) == t.After(a + b)
  {
    assert a + (b + t.bytes) == (a + b) + t.bytes;
  }

  /** The byte loop of `Qt`. Reading past the end of an empty chunk yields `undefined`, which a
      Uint8Array stores as zero, and the cursor never equals the chunk's length again: from an empty
      chunk on, every byte is zero and nothing more is consumed. */
  function Fill(chunks: seq<seq<byte>>, n: nat): (t: Taken)
    requires Total(chunks) >= n
    ensures |t.bytes| == n
  {
    if n == 0 then Taken([], chunks)
    else if chunks[0] == [] then Taken(Zeros(n), chunks)
    else if n < |chunks[0]| then Taken(chunks[0][..n], [chunks[0][n..]] + chunks[1..])
    else var t := Fill(chunks[1..], n - |chunks[0]|); Taken(chunks[0] + t.bytes, t.left)
  }

  /** `Qt`: a first chunk of exactly the wanted size is handed over whole. */
  function Take(chunks: seq<seq<byte>>, n: nat): (t: Taken)
    requires chunks != [] && Total(chunks) >= n
    ensures |t.bytes| == n
  {
    if |chunks[0]| == n then Taken(chunks[0], chunks[1..]) else Fill(chunks, n)
  }

  lemma {:induction false} FillProgress(chunks: seq<seq<byte>>, n: nat)
    requires Total(chunks) >= n > 0
    ensures Total(Fill(chunks, n).left) <= Total(chunks)
    ensures chunks[0] != [] ==> Total(Fill(chunks, n).left) < Total(chunks)
    ensures chunks[0] == [] ==> Fill(chunks, n) == Taken(Zeros(n), chunks)
  {
    if chunks[0] != [] && n > |chunks[0]| {
      FillProgress(chunks[1..], n - |chunks[0]|);
    } else if chunks[0] != [] && n < |chunks[0]| {
      assert ([chunks[0][n..]] + chunks[1..])[1..] == chunks[1..];
    }
  }

  /** A turn that does not leave the loop consumes a byte, or moves from the payload to a header
      that will make it leave. */
  lemma TakeProgress(c: Control, chunks: seq<seq<byte>>, limit: nat)
    requires chunks != [] && Total(chunks) >= c.Needed() >= 0
    ensures var t := Take(chunks, c.Needed());
            !Consume(c, t.bytes, limit).halt ==>
              || Total(t.left) < Total(chunks)
              || (Total(t.left) == Total(chunks) && c.phase == AwaitPayload
                  && Consume(c, t.bytes, limit).control.phase != AwaitPayload)
  {
    var n := c.Needed();
    if n > 0 && |chunks[0]| != n {
      FillProgress(chunks, n);
      if chunks[0] == [] {
        FromBigEndianZeros(n);
        if c.phase == AwaitLength64 {
          assert Zeros(8)[..4] == Zeros(4) && Zeros(8)[4..] == Zeros(4);
          FromBigEndianZeros(4);
        }
      }
    }
  }

  datatype Decoded = Decoded(control: Control, held: seq<seq<byte>>, events: seq<Event>, halted: bool) {
    function After(earlier: seq<Event>): Decoded {
      this.(events := earlier + events)
    }
  }

  /** One call of the decoder's `transform`, after the chunk has been pushed. */
  function Drain(c: Control, chunks: seq<seq<byte>>, limit: nat): (d: Decoded)
    requires 0 <= c.Needed() && (c.Needed() == 0 ==> chunks != [])
    ensures 0 <= d.control.Needed()
    ensures d.halted <==> ParseError in d.events
    ensures !d.halted ==> Total(d.held) < d.control.Needed()
    decreases Total(chunks), if c.phase == AwaitPayload then 1 else 0
  {
    var n := c.Needed();
    if Total(chunks) < n then Decoded(c, chunks, [], false)
    else
      var taken := Take(chunks, n);
      var t := Consume(c, taken.bytes, limit);
      if t.halt then Decoded(t.control, taken.left, t.events, true)
      else
        TakeProgress(c, chunks, limit);
        Drain(t.control, taken.left, limit).After(t.events)
  }

  lemma DecodedAfter(d: Decoded, later: seq<Event>, earlier: seq<Event>)
    ensures d.After(later).After(earlier) == d.After(earlier + later)
  {
    assert earlier + (later + d.events) == (earlier + later) + d.events;
  }

  /** The whole stream, one `transform` after another; an error does not stop later calls. */
  function DecodeAll(c: Control, held: seq<seq<byte>>, chunks: seq<seq<byte>>, limit: nat): (d: Decoded)
    requires 0 <= c.Needed()
    ensures d.halted <==> ParseError in d.events
    decreases |chunks|
  {
    if chunks == [] then Decoded(c, held, [], false)
    else
      var d := Drain(c, held + [chunks[0]], limit);
      var r := DecodeAll(d.control, d.held, chunks[1..], limit);
      Decoded(r.control, r.held, d.events + r.events, d.halted || r.halted)
  }

  /** The decoder object: its chunk list and control variables, and the queue it enqueues into. */
  class StreamDecoder {
    const limit: nat
    var chunks: seq<seq<byte>>
    var control: Control
    var emitted: seq<Event>

    ghost predicate Valid()
      reads this
    {
      0 <= control.Needed()
    }

    constructor (limit: nat)
      ensures Valid() && this.limit == limit
      ensures chunks == [] && control == INITIAL && emitted == []
    {
      this.limit, chunks, control, emitted := limit, [], INITIAL, [];
    }

    /** `Xt` */
    method BufferedBytes() returns (n: nat)
      ensures n == Total(chunks)
    {
      n := 0;
      for i := 0 to |chunks|
        invariant n + Total(chunks[i..]) == Total(chunks)
      {
        n := n + |chunks[i]|;
        assert chunks[i..][1..] == chunks[i + 1..];
      }
    }

    /** `Qt`: the fast path, or one byte at a time with a cursor into the first chunk. */
    method TakeBytes(n: nat) returns (bytes: seq<byte>)
      requires chunks != [] && Total(chunks) >= n
      modifies this`chunks
      ensures Take(old(chunks), n) == Taken(bytes, chunks)
    {
      if |chunks[0]| == n {
        bytes, chunks := chunks[0], chunks[1..];
        return;
      }
      bytes := [];
      var list, cursor := chunks, 0;
      ghost var goal := Fill(chunks, n);
      while |bytes| < n
        invariant Reading(list, cursor, bytes, n, goal)
      {
        ReadOneByte(list, cursor, bytes, n, goal);
        bytes := bytes + [if cursor < |list[0]| then list[0][cursor] else 0];
        cursor := cursor + 1;
        if cursor == |list[0]| {
          list, cursor := list[1..], 0;
        }
      }
      ReadingDone(list, cursor, bytes, n, goal);
      if list != [] && cursor < |list[0]| {
        list := [list[0][cursor..]] + list[1..];
      }
      chunks := list;
    }

    /** The decoder's `transform`. */
    method Transform(chunk: seq<byte>)
      requires Valid()
      modifies this`chunks, this`control, this`emitted
      ensures Valid()
      ensures var d := Drain(old(control), old(chunks) + [chunk], limit);
              control == d.control && chunks == d.held && emitted == old(emitted) + d.events
    {
      chunks := chunks + [chunk];
      ghost var all := Drain(control, chunks, limit).After(old(emitted));
      while true
        invariant Valid() && (control.Needed() == 0 ==> chunks != [])
        invariant all == Drain(control, chunks, limit).After(emitted)
        decreases Total(chunks), if control.phase == AwaitPayload then 1 else 0
      {
        var available := BufferedBytes();
        if available < control.Needed() {
          assert emitted + [] == emitted;
          break;
        }
        ghost var c, list := control, chunks;
        var bytes := TakeBytes(control.Needed());
        var turn := Consume(control, bytes, limit);
        TakeProgress(c, list, limit);
        if !turn.halt {
          DecodedAfter(Drain(turn.control, chunks, limit), turn.events, emitted);
        }
        control, emitted := turn.control, emitted + turn.events;
        if turn.halt {
          break;
        }
      }
    }
  }

  /** Either the cursor is inside the first chunk, or it has run past an empty one. */
  ghost predicate CursorOk(chunks: seq<seq<byte>>, cursor: nat) {
    cursor > 0 ==> chunks != [] && (cursor < |chunks[0]| || chunks[0] == [])
  }

  /** The chunk list as seen past the cursor. */
  ghost function Unread(chunks: seq<seq<byte>>, cursor: nat): seq<seq<byte>>
    requires CursorOk(chunks, cursor)
  {
    if cursor == 0 || chunks[0] == [] then chunks else [chunks[0][cursor..]] + chunks[1..]
  }

  /** The bytes read so far and the ones still to be read make up the goal. */
  ghost predicate Reading(list: seq<seq<byte>>, cursor: nat, bytes: seq<byte>, n: nat, goal: Taken) {
    && |bytes| <= n
    && CursorOk(list, cursor)
    && Total(Unread(list, cursor)) >= n - |bytes|
    && goal == Fill(Unread(list, cursor), n - |bytes|).After(bytes)
  }

  lemma ReadOneByte(list: seq<seq<byte>>, cursor: nat, bytes: seq<byte>, n: nat, goal: Taken)
    requires Reading(list, cursor, bytes, n, goal) && |bytes| < n
    ensures list != []
    ensures var next := if cursor < |list[0]| then list[0][cursor] else 0;
            if cursor + 1 == |list[0]| then Reading(list[1..], 0, bytes + [next], n, goal)
            else Reading(list, cursor + 1, bytes + [next], n, goal)
  {
    FillOneByte(Unread(list, cursor), n - |bytes|);
    FirstUnread(list, cursor);
    var next := if cursor < |list[0]| then list[0][cursor] else 0;
    var left := if cursor + 1 == |list[0]| then list[1..] else Unread(list, cursor + 1);
    AfterAfter(Fill(left, n - |bytes| - 1), [next], bytes);
  }

  lemma ReadingDone(list: seq<seq<byte>>, cursor: nat, bytes: seq<byte>, n: nat, goal: Taken)
    requires Reading(list, cursor, bytes, n, goal) && |bytes| == n
    ensures goal == Taken(bytes, if list != [] && cursor < |list[0]| then [list[0][cursor..]] + list[1..] else list)
  {
    assert bytes + [] == bytes;
    if list != [] && cursor == 0 {
      assert [list[0][0..]] + list[1..] == list;
    }
  }

  lemma FirstUnread(chunks: seq<seq<byte>>, cursor: nat)
    requires CursorOk(chunks, cursor) && Total(Unread(chunks, cursor)) >= 1
    ensures chunks != []
    ensures var next := if cursor < |chunks[0]| then chunks[0][cursor] else 0;
            var left := if cursor + 1 == |chunks[0]| then chunks[1..] else Unread(chunks, cursor + 1);
            Fill(Unread(chunks, cursor), 1) == Taken([next], left)
  {
    if chunks[0] == [] {
      assert Zeros(1) == [0];
    } else {
      var unread := Unread(chunks, cursor);
      var c := unread[0];
      assert c == chunks[0][cursor..] && unread[1..] == chunks[1..];
      if |c| > 1 {
        assert c[1..] == chunks[0][cursor + 1..] && c[..1] == [chunks[0][cursor]];
      } else {
        assert c + [] == [chunks[0][cursor]];
      }
    }
  }

  lemma FillOneByte(chunks: seq<seq<byte>>, n: nat)
    requires Total(chunks) >= n > 0
    ensures var one := Fill(chunks, 1);
            && Total(one.left) >= n - 1
            && Fill(chunks, n) == Fill(one.left, n - 1).After(one.bytes)
  {
    if chunks[0] == [] {
      assert Zeros(n) == Zeros(1) + Zeros(n - 1);
    } else {
      var c, tail := chunks[0], chunks[1..];
      if |c| == 1 {
        assert Fill(tail, 0) == Taken([], tail);
        assert c + [] == c;
      } else {
        var shorter := [c[1..]] + tail;
        assert shorter[1..] == tail && c == c[..1] + c[1..];
        if n < |c| {
          if n > 1 { assert c[..n] == c[..1] + c[1..][..n - 1] && c[1..][n - 1..] == c[n..]; }
        } else {
          var f := Fill(tail, n - |c|);
          assert c + f.bytes == c[..1] + (c[1..] + f.bytes);
        }
      }
    }
  }

  // ---------------------------------------------------------------------------------------------
  // The chunk list behaves like the flat buffer, as long as no chunk is empty
  // ---------------------------------------------------------------------------------------------

  predicate NoEmpty(chunks: seq<seq<byte>>) {
    [] !in chunks
  }

  lemma {:induction false} FlattenLength(chunks: seq<seq<byte>>)
    ensures |Flatten(chunks)| == Total(chunks)
  {
    if chunks != [] {
      FlattenLength(chunks[1..]);
    }
  }

  lemma {:induction false} FlattenConcat(a: seq<seq<byte>>, b: seq<seq<byte>>)
    ensures Flatten(a + b) == Flatten(a) + Flatten(b)
  {
    if a == [] {
      assert a + b == b;
    } else {
      assert (a + b)[1..] == a[1..] + b;
      FlattenConcat(a[1..], b);
    }
  }

  lemma {:induction false} FillIsPrefix(chunks: seq<seq<byte>>, n: nat)
    requires NoEmpty(chunks) && Total(chunks) >= n
    ensures var t := Fill(chunks, n);
            && NoEmpty(t.left)
            && |Flatten(chunks)| >= n
            && t.bytes == Flatten(chunks)[..n]
            && Flatten(t.left) == Flatten(chunks)[n..]
  {
    FlattenLength(chunks);
    if n > 0 {
      var c := chunks[0];
      if n < |c| {
        assert ([c[n..]] + chunks[1..])[1..] == chunks[1..];
      } else {
        FillIsPrefix(chunks[1..], n - |c|);
      }
    }
  }

  lemma TakeIsPrefix(chunks: seq<seq<byte>>, n: nat)
    requires chunks != [] && NoEmpty(chunks) && Total(chunks) >= n
    ensures var t := Take(chunks, n);
            && NoEmpty(t.left)
            && |Flatten(chunks)| >= n
            && t.bytes == Flatten(chunks)[..n]
            && Flatten(t.left) == Flatten(chunks)[n..]
  {
    FillIsPrefix(chunks, n);
    if |chunks[0]| == n {
      assert Fill(chunks[1..], 0) == Taken([], chunks[1..]);
      assert chunks[0] + [] == chunks[0];
    }
  }

  /** The list decoder, seen through `Flatten`, is the flat one. */
  ghost predicate Agrees(d: Decoded, p: Parsed) {
    && d.control == p.control && d.events == p.events && d.halted == p.halted
    && NoEmpty(d.held) && Flatten(d.held) == p.rest
  }

  lemma {:induction false} DrainIsParse(c: Control, chunks: seq<seq<byte>>, limit: nat)
    requires 0 <= c.Needed() && (c.Needed() == 0 ==> chunks != []) && NoEmpty(chunks)
    ensures Agrees(Drain(c, chunks, limit), Parse(c, Flatten(chunks), limit))
    decreases Total(chunks)
  {
    FlattenLength(chunks);
    var n := c.Needed();
    if Total(chunks) >= n {
      TakeIsPrefix(chunks, n);
      var taken := Take(chunks, n);
      FlattenLength(taken.left);
      if !Consume(c, taken.bytes, limit).halt {
        DrainIsParse(Consume(c, taken.bytes, limit).control, taken.left, limit);
      }
    }
  }

  /** Whatever the cut, the events are those of the flat decoder on the joined bytes, up to the
      first error; without an error the final states agree too. */
  lemma {:induction false} DecodeAllIsParse(c: Control, held: seq<seq<byte>>, chunks: seq<seq<byte>>, limit: nat)
    requires NoEmpty(held) && NoEmpty(chunks) && Total(held) < c.Needed()
    ensures var d := DecodeAll(c, held, chunks, limit);
            var p := Parse(c, Flatten(held) + Flatten(chunks), limit);
            && p.events <= d.events
            && (!p.halted ==> Agrees(d, p))
    decreases |chunks|
  {
    FlattenLength(held);
    if chunks == [] {
      assert Flatten(held) + Flatten(chunks) == Flatten(held);
    } else {
      var pushed, later := held + [chunks[0]], chunks[1..];
      FlattenConcat(held, [chunks[0]]);
      assert Flatten([chunks[0]]) == chunks[0];
      DrainIsParse(c, pushed, limit);
      assert Flatten(held) + Flatten(chunks) == Flatten(pushed) + Flatten(later);
      ParseInTwoParts(c, Flatten(pushed), Flatten(later), limit);
      var d := Drain(c, pushed, limit);
      if !d.halted {
        DecodeAllIsParse(d.control, d.held, later, limit);
        PrefixAfter(d.events, Parse(d.control, Flatten(d.held) + Flatten(later), limit).events,
                    DecodeAll(d.control, d.held, later, limit).events);
      }
    }
  }

  lemma PrefixAfter(a: seq<Event>, b: seq<Event>, c: seq<Event>)
    requires b <= c
    ensures a + b <= a + c
  {
    assert a + c == (a + b) + c[|b|..];
  }

  lemma NothingHeld(held: seq<seq<byte>>)
    requires NoEmpty(held)
    ensures Flatten(held) == [] ==> held == []
  {
    if held != [] {
      assert held[0] in held && |Flatten(held)| >= |held[0]|;
    }
  }

  /** What agreement with the flat decoder says about the events. */
  lemma FaithfulEvents(d: Decoded, p: Parsed, packets: seq<Packet>, limit: nat)
    requires p.events <= d.events && (!p.halted ==> Agrees(d, p)) && ReadsBack(p, packets, limit)
    ensures var k := DeliverablePrefix(packets, limit);
            if k == |packets|
            then d.events == Messages(packets) && d.control.phase == AwaitHeader && d.held == []
            else d.events != Messages(packets) && Messages(packets[..k]) + [ParseError] <= d.events
  {
    var k := DeliverablePrefix(packets, limit);
    if k == |packets| {
      NothingHeld(d.held);
    } else {
      assert d.events[k] == p.events[k] == ParseError;
      assert |d.events| == |packets| ==> Messages(packets)[k].Message?;
    }
  }

  lemma DeliverableThroughout(packets: seq<Packet>, limit: nat)
    ensures (forall p | p in packets :: Deliverable(p, limit)) <==> DeliverablePrefix(packets, limit) == |packets|
  {
    var k := DeliverablePrefix(packets, limit);
    if k < |packets| {
      assert packets[k] in packets;
    }
  }

  /** Exactly the packets sent, in order and with their binary flags, if and only if every payload is
      deliverable, and then back to waiting for a header with nothing buffered; otherwise the packets
      before the first undeliverable one and then an error. */
  ghost predicate DecodesFaithfully(d: Decoded, packets: seq<Packet>, limit: nat) {
    var deliverable := forall p | p in packets :: Deliverable(p, limit);
    var k := DeliverablePrefix(packets, limit);
    && (d.events == Messages(packets) <==> deliverable)
    && (deliverable ==> d.control.phase == AwaitHeader && d.held == [])
    && (!deliverable ==> k < |packets| && Messages(packets[..k]) + [ParseError] <= d.events)
  }

  /** MAIN RESULT. However the encoder's bytes are cut into non-empty chunks, the decoder decodes
      faithfully. */
  lemma AnyCutDecodes(packets: seq<Packet>, chunks: seq<seq<byte>>, limit: nat)
    requires FitsHeader(packets) && NoEmpty(chunks) && Flatten(chunks) == Wire(packets)
    ensures DecodesFaithfully(DecodeAll(INITIAL, [], chunks, limit), packets, limit)
  {
    assert Flatten([]) + Flatten(chunks) == Wire(packets);
    DecodeAllIsParse(INITIAL, [], chunks, limit);
    ParseWire(INITIAL, packets, limit);
    FaithfulEvents(DecodeAll(INITIAL, [], chunks, limit), Parse(INITIAL, Wire(packets), limit), packets, limit);
    DeliverableThroughout(packets, limit);
  }

  // ---------------------------------------------------------------------------------------------
  // Empty chunks
  // ---------------------------------------------------------------------------------------------

  /** An empty chunk with a non-empty one somewhere behind it. */
  ghost predicate HasGap(chunks: seq<seq<byte>>) {
    exists i, j | 0 <= i < j < |chunks| :: chunks[i] == [] && chunks[j] != []
  }

  lemma {:induction false} GapHoldsBytes(chunks: seq<seq<byte>>, j: nat)
    requires j < |chunks| && chunks[j] != []
    ensures Total(chunks) > 0
  {
    if j > 0 {
      GapHoldsBytes(chunks[1..], j - 1);
    }
  }

  lemma GapInTail(chunks: seq<seq<byte>>)
    requires chunks != [] && chunks[0] != [] && HasGap(chunks)
    ensures HasGap(chunks[1..])
  {
    var i, j :| 0 <= i < j < |chunks| && chunks[i] == [] && chunks[j] != [];
    assert chunks[1..][i - 1] == [] && chunks[1..][j - 1] != [];
  }

  lemma GapWithHead(c: seq<byte>, tail: seq<seq<byte>>)
    requires HasGap(tail)
    ensures HasGap([c] + tail)
  {
    var i, j :| 0 <= i < j < |tail| && tail[i] == [] && tail[j] != [];
    assert ([c] + tail)[i + 1] == [] && ([c] + tail)[j + 1] != [];
  }

  /** No read ever removes an empty chunk or closes a gap. */
  lemma {:induction false} FillKeepsEmpty(chunks: seq<seq<byte>>, n: nat)
    requires Total(chunks) >= n && [] in chunks
    ensures [] in Fill(chunks, n).left
    ensures HasGap(chunks) ==> HasGap(Fill(chunks, n).left)
  {
    if n > 0 && chunks[0] != [] {
      assert [] in chunks[1..];
      if HasGap(chunks) {
        GapInTail(chunks);
      }
      if n < |chunks[0]| {
        var left := [chunks[0][n..]] + chunks[1..];
        assert left[1..] == chunks[1..];
        if HasGap(chunks) {
          GapWithHead(chunks[0][n..], chunks[1..]);
        }
      } else {
        FillKeepsEmpty(chunks[1..], n - |chunks[0]|);
      }
    }
  }

  lemma TakeIsFill(chunks: seq<seq<byte>>, n: nat)
    requires chunks != [] && Total(chunks) >= n > 0
    ensures Take(chunks, n) == Fill(chunks, n)
  {
    if |chunks[0]| == n {
      assert Fill(chunks[1..], 0) == Taken([], chunks[1..]);
      assert chunks[0] + [] == chunks[0];
    }
  }

  lemma {:induction false} DrainKeepsEmpty(c: Control, chunks: seq<seq<byte>>, limit: nat)
    requires 0 < c.Needed() && [] in chunks && !Drain(c, chunks, limit).halted
    ensures var d := Drain(c, chunks, limit);
            && 0 < d.control.Needed()
            && [] in d.held
            && (HasGap(chunks) ==> HasGap(d.held))
    decreases Total(chunks), if c.phase == AwaitPayload then 1 else 0
  {
    var n := c.Needed();
    if Total(chunks) >= n {
      TakeIsFill(chunks, n);
      FillKeepsEmpty(chunks, n);
      TakeProgress(c, chunks, limit);
      var taken := Take(chunks, n);
      DrainKeepsEmpty(Consume(c, taken.bytes, limit).control, taken.left, limit);
    }
  }

  lemma {:induction false} DrainKeepsNeeding(c: Control, chunks: seq<seq<byte>>, limit: nat)
    requires 0 < c.Needed() && !Drain(c, chunks, limit).halted
    ensures 0 < Drain(c, chunks, limit).control.Needed()
    decreases Total(chunks), if c.phase == AwaitPayload then 1 else 0
  {
    if Total(chunks) >= c.Needed() {
      TakeProgress(c, chunks, limit);
      var taken := Take(chunks, c.Needed());
      DrainKeepsNeeding(Consume(c, taken.bytes, limit).control, taken.left, limit);
    }
  }

  lemma GapAfterDrain(c: Control, held: seq<seq<byte>>, chunks: seq<seq<byte>>, limit: nat)
    requires 0 < c.Needed() && chunks != [] && HasGap(held + chunks) && !Drain(c, held + [chunks[0]], limit).halted
    ensures HasGap(Drain(c, held + [chunks[0]], limit).held + chunks[1..])
  {
    var pushed, later := held + [chunks[0]], chunks[1..];
    assert held + chunks == pushed + later;
    var i, j :| 0 <= i < j < |pushed + later| && (pushed + later)[i] == [] && (pushed + later)[j] != [];
    GapMoves(pushed, later, i, j, c, limit);
  }

  /** Once a gap has been fed, a stream without errors holds bytes back for ever. */
  lemma {:induction false} GapIsKept(c: Control, held: seq<seq<byte>>, chunks: seq<seq<byte>>, limit: nat)
    requires 0 < c.Needed() && HasGap(held + chunks) && !DecodeAll(c, held, chunks, limit).halted
    ensures HasGap(DecodeAll(c, held, chunks, limit).held)
    decreases |chunks|
  {
    if chunks == [] {
      assert held + chunks == held;
    } else {
      var d := Drain(c, held + [chunks[0]], limit);
      GapAfterDrain(c, held, chunks, limit);
      DrainKeepsNeeding(c, held + [chunks[0]], limit);
      GapIsKept(d.control, d.held, chunks[1..], limit);
    }
  }

  lemma GapMoves(pushed: seq<seq<byte>>, later: seq<seq<byte>>, i: nat, j: nat, c: Control, limit: nat)
    requires i < j < |pushed + later| && (pushed + later)[i] == [] && (pushed + later)[j] != []
    requires 0 < c.Needed() && !Drain(c, pushed, limit).halted
    ensures HasGap(Drain(c, pushed, limit).held + later)
  {
    var d := Drain(c, pushed, limit);
    if i >= |pushed| {
      var m := |d.held| - |pushed|;
      assert (d.held + later)[i + m] == [] && (d.held + later)[j + m] != [];
    } else {
      assert pushed[i] == [];
      DrainKeepsEmpty(c, pushed, limit);
      if j < |pushed| {
        assert pushed[j] != [];
        var x, y :| 0 <= x < y < |d.held| && d.held[x] == [] && d.held[y] != [];
        assert (d.held + later)[x] == [] && (d.held + later)[y] != [];
      } else {
        var x :| 0 <= x < |d.held| && d.held[x] == [];
        assert (d.held + later)[x] == [] && (d.held + later)[j - |pushed| + |d.held|] != [];
      }
    }
  }

  ghost predicate AllEmpty(chunks: seq<seq<byte>>) {
    forall i | 0 <= i < |chunks| :: chunks[i] == []
  }

  /** Empty chunks at the very end are harmless. */
  lemma {:induction false} TrailingEmpty(c: Control, held: seq<seq<byte>>, chunks: seq<seq<byte>>, limit: nat)
    requires Total(held) == 0 && 0 < c.Needed() && AllEmpty(chunks)
    ensures var d := DecodeAll(c, held, chunks, limit);
            d.control == c && Total(d.held) == 0 && d.events == []
    decreases |chunks|
  {
    if chunks != [] {
      var pushed := held + [chunks[0]];
      TotalOfEmpty(held, chunks[0]);
      assert Drain(c, pushed, limit) == Decoded(c, pushed, [], false);
      TrailingEmpty(c, pushed, chunks[1..], limit);
    }
  }

  lemma {:induction false} TotalOfEmpty(held: seq<seq<byte>>, c: seq<byte>)
    requires Total(held) == 0 && c == []
    ensures Total(held + [c]) == 0
  {
    if held != [] {
      assert (held + [c])[1..] == held[1..] + [c];
      TotalOfEmpty(held[1..], c);
    }
  }

  lemma {:induction false} DecodeAllInTwoParts(c: Control, held: seq<seq<byte>>, a: seq<seq<byte>>,
      b: seq<seq<byte>>, limit: nat)
    requires 0 <= c.Needed()
    ensures var d := DecodeAll(c, held, a, limit);
            && 0 <= d.control.Needed()
            && var e := DecodeAll(d.control, d.held, b, limit);
               DecodeAll(c, held, a + b, limit) == Decoded(e.control, e.held, d.events + e.events, d.halted || e.halted)
    decreases |a|
  {
    if a == [] {
      assert a + b == b;
      var e := DecodeAll(c, held, b, limit);
      assert [] + e.events == e.events;
    } else {
      assert (a + b)[0] == a[0] && (a + b)[1..] == a[1..] + b;
      var d := Drain(c, held + [a[0]], limit);
      DecodeAllInTwoParts(d.control, d.held, a[1..], b, limit);
      var r := DecodeAll(d.control, d.held, a[1..], limit);
      var e := DecodeAll(r.control, r.held, b, limit);
      assert d.events + (r.events + e.events) == (d.events + r.events) + e.events;
    }
  }

  function LeadingNonEmpty(chunks: seq<seq<byte>>): (k: nat)
    ensures k <= |chunks| && NoEmpty(chunks[..k])
    ensures k < |chunks| ==> chunks[k] == []
  {
    if chunks == [] || chunks[0] == [] then 0 else 1 + LeadingNonEmpty(chunks[1..])
  }

  lemma {:induction false} FlattenOfEmpty(chunks: seq<seq<byte>>)
    requires AllEmpty(chunks)
    ensures Flatten(chunks) == []
  {
    if chunks != [] {
      FlattenOfEmpty(chunks[1..]);
    }
  }

  lemma NoGapDecodes(packets: seq<Packet>, chunks: seq<seq<byte>>, limit: nat)
    requires FitsHeader(packets) && Flatten(chunks) == Wire(packets) && !HasGap(chunks)
    requires forall p | p in packets :: Deliverable(p, limit)
    ensures var d := DecodeAll(INITIAL, [], chunks, limit);
            d.events == Messages(packets) && d.control.phase == AwaitHeader && Total(d.held) == 0
  {
    var k := LeadingNonEmpty(chunks);
    var front, back := chunks[..k], chunks[k..];
    assert chunks == front + back;
    forall m | 0 <= m < |back| ensures back[m] == [] {
      assert chunks[k] == [] && chunks[k + m] == back[m];
    }
    FlattenConcat(front, back);
    FlattenOfEmpty(back);
    assert Flatten(front) + [] == Flatten(front);
    AnyCutDecodes(packets, front, limit);
    DecodeAllInTwoParts(INITIAL, [], front, back, limit);
    var f := DecodeAll(INITIAL, [], front, limit);
    TrailingEmpty(f.control, f.held, back, limit);
    assert f.events + [] == f.events;
  }

  /** MAIN RESULT. For deliverable packets, a cut that may contain empty chunks is decoded
      faithfully, with nothing left over, if and only if no empty chunk comes before a non-empty
      one: the byte loop of `Qt` cannot step over an empty chunk. */
  lemma EmptyChunksBreakDecoding(packets: seq<Packet>, chunks: seq<seq<byte>>, limit: nat)
    requires FitsHeader(packets) && Flatten(chunks) == Wire(packets)
    requires forall p | p in packets :: Deliverable(p, limit)
    ensures var d := DecodeAll(INITIAL, [], chunks, limit);
            (d.events == Messages(packets) && d.control.phase == AwaitHeader && Total(d.held) == 0)
            <==> !HasGap(chunks)
  {
    var d := DecodeAll(INITIAL, [], chunks, limit);
    if !HasGap(chunks) {
      NoGapDecodes(packets, chunks, limit);
    } else if !d.halted {
      assert [] + chunks == chunks;
      GapIsKept(INITIAL, [], chunks, limit);
      var i, j :| 0 <= i < j < |d.held| && d.held[i] == [] && d.held[j] != [];
      GapHoldsBytes(d.held, j);
    }
  }

  /** A stream of chunks piped through a fresh decoder object. */
  method PipeThrough(chunks: seq<seq<byte>>, limit: nat) returns (events: seq<Event>)
    ensures events == DecodeAll(INITIAL, [], chunks, limit).events
  {
    var d := new StreamDecoder(limit);
    for i := 0 to |chunks|
      invariant d.Valid() && d.limit == limit
      invariant var r := DecodeAll(INITIAL, [], chunks[..i], limit);
                d.control == r.control && d.chunks == r.held && d.emitted == r.events
    {
      DecodeAllInTwoParts(INITIAL, [], chunks[..i], [chunks[i]], limit);
      assert chunks[..i + 1] == chunks[..i] + [chunks[i]];
      DecodeOne(d.control, d.chunks, chunks[i], limit);
      d.Transform(chunks[i]);
    }
    assert chunks[..|chunks|] == chunks;
    events := d.emitted;
  }

  lemma DecodeOne(c: Control, held: seq<seq<byte>>, chunk: seq<byte>, limit: nat)
    requires 0 <= c.Needed()
    ensures DecodeAll(c, held, [chunk], limit) == Drain(c, held + [chunk], limit)
  {
    var d := Drain(c, held + [chunk], limit);
    assert d.events + [] == d.events;
  }
}
