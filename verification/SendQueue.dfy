/** The write queue of the bundled Engine.IO socket and the size of a polling payload
    (api/mods/reference/entry.1c0Ptbnq.js, lines 2899-2907, 3049-3057, 3754-3785 and 3835-3845). */
module SendQueue {

  type byte = b: int | 0 <= b < 256
  type unit = u: int | 0 <= u < 65536
  type codepoint = c: int | 0 <= c < 0x110000

  // ---------------------------------------------------------------------------------------------
  // UTF-16 strings and their UTF-8 size
  // ---------------------------------------------------------------------------------------------

  predicate IsHigh(u: unit) { 0xD800 <= u < 0xDC00 }
  predicate IsLow(u: unit) { 0xDC00 <= u < 0xE000 }

  /** Every surrogate is part of a high-low pair. */
  predicate WellFormed(s: seq<unit>) {
    if s == [] then true
    else if IsHigh(s[0]) then |s| > 1 && IsLow(s[1]) && WellFormed(s[2..])
    else !IsLow(s[0]) && WellFormed(s[1..])
  }

  function CodePoints(s: seq<unit>): seq<codepoint>
    requires WellFormed(s)
  {
    if s == [] then []
    else if IsHigh(s[0]) then [0x10000 + (s[0] - 0xD800) * 0x400 + (s[1] - 0xDC00)] + CodePoints(s[2..])
    else [s[0]] + CodePoints(s[1..])
  }

  /** The encoding of section 3 of RFC 3629. */
  function Utf8(c: codepoint): seq<byte> {
    if c < 0x80 then [c]
    else if c < 0x800 then [0xC0 + c / 64, 0x80 + c % 64]
    else if c < 0x10000 then [0xE0 + c / 4096, 0x80 + c / 64 % 64, 0x80 + c % 64]
    else [0xF0 + c / 262144, 0x80 + c / 4096 % 64, 0x80 + c / 64 % 64, 0x80 + c % 64]
  }

  function Utf8All(cs: seq<codepoint>): seq<byte> {
    if cs == [] then [] else Utf8(cs[0]) + Utf8All(cs[1..])
  }

  /** What `fa` adds up from index `i` on: any surrogate counts four and swallows the next unit. */
  function CountFrom(s: seq<unit>, i: nat): nat
    decreases |s| - i
  {
    if i >= |s| then 0
    else if s[i] < 0x80 then 1 + CountFrom(s, i + 1)
    else if s[i] < 0x800 then 2 + CountFrom(s, i + 1)
    else if s[i] < 0xD800 || s[i] >= 0xE000 then 3 + CountFrom(s, i + 1)
    else 4 + CountFrom(s, i + 2)
  }

  /** `fa` */
  method Utf8Length(s: seq<unit>) returns (n: nat)
    ensures n == CountFrom(s, 0)
    ensures WellFormed(s) ==> n == |Utf8All(CodePoints(s))|
  {
    n := 0;
    var i := 0;
    while i < |s|
      invariant n + CountFrom(s, i) == CountFrom(s, 0)
    {
      var c := s[i];
      if c < 0x80 {
        n := n + 1;
      } else if c < 0x800 {
        n := n + 2;
      } else if c < 0xD800 || c >= 0xE000 {
        n := n + 3;
      } else {
        i, n := i + 1, n + 4;
      }
      i := i + 1;
    }
    if WellFormed(s) {
      CountIsUtf8Size(s, 0);
    }
  }

  /** On well-formed text the running count is the size of the UTF-8 encoding. */
  lemma {:induction false} CountIsUtf8Size(s: seq<unit>, i: nat)
    requires i <= |s| && WellFormed(s[i..])
    ensures CountFrom(s, i) == |Utf8All(CodePoints(s[i..]))|
    decreases |s| - i
  {
    if i < |s| {
      var rest := s[i..];
      if IsHigh(rest[0]) {
        assert rest[2..] == s[i + 2..];
        CountIsUtf8Size(s, i + 2);
      } else {
        assert rest[1..] == s[i + 1..];
        CountIsUtf8Size(s, i + 1);
      }
    }
  }

  // ---------------------------------------------------------------------------------------------
  // Packets and batches
  // ---------------------------------------------------------------------------------------------

  /** `Bytes` is an ArrayBuffer or a view of one, `Blob` is a blob or a file. */
  datatype Data = NoData | Text(units: seq<unit>) | Bytes(length: nat) | Blob(size: nat)

  datatype Packet = Packet(kind: byte, data: Data)

  /** A JavaScript number that is only ever added to. */
  datatype Count = NaN | Number(value: nat)

  function Plus(a: Count, b: Count): Count {
    if a.NaN? || b.NaN? then NaN else Number(a.value + b.value)
  }

  /** `count > limit`, which is false of NaN. */
  predicate Exceeds(count: Count, limit: int) {
    count.Number? && count.value > limit
  }

  /** `Math.ceil(length * 1.33)` */
  function CeilEstimate(length: nat): nat {
    (133 * length + 99) / 100
  }

  /** `aa`, with the test in front of it: missing data and the empty string are falsy and add nothing.
      An empty ArrayBuffer is not: its length 0 is falsy, it has no `size`, and the product is NaN. */
  function DataSize(d: Data): Count {
    match d
    case NoData => Number(0)
    case Text(units) => Number(CountFrom(units, 0))
    case Bytes(length) => if length == 0 then NaN else Number(CeilEstimate(length))
    case Blob(size) => Number(CeilEstimate(size))
  }

  /** The size of the base64 text of `length` bytes. */
  function Base64Size(length: nat): nat {
    4 * ((length + 2) / 3)
  }

  /** The size of one packet in a polling payload: a type character (or the `b` of a binary packet)
      and the data, as UTF-8 text or as base64. */
  function EncodedSize(p: Packet): nat
    requires p.data.Text? ==> WellFormed(p.data.units)
  {
    1 + match p.data
        case NoData => 0
        case Text(units) => |Utf8All(CodePoints(units))|
        case Bytes(length) => Base64Size(length)
        case Blob(size) => Base64Size(size)
  }

  predicate TextOk(batch: seq<Packet>) {
    forall i | 0 <= i < |batch| :: batch[i].data.Text? ==> WellFormed(batch[i].data.units)
  }

  /** The packets joined by the one-byte separator U+001E. */
  function PayloadSize(batch: seq<Packet>): nat
    requires TextOk(batch)
  {
    if batch == [] then 0
    else
      var front := batch[..|batch| - 1];
      PayloadSize(front) + (if front == [] then 0 else 1) + EncodedSize(batch[|batch| - 1])
  }

  /** The count `_getWritablePackets` compares with the limit after it has added the last packet. */
  function Estimate(batch: seq<Packet>): Count {
    if batch == [] then Number(0)
    else
      var front := batch[..|batch| - 1];
      Plus(Plus(Estimate(front), Number(if front == [] then 1 else 2)), DataSize(batch[|batch| - 1].data))
  }

  /** The data whose size the estimate gets right: text, and some binary lengths. */
  predicate Exact(d: Data) {
    match d
    case NoData => true
    case Text(_) => true
    case Bytes(length) => 0 < length < 300 && length % 3 == 0
    case Blob(size) => size < 300 && size % 3 == 0
  }

  predicate AllExact(batch: seq<Packet>) {
    forall i | 0 <= i < |batch| :: Exact(batch[i].data)
  }

  /** An empty ArrayBuffer is among the packets. */
  predicate Poisoned(batch: seq<Packet>) {
    exists i | 0 <= i < |batch| :: batch[i].data == Bytes(0)
  }

  lemma CeilEstimateIsBase64(length: nat)
    ensures CeilEstimate(length) <= Base64Size(length)
    ensures CeilEstimate(length) == Base64Size(length) <==> length % 3 == 0 && length < 300
  {
    var q, c := (length + 2) / 3, CeilEstimate(length);
    var r := 3 * q - length;
    assert 0 <= r <= 2 && length == 3 * q - r;
    assert 133 * length <= 100 * c <= 133 * length + 99;
    assert length % 3 == 0 <==> r == 0;
    assert 100 * c <= 399 * q - 133 * r + 99;
  }

  /** The estimate of binary data is NaN exactly for an empty ArrayBuffer; otherwise it never exceeds
      the base64 size, and it is right exactly for the multiples of three below three hundred. */
  lemma BinaryEstimate(d: Data)
    requires d.Bytes? || d.Blob?
    ensures var base64 := Base64Size(if d.Bytes? then d.length else d.size);
            && (DataSize(d).NaN? <==> d == Bytes(0))
            && (DataSize(d).Number? ==> DataSize(d).value <= base64)
            && (DataSize(d) == Number(base64) <==> Exact(d))
  {
    CeilEstimateIsBase64(if d.Bytes? then d.length else d.size);
  }

  lemma OnePacket(p: Packet)
    requires p.data.Text? ==> WellFormed(p.data.units)
    ensures DataSize(p.data).NaN? <==> p.data == Bytes(0)
    ensures DataSize(p.data).Number? ==> DataSize(p.data).value + 1 <= EncodedSize(p)
    ensures Exact(p.data) <==> DataSize(p.data) == Number(EncodedSize(p) - 1)
  {
    match p.data
    case Text(units) => assert units[0..] == units; CountIsUtf8Size(units, 0);
    case NoData =>
    case _ => BinaryEstimate(p.data);
  }

  /** The count is NaN exactly when an empty ArrayBuffer is in the batch. Otherwise it never exceeds
      the size of the payload, and it is that size exactly when the estimate of each packet is. */
  lemma {:induction false} EstimateIsPayloadSize(batch: seq<Packet>)
    requires TextOk(batch)
    ensures Estimate(batch).NaN? <==> Poisoned(batch)
    ensures Estimate(batch).Number? ==> Estimate(batch).value <= PayloadSize(batch)
    ensures AllExact(batch) <==> Estimate(batch) == Number(PayloadSize(batch))
  {
    if batch != [] {
      var k := |batch| - 1;
      var front := batch[..k];
      EstimateIsPayloadSize(front);
      OnePacket(batch[k]);
      assert forall i | 0 <= i < k :: front[i] == batch[i];
      assert AllExact(batch) <==> AllExact(front) && Exact(batch[k].data);
      assert Poisoned(batch) <==> Poisoned(front) || batch[k].data == Bytes(0);
    }
  }

  /** Longer batches are larger, as long as the count is a number. */
  lemma {:induction false} EstimateGrows(buffer: seq<Packet>, j: nat, k: nat)
    requires j < k <= |buffer| && Estimate(buffer[..k]).Number?
    ensures Estimate(buffer[..j]).Number? && Estimate(buffer[..j]).value < Estimate(buffer[..k]).value
    decreases k
  {
    assert buffer[..k][..k - 1] == buffer[..k - 1];
    if j < k - 1 {
      EstimateGrows(buffer, j, k - 1);
    }
  }

  lemma {:induction false} PayloadGrows(buffer: seq<Packet>, j: nat, k: nat)
    requires TextOk(buffer) && j < k <= |buffer|
    ensures PayloadSize(buffer[..j]) < PayloadSize(buffer[..k])
    decreases k
  {
    assert buffer[..k][..k - 1] == buffer[..k - 1];
    if j < k - 1 {
      PayloadGrows(buffer, j, k - 1);
    }
  }

  /** `k` packets are taken: the count did not exceed the limit at any of them but the first, and it
      does at the next one, if there is one. */
  predicate IsBatch(buffer: seq<Packet>, k: nat, limit: int) {
    && 1 <= k <= |buffer|
    && (forall j | 1 < j <= k :: !Exceeds(Estimate(buffer[..j]), limit))
    && (k < |buffer| ==> Exceeds(Estimate(buffer[..k + 1]), limit))
  }

  /** Every longer prefix is over the limit, unless it contains an empty ArrayBuffer. */
  lemma BatchIsLongest(buffer: seq<Packet>, k: nat, limit: int, j: nat)
    requires TextOk(buffer) && IsBatch(buffer, k, limit) && k < j <= |buffer|
    ensures Exceeds(Estimate(buffer[..j]), limit) <==> !Poisoned(buffer[..j])
  {
    var longer := buffer[..j];
    assert TextOk(longer);
    EstimateIsPayloadSize(longer);
    if k + 1 < j && !Poisoned(longer) {
      EstimateGrows(buffer, k + 1, j);
    }
  }

  /** A batch that reaches an empty ArrayBuffer has no limit any more: it is the whole buffer. In
      particular an empty ArrayBuffer in front sends everything, whatever the limit. */
  lemma EmptyBufferSendsAll(buffer: seq<Packet>, i: nat, k: nat, limit: int)
    requires TextOk(buffer) && IsBatch(buffer, k, limit)
    requires i < k && buffer[i].data == Bytes(0)
    ensures k == |buffer|
  {
    if k < |buffer| {
      var longer := buffer[..k + 1];
      assert longer[i].data == Bytes(0);
      EstimateIsPayloadSize(longer);
    }
  }

  /** The longest prefix whose encoded payload fits, or the first packet alone. */
  predicate IsLongestFitting(buffer: seq<Packet>, k: nat, limit: int)
    requires TextOk(buffer)
  {
    && 1 <= k <= |buffer|
    && (k > 1 ==> PayloadSize(buffer[..k]) <= limit)
    && (forall j | k < j <= |buffer| :: PayloadSize(buffer[..j]) > limit)
  }

  /** With exact estimates a batch is what it should be. */
  lemma ExactBatchFits(buffer: seq<Packet>, k: nat, limit: int)
    requires TextOk(buffer) && IsBatch(buffer, k, limit) && AllExact(buffer)
    ensures IsLongestFitting(buffer, k, limit)
  {
    EstimateIsPayloadSize(buffer[..k]);
    forall j | k < j <= |buffer| ensures PayloadSize(buffer[..j]) > limit {
      EstimateIsPayloadSize(buffer[..j]);
      BatchIsLongest(buffer, k, limit, j);
    }
  }

  /** An empty ArrayBuffer anywhere: under the limit that the packets before it just meet, the whole
      buffer is sent. */
  lemma PoisonOverflows(buffer: seq<Packet>, i: nat) returns (limit: int)
    requires TextOk(buffer) && |buffer| >= 2
    requires i < |buffer| && buffer[i].data == Bytes(0) && !Poisoned(buffer[..i])
    ensures limit > 0 && IsBatch(buffer, |buffer|, limit) && PayloadSize(buffer) > limit
  {
    var before := buffer[..i];
    EstimateIsPayloadSize(before);
    limit := if i == 0 then 1 else Estimate(before).value;
    forall j | 1 < j <= |buffer| ensures !Exceeds(Estimate(buffer[..j]), limit) {
      EstimateIsPayloadSize(buffer[..j]);
      if i < j {
        assert buffer[..j][i].data == Bytes(0);
      } else if j < i {
        EstimateGrows(buffer, j, i);
      }
    }
    assert buffer[..|buffer|] == buffer;
    if i == 0 {
      PayloadGrows(buffer, 0, 1);
      PayloadGrows(buffer, 1, |buffer|);
    } else {
      EstimateGrows(buffer, 0, i);
      PayloadGrows(buffer, i, |buffer|);
    }
  }

  /** Binary data of any other inexact length: under the limit that the estimate up to it just meets,
      the batch ends there and is too large. */
  lemma InexactOverflows(buffer: seq<Packet>, i: nat) returns (limit: int, k: nat)
    requires TextOk(buffer) && |buffer| >= 2 && !Poisoned(buffer)
    requires i < |buffer| && !Exact(buffer[i].data)
    ensures limit > 0 && IsBatch(buffer, k, limit) && k > 1 && PayloadSize(buffer[..k]) > limit
  {
    k := if i == 0 then 2 else i + 1;
    assert !Exact(buffer[..k][i].data);
    assert forall j | 0 <= j <= |buffer| :: !Poisoned(buffer[..j]);
    EstimateIsPayloadSize(buffer[..k]);
    limit := Estimate(buffer[..k]).value;
    EstimateGrows(buffer, 0, k);
    forall j | 1 < j <= k ensures !Exceeds(Estimate(buffer[..j]), limit) {
      if j < k {
        EstimateGrows(buffer, j, k);
      }
    }
    if k < |buffer| {
      EstimateIsPayloadSize(buffer[..k + 1]);
      EstimateGrows(buffer, k, k + 1);
    }
  }

  lemma FirstPoison(buffer: seq<Packet>) returns (i: nat)
    requires Poisoned(buffer)
    ensures i < |buffer| && buffer[i].data == Bytes(0) && !Poisoned(buffer[..i])
  {
    i :| 0 <= i < |buffer| && buffer[i].data == Bytes(0);
    if Poisoned(buffer[..i]) {
      var k := FirstPoison(buffer[..i]);
      assert buffer[..i][..k] == buffer[..k];
      i := k;
    }
  }

  /** Under every positive limit, the batch is the longest fitting prefix. */
  ghost predicate AlwaysFits(buffer: seq<Packet>)
    requires TextOk(buffer)
  {
    forall limit, k: nat | limit > 0 && IsBatch(buffer, k, limit) :: IsLongestFitting(buffer, k, limit)
  }

  /** MAIN RESULT on sizes. Under every positive limit a batch is the longest prefix whose encoded
      payload fits, or the first packet alone, if and only if there is at most one packet or every
      packet is text or binary of an exactly estimated length. */
  lemma BatchFits(buffer: seq<Packet>)
    requires TextOk(buffer)
    ensures AlwaysFits(buffer) <==> |buffer| < 2 || AllExact(buffer)
  {
    if |buffer| < 2 || AllExact(buffer) {
      forall limit, k: nat | limit > 0 && IsBatch(buffer, k, limit) ensures IsLongestFitting(buffer, k, limit) {
        if AllExact(buffer) {
          ExactBatchFits(buffer, k, limit);
        }
      }
    } else if Poisoned(buffer) {
      var i := FirstPoison(buffer);
      var limit := PoisonOverflows(buffer, i);
      assert buffer[..|buffer|] == buffer;
      assert !IsLongestFitting(buffer, |buffer|, limit);
    } else {
      var i :| 0 <= i < |buffer| && !Exact(buffer[i].data);
      var limit, k := InexactOverflows(buffer, i);
      assert !IsLongestFitting(buffer, k, limit);
    }
  }

  /** For instance, two one-byte binary packets are sent together under a limit of seven, and take
      eleven bytes. */
  lemma BinaryBatchOverflows()
    ensures var buffer := [Packet(4, Bytes(1)), Packet(4, Bytes(1))];
            && IsBatch(buffer, 2, 7)
            && TextOk(buffer) && PayloadSize(buffer) == 11
  {
    var buffer := [Packet(4, Bytes(1)), Packet(4, Bytes(1))];
    assert buffer[..2] == buffer && buffer[..1] == [buffer[0]] && buffer[..1][..0] == [];
    assert Estimate(buffer[..1]) == Number(3);
    assert Estimate(buffer[..2]) == Number(7);
    assert PayloadSize(buffer[..1]) == 5;
  }

  // ---------------------------------------------------------------------------------------------
  // The queue as a state machine
  // ---------------------------------------------------------------------------------------------

  datatype ReadyState = Opening | Open | Closing | Closed

  /** `batches` records the batches handed to the transport. */
  datatype Queue = Queue(buffer: seq<Packet>, inFlight: nat, writable: bool, upgrading: bool,
                         ready: ReadyState, polling: bool, maxPayload: int, batches: seq<seq<Packet>>)

  predicate Limited(q: Queue) {
    q.maxPayload != 0 && q.polling && |q.buffer| > 1
  }

  /** The batch that `flush` hands over, as a relation; `BatchIsUnique` makes it a function. */
  predicate IsWritable(q: Queue, k: nat) {
    if Limited(q) then IsBatch(q.buffer, k, q.maxPayload) else k == |q.buffer|
  }

  lemma BatchIsUnique(q: Queue, j: nat, k: nat)
    requires IsWritable(q, j) && IsWritable(q, k)
    ensures j == k
  {
  }

  predicate CanFlush(q: Queue) {
    q.ready != Closed && q.writable && !q.upgrading && q.buffer != []
  }

  predicate Flushed(q: Queue, r: Queue) {
    if CanFlush(q) then
      && IsWritable(q, r.inFlight)
      && r == q.(batches := q.batches + [q.buffer[..r.inFlight]], inFlight := r.inFlight, writable := false)
    else r == q
  }

  datatype Event = Opened | Send(packet: Packet) | Drain | Flush | SetUpgrading(on: bool) | StartClosing

  /** One event. A drain is only emitted by a transport that has been written to. */
  predicate Next(q: Queue, e: Event, r: Queue) {
    match e
    case Opened =>
      && q.ready == Opening && q.inFlight == 0
      && Flushed(q.(ready := Open, writable := true), r)
    case Send(packet) =>
      if q.ready in {Closing, Closed} then r == q else Flushed(q.(buffer := q.buffer + [packet]), r)
    case Drain =>
      && !q.writable
      && q.inFlight <= |q.buffer|
      && Flushed(q.(writable := true, buffer := q.buffer[q.inFlight..], inFlight := 0), r)
    case Flush => Flushed(q, r)
    case SetUpgrading(on) => r == q.(upgrading := on)
    case StartClosing => r == q.(ready := Closing)
  }

  predicate IsRun(states: seq<Queue>, events: seq<Event>) {
    && |states| == |events| + 1
    && forall i | 0 <= i < |events| :: Next(states[i], events[i], states[i + 1])
  }

  function Flatten(batches: seq<seq<Packet>>): seq<Packet> {
    if batches == [] then [] else Flatten(batches[..|batches| - 1]) + batches[|batches| - 1]
  }

  lemma FlattenSnoc(batches: seq<seq<Packet>>, b: seq<Packet>)
    ensures Flatten(batches + [b]) == Flatten(batches) + b
  {
    assert (batches + [b])[..|batches|] == batches;
  }

  /** The packets accepted for sending during a run: those sent before the socket started to close. */
  function Accepted(states: seq<Queue>, events: seq<Event>): seq<Packet>
    requires |states| == |events| + 1
  {
    if events == [] then []
    else
      var k := |events| - 1;
      Accepted(states[..k + 1], events[..k])
      + if events[k].Send? && states[k].ready !in {Closing, Closed} then [events[k].packet] else []
  }

  predicate Consistent(q: Queue) {
    && q.inFlight <= |q.buffer|
    && (q.writable ==> q.inFlight == 0)
  }

  predicate Initial(q: Queue) {
    q.buffer == [] && q.inFlight == 0 && q.batches == [] && q.ready in {Opening, Open}
  }

  lemma FlushKeeps(q: Queue, r: Queue)
    requires Consistent(q) && Flushed(q, r)
    ensures Consistent(r)
    ensures Flatten(r.batches) + r.buffer[r.inFlight..] == Flatten(q.batches) + q.buffer[q.inFlight..]
  {
    if CanFlush(q) {
      FlattenSnoc(q.batches, q.buffer[..r.inFlight]);
      assert q.buffer[0..] == q.buffer[..r.inFlight] + q.buffer[r.inFlight..];
    }
  }

  lemma StepKeeps(q: Queue, e: Event, r: Queue)
    requires Consistent(q) && Next(q, e, r)
    ensures Consistent(r)
    ensures Flatten(r.batches) + r.buffer[r.inFlight..] ==
            Flatten(q.batches) + q.buffer[q.inFlight..]
            + if e.Send? && q.ready !in {Closing, Closed} then [e.packet] else []
  {
    match e
    case Opened => FlushKeeps(q.(ready := Open, writable := true), r);
    case Send(packet) =>
      if q.ready !in {Closing, Closed} {
        var pushed := q.(buffer := q.buffer + [packet]);
        assert pushed.buffer[q.inFlight..] == q.buffer[q.inFlight..] + [packet];
        FlushKeeps(pushed, r);
      }
    case Drain =>
      var spliced := q.(writable := true, buffer := q.buffer[q.inFlight..], inFlight := 0);
      assert spliced.buffer[0..] == spliced.buffer;
      FlushKeeps(spliced, r);
    case Flush => FlushKeeps(q, r);
    case SetUpgrading(_) =>
    case StartClosing =>
  }

  /** MAIN RESULT. In every run of sends, flushes, drains, upgrade pauses and closing, the batches
      handed to the transport, joined, followed by what still waits, are exactly the packets
      accepted, in the order they were queued: nothing is lost, repeated or reordered. */
  lemma {:induction false} ExactlyOnceInOrder(states: seq<Queue>, events: seq<Event>)
    requires IsRun(states, events) && Initial(states[0])
    ensures var last := states[|events|];
            && Consistent(last)
            && Flatten(last.batches) + last.buffer[last.inFlight..] == Accepted(states, events)
    decreases |events|
  {
    if events != [] {
      var k := |events| - 1;
      assert IsRun(states[..k + 1], events[..k]) by {
        forall i | 0 <= i < k ensures Next(states[..k + 1][i], events[..k][i], states[..k + 1][i + 1]) {
          assert Next(states[i], events[i], states[i + 1]);
        }
      }
      ExactlyOnceInOrder(states[..k + 1], events[..k]);
      assert Next(states[k], events[k], states[k + 1]);
      StepKeeps(states[k], events[k], states[k + 1]);
    }
  }

  /** The packets that wait when an event gets to the flush: all but those in flight, and one more
      when it is a send that is accepted. */
  function Offered(q: Queue, e: Event): seq<Packet> {
    if e.Drain? && q.inFlight <= |q.buffer| then q.buffer[q.inFlight..]
    else if e.Send? then q.buffer + [e.packet]
    else q.buffer
  }

  /** An event makes the socket hand over a batch: the transport is free, nothing pauses the socket and
      it is not closed. */
  predicate HandsOver(q: Queue, e: Event) {
    && !q.upgrading && Offered(q, e) != []
    && match e
       case Opened => true
       case Drain => q.ready != Closed
       case Flush => q.ready != Closed && q.writable
       case Send(_) => q.ready in {Opening, Open} && q.writable
       case SetUpgrading(_) => false
       case StartClosing => false
  }

  /** Only polling with a limit cuts a batch; any other transport gets everything that waits. */
  predicate RightBatch(polling: bool, maxPayload: int, waiting: seq<Packet>, batch: seq<Packet>) {
    && batch <= waiting
    && (!polling || maxPayload == 0 ==> batch == waiting)
    && (polling && maxPayload != 0 && TextOk(waiting) && AllExact(waiting) ==>
          IsLongestFitting(waiting, |batch|, maxPayload))
  }

  lemma FlushedBatch(q: Queue, r: Queue)
    requires CanFlush(q) && Flushed(q, r)
    ensures RightBatch(q.polling, q.maxPayload, q.buffer, q.buffer[..r.inFlight])
    ensures r.batches == q.batches + [q.buffer[..r.inFlight]]
  {
    if q.polling && q.maxPayload != 0 && TextOk(q.buffer) && AllExact(q.buffer) && |q.buffer| > 1 {
      ExactBatchFits(q.buffer, r.inFlight, q.maxPayload);
    }
    assert q.buffer[..|q.buffer|] == q.buffer;
  }

  /** What the step from `q` to `r` hands over. */
  predicate StepBatch(polling: bool, maxPayload: int, q: Queue, e: Event, r: Queue) {
    if HandsOver(q, e)
    then |r.batches| == |q.batches| + 1 && r.batches[..|q.batches|] == q.batches
         && RightBatch(polling, maxPayload, Offered(q, e), r.batches[|q.batches|])
    else r.batches == q.batches
  }

  lemma StepHandsOver(q: Queue, e: Event, r: Queue)
    requires Next(q, e, r)
    ensures r.polling == q.polling && r.maxPayload == q.maxPayload && StepBatch(q.polling, q.maxPayload, q, e, r)
  {
    match e
    case Opened => FlushOr(q.(ready := Open, writable := true), r);
    case Send(packet) =>
      if q.ready !in {Closing, Closed} {
        FlushOr(q.(buffer := q.buffer + [packet]), r);
      }
    case Drain => FlushOr(q.(writable := true, buffer := q.buffer[q.inFlight..], inFlight := 0), r);
    case Flush => FlushOr(q, r);
    case SetUpgrading(_) =>
    case StartClosing =>
  }

  lemma FlushOr(q: Queue, r: Queue)
    requires Flushed(q, r)
    ensures r.polling == q.polling && r.maxPayload == q.maxPayload
    ensures if q.ready != Closed && q.writable && !q.upgrading && q.buffer != []
            then |r.batches| == |q.batches| + 1 && r.batches[..|q.batches|] == q.batches
                 && RightBatch(q.polling, q.maxPayload, q.buffer, r.batches[|q.batches|])
            else r.batches == q.batches
  {
    if CanFlush(q) {
      FlushedBatch(q, r);
    }
  }

  /** MAIN RESULT. At every step of every run a batch is handed over exactly when the event frees or
      finds a free transport and something waits; on polling with a limit it is the longest fitting
      prefix of what waits, as long as the sizes are estimated exactly, and on any other transport it is
      all of it. */
  lemma EveryBatchOfEveryRun(states: seq<Queue>, events: seq<Event>, i: nat)
    requires IsRun(states, events) && i < |events|
    ensures StepBatch(states[0].polling, states[0].maxPayload, states[i], events[i], states[i + 1])
  {
    SameTransport(states, events, i);
    StepHandsOver(states[i], events[i], states[i + 1]);
  }

  lemma {:induction false} SameTransport(states: seq<Queue>, events: seq<Event>, i: nat)
    requires IsRun(states, events) && i <= |events|
    ensures states[i].polling == states[0].polling && states[i].maxPayload == states[0].maxPayload
  {
    if i > 0 {
      SameTransport(states, events, i - 1);
      StepHandsOver(states[i - 1], events[i - 1], states[i]);
    }
  }

  /** The packets not yet handed to the transport. */
  function Waiting(q: Queue): int {
    |q.buffer| - q.inFlight
  }

  /** Each drain of an open, unpaused socket hands over at least one more packet, so that as many
      drains as there are packets waiting empty the queue. */
  lemma {:induction false} DrainsDeliver(states: seq<Queue>, events: seq<Event>)
    requires IsRun(states, events) && Consistent(states[0])
    requires states[0].ready != Closed && !states[0].upgrading
    requires forall i | 0 <= i < |events| :: events[i] == Drain
    ensures var last := states[|events|];
            Waiting(last) == 0 || 0 < Waiting(last) <= Waiting(states[0]) - |events|
    decreases |events|
  {
    if events != [] {
      assert Next(states[0], events[0], states[1]);
      StepKeeps(states[0], Drain, states[1]);
      assert IsRun(states[1..], events[1..]) by {
        forall i | 0 <= i < |events| - 1 ensures Next(states[1..][i], events[1..][i], states[1..][i + 1]) {
          assert Next(states[i + 1], events[i + 1], states[i + 2]);
        }
      }
      DrainsDeliver(states[1..], events[1..]);
      assert states[1..][|events| - 1] == states[|events|];
    }
  }

  // ---------------------------------------------------------------------------------------------
  // The socket object
  // ---------------------------------------------------------------------------------------------

  class Socket {
    var writeBuffer: seq<Packet>
    var prevBufferLen: nat
    var writable: bool
    var upgrading: bool
    var readyState: ReadyState
    const polling: bool
    const maxPayload: int
    var batches: seq<seq<Packet>>

    ghost function View(): Queue
      reads this
    {
      Queue(writeBuffer, prevBufferLen, writable, upgrading, readyState, polling, maxPayload, batches)
    }

    constructor (polling: bool, maxPayload: int)
      ensures Initial(View()) && this.polling == polling && this.maxPayload == maxPayload
    {
      this.polling, this.maxPayload := polling, maxPayload;
      writeBuffer, prevBufferLen, batches := [], 0, [];
      writable, upgrading, readyState := false, false, Opening;
    }

    /** `_getWritablePackets` */
    method GetWritablePackets() returns (batch: seq<Packet>)
      requires writeBuffer != []
      ensures batch <= writeBuffer && IsWritable(View(), |batch|)
    {
      if !(maxPayload != 0 && polling && |writeBuffer| > 1) {
        return writeBuffer;
      }
      var n := Number(1);
      for r := 0 to |writeBuffer|
        invariant n == Plus(Estimate(writeBuffer[..r]), Number(if r == 0 then 1 else 2))
        invariant forall j | 1 < j <= r :: !Exceeds(Estimate(writeBuffer[..j]), maxPayload)
      {
        assert writeBuffer[..r + 1][..r] == writeBuffer[..r];
        n := Plus(n, DataSize(writeBuffer[r].data));
        if r > 0 && Exceeds(n, maxPayload) {
          return writeBuffer[..r];
        }
        n := Plus(n, Number(2));
      }
      assert writeBuffer[..|writeBuffer|] == writeBuffer;
      return writeBuffer;
    }

    /** `flush`, with the transport's `send` */
    method FlushBuffer()
      modifies this
      ensures Flushed(old(View()), View())
    {
      if readyState != Closed && writable && !upgrading && writeBuffer != [] {
        var batch := GetWritablePackets();
        assert writeBuffer[..|batch|] == batch;
        batches, writable := batches + [batch], false;
        prevBufferLen := |batch|;
      }
    }

    /** `onOpen`, once the transport has opened */
    method OnOpen()
      requires readyState == Opening && prevBufferLen == 0
      modifies this
      ensures Next(old(View()), Opened, View())
    {
      writable, readyState := true, Open;
      FlushBuffer();
    }

    /** `_sendPacket` */
    method SendPacket(packet: Packet)
      modifies this
      ensures Next(old(View()), Send(packet), View())
    {
      if readyState in {Closing, Closed} {
        return;
      }
      writeBuffer := writeBuffer + [packet];
      FlushBuffer();
    }

    /** `_onDrain`, called when the transport has become writable again */
    method OnDrain()
      requires !writable && prevBufferLen <= |writeBuffer|
      modifies this
      ensures Next(old(View()), Drain, View())
    {
      writable := true;
      writeBuffer, prevBufferLen := writeBuffer[prevBufferLen..], 0;
      if writeBuffer != [] {
        FlushBuffer();
      }
    }
  }
}
