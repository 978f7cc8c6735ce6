/** Packets as pieces, and the decoder that puts them together again
    (api/mods/reference/entry.1c0Ptbnq.js, lines 4094-4237).

    A packet whose data holds binary leaves is sent as one string, in which each leaf is replaced by
    a numbered placeholder object, followed by the leaves themselves. The decoder parses the string,
    collects the announced number of attachments and puts them back. */
module Packets {

  import opened Wrappers
  import opened Decimals
  import opened BinaryLeaves
  import opened PacketText

  // ---------------------------------------------------------------------------------------------
  // The decoder: pieces in, packets out
  // ---------------------------------------------------------------------------------------------

  datatype Reconstruction = Reconstruction(packet: Packet, buffers: seq<Blob>)

  datatype Step = Step(state: Option<Reconstruction>, emitted: Option<Packet>, ok: bool)

  function ToPlain(k: Kind): Kind {
    if k == BinaryEvent then Event else Ack
  }

  function RestoreData(data: Option<Value>, buffers: seq<Blob>): Option<Option<Value>> {
    if data.None? then Some(None)
    else var r := Restore(data.value, buffers); if r.None? then None else Some(r)
  }

  /** `Decoder.add`; `ok` is false when it throws. */
  function Add(p: Platform, maxAttachments: nat, state: Option<Reconstruction>, piece: Piece): Step {
    match piece
    case Text(e) =>
      var r := ParsePacket(p, maxAttachments, e);
      if state.Some? || r.None? then Step(state, None, false)
      else if IsBinary(r.value.kind)
      then Step(Some(Reconstruction(r.value.(kind := ToPlain(r.value.kind)), [])), None, true)
      else Step(None, r, true)
    case Binary(blob) =>
      if state.None? then Step(state, None, false)
      else
        var packet, buffers := state.value.packet, state.value.buffers + [blob];
        if packet.attachments != Some(|buffers|) then Step(Some(Reconstruction(packet, buffers)), None, true)
        else
          var data := RestoreData(packet.data, buffers);
          if data.None? then Step(Some(Reconstruction(packet, buffers)), None, false)
          else Step(None, Some(packet.(data := data.value, attachments := None)), true)
  }

  /** What each piece made the decoder emit, up to the first exception. */
  datatype Fed = Fed(state: Option<Reconstruction>, outputs: seq<Option<Packet>>, ok: bool)

  function Feed(p: Platform, maxAttachments: nat, state: Option<Reconstruction>, pieces: seq<Piece>): Fed
    decreases |pieces|
  {
    if pieces == [] then Fed(state, [], true)
    else
      var step := Add(p, maxAttachments, state, pieces[0]);
      if !step.ok then Fed(step.state, [], false)
      else var f := Feed(p, maxAttachments, step.state, pieces[1..]); f.(outputs := [step.emitted] + f.outputs)
  }

  /** The binary reconstructor object; once finished it has let go of its packet. */
  class Reconstructor {
    const packet: Packet
    var finished: bool
    var buffers: seq<Blob>

    constructor (packet: Packet)
      ensures this.packet == packet && !finished && buffers == []
    {
      this.packet, finished, buffers := packet, false, [];
    }

    /** `takeBinaryData`, with `finishedReconstruction` */
    method TakeBinaryData(blob: Blob) returns (ready: bool, restored: Option<Packet>)
      modifies this
      ensures ready <==> packet.attachments == Some(|old(buffers)| + 1)
      ensures restored.Some? <==> ready && RestoreData(packet.data, old(buffers) + [blob]).Some?
      ensures restored.Some? ==>
                restored.value ==
                packet.(data := RestoreData(packet.data, old(buffers) + [blob]).value, attachments := None)
      ensures finished == (old(finished) || restored.Some?)
      ensures buffers == if restored.Some? then [] else old(buffers) + [blob]
    {
      buffers := buffers + [blob];
      ready, restored := packet.attachments == Some(|buffers|), None;
      if ready {
        var data := RestoreData(packet.data, buffers);
        if data.Some? {
          restored := Some(packet.(data := data.value, attachments := None));
          finished, buffers := true, [];
        }
      }
    }
  }

  class Decoder {
    const platform: Platform
    const maxAttachments: nat
    var reconstructor: Reconstructor?

    ghost function View(): Option<Reconstruction>
      reads this, reconstructor
    {
      if reconstructor == null then None else Some(Reconstruction(reconstructor.packet, reconstructor.buffers))
    }

    constructor (platform: Platform, maxAttachments: nat)
      ensures View() == None && this.platform == platform && this.maxAttachments == maxAttachments
    {
      this.platform, this.maxAttachments, reconstructor := platform, maxAttachments, null;
    }

    /** `add`; `ok` is false when it raises. */
    method AddPiece(piece: Piece) returns (emitted: Option<Packet>, ok: bool)
      modifies this, reconstructor
      ensures Step(View(), emitted, ok) == Add(platform, maxAttachments, old(View()), piece)
      ensures reconstructor == null || reconstructor == old(reconstructor) || fresh(reconstructor)
    {
      emitted, ok := None, true;
      match piece
      case Text(e) =>
        if reconstructor != null {
          return None, false;
        }
        var r := DecodeString(platform, maxAttachments, e);
        if r.None? {
          return None, false;
        }
        if IsBinary(r.value.kind) {
          reconstructor := new Reconstructor(r.value.(kind := ToPlain(r.value.kind)));
        } else {
          emitted := r;
        }
      case Binary(blob) =>
        if reconstructor == null {
          return None, false;
        }
        var ready;
        ready, emitted := reconstructor.TakeBinaryData(blob);
        ok := ready ==> emitted.Some?;
        if emitted.Some? {
          reconstructor := null;
        }
    }
  }

  // ---------------------------------------------------------------------------------------------
  // What every emitted packet satisfies
  // ---------------------------------------------------------------------------------------------

  predicate WellFormed(packet: Packet) {
    NspOk(packet.nsp) && (packet.data.Some? ==> PayloadValid(packet.kind, packet.data.value))
  }

  predicate StateOk(state: Option<Reconstruction>) {
    state.Some? ==> WellFormed(state.value.packet) && IsPlain(state.value.packet.kind)
  }

  lemma BodyIsWellFormed(p: Platform, packet: Packet, e: string, start: nat)
    requires start <= |e| && packet.nsp == "/" && packet.data == None
    ensures var r := ParseBody(p, packet, e, start); r.Some? ==> WellFormed(r.value)
  {
    if start < |e| && e[start] == '/' {
      var end := ScanTo(e, ',', start);
      assert NspOk(e[start..end]);
    }
  }

  lemma ParsedIsWellFormed(p: Platform, maxAttachments: nat, e: string)
    ensures var r := ParsePacket(p, maxAttachments, e); r.Some? ==> WellFormed(r.value)
  {
    var kind := KindAt(p, e);
    if kind.Some? {
      BodyIsWellFormed(p, Blank(kind.value, None), e, if e == "" then 0 else 1);
      if e != "" {
        BodyIsWellFormed(p, Blank(kind.value, CountAt(p, e)), e, AfterCount(e));
      }
    }
  }

  lemma {:induction false} RestoreAllFirst(items: seq<Value>, buffers: seq<Blob>)
    requires items != [] && RestoreAll(items, buffers).Some?
    ensures Restore(items[0], buffers) == Some(RestoreAll(items, buffers).value[0])
  {
    var k := |items| - 1;
    if k > 0 {
      RestoreAllFirst(items[..k], buffers);
    } else {
      assert RestoreAll(items[..k], buffers) == Some([]);
    }
  }

  lemma RestoreKeepsValid(kind: Kind, v: Value, buffers: seq<Blob>)
    requires IsPlain(kind) && PayloadValid(kind, v) && Restore(v, buffers).Some?
    ensures PayloadValid(kind, Restore(v, buffers).value)
  {
    if v.items != [] {
      RestoreAllFirst(v.items, buffers);
    }
  }

  lemma AddIsWellFormed(p: Platform, maxAttachments: nat, state: Option<Reconstruction>, piece: Piece)
    requires StateOk(state)
    ensures var step := Add(p, maxAttachments, state, piece);
            && StateOk(step.state)
            && (step.emitted.Some? ==> WellFormed(step.emitted.value))
  {
    match piece
    case Text(e) => ParsedIsWellFormed(p, maxAttachments, e);
    case Binary(blob) =>
      if state.Some? && state.value.packet.data.Some? {
        var packet, buffers := state.value.packet, state.value.buffers + [blob];
        if Restore(packet.data.value, buffers).Some? {
          RestoreKeepsValid(packet.kind, packet.data.value, buffers);
        }
      }
  }

  predicate EmitsOk(o: Option<Packet>) {
    o.Some? ==> WellFormed(o.value)
  }

  /** Whatever pieces arrive, every packet handed on has a namespace without a comma that starts with
      a slash, and a payload its kind allows. */
  lemma {:induction false} EmittedIsWellFormed(p: Platform, limit: nat, state: Option<Reconstruction>,
      pieces: seq<Piece>)
    requires StateOk(state)
    ensures forall o | o in Feed(p, limit, state, pieces).outputs :: EmitsOk(o)
    decreases |pieces|
  {
    if pieces != [] {
      AddIsWellFormed(p, limit, state, pieces[0]);
      var step := Add(p, limit, state, pieces[0]);
      EmittedIsWellFormed(p, limit, step.state, pieces[1..]);
      assert EmitsOk(step.emitted);
    }
  }

  // ---------------------------------------------------------------------------------------------
  // Round trip
  // ---------------------------------------------------------------------------------------------

  /** Nothing for each of the first pieces, the packet with the last one. */
  function OnlyLast(n: nat, packet: Packet): (outputs: seq<Option<Packet>>)
    requires n > 0
    ensures |outputs| == n && outputs[n - 1] == Some(packet)
    ensures forall i | 0 <= i < n - 1 :: outputs[i] == None
  {
    seq(n, i => if i == n - 1 then Some(packet) else None)
  }

  /** Feeding the encoder's pieces to an idle decoder emits this packet and nothing else, with the
      last piece, and leaves the decoder idle. */
  predicate ComesBack(p: Platform, maxAttachments: nat, packet: Packet) {
    var pieces := Encode(p, packet);
    Feed(p, maxAttachments, None, pieces) == Fed(None, OnlyLast(|pieces|, packet), true)
  }

  /** The attachments of a packet arrive one by one; only the last one completes it. */
  lemma {:induction false} FeedAttachments(p: Platform, limit: nat, packet: Packet, have: seq<Blob>, rest: seq<Blob>)
    requires packet.attachments == Some(|have + rest|) && rest != []
    ensures var f := Feed(p, limit, Some(Reconstruction(packet, have)), Pieces(rest));
            var data := RestoreData(packet.data, have + rest);
            if data.None? then !f.ok
            else f == Fed(None, OnlyLast(|rest|, packet.(data := data.value, attachments := None)), true)
    decreases |rest|
  {
    var step := Add(p, limit, Some(Reconstruction(packet, have)), Binary(rest[0]));
    assert Pieces(rest)[1..] == Pieces(rest[1..]);
    if |rest| == 1 {
      assert have + rest == have + [rest[0]];
      assert Feed(p, limit, step.state, Pieces(rest[1..])) == Fed(step.state, [], true);
    } else {
      assert have + rest == (have + [rest[0]]) + rest[1..];
      FeedAttachments(p, limit, packet, have + [rest[0]], rest[1..]);
      var data := RestoreData(packet.data, have + rest);
      if data.Some? {
        OnlyLastCons(|rest|, packet.(data := data.value, attachments := None));
      }
    }
  }

  lemma OnlyLastCons(n: nat, packet: Packet)
    requires n > 1
    ensures OnlyLast(n, packet) == [None] + OnlyLast(n - 1, packet)
  {
  }

  /** Everything the round trip needs, and everything it needs can be checked before sending. */
  predicate Encodable(maxAttachments: nat, packet: Packet) {
    && NspOk(packet.nsp)
    && DataOk(packet.kind, packet.data)
    && (IsPlain(packet.kind) && packet.data.Some? && HasBinary(packet.data.value) ==>
          |Lift(packet.data.value, []).buffers| <= maxAttachments && NoPlaceholder(packet.data.value))
  }

  lemma LiftKeepsValid(kind: Kind, v: Value)
    requires IsPlain(kind)
    ensures PayloadValid(kind, v) <==> PayloadValid(ToBinary(kind), Lift(v, []).value)
  {
    if v.Arr? && v.items != [] {
      LiftAllFirst(v.items, []);
    }
  }

  lemma {:induction false} LiftAllFirst(items: seq<Value>, buffers: seq<Blob>)
    requires items != []
    ensures LiftAll(items, buffers).items[0] == Lift(items[0], buffers).value
  {
    var k := |items| - 1;
    if k > 0 {
      LiftAllFirst(items[..k], buffers);
    }
  }

  lemma PlainRoundTrip(p: Platform, maxAttachments: nat, packet: Packet)
    requires !IsBinary(packet.kind) && Printable(p, packet)
    requires IsPlain(packet.kind) && packet.data.Some? ==> !HasBinary(packet.data.value)
    ensures ComesBack(p, maxAttachments, packet)
  {
    ParsePrinted(p, maxAttachments, packet);
    var pieces := Encode(p, packet);
    assert Add(p, maxAttachments, None, pieces[0]) == Step(None, Some(packet), true);
    assert Feed(p, maxAttachments, None, pieces[1..]) == Fed(None, [], true);
  }

  lemma BinaryRoundTrip(p: Platform, maxAttachments: nat, packet: Packet)
    requires IsPlain(packet.kind) && packet.attachments == None && packet.data.Some?
    requires packet.id.Some? ==> packet.id.value.Int?
    requires HasBinary(packet.data.value) && PlatformOk(p, Lift(packet.data.value, []).value)
    requires NspOk(packet.nsp) && PayloadValid(packet.kind, packet.data.value)
    ensures ComesBack(p, maxAttachments, packet) <==> Encodable(maxAttachments, packet)
  {
    var data := packet.data.value;
    var l := Lift(data, []);
    LiftCounts(data, []);
    LiftKeepsValid(packet.kind, data);
    var lifted := Packet(ToBinary(packet.kind), packet.nsp, packet.id, Some(l.value), Some(|l.buffers|));
    ParsePrinted(p, maxAttachments, lifted);
    var pieces := Encode(p, packet);
    assert pieces == [Text(PrintPacket(p, lifted))] + Pieces(l.buffers);
    assert pieces[1..] == Pieces(l.buffers);
    if |l.buffers| <= maxAttachments {
      var begun := lifted.(kind := packet.kind);
      assert Add(p, maxAttachments, None, pieces[0]) == Step(Some(Reconstruction(begun, [])), None, true);
      assert [] + l.buffers == l.buffers;
      FeedAttachments(p, maxAttachments, begun, [], l.buffers);
      RestoreLift(data, [], l.buffers);
      var f := Feed(p, maxAttachments, Some(Reconstruction(begun, [])), Pieces(l.buffers));
      assert Feed(p, maxAttachments, None, pieces) == f.(outputs := [None] + f.outputs);
      BinaryVerdict(f, packet, Restore(l.value, l.buffers), |l.buffers|);
    }
  }

  lemma BinaryVerdict(f: Fed, packet: Packet, restored: Option<Value>, n: nat)
    requires n > 0
    requires restored.None? ==> !f.ok
    requires restored.Some? ==> f == Fed(None, OnlyLast(n, packet.(data := restored)), true)
    ensures f.(outputs := [None] + f.outputs) == Fed(None, OnlyLast(n + 1, packet), true) <==>
              restored == packet.data && restored.Some?
  {
    if restored.Some? {
      OnlyLastCons(n + 1, packet);
      assert ([None] + f.outputs)[n] == Some(packet.(data := restored));
      assert OnlyLast(n + 1, packet)[n] == Some(packet);
    }
  }

  lemma LastIsWellFormed(p: Platform, maxAttachments: nat, pieces: seq<Piece>, packet: Packet)
    requires pieces != []
    requires Feed(p, maxAttachments, None, pieces) == Fed(None, OnlyLast(|pieces|, packet), true)
    ensures WellFormed(packet)
  {
    EmittedIsWellFormed(p, maxAttachments, None, pieces);
    assert OnlyLast(|pieces|, packet)[|pieces| - 1] == Some(packet);
    assert EmitsOk(Some(packet));
  }

  /** The value that the printer gets: what is left of an event or ack without its binary leaves, and
      the payload itself otherwise. */
  function Printed(packet: Packet): Value
    requires packet.data.Some?
  {
    if IsPlain(packet.kind) then Lift(packet.data.value, []).value else packet.data.value
  }

  /** MAIN RESULT. A packet of any kind a client sends, with or without a payload, comes back
      unchanged, once, with the last of its pieces, if and only if its namespace starts with a slash
      and has no comma, its payload is valid, and - when it is an event or ack with binary leaves -
      there are not too many and no object of its own looks like a placeholder. */
  lemma RoundTrip(p: Platform, maxAttachments: nat, packet: Packet)
    requires !IsBinary(packet.kind) && packet.attachments == None && packet.data != Some(Undefined)
    requires packet.id.Some? ==> packet.id.value.Int?
    requires packet.data.Some? ==> PlatformOk(p, Printed(packet))
    ensures ComesBack(p, maxAttachments, packet) <==> Encodable(maxAttachments, packet)
  {
    if packet.data.Some? {
      LiftCounts(packet.data.value, []);
    }
    if NspOk(packet.nsp) && DataOk(packet.kind, packet.data) {
      if IsPlain(packet.kind) && packet.data.Some? && HasBinary(packet.data.value) {
        BinaryRoundTrip(p, maxAttachments, packet);
      } else {
        PlainRoundTrip(p, maxAttachments, packet);
      }
    } else if ComesBack(p, maxAttachments, packet) {
      LastIsWellFormed(p, maxAttachments, Encode(p, packet), packet);
    }
  }

  /** For instance the server's reply to a connection, which every client waits for. */
  lemma ConnectReply(p: Platform, maxAttachments: nat, v: Value, json: string)
    requires v.Obj? && json != "" && json[0] == '{' && p.parse(json) == Some(v) && p.number("{") == NotNatural
    ensures Feed(p, maxAttachments, None, [Text("0" + json)]) ==
            Fed(None, [Some(Packet(Connect, "/", None, Some(v), None))], true)
  {
    var e := "0" + json;
    NumberOfDecimal(p, 0);
    assert Decimal(0) == "0" && CharAt(e, 0) == "0";
    assert e[1] == '{' && e[1..] == json && [e[1]] == "{";
    assert SkipNumber(p, e, 1) == 1;
    assert ParsePacket(p, maxAttachments, e) == Some(Packet(Connect, "/", None, Some(v), None));
    assert Feed(p, maxAttachments, None, [Text(e)][1..]) == Fed(None, [], true);
  }

  /** Text in the middle of a reconstruction, a binary piece outside of one and text that does not
      parse are refused and change nothing; any other text is emitted, or starts a reconstruction. */
  lemma TextInAndOutOfTurn(p: Platform, maxAttachments: nat, state: Option<Reconstruction>, e: string, blob: Blob)
    ensures var step := Add(p, maxAttachments, state, Text(e));
            var r := ParsePacket(p, maxAttachments, e);
            && (step.ok <==> state.None? && r.Some?)
            && (!step.ok ==> step.state == state && step.emitted == None)
            && (step.ok && r.value.kind !in {BinaryEvent, BinaryAck} ==> step.state == None && step.emitted == r)
            && (step.ok && r.value.kind in {BinaryEvent, BinaryAck} ==>
                  && step.emitted == None && step.state.Some? && step.state.value.buffers == []
                  && step.state.value.packet.kind == (if r.value.kind == BinaryEvent then Event else Ack)
                  && step.state.value.packet.attachments == r.value.attachments)
    ensures state.None? ==> Add(p, maxAttachments, state, Binary(blob)) == Step(None, None, false)
  {
  }

  /** No event with a name the library uses itself is ever handed on. */
  lemma NoReservedEvents(p: Platform, limit: nat, pieces: seq<Piece>, o: Option<Packet>)
    requires o in Feed(p, limit, None, pieces).outputs && o.Some? && o.value.kind == Event && o.value.data.Some?
    ensures o.value.data.value.Arr? && o.value.data.value.items != []
    ensures var first := o.value.data.value.items[0];
            first.Str? ==>
              first.s !in {"connect", "connect_error", "disconnect", "disconnecting", "newListener", "removeListener"}
  {
    EmittedIsWellFormed(p, limit, None, pieces);
    assert EmitsOk(o);
    var items := o.value.data.value.items;
    forall name | name in {"connect", "connect_error", "disconnect", "disconnecting", "newListener", "removeListener"}
      ensures items[0] == Str(name) ==> !PayloadValid(Event, Arr(items))
    {
      if items[0] == Str(name) {
        ReservedNamesRefused(items, name);
      }
    }
  }
}
