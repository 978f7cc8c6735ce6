/** The text of the packets of the bundled Socket.IO client: printer and parser
    (api/mods/reference/entry.1c0Ptbnq.js, lines 4054-4204).

    `JSON.stringify`, `JSON.parse` and `Number` on strings that are not plain digits are parameters. */
module PacketText {

  import opened Wrappers
  import opened Decimals
  import opened BinaryLeaves

  // ---------------------------------------------------------------------------------------------
  // Printing
  // ---------------------------------------------------------------------------------------------

  datatype Kind = Connect | Disconnect | Event | Ack | ConnectError | BinaryEvent | BinaryAck

  const KIND_COUNT: nat := 7

  function KindOf(code: nat): Kind
    requires code < KIND_COUNT
  {
    if code == 0 then Connect
    else if code == 1 then Disconnect
    else if code == 2 then Event
    else if code == 3 then Ack
    else if code == 4 then ConnectError
    else if code == 5 then BinaryEvent
    else BinaryAck
  }

  predicate IsBinary(k: Kind) {
    k.BinaryEvent? || k.BinaryAck?
  }

  predicate IsPlain(k: Kind) {
    k.Event? || k.Ack?
  }

  function Code(k: Kind): (c: nat)
    ensures c < KIND_COUNT && KindOf(c) == k
  {
    match k
    case Connect => 0
    case Disconnect => 1
    case Event => 2
    case Ack => 3
    case ConnectError => 4
    case BinaryEvent => 5
    case BinaryAck => 6
  }

  /** The result of `Number(...)`: a natural number, or anything else (`NaN`, negative, fractional, infinite). */
  datatype Number = Int(n: nat) | NotNatural

  datatype Packet = Packet(kind: Kind, nsp: string, id: Option<Number>, data: Option<Value>, attachments: Option<nat>)

  /** The platform functions: JSON printing and parsing, and `Number` on a string of other than digits. */
  datatype Platform = Platform(stringify: Value -> string, parse: string -> Option<Value>, number: string -> Number)

  function NumberOf(p: Platform, s: string): Number {
    if AllDigits(s) then Int(DecimalValue(s)) else p.number(s)
  }

  datatype Piece = Text(text: string) | Binary(blob: Blob)

  /** `encodeAsString` */
  function PrintPacket(p: Platform, packet: Packet): string {
    Decimal(Code(packet.kind))
    + (if IsBinary(packet.kind) && packet.attachments.Some?
       then Decimal(packet.attachments.value) + "-" else "")
    + (if packet.nsp != "" && packet.nsp != "/" then packet.nsp + "," else "")
    + (if packet.id.Some? && packet.id.value.Int? then Decimal(packet.id.value.n) else "")
    + (if packet.data.Some? && !packet.data.value.Null? && !packet.data.value.Undefined?
       then p.stringify(packet.data.value) else "")
  }

  function ToBinary(k: Kind): Kind {
    if k == Event then BinaryEvent else BinaryAck
  }

  function Pieces(blobs: seq<Blob>): (ps: seq<Piece>)
    ensures |ps| == |blobs| && forall i | 0 <= i < |ps| :: ps[i] == Binary(blobs[i])
  {
    seq(|blobs|, i requires 0 <= i < |blobs| => Binary(blobs[i]))
  }

  /** The binary leaves that are sent after the text: those of an event or an ack. */
  function LiftedLeaves(packet: Packet): seq<Blob> {
    if IsPlain(packet.kind) && packet.data.Some? then Lift(packet.data.value, []).buffers else []
  }

  /** `Encoder.encode` */
  function Encode(p: Platform, packet: Packet): (pieces: seq<Piece>)
    ensures pieces != [] && pieces[0].Text?
  {
    if IsPlain(packet.kind) && packet.data.Some? && HasBinary(packet.data.value) then
      var l := Lift(packet.data.value, []);
      var lifted := Packet(ToBinary(packet.kind), packet.nsp, packet.id, Some(l.value), Some(|l.buffers|));
      [Text(PrintPacket(p, lifted))] + Pieces(l.buffers)
    else [Text(PrintPacket(p, packet))]
  }

  /** After the text come exactly the lifted leaves, in order, also when the encoder found none. */
  lemma EncodePieces(p: Platform, packet: Packet)
    ensures Encode(p, packet)[1..] == Pieces(LiftedLeaves(packet))
  {
    if IsPlain(packet.kind) && packet.data.Some? {
      LiftCounts(packet.data.value, []);
    }
  }

  // ---------------------------------------------------------------------------------------------
  // Parsing
  // ---------------------------------------------------------------------------------------------

  function CharAt(e: string, i: int): string {
    if 0 <= i < |e| then [e[i]] else ""
  }

  /** The first index from `i` on that holds `c`, or the length. */
  function ScanTo(e: string, c: char, i: nat): (n: nat)
    requires i <= |e|
    ensures i <= n <= |e| && (n < |e| ==> e[n] == c)
    ensures forall j | i <= j < n :: e[j] != c
    decreases |e| - i
  {
    if i == |e| || e[i] == c then i else ScanTo(e, c, i + 1)
  }

  /** `Number(c) == c` for one character: digits, and whatever else converts to a number (blanks). */
  predicate NumberLike(p: Platform, c: char) {
    IsDigit(c) || p.number([c]).Int?
  }

  function SkipNumber(p: Platform, e: string, i: nat): (n: nat)
    requires i <= |e|
    ensures i <= n <= |e| && (n < |e| ==> !NumberLike(p, e[n]))
    ensures forall j | i <= j < n :: NumberLike(p, e[j])
    decreases |e| - i
  {
    if i == |e| || !NumberLike(p, e[i]) then i else SkipNumber(p, e, i + 1)
  }

  const RESERVED := ["connect", "connect_error", "disconnect", "disconnecting", "newListener", "removeListener"]

  /** `isPayloadValid` */
  predicate PayloadValid(k: Kind, v: Value) {
    match k
    case Connect => v.Obj?
    case Disconnect => v.Undefined?
    case ConnectError => v.Str? || v.Obj?
    case Event | BinaryEvent =>
      v.Arr? && v.items != [] && (v.items[0].Num? || (v.items[0].Str? && v.items[0].s !in RESERVED))
    case Ack | BinaryAck => v.Arr?
  }

  /** The last part of `decodeString`, from index `start` on: the id and the payload. */
  function ParseIdAndData(p: Platform, packet: Packet, e: string, start: nat): Option<Packet>
    requires start <= |e|
  {
    var end := SkipNumber(p, e, start);
    var id := if start < end then Some(NumberOf(p, e[start..end])) else None;
    if end == |e| then Some(packet.(id := id))
    else
      var data := p.parse(e[end..]);
      if data.Some? && PayloadValid(packet.kind, data.value)
      then Some(packet.(id := id, data := data))
      else None
  }

  /** The namespace written at `start`, and the index behind it. */
  function NspAt(e: string, start: nat): string
    requires start <= |e|
  {
    if start < |e| && e[start] == '/' then e[start..ScanTo(e, ',', start)] else "/"
  }

  function AfterNsp(e: string, start: nat): (n: nat)
    requires start <= |e|
    ensures n <= |e|
  {
    if start < |e| && e[start] == '/' then
      var end := ScanTo(e, ',', start);
      if end < |e| then end + 1 else end
    else start
  }

  /** The part of `decodeString` behind the packet type and the attachment count. */
  function ParseBody(p: Platform, packet: Packet, e: string, start: nat): Option<Packet>
    requires start <= |e|
  {
    ParseIdAndData(p, packet.(nsp := NspAt(e, start)), e, AfterNsp(e, start))
  }

  /** A packet as `decodeString` starts to fill it in. */
  function Blank(kind: Kind, attachments: Option<nat>): Packet {
    Packet(kind, "/", None, None, attachments)
  }

  function KindAt(p: Platform, e: string): Option<Kind> {
    var t := NumberOf(p, CharAt(e, 0));
    if t.Int? && t.n < KIND_COUNT then Some(KindOf(t.n)) else None
  }

  /** The attachment count, which must be a natural number ended by a dash. */
  function CountAt(p: Platform, e: string): Option<nat>
    requires e != ""
  {
    var dash := ScanTo(e, '-', 1);
    var count := NumberOf(p, e[1..dash]);
    if count.Int? && dash < |e| then Some(count.n) else None
  }

  function AfterCount(e: string): (n: nat)
    requires e != ""
    ensures n <= |e|
  {
    var dash := ScanTo(e, '-', 1);
    if dash < |e| then dash + 1 else dash
  }

  /** `decodeString`; `None` is any of its exceptions. */
  function ParsePacket(p: Platform, maxAttachments: nat, e: string): Option<Packet> {
    var kind := KindAt(p, e);
    if kind.None? then None
    else if e == "" then ParseBody(p, Blank(kind.value, None), e, 0)
    else if !IsBinary(kind.value) then ParseBody(p, Blank(kind.value, None), e, 1)
    else
      var count := CountAt(p, e);
      if count.Some? && 1 <= count.value <= maxAttachments
      then ParseBody(p, Blank(kind.value, count), e, AfterCount(e))
      else None
  }

  /** The loops of `decodeString` that look for the dash and for the comma. */
  method FindChar(e: string, c: char, i: nat) returns (n: nat)
    requires i <= |e|
    ensures n == ScanTo(e, c, i)
  {
    n := i;
    while n < |e| && e[n] != c
      invariant i <= n <= |e|
      invariant ScanTo(e, c, i) == ScanTo(e, c, n)
    {
      n := n + 1;
    }
  }

  /** The first half of `decodeString`: the packet type and the attachment count. */
  method DecodeString(p: Platform, maxAttachments: nat, e: string) returns (r: Option<Packet>)
    ensures r == ParsePacket(p, maxAttachments, e)
  {
    var t := NumberOf(p, CharAt(e, 0));
    if !(t.Int? && t.n < KIND_COUNT) {
      return None;
    }
    var kind := KindOf(t.n);
    var n := 0;
    if IsBinary(kind) && e != "" {
      n := FindChar(e, '-', 1);
      var count := NumberOf(p, e[1..n]);
      if !count.Int? || CharAt(e, n) != "-" || count.n < 1 || count.n > maxAttachments {
        return None;
      }
      r := DecodeBody(p, Blank(kind, Some(count.n)), e, n);
    } else {
      r := DecodeBody(p, Blank(kind, None), e, 0);
    }
  }

  /** The namespace. As in the source, `last` is the index of the last character already used. */
  method DecodeBody(p: Platform, packet: Packet, e: string, last: nat) returns (r: Option<Packet>)
    requires last < |e| || (e == "" && last == 0)
    ensures r == ParseBody(p, packet, e, if e == "" then 0 else last + 1)
  {
    var n := last;
    if n + 1 < |e| && e[n + 1] == '/' {
      var i := n + 1;
      n := FindChar(e, ',', i);
      r := DecodeIdAndData(p, packet.(nsp := e[i..n]), e, n);
    } else {
      r := DecodeIdAndData(p, packet.(nsp := "/"), e, n);
    }
  }

  /** The id and the payload. */
  method DecodeIdAndData(p: Platform, packet: Packet, e: string, last: nat) returns (r: Option<Packet>)
    requires last <= |e|
    ensures r == ParseIdAndData(p, packet, e, if last < |e| then last + 1 else last)
  {
    var n, id := last, None;
    if n + 1 < |e| && NumberLike(p, e[n + 1]) {
      var i := n + 1;
      n := n + 1;
      while n < |e| && NumberLike(p, e[n])
        invariant i <= n <= |e| && (n == i ==> i < |e| && NumberLike(p, e[i]))
        invariant SkipNumber(p, e, i) == SkipNumber(p, e, n)
      {
        n := n + 1;
      }
      id := Some(NumberOf(p, e[i..n]));
      n := if n == |e| then n else n - 1;
    }
    if n + 1 >= |e| {
      return Some(packet.(id := id));
    }
    var data := p.parse(e[n + 1..]);
    if data.Some? && PayloadValid(packet.kind, data.value) {
      return Some(packet.(id := id, data := data));
    }
    return None;
  }

  // ---------------------------------------------------------------------------------------------
  // Parsing what was printed
  // ---------------------------------------------------------------------------------------------

  predicate NspOk(nsp: string) {
    nsp != "" && nsp[0] == '/' && ',' !in nsp
  }

  /** The character the JSON text of an array, an object or a string starts with. */
  function Opener(v: Value): Option<char> {
    match v
    case Arr(_) => Some('[')
    case Obj(_, _) => Some('{')
    case Str(_) => Some('"')
    case _ => None
  }

  /** What is assumed of the platform, for the value that gets printed: parsing undoes printing, the
      text of an array, an object or a string starts as it should, and such a start is not a number. */
  predicate PlatformOk(p: Platform, v: Value) {
    && p.parse(p.stringify(v)) == Some(v)
    && (Opener(v).Some? ==> p.stringify(v) != "" && p.stringify(v)[0] == Opener(v).value)
    && p.number("[") == p.number("{") == p.number("\"") == NotNatural
  }

  /** A payload that the receiver accepts; a packet may also have none. */
  predicate DataOk(kind: Kind, data: Option<Value>) {
    data.Some? ==> PayloadValid(kind, data.value) && !data.value.Undefined?
  }

  function DataText(p: Platform, data: Option<Value>): string {
    if data.Some? && !data.value.Null? && !data.value.Undefined? then p.stringify(data.value) else ""
  }

  /** The text of an acceptable payload is empty exactly when there is none, and starts neither like a
      number nor like a namespace. */
  lemma DataTextStarts(p: Platform, kind: Kind, data: Option<Value>)
    requires DataOk(kind, data) && (data.Some? ==> PlatformOk(p, data.value))
    ensures var json := DataText(p, data);
            && (json == "" <==> data.None?)
            && (json != "" ==> !NumberLike(p, json[0]) && json[0] != '/' && p.parse(json) == data)
  {
    if data.Some? {
      var c := Opener(data.value).value;
      assert [c] == "[" || [c] == "{" || [c] == "\"";
    }
  }

  lemma NumberOfDecimal(p: Platform, n: nat)
    ensures NumberOf(p, Decimal(n)) == Int(n)
  {
    DecimalRoundTrip(n);
  }

  function IdText(id: Option<Number>): string {
    if id.Some? && id.value.Int? then Decimal(id.value.n) else ""
  }

  lemma ParsePrintedIdAndData(p: Platform, packet: Packet, pre: string, id: Option<Number>, data: Option<Value>)
    requires DataOk(packet.kind, data) && (data.Some? ==> PlatformOk(p, data.value))
    requires packet.id == None && packet.data == None && (id.Some? ==> id.value.Int?)
    ensures ParseIdAndData(p, packet, pre + IdText(id) + DataText(p, data), |pre|) ==
              Some(packet.(id := id, data := data))
  {
    var idText, json := IdText(id), DataText(p, data);
    var e, end := pre + idText + json, |pre| + |idText|;
    DataTextStarts(p, packet.kind, data);
    assert e[|pre|..end] == idText && e[end..] == json;
    assert end < |e| ==> e[end] == json[0];
    assert forall j | |pre| <= j < end :: e[j] == idText[j - |pre|];
    assert SkipNumber(p, e, |pre|) == end;
    if id.Some? {
      NumberOfDecimal(p, id.value.n);
    }
  }

  function NspText(nsp: string): string {
    if nsp != "" && nsp != "/" then nsp + "," else ""
  }

  lemma ParsePrintedBody(p: Platform, packet: Packet, pre: string, nsp: string, id: Option<Number>,
      data: Option<Value>)
    requires DataOk(packet.kind, data) && (data.Some? ==> PlatformOk(p, data.value))
    requires packet.id == None && packet.data == None && (id.Some? ==> id.value.Int?) && NspOk(nsp)
    ensures ParseBody(p, packet, pre + NspText(nsp) + IdText(id) + DataText(p, data), |pre|)
         == Some(packet.(nsp := nsp, id := id, data := data))
  {
    ParsePrintedIdAndData(p, packet.(nsp := nsp), pre + NspText(nsp), id, data);
    DataTextStarts(p, packet.kind, data);
    NspReadsBack(pre, nsp, IdText(id), DataText(p, data));
  }

  lemma NspReadsBack(pre: string, nsp: string, idText: string, json: string)
    requires NspOk(nsp) && AllDigits(idText) && (json != "" ==> json[0] != '/')
    ensures var e := pre + NspText(nsp) + idText + json;
            NspAt(e, |pre|) == nsp && AfterNsp(e, |pre|) == |pre + NspText(nsp)|
  {
    var e := pre + NspText(nsp) + idText + json;
    if nsp == "/" {
      assert |pre| < |e| ==> e[|pre|] == if idText == "" then json[0] else idText[0];
    } else {
      assert e == pre + nsp + "," + (idText + json);
      NamespaceEnds(pre, nsp, idText + json);
    }
  }

  lemma NamespaceEnds(pre: string, nsp: string, more: string)
    requires NspOk(nsp)
    ensures var e, end := pre + nsp + "," + more, |pre + nsp|;
            && end < |e| && e[|pre|] == '/' && ScanTo(e, ',', |pre|) == end && e[|pre|..end] == nsp
  {
    var e, end := pre + nsp + "," + more, |pre + nsp|;
    assert e[end] == ',';
    assert forall j | |pre| <= j < end :: e[j] == nsp[j - |pre|];
  }

  /** A packet as it is printed: binary kinds announce their attachments, the others have none. */
  predicate Printable(p: Platform, packet: Packet) {
    && NspOk(packet.nsp) && (packet.id.Some? ==> packet.id.value.Int?)
    && DataOk(packet.kind, packet.data) && (packet.data.Some? ==> PlatformOk(p, packet.data.value))
    && (if IsBinary(packet.kind) then packet.attachments.Some? && packet.attachments.value >= 1
        else packet.attachments == None)
  }

  /** MAIN RESULT of the parser: the text of a packet of any of the seven kinds, with or without a
      payload, is parsed back to the same packet; more attachments than allowed are refused. */
  lemma ParsePrinted(p: Platform, maxAttachments: nat, packet: Packet)
    requires Printable(p, packet)
    ensures ParsePacket(p, maxAttachments, PrintPacket(p, packet)) ==
            if packet.attachments.Some? && packet.attachments.value > maxAttachments then None else Some(packet)
  {
    if packet.attachments.None? {
      ParsePrintedPlain(p, maxAttachments, packet);
    } else {
      ParsePrintedCount(p, maxAttachments, packet);
    }
  }

  lemma ParsePrintedPlain(p: Platform, maxAttachments: nat, packet: Packet)
    requires Printable(p, packet) && !IsBinary(packet.kind)
    ensures ParsePacket(p, maxAttachments, PrintPacket(p, packet)) == Some(packet)
  {
    var head := Decimal(Code(packet.kind));
    var tail := NspText(packet.nsp) + IdText(packet.id) + DataText(p, packet.data);
    NumberOfDecimal(p, Code(packet.kind));
    assert |head| == 1;
    assert PrintPacket(p, packet) == head + tail
        == head + NspText(packet.nsp) + IdText(packet.id) + DataText(p, packet.data);
    assert CharAt(head + tail, 0) == head;
    ParsePrintedBody(p, Blank(packet.kind, None), head, packet.nsp, packet.id, packet.data);
  }

  lemma ParsePrintedCount(p: Platform, maxAttachments: nat, packet: Packet)
    requires Printable(p, packet) && IsBinary(packet.kind)
    ensures ParsePacket(p, maxAttachments, PrintPacket(p, packet)) ==
            if packet.attachments.value > maxAttachments then None else Some(packet)
  {
    var head, count := Decimal(Code(packet.kind)), Decimal(packet.attachments.value);
    var pre := head + count + "-";
    var more := NspText(packet.nsp) + IdText(packet.id) + DataText(p, packet.data);
    var e := pre + NspText(packet.nsp) + IdText(packet.id) + DataText(p, packet.data);
    assert PrintPacket(p, packet) == e by {
      assert head + (count + "-") == pre;
    }
    assert e == pre + more;
    CountReadsBack(p, packet.kind, packet.attachments.value, more);
    ParsePrintedBody(p, Blank(packet.kind, packet.attachments), pre, packet.nsp, packet.id, packet.data);
  }

  /** The wire format in so many characters. */
  lemma WireFormat(p: Platform, json: string, v: Value)
    requires p.stringify(v) == json && !v.Null? && !v.Undefined?
    ensures PrintPacket(p, Packet(Connect, "/", None, Some(v), None)) == "0" + json
    ensures PrintPacket(p, Packet(Disconnect, "/a", None, None, None)) == "1/a,"
    ensures PrintPacket(p, Packet(Event, "/a", Some(Int(7)), Some(v), None)) == "2/a,7" + json
    ensures PrintPacket(p, Packet(Ack, "/", Some(Int(7)), Some(v), None)) == "37" + json
    ensures PrintPacket(p, Packet(ConnectError, "/", None, Some(v), None)) == "4" + json
    ensures PrintPacket(p, Packet(BinaryEvent, "/a", None, Some(v), Some(2))) == "52-/a," + json
    ensures PrintPacket(p, Packet(BinaryAck, "/", Some(Int(7)), Some(v), Some(1))) == "61-7" + json
  {
    assert Decimal(0) == "0" && Decimal(1) == "1" && Decimal(2) == "2" && Decimal(3) == "3";
    assert Decimal(4) == "4" && Decimal(5) == "5" && Decimal(6) == "6" && Decimal(7) == "7";
    assert "1" + "" + ("/a" + ",") + "" + "" == "1/a,";
    assert "2" + "" + ("/a" + ",") + "7" + json == "2/a,7" + json;
    assert "3" + "" + "" + "7" + json == "37" + json;
    assert "5" + ("2" + "-") + ("/a" + ",") + "" + json == "52-/a," + json;
    assert "6" + ("1" + "-") + "" + "7" + json == "61-7" + json;
  }

  /** What is refused: a type above six, no attachments or too many, and an event with a name the
      library uses itself. */
  lemma UnknownTypeRefused(p: Platform, maxAttachments: nat, d: nat, more: string)
    requires 7 <= d <= 9
    ensures ParsePacket(p, maxAttachments, Decimal(d) + more) == None
  {
    NumberOfDecimal(p, d);
    assert |Decimal(d)| == 1 && CharAt(Decimal(d) + more, 0) == Decimal(d);
  }

  lemma BadCountRefused(p: Platform, maxAttachments: nat, kind: Kind, n: nat, more: string)
    requires IsBinary(kind) && (n == 0 || n > maxAttachments)
    ensures ParsePacket(p, maxAttachments, Decimal(Code(kind)) + Decimal(n) + "-" + more) == None
  {
    CountReadsBack(p, kind, n, more);
  }

  /** What each kind accepts as a payload. */
  lemma PayloadRules(v: Value)
    ensures PayloadValid(Connect, v) <==> v.Obj?
    ensures PayloadValid(Disconnect, v) <==> v == Undefined
    ensures PayloadValid(ConnectError, v) <==> v.Str? || v.Obj?
    ensures PayloadValid(Ack, v) <==> v.Arr?
    ensures PayloadValid(BinaryAck, v) <==> v.Arr?
    ensures PayloadValid(Event, v) ==> v.Arr? && v.items != [] && (v.items[0].Num? || v.items[0].Str?)
    ensures PayloadValid(BinaryEvent, v) <==> PayloadValid(Event, v)
    ensures v.Arr? && v.items != [] && v.items[0].Num? ==> PayloadValid(Event, v)
    ensures v.Arr? && v.items != [] && v.items[0] == Str("message") ==> PayloadValid(Event, v)
  {
    if v.Arr? && v.items != [] && v.items[0] == Str("message") {
      forall name | name in RESERVED ensures name != "message" {
        assert |"message"| == 7 && "message"[0] == 'm';
      }
    }
  }

  lemma ReservedNamesRefused(items: seq<Value>, name: string)
    requires name in {"connect", "connect_error", "disconnect", "disconnecting", "newListener", "removeListener"}
    requires items != [] && items[0] == Str(name)
    ensures !PayloadValid(Event, Arr(items)) && !PayloadValid(BinaryEvent, Arr(items))
  {
    var all := RESERVED;
    assert all[0] in all && all[1] in all && all[2] in all && all[3] in all && all[4] in all && all[5] in all;
  }

  lemma CountReadsBack(p: Platform, kind: Kind, n: nat, more: string)
    ensures var pre := Decimal(Code(kind)) + Decimal(n) + "-";
            var e := pre + more;
            KindAt(p, e) == Some(kind) && e != "" && CountAt(p, e) == Some(n) && AfterCount(e) == |pre|
  {
    var head, count := Decimal(Code(kind)), Decimal(n);
    var e, dash := head + count + "-" + more, 1 + |count|;
    assert |head| == 1 && CharAt(e, 0) == head;
    assert e[dash] == '-' && e[1..dash] == count;
    assert forall j | 1 <= j < dash :: e[j] == count[j - 1];
    NumberOfDecimal(p, Code(kind));
    NumberOfDecimal(p, n);
  }
}
