/** Typed audio connections (api/selfai_ui/audio/connections.py): the draft of a new connection and
    the store of saved ones, keyed by id and listed in insertion order. Dictionaries are objects, so
    that who shares one with whom is part of the model. */
module Connections {

  import opened Wrappers

  datatype Result<T> = Ok(value: T) | Err(error: Error)
  datatype Error = TypeNotChosen | UnknownField | NotFound | IdExists | BadType

  datatype ConnectionType = SelfHostedStt | SelfHostedTts | HostedGeneral | HostedSpecializedA | HostedSpecializedB

  /** A field value: a string, or any other object with its text form and truth value. */
  datatype Value = Str(text: string) | Other(shown: string, truthy: bool)

  /** Field names, as in `TYPE_FIELDS`; any other string is `Unknown`. */
  datatype FieldName =
    | BaseUrl | ControlBaseUrl | Model | SplitOn
    | SttBaseUrl | SttApiKey | SttModel | TtsBaseUrl | TtsApiKey | TtsModel | TtsVoice
    | ApiKey | Voice | Region | OutputFormat
    | Unknown(name: string)

  /** The flat settings the fields were moved from, named as in config.py; any other is `NoKnob`. */
  datatype Knob =
    | AudioSttEngine | AudioTtsEngine
    | AudioSttOpenaiApiBaseUrl | AudioSttOpenaiApiKey | AudioSttControlBaseUrl | AudioSttModel
    | AudioTtsOpenaiApiBaseUrl | AudioTtsOpenaiApiKey | AudioTtsApiKey | AudioTtsModel | AudioTtsVoice
    | AudioTtsSplitOn | AudioTtsAzureSpeechRegion | AudioTtsAzureSpeechOutputFormat
    | NoKnob(name: string)

  type Fields = map<FieldName, Value>

  /** `AudioConnectionField`: the name, and the setting it came from. */
  datatype FieldInfo = FieldInfo(name: FieldName, legacy: Knob)

  function TypeFields(t: ConnectionType): seq<FieldInfo> {
    match t
    case SelfHostedStt => [
      FieldInfo(BaseUrl, AudioSttOpenaiApiBaseUrl),
      FieldInfo(ControlBaseUrl, AudioSttControlBaseUrl),
      FieldInfo(Model, AudioSttModel)]
    case SelfHostedTts => [
      FieldInfo(Model, AudioTtsModel),
      FieldInfo(SplitOn, AudioTtsSplitOn)]
    case HostedGeneral => [
      FieldInfo(SttBaseUrl, AudioSttOpenaiApiBaseUrl),
      FieldInfo(SttApiKey, AudioSttOpenaiApiKey),
      FieldInfo(SttModel, AudioSttModel),
      FieldInfo(TtsBaseUrl, AudioTtsOpenaiApiBaseUrl),
      FieldInfo(TtsApiKey, AudioTtsOpenaiApiKey),
      FieldInfo(TtsModel, AudioTtsModel),
      FieldInfo(TtsVoice, AudioTtsVoice),
      FieldInfo(SplitOn, AudioTtsSplitOn)]
    case HostedSpecializedA => [
      FieldInfo(ApiKey, AudioTtsApiKey),
      FieldInfo(Model, AudioTtsModel),
      FieldInfo(Voice, AudioTtsVoice),
      FieldInfo(SplitOn, AudioTtsSplitOn)]
    case HostedSpecializedB => [
      FieldInfo(ApiKey, AudioTtsApiKey),
      FieldInfo(Region, AudioTtsAzureSpeechRegion),
      FieldInfo(Voice, AudioTtsVoice),
      FieldInfo(OutputFormat, AudioTtsAzureSpeechOutputFormat),
      FieldInfo(SplitOn, AudioTtsSplitOn)]
  }

  function TypeValue(t: ConnectionType): string {
    match t
    case SelfHostedStt => "self_hosted_stt"
    case SelfHostedTts => "self_hosted_tts"
    case HostedGeneral => "hosted_general"
    case HostedSpecializedA => "hosted_specialized_a"
    case HostedSpecializedB => "hosted_specialized_b"
  }

  /** `AudioConnectionType(value)` */
  function ParseType(s: string): Option<ConnectionType> {
    if s == "self_hosted_stt" then Some(SelfHostedStt)
    else if s == "self_hosted_tts" then Some(SelfHostedTts)
    else if s == "hosted_general" then Some(HostedGeneral)
    else if s == "hosted_specialized_a" then Some(HostedSpecializedA)
    else if s == "hosted_specialized_b" then Some(HostedSpecializedB)
    else None
  }

  predicate IsFieldOf(t: ConnectionType, name: FieldName) {
    exists f | f in TypeFields(t) :: f.name == name
  }

  predicate OwnFields(t: ConnectionType, fields: Fields) {
    forall name | name in fields :: IsFieldOf(t, name)
  }

  // ---------------------------------------------------------------------------------------------
  // The saved set as a value
  // ---------------------------------------------------------------------------------------------

  predicate Distinct(order: seq<string>) {
    forall i, j | 0 <= i < j < |order| :: order[i] != order[j]
  }

  /** Each of `ids` once, and nothing else. */
  ghost predicate Lists(order: seq<string>, ids: set<string>) {
    Distinct(order) && Elements(order) == ids
  }

  ghost function Elements(order: seq<string>): set<string> {
    set id | id in order
  }

  lemma ListsAnother(order: seq<string>, ids: set<string>, id: string)
    requires Lists(order, ids) && id !in ids
    ensures Lists(order + [id], ids + {id})
  {
    var next := order + [id];
    assert Elements(next) == Elements(order) + {id};
    forall i, j | 0 <= i < j < |next| ensures next[i] != next[j] {
      assert next[i] == order[i] && order[i] in Elements(order);
    }
  }

  lemma ListsFewer(order: seq<string>, ids: set<string>, id: string)
    requires Lists(order, ids)
    ensures Lists(Without(order, id), ids - {id})
  {
    WithoutKeepsOthers(order, id);
    assert Elements(Without(order, id)) == Elements(order) - {id};
  }

  lemma Listed(order: seq<string>, ids: set<string>, i: nat)
    requires Lists(order, ids) && i < |order|
    ensures order[i] in ids
  {
    assert order[i] in Elements(order);
  }

  datatype Connection = Connection(kind: ConnectionType, fields: Fields)

  /** Ids in insertion order, and what each names. */
  datatype Book = Book(order: seq<string>, conns: map<string, Connection>) {
    ghost predicate WellFormed() {
      Lists(order, conns.Keys)
    }

    predicate WellTyped() {
      forall id | id in conns :: OwnFields(conns[id].kind, conns[id].fields)
    }
  }

  datatype Event =
    | AddEvent(kind: ConnectionType, fields: Fields, id: string)
    | UpdateEvent(id: string, fields: Fields)
    | DeleteEvent(id: string)

  function Added(b: Book, kind: ConnectionType, fields: Fields, id: string): Result<Book> {
    if !OwnFields(kind, fields) then Err(UnknownField)
    else if id in b.conns then Err(IdExists)
    else Ok(Book(b.order + [id], b.conns[id := Connection(kind, fields)]))
  }

  function Merged(b: Book, id: string, fields: Fields): Result<Book> {
    if id !in b.conns then Err(NotFound)
    else if !OwnFields(b.conns[id].kind, fields) then Err(UnknownField)
    else Ok(b.(conns := b.conns[id := b.conns[id].(fields := b.conns[id].fields + fields)]))
  }

  function Without(order: seq<string>, id: string): seq<string> {
    if order == [] then []
    else if order[0] == id then order[1..]
    else [order[0]] + Without(order[1..], id)
  }

  function Removed(b: Book, id: string): Result<Book> {
    if id !in b.conns then Err(NotFound)
    else Ok(Book(Without(b.order, id), b.conns - {id}))
  }

  function Try(b: Book, e: Event): Result<Book> {
    match e
    case AddEvent(kind, fields, id) => Added(b, kind, fields, id)
    case UpdateEvent(id, fields) => Merged(b, id, fields)
    case DeleteEvent(id) => Removed(b, id)
  }

  function Apply(b: Book, e: Event): Book {
    if Try(b, e).Ok? then Try(b, e).value else b
  }

  function Run(b: Book, run: seq<Event>): Book {
    if run == [] then b else Apply(Run(b, run[..|run| - 1]), run[|run| - 1])
  }

  lemma ConsDistinct(id: string, rest: seq<string>)
    requires Distinct(rest) && id !in rest
    ensures Distinct([id] + rest)
  {
    var all := [id] + rest;
    forall i, j | 0 <= i < j < |all| ensures all[i] != all[j] {
      assert all[j] == rest[j - 1] && (i > 0 ==> all[i] == rest[i - 1]);
    }
  }

  lemma {:induction false} WithoutKeepsOthers(order: seq<string>, id: string)
    requires Distinct(order)
    ensures var rest := Without(order, id);
            && Distinct(rest)
            && (forall other :: other in rest <==> other in order && other != id)
  {
    if order != [] {
      assert order == [order[0]] + order[1..];
      WithoutKeepsOthers(order[1..], id);
      if order[0] != id {
        ConsDistinct(order[0], Without(order[1..], id));
      }
    }
  }

  lemma StepKeeps(b: Book, e: Event)
    requires b.WellFormed()
    ensures Apply(b, e).WellFormed() && (b.WellTyped() ==> Apply(b, e).WellTyped())
  {
    match e
    case DeleteEvent(id) => ListsFewer(b.order, b.conns.Keys, id);
      assert (b.conns - {id}).Keys == b.conns.Keys - {id};
    case AddEvent(kind, fields, id) =>
      if Try(b, e).Ok? {
        ListsAnother(b.order, b.conns.Keys, id);
        assert Try(b, e).value.conns.Keys == b.conns.Keys + {id};
      }
    case UpdateEvent(id, fields) => assert Apply(b, e).conns.Keys == b.conns.Keys;
  }

  /** Adds, updates, deletes and failed calls in any order: every saved connection holds only fields
      of its own type, and every id is listed once. */
  lemma {:induction false} RunKeepsTyped(b: Book, run: seq<Event>)
    requires b.WellFormed() && b.WellTyped()
    ensures Run(b, run).WellFormed() && Run(b, run).WellTyped()
  {
    if run != [] {
      RunKeepsTyped(b, run[..|run| - 1]);
      StepKeeps(Run(b, run[..|run| - 1]), run[|run| - 1]);
    }
  }

  /** Each call changes at most the connection it addresses; the others also keep their order. */
  lemma StepIsIsolated(b: Book, e: Event, other: string)
    requires b.WellFormed() && other != e.id
    ensures other in Apply(b, e).conns <==> other in b.conns
    ensures other in b.conns ==> Apply(b, e).conns[other] == b.conns[other]
    ensures Without(Apply(b, e).order, e.id) == Without(b.order, e.id)
    ensures Try(b, e).Err? ==> Apply(b, e) == b
  {
    if e.DeleteEvent? && e.id in b.conns {
      ListsFewer(b.order, b.conns.Keys, e.id);
      assert e.id !in Elements(Without(b.order, e.id));
      WithoutAbsent(Without(b.order, e.id), e.id);
    } else if e.AddEvent? && Try(b, e).Ok? {
      assert e.id !in Elements(b.order);
      WithoutLast(b.order, e.id);
      WithoutAbsent(b.order, e.id);
    }
  }

  lemma {:induction false} WithoutAbsent(order: seq<string>, id: string)
    requires id !in order
    ensures Without(order, id) == order
  {
    if order != [] {
      WithoutAbsent(order[1..], id);
    }
  }

  lemma {:induction false} WithoutLast(order: seq<string>, id: string)
    requires id !in order
    ensures Without(order + [id], id) == order
  {
    if order != [] {
      assert (order + [id])[1..] == order[1..] + [id];
      WithoutLast(order[1..], id);
    }
  }

  /** What an add does to the connection it addresses: exactly the given type and fields, listed last; or
      a refusal, for a field of another type first and for a taken id then. */
  lemma AddHolds(b: Book, kind: ConnectionType, fields: Fields, id: string)
    ensures var r := Try(b, AddEvent(kind, fields, id));
            && (r == Err(UnknownField) <==> exists name | name in fields :: !IsFieldOf(kind, name))
            && (r == Err(IdExists) <==> (forall name | name in fields :: IsFieldOf(kind, name)) && id in b.conns)
            && (r.Err? ==> r.error in {UnknownField, IdExists})
            && (r.Ok? ==> id in r.value.conns && r.value.order == b.order + [id])
            && (r.Ok? ==> r.value.conns[id].kind == kind && r.value.conns[id].fields == fields)
  {
  }

  /** What an update does: the given values, the old ones elsewhere, the type as before. */
  lemma UpdateHolds(b: Book, id: string, given: Fields)
    ensures var r := Try(b, UpdateEvent(id, given));
            && (r == Err(NotFound) <==> id !in b.conns)
            && (r == Err(UnknownField) <==>
                  id in b.conns && exists name | name in given :: !IsFieldOf(b.conns[id].kind, name))
            && (r.Ok? ==>
                  && id in b.conns && id in r.value.conns && r.value.order == b.order
                  && var was, now := b.conns[id], r.value.conns[id];
                     && now.kind == was.kind && now.fields.Keys == was.fields.Keys + given.Keys
                     && (forall name | name in given :: now.fields[name] == given[name])
                     && (forall name | name in was.fields && name !in given :: now.fields[name] == was.fields[name]))
  {
  }

  /** What a delete does: the connection is gone. */
  lemma DeleteHolds(b: Book, id: string)
    requires b.WellFormed()
    ensures var r := Try(b, DeleteEvent(id));
            && (r == Err(NotFound) <==> id !in b.conns)
            && (r.Ok? ==> id in b.conns && id !in r.value.conns && id !in r.value.order)
  {
    if id in b.conns {
      WithoutKeepsOthers(b.order, id);
    }
  }

  /** The fields of each type. */
  lemma FieldsOfTypes(t: ConnectionType, name: FieldName)
    ensures IsFieldOf(t, name) <==>
              match t
              case SelfHostedStt => name in [BaseUrl, ControlBaseUrl, Model]
              case SelfHostedTts => name in [Model, SplitOn]
              case HostedGeneral =>
                name in [SttBaseUrl, SttApiKey, SttModel, TtsBaseUrl, TtsApiKey, TtsModel, TtsVoice, SplitOn]
              case HostedSpecializedA => name in [ApiKey, Model, Voice, SplitOn]
              case HostedSpecializedB => name in [ApiKey, Region, Voice, OutputFormat, SplitOn]
  {
    match t
    case SelfHostedStt => FieldsOfType(t, name, [BaseUrl, ControlBaseUrl, Model]);
    case SelfHostedTts => FieldsOfType(t, name, [Model, SplitOn]);
    case HostedGeneral =>
      FieldsOfType(t, name, [SttBaseUrl, SttApiKey, SttModel, TtsBaseUrl, TtsApiKey, TtsModel, TtsVoice, SplitOn]);
    case HostedSpecializedA => FieldsOfType(t, name, [ApiKey, Model, Voice, SplitOn]);
    case HostedSpecializedB => FieldsOfType(t, name, [ApiKey, Region, Voice, OutputFormat, SplitOn]);
  }

  lemma FieldsOfType(t: ConnectionType, name: FieldName, names: seq<FieldName>)
    requires |names| == |TypeFields(t)| && forall i | 0 <= i < |names| :: TypeFields(t)[i].name == names[i]
    ensures IsFieldOf(t, name) <==> name in names
  {
    if name in names {
      var i :| 0 <= i < |names| && names[i] == name;
      assert TypeFields(t)[i] in TypeFields(t);
    }
  }

  /** Calls that never address a connection leave it as it was, over a whole run. */
  lemma {:induction false} RunIsIsolated(b: Book, run: seq<Event>, other: string)
    requires b.WellFormed() && forall e | e in run :: e.id != other
    ensures other in Run(b, run).conns <==> other in b.conns
    ensures other in b.conns ==> Run(b, run).conns[other] == b.conns[other]
    ensures Run(b, run).WellFormed()
  {
    if run != [] {
      RunIsIsolated(b, run[..|run| - 1], other);
      StepIsIsolated(Run(b, run[..|run| - 1]), run[|run| - 1], other);
      StepKeeps(Run(b, run[..|run| - 1]), run[|run| - 1]);
    }
  }

  // ---------------------------------------------------------------------------------------------
  // Saving to and loading from the configuration
  // ---------------------------------------------------------------------------------------------

  /** One persisted entry: the key, the type's wire value, and the fields. */
  datatype Raw = Raw(id: string, kind: string, fields: Fields)

  function Serialized(b: Book): (data: seq<Raw>)
    requires b.WellFormed()
    ensures |data| == |b.order|
  {
    seq(|b.order|, i requires 0 <= i < |b.order| =>
      Listed(b.order, b.conns.Keys, i);
      Raw(b.order[i], TypeValue(b.conns[b.order[i]].kind), b.conns[b.order[i]].fields))
  }

  /** What loading gives; an unknown type value raises. Fields are taken as they are. */
  function Loaded(data: seq<Raw>): Result<Book> {
    if data == [] then Ok(Book([], map[]))
    else
      var before := Loaded(data[..|data| - 1]);
      var e := data[|data| - 1];
      if before.Err? then before
      else if ParseType(e.kind).None? then Err(BadType)
      else Ok(Put(before.value, e.id, Connection(ParseType(e.kind).value, e.fields)))
  }

  /** Assignment to a dictionary key: a new key goes to the end, an old one keeps its place. */
  function Put(b: Book, id: string, c: Connection): Book {
    Book(PutOrder(b.order, b.conns.Keys, id), b.conns[id := c])
  }

  function PutOrder(order: seq<string>, ids: set<string>, id: string): seq<string> {
    if id in ids then order else order + [id]
  }

  lemma InsertListed(order: seq<string>, ids: set<string>, id: string)
    requires Lists(order, ids)
    ensures Lists(PutOrder(order, ids, id), ids + {id})
  {
    if id in ids {
      assert ids + {id} == ids;
    } else {
      ListsAnother(order, ids, id);
    }
  }

  lemma ParseTypeValue(t: ConnectionType)
    ensures ParseType(TypeValue(t)) == Some(t)
  {
  }

  /** Only the first `n` ids. */
  function Prefix(b: Book, n: nat): Book
    requires b.WellFormed() && n <= |b.order|
  {
    Book(b.order[..n], map id | id in b.conns && id in b.order[..n] :: b.conns[id])
  }

  lemma PrefixNext(b: Book, n: nat)
    requires b.WellFormed() && n < |b.order|
    ensures b.order[n] in b.conns
    ensures Prefix(b, n + 1) == Put(Prefix(b, n), b.order[n], b.conns[b.order[n]])
  {
    var id := b.order[n];
    Listed(b.order, b.conns.Keys, n);
    assert id !in b.order[..n];
    assert b.order[..n + 1] == b.order[..n] + [id];
    assert Prefix(b, n + 1).conns == Prefix(b, n).conns[id := b.conns[id]];
  }

  /** Loading one more entry. */
  lemma LoadNext(data: seq<Raw>, n: nat, before: Book, kind: ConnectionType)
    requires n < |data| && Loaded(data[..n]) == Ok(before) && ParseType(data[n].kind) == Some(kind)
    ensures Loaded(data[..n + 1]) == Ok(Put(before, data[n].id, Connection(kind, data[n].fields)))
  {
    assert data[..n + 1][..n] == data[..n];
  }

  lemma {:induction false} LoadPrefix(b: Book, n: nat)
    requires b.WellFormed() && n <= |b.order|
    ensures Loaded(Serialized(b)[..n]) == Ok(Prefix(b, n))
    decreases n
  {
    if n > 0 {
      LoadPrefix(b, n - 1);
      PrefixNext(b, n - 1);
      ParseTypeValue(b.conns[b.order[n - 1]].kind);
      LoadNext(Serialized(b), n - 1, Prefix(b, n - 1), b.conns[b.order[n - 1]].kind);
    }
  }

  /** MAIN RESULT. Saving and loading gives back the same ordered set, whatever calls produced it. */
  lemma SaveThenLoad(b: Book)
    requires b.WellFormed()
    ensures Loaded(Serialized(b)) == Ok(b)
  {
    LoadPrefix(b, |b.order|);
    assert Serialized(b)[..|b.order|] == Serialized(b);
    assert b.order[..|b.order|] == b.order;
    assert forall id | id in b.conns :: id in Elements(b.order);
    assert Prefix(b, |b.order|).conns == b.conns;
  }

  lemma PutKeepsWellFormed(b: Book, id: string, c: Connection)
    requires b.WellFormed()
    ensures Put(b, id, c).WellFormed()
  {
    assert Put(b, id, c).conns.Keys == b.conns.Keys + {id};
    InsertListed(b.order, b.conns.Keys, id);
  }

  lemma {:induction false} LoadedIsWellFormed(data: seq<Raw>)
    requires Loaded(data).Ok?
    ensures Loaded(data).value.WellFormed()
  {
    if data != [] {
      LoadedIsWellFormed(data[..|data| - 1]);
      var e := data[|data| - 1];
      PutKeepsWellFormed(Loaded(data[..|data| - 1]).value, e.id, Connection(ParseType(e.kind).value, e.fields));
    }
  }

  /** Entry `i` is the last one of its id, the one that stays. */
  predicate IsLastOf(data: seq<Raw>, i: nat) {
    i < |data| && forall j | i < j < |data| :: data[j].id != data[i].id
  }

  /** The name of each type in the configuration. */
  lemma TypesInWords(id: string, fields: Fields)
    ensures Loaded([Raw(id, "self_hosted_stt", fields)]) == Ok(Book([id], map[id := Connection(SelfHostedStt, fields)]))
    ensures Loaded([Raw(id, "self_hosted_tts", fields)]) == Ok(Book([id], map[id := Connection(SelfHostedTts, fields)]))
    ensures Loaded([Raw(id, "hosted_general", fields)]) == Ok(Book([id], map[id := Connection(HostedGeneral, fields)]))
    ensures Loaded([Raw(id, "hosted_specialized_a", fields)]) ==
            Ok(Book([id], map[id := Connection(HostedSpecializedA, fields)]))
    ensures Loaded([Raw(id, "hosted_specialized_b", fields)]) ==
            Ok(Book([id], map[id := Connection(HostedSpecializedB, fields)]))
  {
    LoadedAlone(Raw(id, "self_hosted_stt", fields), SelfHostedStt);
    LoadedAlone(Raw(id, "self_hosted_tts", fields), SelfHostedTts);
    LoadedAlone(Raw(id, "hosted_general", fields), HostedGeneral);
    LoadedAlone(Raw(id, "hosted_specialized_a", fields), HostedSpecializedA);
    LoadedAlone(Raw(id, "hosted_specialized_b", fields), HostedSpecializedB);
  }

  lemma LoadedAlone(e: Raw, t: ConnectionType)
    requires ParseType(e.kind) == Some(t)
    ensures Loaded([e]) == Ok(Book([e.id], map[e.id := Connection(t, e.fields)]))
  {
    var data := [e];
    assert data[..0] == [] && Loaded(data[..0]) == Ok(Book([], map[]));
    LoadNext(data, 0, Book([], map[]), t);
    assert data[..1] == data;
    var c, none: map<string, Connection> := Connection(t, e.fields), map[];
    assert none[e.id := c] == map[e.id := c] && [] + [e.id] == [e.id];
  }

  /** What the entry means once its type is known. */
  predicate OwnEntry(e: Raw) {
    ParseType(e.kind).Some? && OwnFields(ParseType(e.kind).value, e.fields)
  }

  lemma {:induction false} LoadedLast(data: seq<Raw>, i: nat)
    requires Loaded(data).Ok? && IsLastOf(data, i)
    ensures var conns := Loaded(data).value.conns;
            && ParseType(data[i].kind).Some? && data[i].id in conns
            && conns[data[i].id] == Connection(ParseType(data[i].kind).value, data[i].fields)
    decreases |data|
  {
    var n := |data| - 1;
    if i < n {
      assert data[..n][i] == data[i];
      LoadedLast(data[..n], i);
    }
  }

  lemma {:induction false} LoadedFrom(data: seq<Raw>, id: string) returns (i: nat)
    requires Loaded(data).Ok? && id in Loaded(data).value.conns
    ensures IsLastOf(data, i) && data[i].id == id
    decreases |data|
  {
    var n := |data| - 1;
    if data[n].id == id {
      i := n;
    } else {
      i := LoadedFrom(data[..n], id);
      assert data[..n][i] == data[i];
      forall j | i < j < |data| ensures data[j].id != data[i].id {
        if j < n {
          assert data[..n][j] == data[j];
        }
      }
    }
  }

  /** Loading does not look at the fields: a loaded connection holds only its own type's fields if and
      only if the stored entries did, the last one of each id. */
  lemma LoadedIsWellTyped(data: seq<Raw>)
    requires Loaded(data).Ok?
    ensures Loaded(data).value.WellTyped() <==> forall i | 0 <= i < |data| && IsLastOf(data, i) :: OwnEntry(data[i])
  {
    var b := Loaded(data).value;
    if b.WellTyped() {
      forall i | 0 <= i < |data| && IsLastOf(data, i) ensures OwnEntry(data[i]) {
        LoadedLast(data, i);
      }
    }
    if forall i | 0 <= i < |data| && IsLastOf(data, i) :: OwnEntry(data[i]) {
      forall id | id in b.conns ensures OwnFields(b.conns[id].kind, b.conns[id].fields) {
        var i := LoadedFrom(data, id);
        LoadedLast(data, i);
      }
    }
  }

  // ---------------------------------------------------------------------------------------------
  // The objects
  // ---------------------------------------------------------------------------------------------

  class Dict {
    var entries: Fields

    constructor (entries: Fields)
      ensures this.entries == entries
    {
      this.entries := entries;
    }
  }

  /** `_validate_fields` */
  method ValidateFields(kind: ConnectionType, fields: Fields) returns (ok: bool)
    ensures ok == OwnFields(kind, fields)
  {
    var todo := fields.Keys;
    while todo != {}
      invariant todo <= fields.Keys
      invariant forall name | name in fields && name !in todo :: IsFieldOf(kind, name)
      decreases |todo|
    {
      var name :| name in todo;
      if !IsFieldOf(kind, name) {
        return false;
      }
      todo := todo - {name};
    }
    return true;
  }

  class Draft {
    var kind: Option<ConnectionType>
    var fields: Dict

    ghost predicate Valid() reads this, fields {
      if kind.None? then fields.entries == map[] else OwnFields(kind.value, fields.entries)
    }

    /** `new_audio_connection_draft` */
    constructor ()
      ensures Valid() && kind == None && fresh(fields)
    {
      kind := None;
      fields := new Dict(map[]);
    }

    /** `set_field`: refused before a type is chosen and for another type's field. */
    method SetField(name: FieldName, value: Value) returns (r: Option<Error>)
      requires Valid()
      modifies fields
      ensures Valid() && kind == old(kind)
      ensures r == if kind.None? then Some(TypeNotChosen)
                   else if !IsFieldOf(kind.value, name) then Some(UnknownField)
                   else None
      ensures fields.entries == if r.None? then old(fields.entries)[name := value] else old(fields.entries)
    {
      if kind.None? {
        return Some(TypeNotChosen);
      }
      if !IsFieldOf(kind.value, name) {
        return Some(UnknownField);
      }
      fields.entries := fields.entries[name := value];
      return None;
    }

    /** `choose_type`: the collected fields are dropped. */
    method ChooseType(t: ConnectionType)
      modifies this
      ensures Valid() && kind == Some(t) && fresh(fields) && fields.entries == map[]
    {
      kind := Some(t);
      fields := new Dict(map[]);
    }
  }

  /** A saved connection; its dictionary is the one the store changes in place. */
  datatype Saved = Saved(id: string, kind: ConnectionType, fields: Dict)

  ghost function DictsOf(byId: map<string, Saved>): set<Dict> {
    set id | id in byId :: byId[id].fields
  }

  /** The connections' present values. */
  ghost function View(byId: map<string, Saved>): (conns: map<string, Connection>)
    reads DictsOf(byId)
    ensures conns.Keys == byId.Keys
  {
    map id | id in byId :: Connection(byId[id].kind, byId[id].fields.entries)
  }

  /** Every connection under its own id, with a dictionary of its own. */
  ghost predicate Separate(byId: map<string, Saved>) {
    && (forall id | id in byId :: byId[id].id == id)
    && (forall a, b | a in byId && b in byId && a != b :: byId[a].fields != byId[b].fields)
  }

  lemma InsertKeeps(byId: map<string, Saved>, c: Saved)
    requires Separate(byId) && c.fields !in DictsOf(byId)
    ensures Separate(byId[c.id := c])
    ensures View(byId[c.id := c]) == View(byId)[c.id := Connection(c.kind, c.fields.entries)]
    ensures DictsOf(byId[c.id := c]) <= DictsOf(byId) + {c.fields}
    ensures c.id !in byId ==> DictsOf(byId[c.id := c]) == DictsOf(byId) + {c.fields}
  {
    InsertSeparate(byId, c);
    if c.id !in byId {
      InsertDicts(byId, c);
    }
  }

  lemma InsertSeparate(byId: map<string, Saved>, c: Saved)
    requires Separate(byId) && c.fields !in DictsOf(byId)
    ensures Separate(byId[c.id := c])
  {
    forall id | id in byId ensures byId[id].fields in DictsOf(byId) {
    }
  }

  lemma InsertDicts(byId: map<string, Saved>, c: Saved)
    requires c.id !in byId
    ensures DictsOf(byId[c.id := c]) == DictsOf(byId) + {c.fields}
  {
    var next := byId[c.id := c];
    forall d | d in DictsOf(byId) + {c.fields} ensures d in DictsOf(next) {
      if d != c.fields {
        var id :| id in byId && byId[id].fields == d;
        assert next[id].fields == d;
      } else {
        assert next[c.id].fields == d;
      }
    }
  }

  /** Connections whose dictionaries are untouched look as before. */
  twostate lemma SameView(byId: map<string, Saved>)
    requires forall id | id in byId :: old(allocated(byId[id].fields)) && unchanged(byId[id].fields)
    ensures View(byId) == old(View(byId))
  {
  }

  /** `dict.update` on one connection's dictionary shows in that connection alone. */
  method UpdateDict(byId: map<string, Saved>, id: string, given: Fields)
    requires id in byId && Separate(byId)
    modifies byId[id].fields
    ensures View(byId) == old(View(byId))[id := Connection(byId[id].kind, old(byId[id].fields.entries) + given)]
  {
    byId[id].fields.entries := byId[id].fields.entries + given;
  }

  lemma DeleteKeeps(byId: map<string, Saved>, id: string)
    requires Separate(byId)
    ensures Separate(byId - {id}) && (byId - {id}).Keys == byId.Keys - {id}
    ensures View(byId - {id}) == View(byId) - {id}
    ensures DictsOf(byId - {id}) <= DictsOf(byId)
  {
  }

  class Store {
    var order: seq<string>
    var byId: map<string, Saved>

    ghost predicate Valid() reads this {
      && Lists(order, byId.Keys)
      && Separate(byId)
    }

    /** The dictionaries that belong to the store. */
    ghost function Dicts(): set<Dict> reads this {
      DictsOf(byId)
    }

    ghost function Contents(): (b: Book)
      requires Valid()
      reads this, Dicts()
      ensures b.conns.Keys == byId.Keys
    {
      Book(order, View(byId))
    }

    constructor ()
      ensures Valid() && Contents() == Book([], map[]) && Dicts() == {}
    {
      order, byId := [], map[];
    }

    /** `_by_id[id] = connection` */
    method Insert(connection: Saved)
      requires Valid() && connection.fields !in Dicts()
      modifies this
      ensures Valid()
      ensures byId == old(byId)[connection.id := connection]
      ensures Dicts() <= old(Dicts()) + {connection.fields}
      ensures connection.id !in old(byId) ==> Dicts() == old(Dicts()) + {connection.fields}
      ensures Contents() == Put(old(Contents()), connection.id, Connection(connection.kind, connection.fields.entries))
    {
      InsertKeeps(byId, connection);
      InsertListed(order, byId.Keys, connection.id);
      assert byId[connection.id := connection].Keys == byId.Keys + {connection.id};
      order, byId := PutOrder(order, byId.Keys, connection.id), byId[connection.id := connection];
      SameView(byId);
    }

    /** `add`: the caller's dictionary is copied, so the store keeps only dictionaries of its own. */
    method Add(kind: ConnectionType, fields: Option<Dict>, id: string) returns (r: Result<Saved>)
      requires Valid()
      modifies this
      ensures Valid()
      ensures var given := if fields.Some? then fields.value.entries else map[];
              && r.Ok? == Added(old(Contents()), kind, given, id).Ok?
              && (r.Err? ==> r.error == Added(old(Contents()), kind, given, id).error)
              && Contents() == Apply(old(Contents()), AddEvent(kind, given, id))
      ensures r.Ok? ==> id in byId && byId[id] == r.value && fresh(r.value.fields)
      ensures Dicts() == old(Dicts()) + if r.Ok? then {r.value.fields} else {}
    {
      var materialized := new Dict(if fields.Some? then fields.value.entries else map[]);
      var ok := ValidateFields(kind, materialized.entries);
      if !ok {
        return Err(UnknownField);
      }
      if id in byId {
        return Err(IdExists);
      }
      var connection := Saved(id, kind, materialized);
      Insert(connection);
      return Ok(connection);
    }

    /** `save_draft` */
    method SaveDraft(draft: Draft, id: string) returns (r: Result<Saved>)
      requires Valid()
      modifies this
      ensures Valid()
      ensures draft.kind.None? ==> r == Err(TypeNotChosen) && Contents() == old(Contents()) && Dicts() == old(Dicts())
      ensures draft.kind.Some? ==>
                && Contents() == Apply(old(Contents()), AddEvent(draft.kind.value, draft.fields.entries, id))
                && (draft.Valid() ==> (r.Ok? <==> id !in old(byId)))
      ensures r.Ok? ==> fresh(r.value.fields) && Dicts() == old(Dicts()) + {r.value.fields}
      ensures r.Err? ==> Dicts() == old(Dicts())
    {
      if draft.kind.None? {
        return Err(TypeNotChosen);
      }
      r := Add(draft.kind.value, Some(draft.fields), id);
    }

    /** `update_fields`: merges into one connection's own dictionary, or raises and changes nothing. */
    method UpdateFields(id: string, fields: Dict) returns (r: Result<Saved>)
      requires Valid()
      modifies if id in byId then {byId[id].fields} else {}
      ensures Valid() && Dicts() == old(Dicts())
      ensures Contents() == Apply(old(Contents()), UpdateEvent(id, old(fields.entries)))
      ensures r == match Merged(old(Contents()), id, old(fields.entries))
                   case Ok(_) => Ok(byId[id])
                   case Err(e) => Err(e)
    {
      if id !in byId {
        return Err(NotFound);
      }
      var connection := byId[id];
      var ok := ValidateFields(connection.kind, fields.entries);
      if !ok {
        return Err(UnknownField);
      }
      UpdateDict(byId, id, fields.entries);
      return Ok(connection);
    }

    /** `delete` */
    method Delete(id: string) returns (r: Result<Saved>)
      requires Valid()
      modifies this
      ensures Valid() && Dicts() <= old(Dicts())
      ensures Contents() == Apply(old(Contents()), DeleteEvent(id))
      ensures r == if id in old(byId) then Ok(old(byId)[id]) else Err(NotFound)
    {
      if id !in byId {
        return Err(NotFound);
      }
      r := Ok(byId[id]);
      ListsFewer(order, byId.Keys, id);
      DeleteKeeps(byId, id);
      order, byId := Without(order, id), byId - {id};
      SameView(byId);
    }

    /** `to_serializable` */
    method ToSerializable() returns (data: seq<Raw>)
      requires Valid()
      ensures data == Serialized(Contents())
    {
      data := [];
      for i := 0 to |order|
        invariant data == Serialized(Contents())[..i]
      {
        Listed(order, byId.Keys, i);
        var c := byId[order[i]];
        data := data + [Raw(order[i], TypeValue(c.kind), c.fields.entries)];
      }
    }
  }

  // ---------------------------------------------------------------------------------------------
  // Callers that keep what they passed in
  // ---------------------------------------------------------------------------------------------

  /** What a caller does with a store, a dictionary and a draft that it keeps. */
  datatype Action =
    | EditDict(name: FieldName, value: Value)
    | ChooseDraft(kind: ConnectionType)
    | EditDraft(name: FieldName, value: Value)
    | AddDict(kind: ConnectionType, id: string)
    | AddDraft(id: string)
    | UpdateWithDict(id: string)
    | UpdateWithDraft(id: string)
    | DeleteSaved(id: string)

  /** The store, the dictionary and the draft as three separate values. */
  datatype Desk = Desk(book: Book, dict: Fields, kind: Option<ConnectionType>, draft: Fields)

  function Acted(d: Desk, a: Action): Desk {
    match a
    case EditDict(name, value) => d.(dict := d.dict[name := value])
    case ChooseDraft(kind) => d.(kind := Some(kind), draft := map[])
    case EditDraft(name, value) =>
      if d.kind.Some? && IsFieldOf(d.kind.value, name) then d.(draft := d.draft[name := value]) else d
    case AddDict(kind, id) => d.(book := Apply(d.book, AddEvent(kind, d.dict, id)))
    case AddDraft(id) => if d.kind.None? then d else d.(book := Apply(d.book, AddEvent(d.kind.value, d.draft, id)))
    case UpdateWithDict(id) => d.(book := Apply(d.book, UpdateEvent(id, d.dict)))
    case UpdateWithDraft(id) => d.(book := Apply(d.book, UpdateEvent(id, d.draft)))
    case DeleteSaved(id) => d.(book := Apply(d.book, DeleteEvent(id)))
  }

  function ActedAll(d: Desk, actions: seq<Action>): Desk {
    if actions == [] then d else Acted(ActedAll(d, actions[..|actions| - 1]), actions[|actions| - 1])
  }

  ghost predicate OnDesk(store: Store, dict: Dict, draft: Draft)
    reads store, draft
  {
    store.Valid() && dict !in store.Dicts() && draft.fields !in store.Dicts() && draft.fields != dict
  }

  ghost function DeskOf(store: Store, dict: Dict, draft: Draft): Desk
    requires OnDesk(store, dict, draft)
    reads store, store.Dicts(), dict, draft, draft.fields
  {
    Desk(store.Contents(), dict.entries, draft.kind, draft.fields.entries)
  }

  predicate IsEdit(a: Action) {
    a.EditDict? || a.ChooseDraft? || a.EditDraft?
  }

  /** What the caller does to its own objects does not show in the store. */
  method Edit(store: Store, dict: Dict, draft: Draft, a: Action)
    requires OnDesk(store, dict, draft) && draft.Valid() && IsEdit(a)
    modifies dict, draft, draft.fields
    ensures OnDesk(store, dict, draft) && draft.Valid() && (draft.fields == old(draft.fields) || fresh(draft.fields))
    ensures DeskOf(store, dict, draft) == Acted(old(DeskOf(store, dict, draft)), a)
  {
    match a {
      case EditDict(name, value) => dict.entries := dict.entries[name := value];
      case ChooseDraft(kind) => draft.ChooseType(kind);
      case EditDraft(name, value) => var _ := draft.SetField(name, value);
    }
    SameView(store.byId);
  }

  /** What the store does, it does not to the caller's objects, and it keeps none of them. */
  method Call(store: Store, dict: Dict, draft: Draft, a: Action)
    requires OnDesk(store, dict, draft) && draft.Valid() && !IsEdit(a)
    modifies store, store.Dicts()
    ensures OnDesk(store, dict, draft) && draft.Valid() && fresh(store.Dicts() - old(store.Dicts()))
    ensures DeskOf(store, dict, draft) == Acted(old(DeskOf(store, dict, draft)), a)
  {
    if a.AddDict? || a.AddDraft? {
      CallAdd(store, dict, draft, a);
    } else if a.DeleteSaved? {
      var _ := store.Delete(a.id);
    } else {
      CallUpdate(store, dict, draft, a);
    }
  }

  method CallUpdate(store: Store, dict: Dict, draft: Draft, a: Action)
    requires OnDesk(store, dict, draft) && (a.UpdateWithDict? || a.UpdateWithDraft?)
    modifies store.Dicts()
    ensures OnDesk(store, dict, draft) && store.Dicts() == old(store.Dicts())
    ensures DeskOf(store, dict, draft) == Acted(old(DeskOf(store, dict, draft)), a)
  {
    match a {
      case UpdateWithDict(id) => var _ := store.UpdateFields(id, dict);
      case UpdateWithDraft(id) => var _ := store.UpdateFields(id, draft.fields);
    }
  }

  method CallAdd(store: Store, dict: Dict, draft: Draft, a: Action)
    requires OnDesk(store, dict, draft) && (a.AddDict? || a.AddDraft?)
    modifies store
    ensures OnDesk(store, dict, draft) && fresh(store.Dicts() - old(store.Dicts()))
    ensures DeskOf(store, dict, draft) == Acted(old(DeskOf(store, dict, draft)), a)
  {
    match a {
      case AddDict(kind, id) => var _ := store.Add(kind, Some(dict), id);
      case AddDraft(id) => var _ := store.SaveDraft(draft, id);
    }
  }

  /** MAIN RESULT. Over any sequence of edits, adds, updates, deletes and failed calls the store, the
      caller's dictionary and the draft behave as three separate values: nothing the caller does to
      what it passed in reaches the store later. */
  method Session(dict: Dict, actions: seq<Action>) returns (store: Store)
    modifies dict
    ensures fresh(store) && store.Valid() && fresh(store.Dicts())
    ensures var end := ActedAll(Desk(Book([], map[]), old(dict.entries), None, map[]), actions);
            store.Contents() == end.book && dict.entries == end.dict
  {
    store := new Store();
    var draft := new Draft();
    ghost var start := DeskOf(store, dict, draft);
    for i := 0 to |actions|
      invariant fresh(store) && fresh(store.Dicts()) && fresh(draft) && fresh(draft.fields)
      invariant OnDesk(store, dict, draft) && draft.Valid()
      invariant DeskOf(store, dict, draft) == ActedAll(start, actions[..i])
    {
      if IsEdit(actions[i]) {
        Edit(store, dict, draft, actions[i]);
      } else {
        Call(store, dict, draft, actions[i]);
      }
      assert actions[..i + 1][..i] == actions[..i];
    }
    assert actions[..|actions|] == actions;
  }

  /** `SavedAudioConnection.from_serializable`, and the assignment of the result. */
  method LoadOne(store: Store, id: string, kind: ConnectionType, fields: Fields)
    requires store.Valid()
    modifies store
    ensures store.Valid() && fresh(store.Dicts() - old(store.Dicts()))
    ensures store.Contents() == Put(old(store.Contents()), id, Connection(kind, fields))
  {
    var dict := new Dict(fields);
    store.Insert(Saved(id, kind, dict));
  }

  /** `from_serializable` */
  method FromSerializable(data: seq<Raw>) returns (r: Result<Store>)
    ensures Loaded(data).Err? ==> r == Err(Loaded(data).error)
    ensures Loaded(data).Ok? ==>
              && r.Ok? && fresh(r.value) && r.value.Valid() && fresh(r.value.Dicts())
              && r.value.Contents() == Loaded(data).value
  {
    var store := new Store();
    for i := 0 to |data|
      invariant fresh(store) && store.Valid() && fresh(store.Dicts())
      invariant Loaded(data[..i]) == Ok(store.Contents())
    {
      var e := data[i];
      assert data[..i + 1][..i] == data[..i];
      var kind := ParseType(e.kind);
      if kind.None? {
        LoadStops(data, i + 1, |data|);
        assert data[..|data|] == data;
        return Err(BadType);
      }
      LoadNext(data, i, store.Contents(), kind.value);
      LoadOne(store, e.id, kind.value, e.fields);
    }
    assert data[..|data|] == data;
    return Ok(store);
  }

  lemma {:induction false} LoadStops(data: seq<Raw>, i: nat, n: nat)
    requires i <= n <= |data| && Loaded(data[..i]).Err?
    ensures Loaded(data[..n]) == Loaded(data[..i])
    decreases n
  {
    if i < n {
      LoadStops(data, i, n - 1);
      assert data[..n][..n - 1] == data[..n - 1];
    }
  }
}
