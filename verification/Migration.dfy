/** Moving the flat audio settings into typed connections
    (api/selfai_ui/audio/migration.py, lines 53-163). */
module Migration {

  import opened Wrappers
  import opened Connections

  /** A snapshot of the flat settings. */
  type Legacy = map<Knob, Value>

  /** `legacy_engine` and `capabilities` of the types (connections.py, lines 91-127). */
  function LegacyEngine(t: ConnectionType): string {
    match t
    case SelfHostedStt => ""
    case SelfHostedTts => "transformers"
    case HostedGeneral => "openai"
    case HostedSpecializedA => "elevenlabs"
    case HostedSpecializedB => "azure"
  }

  predicate DoesStt(t: ConnectionType) { t == SelfHostedStt || t == HostedGeneral }
  predicate DoesTts(t: ConnectionType) { t != SelfHostedStt }

  /** The tables `_STT_ENGINE_TO_TYPE` and `_TTS_ENGINE_TO_TYPE`. */
  function SttType(engine: string): Option<ConnectionType> {
    if engine == "" then Some(SelfHostedStt)
    else if engine == "openai" then Some(HostedGeneral)
    else None
  }

  function TtsType(engine: string): Option<ConnectionType> {
    if engine == "transformers" then Some(SelfHostedTts)
    else if engine == "openai" then Some(HostedGeneral)
    else if engine == "elevenlabs" then Some(HostedSpecializedA)
    else if engine == "azure" then Some(HostedSpecializedB)
    else None
  }

  /** The tables are what the type descriptors say: one type per engine and capability. */
  lemma EngineTables(engine: string, t: ConnectionType)
    ensures SttType(engine) == Some(t) <==> DoesStt(t) && LegacyEngine(t) == engine
    ensures TtsType(engine) == Some(t) <==> DoesTts(t) && LegacyEngine(t) == engine
  {
    var e := LegacyEngine(t);
    assert |e| == match t
                  case SelfHostedStt => 0
                  case SelfHostedTts => 12
                  case HostedGeneral => 6
                  case HostedSpecializedA => 10
                  case HostedSpecializedB => 5;
  }

  predicate Truthy(v: Value) {
    if v.Str? then v.text != "" else v.truthy
  }

  /** `str(legacy.get(key, "") or "")` */
  function Text(legacy: Legacy, k: Knob): string {
    if k !in legacy || !Truthy(legacy[k]) then ""
    else if legacy[k].Str? then legacy[k].text
    else legacy[k].shown
  }

  predicate IsSet(legacy: Legacy, k: Knob) {
    k in legacy && Truthy(legacy[k])
  }

  /** `_stt_capability_configured` */
  predicate SttConfigured(legacy: Legacy) {
    Text(legacy, AudioSttEngine) != "" || IsSet(legacy, AudioSttModel) || IsSet(legacy, AudioSttControlBaseUrl)
  }

  /** The engine a connection of type `t` replaces was configured on one side or the other. */
  predicate WasConfigured(legacy: Legacy, t: ConnectionType) {
    || (SttType(Text(legacy, AudioSttEngine)) == Some(t) && SttConfigured(legacy))
    || TtsType(Text(legacy, AudioTtsEngine)) == Some(t)
  }

  /** The fields hold exactly their settings: present if and only if the setting was, and equal. */
  predicate FieldsFrom(legacy: Legacy, t: ConnectionType, fields: Fields, infos: seq<FieldInfo>) {
    && (forall f | f in infos :: f.name in fields <==> f.legacy in legacy)
    && (forall f | f in infos && f.legacy in legacy :: fields[f.name] == legacy[f.legacy])
    && (forall name | name in fields :: exists f | f in infos :: f.name == name)
  }

  lemma NamesDiffer(t: ConnectionType, i: nat, j: nat)
    requires i < j < |TypeFields(t)|
    ensures TypeFields(t)[i].name != TypeFields(t)[j].name
  {
  }

  /** `_fields_from_legacy` */
  method FieldsFromLegacy(t: ConnectionType, legacy: Legacy) returns (fields: Fields)
    ensures FieldsFrom(legacy, t, fields, TypeFields(t))
  {
    fields := map[];
    var infos := TypeFields(t);
    for i := 0 to |infos|
      invariant FieldsFrom(legacy, t, fields, infos[..i])
    {
      assert infos[..i + 1] == infos[..i] + [infos[i]];
      forall f | f in infos[..i] ensures f.name != infos[i].name {
        var j :| 0 <= j < i && infos[j] == f;
        NamesDiffer(t, j, i);
      }
      if infos[i].legacy in legacy {
        fields := fields[infos[i].name := legacy[infos[i].legacy]];
      }
    }
    assert infos[..|infos|] == infos;
  }

  /** The types to create, in order: speech-to-text first, and none twice. */
  function TypesToCreate(legacy: Legacy): seq<ConnectionType> {
    var stt := SttType(Text(legacy, AudioSttEngine));
    var tts := TtsType(Text(legacy, AudioTtsEngine));
    var first := if stt.Some? && SttConfigured(legacy) then [stt.value] else [];
    if tts.Some? && tts.value !in first then first + [tts.value] else first
  }

  /** One connection for each of the types, each of them `good`. */
  ghost predicate OnePerType(good: Connection -> bool, types: seq<ConnectionType>, b: Book) {
    && |b.order| == |types| && (forall i | 0 <= i < |types| :: KindAt(b, i) == Some(types[i]))
    && (forall id | id in b.conns :: b.conns[id].kind in types && good(b.conns[id]))
    && (forall a, c | a in b.conns && c in b.conns && a != c :: b.conns[a].kind != b.conns[c].kind)
    && (forall t | t in types :: HasType(b, t))
  }

  /** The type of the connection listed at position `i`. */
  function KindAt(b: Book, i: nat): Option<ConnectionType> {
    if i < |b.order| && b.order[i] in b.conns then Some(b.conns[b.order[i]].kind) else None
  }

  ghost predicate HasType(b: Book, t: ConnectionType) {
    exists id :: id in b.conns && b.conns[id].kind == t
  }

  predicate Carries(legacy: Legacy, c: Connection) {
    FieldsFrom(legacy, c.kind, c.fields, TypeFields(c.kind))
  }

  /** What the promise amounts to for the resulting set of connections. */
  ghost predicate Relocated(legacy: Legacy, b: Book) {
    && |b.order| <= 2
    && (|b.order| == 2 ==> KindAt(b, 0) == SttType(Text(legacy, AudioSttEngine)))
    && (forall id | id in b.conns :: WasConfigured(legacy, b.conns[id].kind) && Carries(legacy, b.conns[id]))
    && (forall a, c | a in b.conns && c in b.conns && a != c :: b.conns[a].kind != b.conns[c].kind)
    && (forall t | WasConfigured(legacy, t) :: HasType(b, t))
  }

  lemma TypesAreConfigured(legacy: Legacy)
    ensures var types := TypesToCreate(legacy);
            && |types| <= 2
            && (forall t :: t in types <==> WasConfigured(legacy, t))
            && (|types| == 2 ==> types[0] != types[1] && Some(types[0]) == SttType(Text(legacy, AudioSttEngine)))
  {
  }

  /** The id factory gives every connection that is needed an id of its own. */
  predicate EnoughIds(legacy: Legacy, ids: seq<string>)
    requires |ids| == 2
  {
    |TypesToCreate(legacy)| == 2 ==> ids[0] != ids[1]
  }

  /** MAIN RESULT. `migrate_legacy_audio_config`, `ids` being what the id factory would return to the
      two calls that there may be. A stored
      set that is not empty comes back as it is, whatever the snapshot; otherwise there is one
      connection per configured engine, at most two in all and at most one per type, and every field
      equals its setting. It raises exactly for a stored type it does not know, and for an id factory
      that repeats itself when two connections are to be made. */
  method Migrate(legacy: Legacy, existing: seq<Raw>, ids: seq<string>) returns (r: Result<Store>)
    requires |ids| == 2
    ensures Loaded(existing).Err? ==> r == Err(Loaded(existing).error)
    ensures Loaded(existing).Ok? ==> (r.Ok? <==> existing != [] || EnoughIds(legacy, ids))
    ensures Loaded(existing).Ok? && r.Err? ==> r.error == IdExists
    ensures r.Ok? ==> r.value.Valid()
    ensures r.Ok? && existing != [] ==> r.value.Contents() == Loaded(existing).value
    ensures r.Ok? && existing == [] ==> Relocated(legacy, r.value.Contents()) && r.value.Contents().WellTyped()
  {
    r := FromSerializable(existing);
    if r.Err? {
      return;
    }
    var store := r.value;
    LoadedIsEmpty(existing);
    if |store.order| > 0 {
      return;
    }
    var types := TypesToCreate(legacy);
    TypesAreConfigured(legacy);
    ghost var good := (c: Connection) => Carries(legacy, c);
    var ok := CreateAll(store, types, ids, legacy, good);
    if !ok {
      return Err(IdExists);
    }
    RelocatedWhenOnePerType(legacy, good, store.Contents());
    r := Ok(store);
  }

  /** The loop at the end of the migration; false when adding raises on a repeated id. */
  method CreateAll(store: Store, types: seq<ConnectionType>, ids: seq<string>, legacy: Legacy,
      ghost good: Connection -> bool)
    returns (ok: bool)
    requires |ids| == 2 && store.Valid() && store.Contents().order == []
    requires |types| <= 2 && (|types| == 2 ==> types[0] != types[1])
    requires forall c :: Carries(legacy, c) ==> good(c)
    modifies store
    ensures store.Valid() && fresh(store.Dicts() - old(store.Dicts()))
    ensures ok <==> (|types| == 2 ==> ids[0] != ids[1])
    ensures ok ==> OnePerType(good, types, store.Contents())
  {
    NothingYet(good, types, ids, store.Contents());
    for i := 0 to |types|
      invariant store.Valid() && fresh(store.Dicts() - old(store.Dicts()))
      invariant InProgress(good, types, ids, i, store.Contents())
      invariant i == 2 ==> ids[0] != ids[1]
    {
      OnlySecondIsTaken(ids, i);
      var dict := NewDict(types[i], legacy, good);
      ok := CreateOne(store, types, ids, i, dict, good);
      if !ok {
        return;
      }
    }
    assert types[..|types|] == types;
    CreatedIsOnePerType(good, types, ids[..|types|], store.Contents());
    return true;
  }

  /** One turn of the loop. */
  method CreateOne(store: Store, types: seq<ConnectionType>, ids: seq<string>, i: nat, dict: Dict,
      ghost good: Connection -> bool)
    returns (ok: bool)
    requires store.Valid() && i < |types| && i < |ids| && InProgress(good, types, ids, i, store.Contents())
    requires good(Connection(types[i], dict.entries)) && OwnFields(types[i], dict.entries)
    modifies store
    ensures store.Valid() && fresh(store.Dicts() - old(store.Dicts()))
    ensures ok <==> ids[i] !in ids[..i]
    ensures ok ==> InProgress(good, types, ids, i + 1, store.Contents())
  {
    CreateNext(good, types, ids, i, store.Contents(), dict.entries);
    var added := store.Add(types[i], Some(dict), ids[i]);
    ok := added.Ok?;
  }

  /** The connections for the first `i` types have been made, with the first `i` ids. */
  ghost predicate InProgress(good: Connection -> bool, types: seq<ConnectionType>, ids: seq<string>, i: nat, b: Book) {
    i <= |types| && i <= |ids| && Created(good, types[..i], ids[..i], b)
  }

  lemma OnlySecondIsTaken(ids: seq<string>, i: nat)
    requires i < 2 == |ids|
    ensures ids[i] in ids[..i] <==> i == 1 && ids[0] == ids[1]
  {
    assert ids[..1] == [ids[0]];
  }

  lemma NothingYet(good: Connection -> bool, types: seq<ConnectionType>, ids: seq<string>, b: Book)
    requires b.WellFormed() && b.order == []
    ensures InProgress(good, types, ids, 0, b)
  {
    assert b.conns.Keys == Elements(b.order) == {};
    assert forall id | id in b.conns :: id in b.conns.Keys;
    assert types[..0] == [] && ids[..0] == [];
  }

  method NewDict(t: ConnectionType, legacy: Legacy, ghost good: Connection -> bool) returns (dict: Dict)
    requires forall c :: Carries(legacy, c) ==> good(c)
    ensures fresh(dict) && good(Connection(t, dict.entries)) && OwnFields(t, dict.entries)
  {
    var fields := FieldsFromLegacy(t, legacy);
    FieldsAreOwn(legacy, t, fields);
    dict := new Dict(fields);
    assert Carries(legacy, Connection(t, fields));
  }

  lemma RelocatedWhenOnePerType(legacy: Legacy, good: Connection -> bool, b: Book)
    requires OnePerType(good, TypesToCreate(legacy), b) && forall c | good(c) :: Carries(legacy, c)
    ensures Relocated(legacy, b) && b.WellTyped()
  {
    TypesAreConfigured(legacy);
    forall id | id in b.conns ensures OwnFields(b.conns[id].kind, b.conns[id].fields) {
      FieldsAreOwn(legacy, b.conns[id].kind, b.conns[id].fields);
    }
  }

  lemma LoadedIsEmpty(data: seq<Raw>)
    requires Loaded(data).Ok?
    ensures |Loaded(data).value.order| > 0 <==> data != []
  {
    if data != [] {
      LoadedIsWellFormed(data[..|data| - 1]);
      LoadedIsWellFormed(data);
      var b := Loaded(data).value;
      var id := data[|data| - 1].id;
      assert id in b.conns.Keys && id in Elements(b.order);
    }
  }

  lemma FieldsAreOwn(legacy: Legacy, t: ConnectionType, fields: Fields)
    requires FieldsFrom(legacy, t, fields, TypeFields(t))
    ensures OwnFields(t, fields)
  {
  }

  /** The connections made so far. */
  ghost predicate Created(good: Connection -> bool, types: seq<ConnectionType>, ids: seq<string>, b: Book) {
    && |types| == |ids| && b.order == ids
    && (forall id | id in b.conns :: id in ids)
    && forall i | 0 <= i < |ids| :: Made(good, types, ids, b.conns, i)
  }

  ghost predicate Made(good: Connection -> bool, types: seq<ConnectionType>, ids: seq<string>,
      conns: map<string, Connection>, i: nat)
  {
    && i < |types| == |ids| && ids[i] in conns
    && conns[ids[i]].kind == types[i] && good(conns[ids[i]])
  }

  lemma IdsAreUsed(good: Connection -> bool, types: seq<ConnectionType>, used: seq<string>, b: Book, id: string)
    requires Created(good, types, used, b)
    ensures id in b.conns <==> id in used
  {
    if id in used {
      var j :| 0 <= j < |used| && used[j] == id;
      assert Made(good, types, used, b.conns, j);
    }
  }

  lemma CreatedOneMore(good: Connection -> bool, types: seq<ConnectionType>, used: seq<string>, b: Book,
      id: string, c: Connection)
    requires Created(good, types, used, b) && id !in used && good(c)
    ensures Created(good, types + [c.kind], used + [id], Book(b.order + [id], b.conns[id := c]))
  {
    var types', used', conns' := types + [c.kind], used + [id], b.conns[id := c];
    forall i | 0 <= i < |used'| ensures Made(good, types', used', conns', i) {
      if i < |used| {
        assert Made(good, types, used, b.conns, i);
      }
    }
  }

  lemma ProgressOneMore(good: Connection -> bool, types: seq<ConnectionType>, ids: seq<string>, i: nat,
      b: Book, c: Connection)
    requires i < |types| && i < |ids| && InProgress(good, types, ids, i, b) && ids[i] !in ids[..i]
    requires good(c) && c.kind == types[i]
    ensures InProgress(good, types, ids, i + 1, Book(b.order + [ids[i]], b.conns[ids[i] := c]))
  {
    var used := ids[..i];
    CreatedOneMore(good, types[..i], used, b, ids[i], c);
    assert types[..i + 1] == types[..i] + [c.kind];
    assert ids[..i + 1] == used + [ids[i]];
  }

  lemma CreateNext(good: Connection -> bool, types: seq<ConnectionType>, ids: seq<string>, i: nat, b: Book,
      fields: Fields)
    requires i < |types| && i < |ids| && InProgress(good, types, ids, i, b)
    requires good(Connection(types[i], fields)) && OwnFields(types[i], fields)
    ensures var added := Added(b, types[i], fields, ids[i]);
            && (added.Ok? <==> ids[i] !in ids[..i])
            && (added.Ok? ==> InProgress(good, types, ids, i + 1, added.value))
  {
    IdsAreUsed(good, types[..i], ids[..i], b, ids[i]);
    if ids[i] !in ids[..i] {
      ProgressOneMore(good, types, ids, i, b, Connection(types[i], fields));
    }
  }

  lemma MadeFor(good: Connection -> bool, types: seq<ConnectionType>, ids: seq<string>, b: Book, id: string)
    returns (i: nat)
    requires Created(good, types, ids, b) && id in b.conns
    ensures i < |types| == |ids| && ids[i] == id && b.conns[id].kind == types[i] && good(b.conns[id])
  {
    i :| 0 <= i < |ids| && ids[i] == id;
    assert Made(good, types, ids, b.conns, i);
  }

  lemma CreatedIsOnePerType(good: Connection -> bool, types: seq<ConnectionType>, ids: seq<string>, b: Book)
    requires Created(good, types, ids, b)
    requires |types| <= 2 && (|types| == 2 ==> types[0] != types[1])
    ensures OnePerType(good, types, b)
  {
    forall i | 0 <= i < |types| ensures KindAt(b, i) == Some(types[i]) {
      assert Made(good, types, ids, b.conns, i);
    }
    forall t | t in types ensures HasType(b, t) {
      var i :| 0 <= i < |types| && types[i] == t;
      assert Made(good, types, ids, b.conns, i);
    }
    forall id | id in b.conns ensures b.conns[id].kind in types && good(b.conns[id]) {
      var i := MadeFor(good, types, ids, b, id);
    }
    forall a, c | a in b.conns && c in b.conns && a != c ensures b.conns[a].kind != b.conns[c].kind {
      var i := MadeFor(good, types, ids, b, a);
      var j := MadeFor(good, types, ids, b, c);
    }
  }

  /** Running it again on what it produced, with any snapshot: nothing changes unless nothing was
      produced, and with the same snapshot nothing is produced again. */
  lemma AgainIsIdle(legacy: Legacy, b: Book)
    requires b.WellFormed() && Relocated(legacy, b)
    ensures Loaded(Serialized(b)) == Ok(b)
    ensures Serialized(b) == [] <==> TypesToCreate(legacy) == []
  {
    SaveThenLoad(b);
    TypesAreConfigured(legacy);
    if TypesToCreate(legacy) != [] {
      var t := TypesToCreate(legacy)[0];
      assert WasConfigured(legacy, t);
      assert HasType(b, t);
      var id :| id in b.conns && b.conns[id].kind == t;
      assert id in Elements(b.order);
    } else if b.order != [] {
      Listed(b.order, b.conns.Keys, 0);
    }
  }

  /** The field holds what the setting held, or neither is there. */
  predicate Same(fields: Fields, name: FieldName, legacy: Legacy, k: Knob) {
    (name in fields <==> k in legacy) && (k in legacy ==> fields[name] == legacy[k])
  }

  /** Which setting each field of a migrated connection comes from. */
  lemma FieldsBySetting(legacy: Legacy, c: Connection)
    requires Carries(legacy, c)
    ensures match c.kind
            case SelfHostedStt =>
              && Same(c.fields, BaseUrl, legacy, AudioSttOpenaiApiBaseUrl)
              && Same(c.fields, ControlBaseUrl, legacy, AudioSttControlBaseUrl)
              && Same(c.fields, Model, legacy, AudioSttModel)
            case SelfHostedTts =>
              Same(c.fields, Model, legacy, AudioTtsModel) && Same(c.fields, SplitOn, legacy, AudioTtsSplitOn)
            case HostedGeneral =>
              && Same(c.fields, SttBaseUrl, legacy, AudioSttOpenaiApiBaseUrl)
              && Same(c.fields, SttApiKey, legacy, AudioSttOpenaiApiKey)
              && Same(c.fields, SttModel, legacy, AudioSttModel)
              && Same(c.fields, TtsBaseUrl, legacy, AudioTtsOpenaiApiBaseUrl)
              && Same(c.fields, TtsApiKey, legacy, AudioTtsOpenaiApiKey)
              && Same(c.fields, TtsModel, legacy, AudioTtsModel)
              && Same(c.fields, TtsVoice, legacy, AudioTtsVoice)
              && Same(c.fields, SplitOn, legacy, AudioTtsSplitOn)
            case HostedSpecializedA =>
              && Same(c.fields, ApiKey, legacy, AudioTtsApiKey) && Same(c.fields, Model, legacy, AudioTtsModel)
              && Same(c.fields, Voice, legacy, AudioTtsVoice) && Same(c.fields, SplitOn, legacy, AudioTtsSplitOn)
            case HostedSpecializedB =>
              && Same(c.fields, ApiKey, legacy, AudioTtsApiKey)
              && Same(c.fields, Region, legacy, AudioTtsAzureSpeechRegion)
              && Same(c.fields, Voice, legacy, AudioTtsVoice)
              && Same(c.fields, OutputFormat, legacy, AudioTtsAzureSpeechOutputFormat)
              && Same(c.fields, SplitOn, legacy, AudioTtsSplitOn)
  {
    var infos := TypeFields(c.kind);
    assert forall i | 0 <= i < |infos| :: infos[i] in infos;
    assert forall i | 0 <= i < |infos| :: Same(c.fields, infos[i].name, legacy, infos[i].legacy);
  }

  /** The setting is there and is neither the empty string nor another falsy value. */
  predicate HoldsSomething(legacy: Legacy, k: Knob) {
    && k in legacy && legacy[k] != Str("")
    && match legacy[k]
       case Str(_) => true
       case Other(_, truthy) => truthy
  }

  /** Which engine strings and settings make which connection. */
  lemma TypesByEngine(legacy: Legacy, stt: string, tts: string)
    requires if AudioSttEngine in legacy then legacy[AudioSttEngine] == Str(stt) else stt == ""
    requires if AudioTtsEngine in legacy then legacy[AudioTtsEngine] == Str(tts) else tts == ""
    ensures var types := TypesToCreate(legacy);
            && (SelfHostedStt in types <==>
                  && stt == ""
                  && (HoldsSomething(legacy, AudioSttModel) || HoldsSomething(legacy, AudioSttControlBaseUrl)))
            && (HostedGeneral in types <==> stt == "openai" || tts == "openai")
            && (SelfHostedTts in types <==> tts == "transformers")
            && (HostedSpecializedA in types <==> tts == "elevenlabs")
            && (HostedSpecializedB in types <==> tts == "azure")
            && (|types| == 2 ==> types[0] == if stt == "" then SelfHostedStt else HostedGeneral)
  {
    TypesAreConfigured(legacy);
    assert Text(legacy, AudioSttEngine) == stt && Text(legacy, AudioTtsEngine) == tts;
    assert |"openai"| == 6 && |"transformers"| == 12 && |"elevenlabs"| == 10 && |"azure"| == 5;
  }
}
