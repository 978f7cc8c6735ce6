/** The voice catalog (api/selfai_ui/audio/voice_catalog.py): one connection's voices, the merge over
    connections, the administrator's overlay and search, the end user's filter, and the shown
    source. */
module Voices {

  import opened Wrappers
  import opened Connections
  import Labels

  /** A row of a backend's answer. Only its string-valued keys are ever looked at. */
  datatype Row = Bare(text: string) | Record(strings: map<string, string>) | Unusable

  datatype Entry = Entry(id: string, name: string, language: Option<string>, gender: Option<string>)
  datatype Voice = VoiceOf(source: string, entry: Entry)
  datatype Listed = Listed(voice: Voice, enabled: bool)
  datatype Shown = Shown(listed: Listed, source: string)

  datatype Source = Source(id: string, rows: seq<Row>)

  /** `_row_str_field`: the first of the keys that holds a non-empty string. */
  function StrField(strings: map<string, string>, keys: seq<string>): Option<string> {
    if keys == [] then None
    else if keys[0] in strings && strings[keys[0]] != "" then Some(strings[keys[0]])
    else StrField(strings, keys[1..])
  }

  function RowField(row: Row, keys: seq<string>): Option<string> {
    if row.Record? then StrField(row.strings, keys) else None
  }

  /** `_row_voice_id` */
  function VoiceId(row: Row): Option<string> {
    match row
    case Bare(text) => if text != "" then Some(text) else None
    case Record(strings) => StrField(strings, ["id", "voice_id", "name", "voice"])
    case Unusable => None
  }

  function EntryOf(row: Row, id: string): Entry {
    var name := RowField(row, ["name", "display_name", "label"]);
    Entry(id, if name.Some? then name.value else id,
      RowField(row, ["language", "lang", "locale"]), RowField(row, ["gender", "sex"]))
  }

  // ---------------------------------------------------------------------------------------------
  // One connection's catalog
  // ---------------------------------------------------------------------------------------------

  predicate HasEntry(entries: seq<Entry>, id: string) {
    exists e | e in entries :: e.id == id
  }

  predicate Reports(rows: seq<Row>, id: string) {
    exists row | row in rows :: VoiceId(row) == Some(id)
  }

  predicate EntriesDiffer(entries: seq<Entry>) {
    forall i, j | 0 <= i < j < |entries| :: entries[i].id != entries[j].id
  }

  /** `build_voice_catalog` */
  method BuildVoiceCatalog(rows: seq<Row>) returns (entries: seq<Entry>)
    ensures entries == Catalog(rows)
  {
    entries := [];
    var seen: set<string> := {};
    for i := 0 to |rows|
      invariant entries == Catalog(rows[..i])
      invariant forall id :: id in seen <==> HasEntry(entries, id)
    {
      assert rows[..i + 1][..i] == rows[..i];
      var id := VoiceId(rows[i]);
      if id.None? || id.value in seen {
        continue;
      }
      seen := seen + {id.value};
      HasEntryAppend(entries, EntryOf(rows[i], id.value));
      entries := entries + [EntryOf(rows[i], id.value)];
    }
    assert rows[..|rows|] == rows;
  }

  function Catalog(rows: seq<Row>): seq<Entry> {
    if rows == [] then []
    else
      var before := Catalog(rows[..|rows| - 1]);
      var id := VoiceId(rows[|rows| - 1]);
      if id.None? || HasEntry(before, id.value) then before
      else before + [EntryOf(rows[|rows| - 1], id.value)]
  }

  lemma HasEntryAppend(entries: seq<Entry>, e: Entry)
    ensures forall id :: HasEntry(entries + [e], id) <==> HasEntry(entries, id) || id == e.id
  {
    forall id ensures HasEntry(entries + [e], id) <==> HasEntry(entries, id) || id == e.id {
      assert forall x :: x in entries + [e] <==> x in entries || x == e;
    }
  }

  lemma ReportsAppend(rows: seq<Row>, row: Row, id: string)
    ensures Reports(rows + [row], id) <==> Reports(rows, id) || VoiceId(row) == Some(id)
  {
    assert forall x :: x in rows + [row] <==> x in rows || x == row;
  }

  /** Exactly the voices the backend reports, each once: none is made up and none is lost. */
  lemma {:induction false} CatalogIsReported(rows: seq<Row>)
    ensures EntriesDiffer(Catalog(rows))
    ensures forall id :: HasEntry(Catalog(rows), id) <==> Reports(rows, id)
  {
    if rows != [] {
      var before, last := rows[..|rows| - 1], rows[|rows| - 1];
      assert rows == before + [last];
      CatalogIsReported(before);
      forall id ensures Reports(rows, id) <==> Reports(before, id) || VoiceId(last) == Some(id) {
        ReportsAppend(before, last, id);
      }
      if VoiceId(last).Some? {
        HasEntryAppend(Catalog(before), EntryOf(last, VoiceId(last).value));
      }
    }
  }

  // ---------------------------------------------------------------------------------------------
  // The merge
  // ---------------------------------------------------------------------------------------------

  predicate HasVoice(voices: seq<Voice>, source: string, id: string) {
    exists v | v in voices :: v.source == source && v.entry.id == id
  }

  predicate VoicesDiffer(voices: seq<Voice>) {
    forall i, j | 0 <= i < j < |voices| ::
      voices[i].source != voices[j].source || voices[i].entry.id != voices[j].entry.id
  }

  function AddEntries(voices: seq<Voice>, source: string, entries: seq<Entry>): seq<Voice> {
    if entries == [] then voices
    else
      var before := AddEntries(voices, source, entries[..|entries| - 1]);
      var e := entries[|entries| - 1];
      if HasVoice(before, source, e.id) then before else before + [VoiceOf(source, e)]
  }

  function Aggregated(sources: seq<Source>): seq<Voice> {
    if sources == [] then []
    else
      var s := sources[|sources| - 1];
      AddEntries(Aggregated(sources[..|sources| - 1]), s.id, Catalog(s.rows))
  }

  ghost predicate Seen(seen: set<(string, string)>, voices: seq<Voice>) {
    forall source, id :: (source, id) in seen <==> HasVoice(voices, source, id)
  }

  lemma HasVoiceAppend(voices: seq<Voice>, v: Voice)
    ensures forall source, id :: HasVoice(voices + [v], source, id) <==>
              HasVoice(voices, source, id) || (v.source == source && v.entry.id == id)
  {
    forall source, id
      ensures HasVoice(voices + [v], source, id) <==>
                HasVoice(voices, source, id) || (v.source == source && v.entry.id == id)
    {
      assert forall x :: x in voices + [v] <==> x in voices || x == v;
    }
  }

  lemma SeeOneMore(seen: set<(string, string)>, voices: seq<Voice>, v: Voice)
    requires Seen(seen, voices)
    ensures Seen(seen + {(v.source, v.entry.id)}, voices + [v])
  {
    HasVoiceAppend(voices, v);
  }

  /** The inner loop of the merge. */
  method MergeCatalog(voices: seq<Voice>, seen: set<(string, string)>, source: string, entries: seq<Entry>)
    returns (voices': seq<Voice>, seen': set<(string, string)>)
    requires Seen(seen, voices)
    ensures voices' == AddEntries(voices, source, entries) && Seen(seen', voices')
  {
    voices', seen' := voices, seen;
    for i := 0 to |entries|
      invariant voices' == AddEntries(voices, source, entries[..i]) && Seen(seen', voices')
    {
      assert entries[..i + 1][..i] == entries[..i];
      var key := (source, entries[i].id);
      if key in seen' {
        continue;
      }
      SeeOneMore(seen', voices', VoiceOf(source, entries[i]));
      seen' := seen' + {key};
      voices' := voices' + [VoiceOf(source, entries[i])];
    }
    assert entries[..|entries|] == entries;
  }

  /** `aggregate_voice_catalogs` */
  method AggregateVoiceCatalogs(sources: seq<Source>) returns (voices: seq<Voice>)
    ensures voices == Aggregated(sources)
  {
    voices := [];
    var seen: set<(string, string)> := {};
    for i := 0 to |sources|
      invariant voices == Aggregated(sources[..i]) && Seen(seen, voices)
    {
      assert sources[..i + 1][..i] == sources[..i];
      var entries := BuildVoiceCatalog(sources[i].rows);
      voices, seen := MergeCatalog(voices, seen, sources[i].id, entries);
    }
    assert sources[..|sources|] == sources;
  }

  lemma {:induction false} AddEntriesHas(voices: seq<Voice>, source: string, entries: seq<Entry>)
    requires VoicesDiffer(voices)
    ensures VoicesDiffer(AddEntries(voices, source, entries))
    ensures forall s, id :: HasVoice(AddEntries(voices, source, entries), s, id) <==>
              HasVoice(voices, s, id) || (s == source && HasEntry(entries, id))
  {
    if entries != [] {
      var front, e := entries[..|entries| - 1], entries[|entries| - 1];
      AddEntriesHas(voices, source, front);
      var before := AddEntries(voices, source, front);
      assert entries == front + [e];
      HasEntryAppend(front, e);
      HasVoiceAppend(before, VoiceOf(source, e));
      if !HasVoice(before, source, e.id) {
        AddOne(before, VoiceOf(source, e));
      }
    }
  }

  lemma AddOne(voices: seq<Voice>, v: Voice)
    requires VoicesDiffer(voices) && !HasVoice(voices, v.source, v.entry.id)
    ensures VoicesDiffer(voices + [v])
  {
    var next := voices + [v];
    forall i, j | 0 <= i < j < |next| ensures next[i].source != next[j].source || next[i].entry.id != next[j].entry.id {
      assert next[i] == voices[i] && voices[i] in voices;
    }
  }

  predicate Offers(sources: seq<Source>, source: string, id: string) {
    exists s | s in sources :: s.id == source && Reports(s.rows, id)
  }

  /** The merge holds exactly what some connection reports, attributed to that connection, and no
      pair of connection and voice id twice. */
  lemma {:induction false} AggregateIsOffered(sources: seq<Source>)
    ensures VoicesDiffer(Aggregated(sources))
    ensures forall source, id :: HasVoice(Aggregated(sources), source, id) <==> Offers(sources, source, id)
  {
    if sources != [] {
      var before, last := sources[..|sources| - 1], sources[|sources| - 1];
      AggregateIsOffered(before);
      CatalogIsReported(last.rows);
      AddEntriesHas(Aggregated(before), last.id, Catalog(last.rows));
      forall source, id
        ensures Offers(sources, source, id) <==>
                  Offers(before, source, id) || (source == last.id && Reports(last.rows, id))
      {
        assert sources == before + [last];
        assert forall x :: x in sources <==> x in before || x == last;
      }
    }
  }

  // ---------------------------------------------------------------------------------------------
  // The two overlays
  // ---------------------------------------------------------------------------------------------

  predicate IsEnabled(enabled: map<string, bool>, id: string) {
    id in enabled && enabled[id]
  }

  /** `search` is the needle after trimming and lowering; `matches` is the text search over a voice. */
  function Curated(voices: seq<Voice>, enabled: map<string, bool>, needle: string,
      matches: (Voice, string) -> bool): seq<Listed>
  {
    if voices == [] then []
    else
      var before := Curated(voices[..|voices| - 1], enabled, needle, matches);
      var v := voices[|voices| - 1];
      if needle != "" && !matches(v, needle) then before else before + [Listed(v, IsEnabled(enabled, v.entry.id))]
  }

  /** `curate_voice_catalog` */
  method CurateVoiceCatalog(voices: seq<Voice>, enabled: map<string, bool>, needle: string,
      matches: (Voice, string) -> bool)
    returns (curated: seq<Listed>)
    ensures curated == Curated(voices, enabled, needle, matches)
  {
    curated := [];
    for i := 0 to |voices|
      invariant curated == Curated(voices[..i], enabled, needle, matches)
    {
      assert voices[..i + 1][..i] == voices[..i];
      var listed := Listed(voices[i], IsEnabled(enabled, voices[i].entry.id));
      if needle != "" && !matches(voices[i], needle) {
        continue;
      }
      curated := curated + [listed];
    }
    assert voices[..|voices|] == voices;
  }

  function Filtered(voices: seq<Voice>, enabled: map<string, bool>): seq<Voice> {
    if voices == [] then []
    else
      var before := Filtered(voices[..|voices| - 1], enabled);
      var v := voices[|voices| - 1];
      if IsEnabled(enabled, v.entry.id) then before + [v] else before
  }

  /** `filter_enabled_voices` */
  method FilterEnabledVoices(voices: seq<Voice>, enabled: map<string, bool>) returns (kept: seq<Voice>)
    ensures kept == Filtered(voices, enabled)
  {
    kept := [];
    for i := 0 to |voices|
      invariant kept == Filtered(voices[..i], enabled)
    {
      assert voices[..i + 1][..i] == voices[..i];
      if IsEnabled(enabled, voices[i].entry.id) {
        kept := kept + [voices[i]];
      }
    }
    assert voices[..|voices|] == voices;
  }

  /** The voices the administrator sees switched on, in order. */
  function SwitchedOn(listed: seq<Listed>): seq<Voice> {
    if listed == [] then []
    else
      var l := listed[|listed| - 1];
      SwitchedOn(listed[..|listed| - 1]) + if l.enabled then [l.voice] else []
  }

  lemma {:induction false} CuratedAll(voices: seq<Voice>, enabled: map<string, bool>, matches: (Voice, string) -> bool)
    ensures |Curated(voices, enabled, "", matches)| == |voices|
    ensures forall i | 0 <= i < |voices| :: Curated(voices, enabled, "", matches)[i].voice == voices[i]
  {
    if voices != [] {
      var front, v := voices[..|voices| - 1], voices[|voices| - 1];
      CuratedAll(front, enabled, matches);
      var all, before := Curated(voices, enabled, "", matches), Curated(front, enabled, "", matches);
      assert all == before + [Listed(v, IsEnabled(enabled, v.entry.id))];
      forall i | 0 <= i < |voices| ensures all[i].voice == voices[i] {
        if i < |front| {
          assert all[i] == before[i] && voices[i] == front[i];
        }
      }
    }
  }

  /** The administrator's view without a search shows every voice, and shows as enabled exactly what
      the end user gets. */
  lemma {:induction false} ViewsAgree(voices: seq<Voice>, enabled: map<string, bool>, matches: (Voice, string) -> bool)
    ensures SwitchedOn(Curated(voices, enabled, "", matches)) == Filtered(voices, enabled)
    ensures |Curated(voices, enabled, "", matches)| == |voices|
    ensures forall i | 0 <= i < |voices| :: Curated(voices, enabled, "", matches)[i].voice == voices[i]
  {
    CuratedAll(voices, enabled, matches);
    SwitchedOnIsFiltered(voices, enabled, matches);
  }

  lemma {:induction false} SwitchedOnIsFiltered(voices: seq<Voice>, enabled: map<string, bool>,
      matches: (Voice, string) -> bool)
    ensures SwitchedOn(Curated(voices, enabled, "", matches)) == Filtered(voices, enabled)
  {
    if voices != [] {
      var front, v := voices[..|voices| - 1], voices[|voices| - 1];
      SwitchedOnIsFiltered(front, enabled, matches);
      ViewsAppend(Curated(front, enabled, "", matches), Listed(v, IsEnabled(enabled, v.entry.id)));
    }
  }

  lemma ViewsAppend(before: seq<Listed>, last: Listed)
    ensures SwitchedOn(before + [last]) == SwitchedOn(before) + if last.enabled then [last.voice] else []
  {
    assert (before + [last])[..|before|] == before;
  }

  /** The curated list holds exactly the voices that match the search, or all without one, each with
      its own flag. */
  lemma {:induction false} CuratedHas(voices: seq<Voice>, enabled: map<string, bool>, needle: string,
      matches: (Voice, string) -> bool, l: Listed)
    ensures l in Curated(voices, enabled, needle, matches) <==>
              && l.voice in voices && l.enabled == IsEnabled(enabled, l.voice.entry.id)
              && (needle != "" ==> matches(l.voice, needle))
  {
    if voices != [] {
      var front, v := voices[..|voices| - 1], voices[|voices| - 1];
      assert voices == front + [v];
      CuratedHas(front, enabled, needle, matches, l);
    }
  }

  /** The end user's list holds exactly the enabled voices. */
  lemma {:induction false} FilteredHas(voices: seq<Voice>, enabled: map<string, bool>, v: Voice)
    ensures v in Filtered(voices, enabled) <==> v in voices && IsEnabled(enabled, v.entry.id)
  {
    if voices != [] {
      assert voices == voices[..|voices| - 1] + [voices[|voices| - 1]];
      FilteredHas(voices[..|voices| - 1], enabled, v);
    }
  }

  predicate ListedDiffer(listed: seq<Listed>) {
    forall i, j | 0 <= i < j < |listed| ::
      listed[i].voice.source != listed[j].voice.source || listed[i].voice.entry.id != listed[j].voice.entry.id
  }

  lemma {:induction false} CuratedDiffer(voices: seq<Voice>, enabled: map<string, bool>, needle: string,
      matches: (Voice, string) -> bool)
    requires VoicesDiffer(voices)
    ensures forall l | l in Curated(voices, enabled, needle, matches) :: l.voice in voices
    ensures ListedDiffer(Curated(voices, enabled, needle, matches))
  {
    if voices != [] {
      var front, v := voices[..|voices| - 1], voices[|voices| - 1];
      CuratedDiffer(front, enabled, needle, matches);
      var before := Curated(front, enabled, needle, matches);
      var last := Listed(v, IsEnabled(enabled, v.entry.id));
      forall i | 0 <= i < |before|
        ensures before[i].voice.source != v.source || before[i].voice.entry.id != v.entry.id
      {
        assert before[i] in before;
        var k :| 0 <= k < |front| && front[k] == before[i].voice;
        assert voices[k] == front[k];
      }
      assert forall l | l in before + [last] :: l in before || l == last;
      assert forall x | x in front :: x in voices;
      AddListed(before, last);
    }
  }

  lemma AddListed(before: seq<Listed>, last: Listed)
    requires ListedDiffer(before)
    requires forall i | 0 <= i < |before| ::
               before[i].voice.source != last.voice.source || before[i].voice.entry.id != last.voice.entry.id
    ensures ListedDiffer(before + [last])
  {
  }

  // ---------------------------------------------------------------------------------------------
  // The shown source
  // ---------------------------------------------------------------------------------------------

  /** A source without a label is shown by its id. */
  function SourceShown(labels: map<string, string>, source: string): string {
    if source in labels && labels[source] != "" then labels[source] else source
  }

  function Labelled(listed: seq<Listed>, labels: map<string, string>): (out: seq<Shown>)
    ensures |out| == |listed|
  {
    seq(|listed|, i requires 0 <= i < |listed| => Shown(listed[i], SourceShown(labels, listed[i].voice.source)))
  }

  /** `label_voice_sources` */
  method LabelVoiceSources(listed: seq<Listed>, labels: map<string, string>) returns (out: seq<Shown>)
    ensures out == Labelled(listed, labels)
  {
    out := [];
    for i := 0 to |listed|
      invariant out == Labelled(listed, labels)[..i]
    {
      out := out + [Shown(listed[i], SourceShown(labels, listed[i].voice.source))];
    }
  }

  /** No two entries show the same source and the same voice id. */
  predicate ShownDiffer(out: seq<Shown>) {
    forall i, j | 0 <= i < j < |out| ::
      out[i].source != out[j].source || out[i].listed.voice.entry.id != out[j].listed.voice.entry.id
  }

  /** The whole way from the backends' answers to the list the administrator sees. */
  function Pipeline(sources: seq<Source>, conns: map<string, Connection>, enabled: map<string, bool>,
      needle: string, matches: (Voice, string) -> bool): seq<Shown>
  {
    Labelled(Curated(Aggregated(sources), enabled, needle, matches), Labels.Resolved(Labels.LabelsOf(conns)))
  }

  lemma ShownNotEmpty(conns: map<string, Connection>, c: string)
    requires c in conns
    ensures SourceShown(Labels.Resolved(Labels.LabelsOf(conns)), c) == Labels.Resolved(Labels.LabelsOf(conns))[c]
  {
    Labels.LabelShape(conns[c]);
  }

  /** MAIN RESULT. When every source is a connection and the connections' ids are safe, no two listed
      voices share both the shown source and the voice id, whatever the backends report and whatever
      is enabled or searched for. */
  lemma NoTwoLookAlike(sources: seq<Source>, conns: map<string, Connection>, enabled: map<string, bool>,
      needle: string, matches: (Voice, string) -> bool)
    requires forall s | s in sources :: s.id in conns
    requires Labels.SafeIds(conns.Keys)
    ensures ShownDiffer(Pipeline(sources, conns, enabled, needle, matches))
  {
    var voices := Aggregated(sources);
    var listed := Curated(voices, enabled, needle, matches);
    var labels := Labels.Resolved(Labels.LabelsOf(conns));
    AggregateIsOffered(sources);
    CuratedDiffer(voices, enabled, needle, matches);
    Labels.SafeIdsDiffer(conns);
    forall l | l in listed ensures l.voice.source in conns {
      assert HasVoice(voices, l.voice.source, l.voice.entry.id);
    }
    var out := Labelled(listed, labels);
    forall i, j | 0 <= i < j < |out|
      ensures out[i].source != out[j].source || out[i].listed.voice.entry.id != out[j].listed.voice.entry.id
    {
      var a, b := listed[i].voice.source, listed[j].voice.source;
      assert listed[i] in listed && listed[j] in listed;
      ShownNotEmpty(conns, a);
      ShownNotEmpty(conns, b);
      assert labels.Keys == conns.Keys;
    }
  }

  lemma FindVoice(voices: seq<Voice>, source: string, id: string) returns (i: nat)
    requires HasVoice(voices, source, id)
    ensures i < |voices| && voices[i].source == source && voices[i].entry.id == id
  {
    var v :| v in voices && v.source == source && v.entry.id == id;
    i :| 0 <= i < |voices| && voices[i] == v;
  }

  lemma Clash(listed: seq<Listed>, labels: map<string, string>, i: nat, j: nat)
    requires i < |listed| && j < |listed| && i != j && listed[i].voice.entry.id == listed[j].voice.entry.id
    requires SourceShown(labels, listed[i].voice.source) == SourceShown(labels, listed[j].voice.source)
    ensures !ShownDiffer(Labelled(listed, labels))
  {
    var out := Labelled(listed, labels);
    assert out[i].source == out[j].source && out[i].listed == listed[i] && out[j].listed == listed[j];
  }

  /** And when two sources are shown alike, one voice id that both offer is enough for two entries
      nobody can tell apart. */
  lemma LookAlikes(sources: seq<Source>, labels: map<string, string>, a: string, b: string, id: string,
      enabled: map<string, bool>, matches: (Voice, string) -> bool)
    requires a != b && Offers(sources, a, id) && Offers(sources, b, id)
    requires SourceShown(labels, a) == SourceShown(labels, b)
    ensures !ShownDiffer(Labelled(Curated(Aggregated(sources), enabled, "", matches), labels))
  {
    var voices := Aggregated(sources);
    AggregateIsOffered(sources);
    ViewsAgree(voices, enabled, matches);
    var i := FindVoice(voices, a, id);
    var j := FindVoice(voices, b, id);
    Clash(Curated(voices, enabled, "", matches), labels, i, j);
  }

  // ---------------------------------------------------------------------------------------------
  // What a row says, and in which order voices are listed
  // ---------------------------------------------------------------------------------------------

  predicate Filled(strings: map<string, string>, key: string) {
    key in strings && strings[key] != ""
  }

  lemma FirstKey(strings: map<string, string>, key: string, rest: seq<string>)
    ensures StrField(strings, [key] + rest) ==
            if Filled(strings, key) then Some(strings[key]) else StrField(strings, rest)
  {
    assert ([key] + rest)[1..] == rest;
  }

  lemma FirstOfFour(strings: map<string, string>, a: string, b: string, c: string, d: string)
    ensures StrField(strings, [a, b, c, d]) ==
            if Filled(strings, a) then Some(strings[a])
            else if Filled(strings, b) then Some(strings[b])
            else if Filled(strings, c) then Some(strings[c])
            else if Filled(strings, d) then Some(strings[d])
            else None
  {
    FirstKey(strings, a, [b, c, d]);
    FirstOfThree(strings, b, c, d);
    assert [a] + [b, c, d] == [a, b, c, d];
  }

  lemma FirstOfThree(strings: map<string, string>, a: string, b: string, c: string)
    ensures StrField(strings, [a, b, c]) ==
            if Filled(strings, a) then Some(strings[a])
            else if Filled(strings, b) then Some(strings[b])
            else if Filled(strings, c) then Some(strings[c])
            else None
  {
    FirstKey(strings, a, [b, c]);
    FirstKey(strings, b, [c]);
    FirstKey(strings, c, []);
    assert [a] + [b, c] == [a, b, c] && [b] + [c] == [b, c] && [c] + [] == [c];
  }

  /** The id of a row is its own text, or the first filled one of four keys; rows without one are
      skipped. */
  lemma IdOfRow(text: string, strings: map<string, string>)
    ensures VoiceId(Bare(text)) == if text == "" then None else Some(text)
    ensures VoiceId(Record(strings)) ==
            if Filled(strings, "id") then Some(strings["id"])
            else if Filled(strings, "voice_id") then Some(strings["voice_id"])
            else if Filled(strings, "name") then Some(strings["name"])
            else if Filled(strings, "voice") then Some(strings["voice"])
            else None
    ensures VoiceId(Unusable) == None
  {
    FirstOfFour(strings, "id", "voice_id", "name", "voice");
  }

  /** The name always resolves; language and gender are what the row says, under any of their keys. */
  lemma DetailsOfRow(id: string, strings: map<string, string>)
    ensures EntryOf(Record(strings), id).id == id
    ensures EntryOf(Record(strings), id).name ==
            if Filled(strings, "name") then strings["name"]
            else if Filled(strings, "display_name") then strings["display_name"]
            else if Filled(strings, "label") then strings["label"]
            else id
    ensures EntryOf(Record(strings), id).language ==
            if Filled(strings, "language") then Some(strings["language"])
            else if Filled(strings, "lang") then Some(strings["lang"])
            else if Filled(strings, "locale") then Some(strings["locale"])
            else None
    ensures EntryOf(Record(strings), id).gender ==
            if Filled(strings, "gender") then Some(strings["gender"])
            else if Filled(strings, "sex") then Some(strings["sex"])
            else None
    ensures EntryOf(Bare(id), id) == Entry(id, id, None, None)
  {
    FirstOfThree(strings, "name", "display_name", "label");
    FirstOfThree(strings, "language", "lang", "locale");
    FirstKey(strings, "gender", ["sex"]);
    FirstKey(strings, "sex", []);
    assert ["gender"] + ["sex"] == ["gender", "sex"] && ["sex"] + [] == ["sex"];
  }

  /** One more row appends its voice, unless the id was there. So voices stand in the order in which the
      backend first reports them, with what it said then. */
  lemma OneMoreRow(rows: seq<Row>, row: Row)
    ensures Catalog(rows + [row]) ==
            if VoiceId(row).Some? && !Reports(rows, VoiceId(row).value)
            then Catalog(rows) + [EntryOf(row, VoiceId(row).value)]
            else Catalog(rows)
  {
    assert (rows + [row])[..|rows|] == rows;
    CatalogIsReported(rows);
  }

  /** The entries of one connection as voices of it. */
  function Tagged(source: string, entries: seq<Entry>): seq<Voice> {
    seq(|entries|, i requires 0 <= i < |entries| => VoiceOf(source, entries[i]))
  }

  lemma {:induction false} AddEntriesAppends(voices: seq<Voice>, source: string, entries: seq<Entry>)
    requires EntriesDiffer(entries) && VoicesDiffer(voices) && forall v | v in voices :: v.source != source
    ensures AddEntries(voices, source, entries) == voices + Tagged(source, entries)
  {
    if entries != [] {
      var front, e := entries[..|entries| - 1], entries[|entries| - 1];
      AddEntriesAppends(voices, source, front);
      AddEntriesHas(voices, source, front);
      forall x | x in front ensures x.id != e.id {
        var i :| 0 <= i < |front| && front[i] == x;
        assert entries[i] == x;
      }
      assert Tagged(source, entries) == Tagged(source, front) + [VoiceOf(source, e)];
    }
  }

  /** One more connection appends its whole catalog, in its own order, to what was there. */
  lemma OneMoreSource(sources: seq<Source>, s: Source)
    requires forall t | t in sources :: t.id != s.id
    ensures Aggregated(sources + [s]) == Aggregated(sources) + Tagged(s.id, Catalog(s.rows))
  {
    assert (sources + [s])[..|sources|] == sources;
    AggregateIsOffered(sources);
    CatalogIsReported(s.rows);
    forall v | v in Aggregated(sources) ensures v.source != s.id {
      assert HasVoice(Aggregated(sources), v.source, v.entry.id);
    }
    AddEntriesAppends(Aggregated(sources), s.id, Catalog(s.rows));
  }

  /** One more voice at the end of the catalog comes last in both views, or not at all. */
  lemma OneMoreVoice(voices: seq<Voice>, v: Voice, enabled: map<string, bool>, needle: string,
      matches: (Voice, string) -> bool)
    ensures Curated(voices + [v], enabled, needle, matches) ==
            Curated(voices, enabled, needle, matches)
            + (if needle == "" || matches(v, needle)
               then [Listed(v, v.entry.id in enabled && enabled[v.entry.id])] else [])
    ensures Filtered(voices + [v], enabled) ==
            Filtered(voices, enabled) + (if v.entry.id in enabled && enabled[v.entry.id] then [v] else [])
  {
    assert (voices + [v])[..|voices|] == voices;
  }

  /** Every listed voice is shown with the label of its source, or with the id when there is none. */
  lemma LabelledExactly(listed: seq<Listed>, labels: map<string, string>, i: nat)
    requires i < |listed|
    ensures Labelled(listed, labels)[i].listed == listed[i]
    ensures var source := listed[i].voice.source;
            Labelled(listed, labels)[i].source ==
            if source in labels && labels[source] != "" then labels[source] else source
  {
  }
}
