/** The source shown beside a voice: the display label of its connection
    (api/selfai_ui/audio/connections.py, lines 778-813), made distinct by appending the id where two
    connections share one (api/selfai_ui/audio/voice_catalog.py, lines 445-477). */
module Labels {

  import opened Wrappers
  import opened Connections

  // ---------------------------------------------------------------------------------------------
  // Display labels
  // ---------------------------------------------------------------------------------------------

  function TypeLabel(t: ConnectionType): string {
    match t
    case SelfHostedStt => "Self-hosted STT"
    case SelfHostedTts => "Self-hosted TTS"
    case HostedGeneral => "Hosted general-purpose provider"
    case HostedSpecializedA => "Hosted specialized provider A"
    case HostedSpecializedB => "Hosted specialized provider B"
  }

  /** The characters `str.strip` removes. */
  predicate IsSpace(c: char) {
    || '\t' <= c <= '\r' || '\U{1C}' <= c <= ' ' || c == '\U{85}' || c == '\U{A0}' || c == '\U{1680}'
    || '\U{2000}' <= c <= '\U{200A}' || c == '\U{2028}' || c == '\U{2029}' || c == '\U{202F}'
    || c == '\U{205F}' || c == '\U{3000}'
  }

  function Strip(s: string): string
    decreases |s|
  {
    if s == "" then s
    else if IsSpace(s[0]) then Strip(s[1..])
    else if IsSpace(s[|s| - 1]) then Strip(s[..|s| - 1])
    else s
  }

  predicate Trimmed(s: string) {
    s != "" ==> !IsSpace(s[0]) && !IsSpace(s[|s| - 1])
  }

  lemma {:induction false} StripIsTrimmed(s: string)
    ensures Trimmed(Strip(s))
    decreases |s|
  {
    if s != "" {
      if IsSpace(s[0]) {
        StripIsTrimmed(s[1..]);
      } else if IsSpace(s[|s| - 1]) {
        StripIsTrimmed(s[..|s| - 1]);
      }
    }
  }

  const LABEL_FIELDS: seq<FieldName> := [Model, TtsModel, Voice, TtsVoice]

  /** The first of the listed fields that holds text other than white space. */
  function NamedBy(fields: Fields, keys: seq<FieldName>): Option<string> {
    if keys == [] then None
    else if keys[0] in fields && fields[keys[0]].Str? && Strip(fields[keys[0]].text) != ""
    then Some(Strip(fields[keys[0]].text))
    else NamedBy(fields, keys[1..])
  }

  function WithName(t: ConnectionType, name: string): string {
    TypeLabel(t) + " (" + name + ")"
  }

  /** `connection_display_label` */
  function DisplayLabel(c: Connection): string {
    match NamedBy(c.fields, LABEL_FIELDS)
    case None => TypeLabel(c.kind)
    case Some(name) => WithName(c.kind, name)
  }

  /** Everything the uniqueness of shown sources needs to know about a label: it has no number sign,
      or it ends in a bracket that follows something other than white space. */
  predicate Plain(text: string) {
    text != "" && '#' !in text && text[|text| - 1] != ' '
  }

  predicate Bracketed(text: string) {
    |text| >= 2 && text[|text| - 1] == ')' && !IsSpace(text[|text| - 2])
  }

  lemma TypeLabelIsPlain(t: ConnectionType)
    ensures Plain(TypeLabel(t))
  {
  }

  lemma {:induction false} NamedByTrimmed(fields: Fields, keys: seq<FieldName>)
    ensures var name := NamedBy(fields, keys); name.Some? ==> name.value != "" && Trimmed(name.value)
  {
    if keys != [] {
      NamedByTrimmed(fields, keys[1..]);
      if keys[0] in fields && fields[keys[0]].Str? {
        StripIsTrimmed(fields[keys[0]].text);
      }
    }
  }

  lemma LabelShape(c: Connection)
    ensures Plain(DisplayLabel(c)) || Bracketed(DisplayLabel(c))
  {
    NamedByTrimmed(c.fields, LABEL_FIELDS);
    TypeLabelIsPlain(c.kind);
    if NamedBy(c.fields, LABEL_FIELDS).Some? {
      var name := NamedBy(c.fields, LABEL_FIELDS).value;
      assert WithName(c.kind, name) == (TypeLabel(c.kind) + " (") + name + ")";
    }
  }

  // ---------------------------------------------------------------------------------------------
  // Telling equal labels apart
  // ---------------------------------------------------------------------------------------------

  function Holders(labels: map<string, string>, text: string): set<string> {
    set c | c in labels && labels[c] == text
  }

  /** The label shown for connection `c`: the id where there is no label, the label and the id where
      another connection has the same label. */
  function ShownFor(labels: map<string, string>, c: string): string
    requires c in labels
  {
    if labels[c] == "" then c
    else if |Holders(labels, labels[c])| > 1 then labels[c] + " #" + c
    else labels[c]
  }

  function Resolved(labels: map<string, string>): map<string, string> {
    map c | c in labels :: ShownFor(labels, c)
  }

  predicate Shared(labels: map<string, string>, c: string)
    requires c in labels
  {
    exists d | d in labels :: d != c && labels[d] == labels[c]
  }

  lemma SharedIsCounted(labels: map<string, string>, c: string)
    requires c in labels
    ensures |Holders(labels, labels[c])| > 1 <==> Shared(labels, c)
  {
    var holders := Holders(labels, labels[c]);
    assert c in holders;
    if Shared(labels, c) {
      var d :| d in labels && d != c && labels[d] == labels[c];
      assert {c, d} <= holders;
      AtLeast({c, d}, holders);
    } else {
      assert holders == {c};
    }
  }

  lemma AtLeast<T>(a: set<T>, b: set<T>)
    requires a <= b
    ensures |a| <= |b|
  {
    assert b == a + (b - a);
  }

  /** The first loop of `disambiguate_source_labels`: how many connections have each label. */
  method CountLabels(labels: map<string, string>) returns (counts: map<string, nat>)
    ensures Counted(labels, labels.Keys, counts)
  {
    counts := map[];
    var todo := labels.Keys;
    while todo != {}
      invariant todo <= labels.Keys
      invariant Counted(labels, labels.Keys - todo, counts)
      decreases |todo|
    {
      var c :| c in todo;
      CountOne(labels, labels.Keys - todo, counts, c);
      counts := counts[labels[c] := CountOf(counts, labels[c]) + 1];
      assert labels.Keys - todo + {c} == labels.Keys - (todo - {c});
      todo := todo - {c};
    }
    assert labels.Keys - {} == labels.Keys;
  }

  /** `disambiguate_source_labels` */
  method DisambiguateSourceLabels(labels: map<string, string>) returns (resolved: map<string, string>)
    ensures resolved == Resolved(labels)
  {
    var counts := CountLabels(labels);
    resolved := map[];
    var todo := labels.Keys;
    while todo != {}
      invariant todo <= labels.Keys
      invariant resolved == map c | c in labels && c !in todo :: ShownFor(labels, c)
      decreases |todo|
    {
      var c :| c in todo;
      assert HoldersIn(labels, labels.Keys, labels[c]) == Holders(labels, labels[c]);
      var shown := labels[c];
      if labels[c] == "" {
        shown := c;
      } else if CountOf(counts, labels[c]) > 1 {
        shown := labels[c] + " #" + c;
      }
      assert shown == ShownFor(labels, c);
      resolved := resolved[c := shown];
      todo := todo - {c};
    }
  }

  /** `counts.get(label, 0)` */
  function CountOf(counts: map<string, nat>, text: string): nat {
    if text in counts then counts[text] else 0
  }

  function HoldersIn(labels: map<string, string>, ids: set<string>, text: string): set<string> {
    set c | c in ids && c in labels && labels[c] == text
  }

  ghost predicate Counted(labels: map<string, string>, ids: set<string>, counts: map<string, nat>) {
    forall text :: CountOf(counts, text) == |HoldersIn(labels, ids, text)|
  }

  lemma CountOne(labels: map<string, string>, ids: set<string>, counts: map<string, nat>, c: string)
    requires Counted(labels, ids, counts) && c in labels && c !in ids
    ensures Counted(labels, ids + {c}, counts[labels[c] := CountOf(counts, labels[c]) + 1])
  {
    var next := counts[labels[c] := CountOf(counts, labels[c]) + 1];
    forall text ensures CountOf(next, text) == |HoldersIn(labels, ids + {c}, text)| {
      HoldersOneMore(labels, ids, text, c);
      assert CountOf(counts, text) == |HoldersIn(labels, ids, text)|;
    }
  }

  lemma HoldersOneMore(labels: map<string, string>, ids: set<string>, text: string, c: string)
    requires c in labels && c !in ids
    ensures |HoldersIn(labels, ids + {c}, text)| == |HoldersIn(labels, ids, text)| + if text == labels[c] then 1 else 0
  {
    var before := HoldersIn(labels, ids, text);
    if text == labels[c] {
      assert HoldersIn(labels, ids + {c}, text) == before + {c};
    } else {
      assert HoldersIn(labels, ids + {c}, text) == before;
    }
  }

  // ---------------------------------------------------------------------------------------------
  // When every shown label is distinct
  // ---------------------------------------------------------------------------------------------

  function LabelsOf(conns: map<string, Connection>): map<string, string> {
    map c | c in conns :: DisplayLabel(conns[c])
  }

  ghost predicate AllDiffer(shown: map<string, string>) {
    forall a, b | a in shown && b in shown && a != b :: shown[a] != shown[b]
  }

  /** An id that reads like the end of a bracketed label. */
  predicate LooksLikeTail(id: string) {
    id != "" && id[|id| - 1] == ')' && (|id| > 1 ==> !IsSpace(id[|id| - 2]))
  }

  /** `longer` is such an end, a separator, and `id`. */
  predicate HidesId(longer: string, id: string) {
    && |longer| > |id| + 2
    && longer[|longer| - |id| - 2..] == " #" + id
    && LooksLikeTail(longer[..|longer| - |id| - 2])
  }

  /** The condition on a set of connection ids. Ids without `#` that do not end in `)` meet it. */
  ghost predicate SafeIds(ids: set<string>) {
    && (|ids| >= 3 ==> forall c | c in ids :: !LooksLikeTail(c))
    && (|ids| >= 4 ==> forall c, d | c in ids && d in ids :: !HidesId(c, d))
  }

  lemma OrdinaryIdsAreSafe(ids: set<string>)
    requires forall c | c in ids :: '#' !in c && (c != "" ==> c[|c| - 1] != ')')
    ensures SafeIds(ids)
  {
    forall c, d | HidesId(c, d) ensures '#' in c {
      assert c[|c| - |d| - 2..][1] == '#';
    }
  }

  /** A label kept as it is equals another connection's label with its id: the id looks like a tail. */
  lemma MixedCollision(text: string, other: string, id: string)
    requires Plain(text) || Bracketed(text)
    requires text == other + " #" + id
    ensures LooksLikeTail(id)
  {
    assert text[|other| + 1] == '#';
    assert text[|other| + 2..] == id;
    assert id == "" ==> |text| == |other| + 2;
    if id != "" {
      assert id[|id| - 1] == text[|text| - 1];
      if |id| > 1 {
        assert id[|id| - 2] == text[|text| - 2];
      }
    }
  }

  /** Two labels with ids read the same: one id hides the other. */
  lemma DoubleCollision(text: string, id: string, other: string, longer: string)
    requires Plain(text) || Bracketed(text)
    requires text + " #" + id == other + " #" + longer && |text| > |other|
    ensures HidesId(longer, id)
  {
    var whole := text + " #" + id;
    var n := |other|;
    assert whole == text + (" #" + id) && whole == other + (" #" + longer);
    assert whole[..|text|] == text && whole[n] == ' ' && whole[n + 1] == '#';
    assert text[n] == ' ';
    assert |text| != n + 1;
    assert text[n + 1] == '#';
    assert |text| != n + 2;
    var pre := text[n + 2..];
    assert whole[n + 2..] == longer && whole[|text|..] == " #" + id;
    assert longer == pre + (" #" + id);
    assert text[..n] == other;
    assert text == other + " #" + pre;
    MixedCollision(text, other, pre);
    assert longer[..|longer| - |id| - 2] == pre;
  }

  /** Distinct ids with equal shown labels need at least three ids, or four. */
  lemma EnoughIds(labels: map<string, string>, a: string, b: string)
    requires a in labels && b in labels && labels[a] != labels[b] && Shared(labels, b)
    ensures |labels.Keys| >= 3
    ensures Shared(labels, a) ==> |labels.Keys| >= 4
  {
    var d :| d in labels && d != b && labels[d] == labels[b];
    AtLeast({a, b, d}, labels.Keys);
    if Shared(labels, a) {
      var e :| e in labels && e != a && labels[e] == labels[a];
      AtLeast({a, b, d, e}, labels.Keys);
    }
  }

  lemma SameFront(x: string, a: string, y: string, b: string)
    requires x + a == y + b && |x| == |y|
    ensures x == y
  {
    assert x == (x + a)[..|x|] && y == (y + b)[..|x|];
  }

  lemma SameLabelDiffers(text: string, a: string, b: string)
    requires text + " #" + a == text + " #" + b
    ensures a == b
  {
    assert (text + " #" + a)[|text| + 2..] == a && (text + " #" + b)[|text| + 2..] == b;
  }

  lemma BothNumbered(la: string, a: string, lb: string, b: string)
    requires Plain(la) || Bracketed(la)
    requires la != lb && |la| >= |lb| && la + " #" + a == lb + " #" + b
    ensures HidesId(b, a)
  {
    assert la + " #" + a == la + (" #" + a) && lb + " #" + b == lb + (" #" + b);
    if |la| == |lb| {
      SameFront(la, " #" + a, lb, " #" + b);
    } else {
      DoubleCollision(la, a, lb, b);
    }
  }

  lemma NoCollision(labels: map<string, string>, a: string, b: string)
    requires forall c | c in labels :: Plain(labels[c]) || Bracketed(labels[c])
    requires SafeIds(labels.Keys) && a in labels && b in labels && a != b && |labels[a]| >= |labels[b]|
    ensures ShownFor(labels, a) != ShownFor(labels, b)
  {
    SharedIsCounted(labels, a);
    SharedIsCounted(labels, b);
    var la, lb := labels[a], labels[b];
    if ShownFor(labels, a) == ShownFor(labels, b) {
      if la == lb {
        SameLabelDiffers(la, a, b);
      } else if Shared(labels, b) {
        EnoughIds(labels, a, b);
        if Shared(labels, a) {
          BothNumbered(la, a, lb, b);
        } else {
          MixedCollision(la, lb, b);
        }
      }
    }
  }

  lemma SafeIdsDiffer(conns: map<string, Connection>)
    requires SafeIds(conns.Keys)
    ensures AllDiffer(Resolved(LabelsOf(conns)))
  {
    var labels := LabelsOf(conns);
    assert labels.Keys == conns.Keys;
    forall c | c in labels ensures Plain(labels[c]) || Bracketed(labels[c]) {
      LabelShape(conns[c]);
    }
    forall a, b | a in labels && b in labels && a != b ensures Resolved(labels)[a] != Resolved(labels)[b] {
      if |labels[a]| >= |labels[b]| {
        NoCollision(labels, a, b);
      } else {
        NoCollision(labels, b, a);
      }
    }
  }

  // ---------------------------------------------------------------------------------------------
  // Other ids can always be made to clash
  // ---------------------------------------------------------------------------------------------

  function Named(name: string): Connection {
    Connection(SelfHostedTts, map[Model := Str(name)])
  }

  lemma NamedLabel(name: string)
    requires name != "" && Trimmed(name)
    ensures DisplayLabel(Named(name)) == WithName(SelfHostedTts, name)
  {
    assert LABEL_FIELDS[0] == Model;
    assert Strip(name) == name;
    assert NamedBy(Named(name).fields, LABEL_FIELDS) == Some(name);
  }

  const BASE_LABEL := WithName(SelfHostedTts, "m")

  /** A name whose label is the base label, a separator and the given tail. */
  function Continued(tail: string): string
    requires tail != ""
  {
    "m) #" + tail[..|tail| - 1]
  }

  lemma ContinuedLabel(tail: string)
    requires LooksLikeTail(tail)
    ensures DisplayLabel(Named(Continued(tail))) == BASE_LABEL + " #" + tail
    ensures DisplayLabel(Named("m")) == BASE_LABEL
  {
    var name := Continued(tail);
    assert name[0] == 'm';
    if |tail| > 1 {
      assert name[|name| - 1] == tail[|tail| - 2];
    } else {
      assert name[|name| - 1] == '#';
    }
    NamedLabel(name);
    NamedLabel("m");
    assert tail == tail[..|tail| - 1] + ")";
    var t := TypeLabel(SelfHostedTts);
    assert t + " (" + name + ")" == t + " (" + "m" + ")" + " #" + tail;
  }

  /** Every id gets the base label, except those in `odd`. */
  function TwoLabels(ids: set<string>, odd: set<string>, tail: string): map<string, Connection>
    requires tail != ""
  {
    map c | c in ids :: if c in odd then Named(Continued(tail)) else Named("m")
  }

  lemma TwoLabelsAre(ids: set<string>, odd: set<string>, tail: string)
    requires LooksLikeTail(tail)
    ensures LabelsOf(TwoLabels(ids, odd, tail)) ==
            map c | c in ids :: if c in odd then BASE_LABEL + " #" + tail else BASE_LABEL
    ensures BASE_LABEL + " #" + tail != BASE_LABEL
  {
    ContinuedLabel(tail);
    assert |BASE_LABEL + " #" + tail| > |BASE_LABEL|;
  }

  lemma PickTwo(s: set<string>) returns (a: string, b: string)
    requires |s| >= 2
    ensures a in s && b in s && a != b
  {
    a :| a in s;
    var rest := s - {a};
    assert |rest| == |s| - 1;
    b :| b in rest;
  }

  lemma TailClashes(ids: set<string>, c: string)
    requires |ids| >= 3 && c in ids && LooksLikeTail(c)
    ensures exists conns: map<string, Connection> :: conns.Keys == ids && !AllDiffer(Resolved(LabelsOf(conns)))
  {
    var a, b := PickTwo(ids - {c});
    var conns := TwoLabels(ids, {a}, c);
    var labels := LabelsOf(conns);
    TwoLabelsAre(ids, {a}, c);
    assert labels[b] == labels[c];
    assert Shared(labels, c);
    SharedIsCounted(labels, c);
    assert !Shared(labels, a);
    SharedIsCounted(labels, a);
    assert ShownFor(labels, a) == ShownFor(labels, c);
    assert Resolved(labels)[a] == Resolved(labels)[c];
    assert conns.Keys == ids;
  }

  lemma HiddenReading(base: string, tail: string, longer: string, id: string)
    requires HidesId(longer, id) && tail == longer[..|longer| - |id| - 2]
    ensures (base + " #" + tail) + " #" + id == base + " #" + longer
  {
    assert longer == tail + (" #" + id);
  }

  lemma HiddenIdClashes(ids: set<string>, longer: string, id: string)
    requires |ids| >= 4 && longer in ids && id in ids && HidesId(longer, id)
    ensures exists conns: map<string, Connection> :: conns.Keys == ids && !AllDiffer(Resolved(LabelsOf(conns)))
  {
    var tail := longer[..|longer| - |id| - 2];
    assert longer != id && |ids - {longer, id}| == |ids| - 2;
    var a, b := PickTwo(ids - {longer, id});
    var conns := TwoLabels(ids, {id, a}, tail);
    var labels := LabelsOf(conns);
    TwoLabelsAre(ids, {id, a}, tail);
    assert labels[id] == labels[a] && labels[longer] == labels[b];
    assert Shared(labels, id) && Shared(labels, longer);
    SharedIsCounted(labels, id);
    SharedIsCounted(labels, longer);
    HiddenReading(BASE_LABEL, tail, longer, id);
    assert ShownFor(labels, id) == ShownFor(labels, longer);
    assert Resolved(labels)[id] == Resolved(labels)[longer];
    assert conns.Keys == ids;
  }

  /** MAIN RESULT. For a set of connection ids, the shown labels are distinct whatever connections
      the ids belong to, if and only if the ids are safe. */
  lemma ShownLabelsDiffer(ids: set<string>)
    ensures SafeIds(ids) <==>
              forall conns: map<string, Connection> | conns.Keys == ids :: AllDiffer(Resolved(LabelsOf(conns)))
  {
    if SafeIds(ids) {
      forall conns: map<string, Connection> | conns.Keys == ids ensures AllDiffer(Resolved(LabelsOf(conns))) {
        SafeIdsDiffer(conns);
      }
    } else if |ids| >= 3 && exists c | c in ids :: LooksLikeTail(c) {
      var c :| c in ids && LooksLikeTail(c);
      TailClashes(ids, c);
    } else {
      var c, d :| c in ids && d in ids && HidesId(c, d);
      HiddenIdClashes(ids, c, d);
    }
  }

  // ---------------------------------------------------------------------------------------------
  // What is shown
  // ---------------------------------------------------------------------------------------------

  predicate AllSpace(s: string) {
    forall c | c in s :: IsSpace(c)
  }

  lemma Regroup(u: string, a: string, x: string, b: string, v: string)
    ensures u + (a + x + b) + v == (u + a) + x + (b + v)
    ensures "" + (a + x + b) + v == (a + x + b) + v && u + (a + x + b) + "" == u + (a + x + b)
    ensures "" + a == a && b + "" == b
  {
  }

  /** Stripping takes white space from both ends and nothing else. */
  lemma {:induction false} StripParts(s: string) returns (a: string, b: string)
    ensures s == a + Strip(s) + b && AllSpace(a) && AllSpace(b)
    decreases |s|
  {
    a, b := "", "";
    if s != "" {
      if IsSpace(s[0]) {
        a, b := StripParts(s[1..]);
        Regroup([s[0]], a, Strip(s), b, "");
        assert s == [s[0]] + s[1..];
        a := [s[0]] + a;
      } else if IsSpace(s[|s| - 1]) {
        var last := [s[|s| - 1]];
        a, b := StripParts(s[..|s| - 1]);
        Regroup("", a, Strip(s), b, last);
        assert s == s[..|s| - 1] + last;
        b := b + last;
      }
    }
  }

  lemma {:induction false} StripIsEmpty(s: string)
    ensures Strip(s) == "" <==> AllSpace(s)
    decreases |s|
  {
    if s != "" {
      if IsSpace(s[0]) {
        StripIsEmpty(s[1..]);
        assert s == [s[0]] + s[1..];
      } else if IsSpace(s[|s| - 1]) {
        StripIsEmpty(s[..|s| - 1]);
        assert s == s[..|s| - 1] + [s[|s| - 1]];
      }
    }
  }

  /** The field holds text with something other than white space. */
  predicate Names(fields: Fields, key: FieldName) {
    key in fields && fields[key].Str? && !AllSpace(fields[key].text)
  }

  lemma NamedByNext(fields: Fields, keys: seq<FieldName>)
    requires keys != []
    ensures NamedBy(fields, keys) ==
            if Names(fields, keys[0]) then Some(Strip(fields[keys[0]].text)) else NamedBy(fields, keys[1..])
  {
    if keys[0] in fields && fields[keys[0]].Str? {
      StripIsEmpty(fields[keys[0]].text);
    }
  }

  /** The name shown is the first of model, TTS model, voice and TTS voice that is not blank, stripped;
      without any the type alone is shown. */
  lemma NameShown(c: Connection)
    ensures var f := c.fields;
            DisplayLabel(c) ==
            if Names(f, Model) then TypeLabel(c.kind) + " (" + Strip(f[Model].text) + ")"
            else if Names(f, TtsModel) then TypeLabel(c.kind) + " (" + Strip(f[TtsModel].text) + ")"
            else if Names(f, Voice) then TypeLabel(c.kind) + " (" + Strip(f[Voice].text) + ")"
            else if Names(f, TtsVoice) then TypeLabel(c.kind) + " (" + Strip(f[TtsVoice].text) + ")"
            else TypeLabel(c.kind)
  {
    var keys := LABEL_FIELDS;
    NamedByNext(c.fields, keys);
    NamedByNext(c.fields, keys[1..]);
    NamedByNext(c.fields, keys[1..][1..]);
    NamedByNext(c.fields, keys[1..][1..][1..]);
    assert keys[1..][1..][1..][1..] == [];
  }

  /** A label that no other connection has is shown as it is; one that is shared gets the id. */
  lemma ShownExactly(labels: map<string, string>, c: string)
    requires c in labels
    ensures ShownFor(labels, c) ==
            if labels[c] == "" then c
            else if exists d | d in labels :: d != c && labels[d] == labels[c] then labels[c] + " #" + c
            else labels[c]
  {
    SharedIsCounted(labels, c);
  }

  /** The label of a connection without a name, for each type, and of one with a name. */
  lemma LabelsInWords()
    ensures DisplayLabel(Connection(SelfHostedStt, map[])) == "Self-hosted STT"
    ensures DisplayLabel(Connection(SelfHostedTts, map[])) == "Self-hosted TTS"
    ensures DisplayLabel(Connection(HostedGeneral, map[])) == "Hosted general-purpose provider"
    ensures DisplayLabel(Connection(HostedSpecializedA, map[])) == "Hosted specialized provider A"
    ensures DisplayLabel(Connection(HostedSpecializedB, map[])) == "Hosted specialized provider B"
    ensures DisplayLabel(Connection(SelfHostedTts, map[Model := Str("glados")])) == "Self-hosted TTS (glados)"
  {
    NameShown(Connection(SelfHostedStt, map[]));
    NameShown(Connection(SelfHostedTts, map[]));
    NameShown(Connection(HostedGeneral, map[]));
    NameShown(Connection(HostedSpecializedA, map[]));
    NameShown(Connection(HostedSpecializedB, map[]));
    NamedLabel("glados");
  }
}
