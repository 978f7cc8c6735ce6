/** The persistent configuration (api/selfai_ui/config.py, lines 258-268 and 350-480): a tree of
    nested dictionaries kept in the database, a registry of entries that each live at a dotted path
    in the tree, assignments that write through to the database, imports that replace the tree, and
    the values a restart would give. */
module Config {

  import opened Wrappers
  import opened Dotted

  /** Numbers and booleans never behave differently here, so one constructor holds them all. */
  datatype Json =
    | Null
    | Scalar(number: int)
    | Text(text: string)
    | Items(items: seq<Json>)
    | Obj(fields: map<string, Json>)

  datatype Outcome<T> = Done(value: T) | TypeError

  // ---------------------------------------------------------------------------------------------
  // Reading and writing the tree
  // ---------------------------------------------------------------------------------------------

  predicate StandsAt(s: string, sub: string, i: nat) {
    i + |sub| <= |s| && s[i..i + |sub|] == sub
  }

  predicate Contains(s: string, sub: string) {
    exists i | 0 <= i <= |s| :: StandsAt(s, sub, i)
  }

  /** One turn of the walk: `key in cur` and `cur[key]`. On a string `in` looks for a substring and
      on a list for an element, and indexing either by a string raises. */
  function Child(cur: Json, key: string): Outcome<Option<Json>> {
    match cur
    case Obj(m) => Done(if key in m then Some(m[key]) else None)
    case Text(s) => if Contains(s, key) then TypeError else Done(None)
    case Items(xs) => if Text(key) in xs then TypeError else Done(None)
    case _ => TypeError
  }

  function Lookup(j: Json, path: Parts): Outcome<Json> {
    if path == [] then Done(j)
    else match Child(j, path[0])
      case TypeError => TypeError
      case Done(None) => Done(Null)
      case Done(Some(next)) => Lookup(next, path[1..])
  }

  /** What is found by following dictionaries only. */
  function Reached(j: Json, path: Parts): Option<Json> {
    if path == [] then Some(j)
    else if j.Obj? && path[0] in j.fields then Reached(j.fields[path[0]], path[1..])
    else None
  }

  /** Asking a value other than a dictionary for a key: nothing, or an exception. */
  predicate Raises(cur: Json, key: string) {
    match cur
    case Obj(_) => false
    case Text(s) => exists i | 0 <= i <= |s| :: StandsAt(s, key, i)
    case Items(xs) => exists i | 0 <= i < |xs| :: xs[i] == Text(key)
    case Null => true
    case Scalar(_) => true
  }

  /** Dictionaries lead to something at key number `k` that raises. */
  predicate RaisesAt(j: Json, path: Parts, k: nat) {
    k < |path| && Reached(j, path[..k]).Some? && Raises(Reached(j, path[..k]).value, path[k])
  }

  /** MAIN RESULT on reading. The value that dictionaries lead to, if there is one; an exception exactly
      when the walk gets to a number, a boolean or null, to a string that contains the next key or to a
      list that has it as an element; and nothing otherwise. */
  lemma {:induction false} LookupExactly(j: Json, path: Parts)
    ensures Reached(j, path).Some? ==> Lookup(j, path) == Done(Reached(j, path).value)
    ensures Lookup(j, path).TypeError? <==> exists k | 0 <= k < |path| :: RaisesAt(j, path, k)
    ensures Lookup(j, path).Done? && Reached(j, path).None? ==> Lookup(j, path) == Done(Null)
    decreases |path|
  {
    if path != [] {
      assert path[..0] == [];
      if j.Obj? && path[0] in j.fields {
        var next, rest := j.fields[path[0]], path[1..];
        LookupExactly(next, rest);
        forall k | 0 <= k < |rest|
          ensures Reached(next, rest[..k]) == Reached(j, path[..k + 1]) && rest[k] == path[k + 1]
        {
          assert path[..k + 1][1..] == rest[..k] && path[..k + 1][0] == path[0];
        }
        if exists k | 0 <= k < |path| :: RaisesAt(j, path, k) {
          var k :| 0 <= k < |path| && RaisesAt(j, path, k);
          assert k > 0 && Reached(next, rest[..k - 1]) == Reached(j, path[..k]) && RaisesAt(next, rest, k - 1);
        }
        if exists k | 0 <= k < |rest| :: RaisesAt(next, rest, k) {
          var k :| 0 <= k < |rest| && RaisesAt(next, rest, k);
          assert RaisesAt(j, path, k + 1);
        }
      } else {
        ChildRaises(j, path[0]);
        assert RaisesAt(j, path, 0) <==> Raises(j, path[0]);
        forall k | 0 < k < |path| ensures Reached(j, path[..k]) == None {
          assert path[..k][0] == path[0];
        }
      }
    }
  }

  lemma ChildRaises(cur: Json, key: string)
    ensures Child(cur, key).TypeError? <==> Raises(cur, key)
    ensures Child(cur, key).Done? && Child(cur, key).value.Some? <==> cur.Obj? && key in cur.fields
  {
    if cur.Items? && Text(key) in cur.items {
      var i :| 0 <= i < |cur.items| && cur.items[i] == Text(key);
    }
  }

  /** The nested write of `save`; missing dictionaries on the way are created. */
  function Write(j: Json, path: Parts, v: Json): Outcome<Json>
    requires |path| > 0
    decreases |path|
  {
    if !j.Obj? then TypeError
    else if |path| == 1 then Done(Obj(j.fields[path[0] := v]))
    else
      var below := if path[0] in j.fields then j.fields[path[0]] else Obj(map[]);
      match Write(below, path[1..], v)
      case TypeError => TypeError
      case Done(sub) => Done(Obj(j.fields[path[0] := sub]))
  }

  /** On the way to the last key of the path there are only dictionaries, or nothing. */
  predicate Fits(j: Json, path: Parts) {
    if path == [] then true
    else j.Obj? && (path[0] in j.fields ==> Fits(j.fields[path[0]], path[1..]))
  }

  /** A write succeeds exactly on a path that fits, and a path that fits can be read. */
  lemma {:induction false} WriteSucceeds(j: Json, path: Parts, v: Json)
    requires |path| > 0
    ensures Write(j, path, v).Done? <==> Fits(j, path)
    decreases |path|
  {
    if j.Obj? && |path| > 1 {
      var below := if path[0] in j.fields then j.fields[path[0]] else Obj(map[]);
      WriteSucceeds(below, path[1..], v);
    }
  }

  lemma {:induction false} FitsReads(j: Json, path: Parts)
    requires Fits(j, path)
    ensures Lookup(j, path).Done?
    decreases |path|
  {
    if path != [] && path[0] in j.fields {
      FitsReads(j.fields[path[0]], path[1..]);
    }
  }

  lemma {:induction false} ReadWritten(j: Json, path: Parts, v: Json)
    requires |path| > 0 && Fits(j, path)
    ensures Write(j, path, v).Done? && Lookup(Write(j, path, v).value, path) == Done(v)
    decreases |path|
  {
    WriteSucceeds(j, path, v);
    if |path| > 1 {
      var below := if path[0] in j.fields then j.fields[path[0]] else Obj(map[]);
      ReadWritten(below, path[1..], v);
    } else {
      assert path[1..] == [];
    }
  }

  predicate Unrelated(p: Parts, q: Parts) {
    !(p <= q) && !(q <= p)
  }

  /** A write along `p` does not touch what lies at a path that is neither above nor below. */
  lemma {:induction false} OtherPathKept(j: Json, p: Parts, q: Parts, v: Json)
    requires Unrelated(p, q) && Fits(j, p) && Fits(j, q)
    ensures Write(j, p, v).Done?
    ensures Lookup(Write(j, p, v).value, q) == Lookup(j, q)
    ensures Fits(Write(j, p, v).value, q)
    decreases |p|
  {
    WriteSucceeds(j, p, v);
    if p[0] == q[0] {
      TailsUnrelated(p, q);
      var below := if p[0] in j.fields then j.fields[p[0]] else Obj(map[]);
      OtherPathKept(below, p[1..], q[1..], v);
      if p[0] !in j.fields {
        assert Lookup(below, q[1..]) == Done(Null);
      }
    }
  }

  lemma TailsUnrelated(p: Parts, q: Parts)
    requires Unrelated(p, q) && p[0] == q[0]
    ensures |p| > 1 && |q| > 1 && Unrelated(p[1..], q[1..])
  {
    assert p == [p[0]] + p[1..] && q == [q[0]] + q[1..];
  }

  lemma {:induction false} OwnPathFits(j: Json, p: Parts, v: Json)
    requires |p| > 0 && Fits(j, p)
    ensures Write(j, p, v).Done? && Fits(Write(j, p, v).value, p)
    decreases |p|
  {
    WriteSucceeds(j, p, v);
    if |p| > 1 {
      var below := if p[0] in j.fields then j.fields[p[0]] else Obj(map[]);
      OwnPathFits(below, p[1..], v);
    } else {
      assert p[1..] == [];
    }
  }

  // ---------------------------------------------------------------------------------------------
  // The running program, as values
  // ---------------------------------------------------------------------------------------------

  /** A `PersistentConfig`: its dotted path and the value the environment gives. */
  datatype Entry = Entry(path: string, env: Json) {
    function Parts(): (p: Parts)
      ensures |p| > 0
    {
      Split(path)
    }
  }

  /** What is fixed while the program runs: the mode, the built-in default tree, the registry. */
  datatype Setup = Setup(persistent: bool, defaults: Json, entries: seq<Entry>)

  /** The database row, `CONFIG_DATA`, and the registry entries' values. */
  datatype State = State(db: Option<Json>, data: Json, values: seq<Json>)

  /** An assignment or an import; `commits` says whether the database accepts the write, if there is
      one. */
  datatype Event =
    | Assign(entry: nat, value: Json, commits: bool)
    | Import(config: Json, commits: bool)

  function Stored(c: Setup, db: Option<Json>): Json {
    if db.Some? then db.value else c.defaults
  }

  /** The value `PersistentConfig.__init__` gives entry `e` when the tree is `data`. */
  function BootValue(persistent: bool, data: Json, e: Entry): Outcome<Json> {
    if !persistent then Done(e.env)
    else match Lookup(data, e.Parts())
      case TypeError => TypeError
      case Done(v) => Done(if v != Null then v else e.env)
  }

  /** What entry `i` would hold after a restart. */
  function Restarted(c: Setup, s: State, i: nat): Outcome<Json>
    requires i < |c.entries|
  {
    BootValue(c.persistent, Stored(c, s.db), c.entries[i])
  }

  /** `update` over the first `n` entries; it stops at an entry whose lookup raises. */
  function Updated(c: Setup, data: Json, values: seq<Json>, n: nat): (r: (seq<Json>, bool))
    requires n <= |values| == |c.entries|
    ensures |r.0| == |values|
  {
    if n == 0 || !c.persistent then (values, true)
    else
      var before := Updated(c, data, values, n - 1);
      if !before.1 then before
      else match Lookup(data, c.entries[n - 1].Parts())
        case TypeError => (before.0, false)
        case Done(v) => (if v == Null then before.0 else before.0[n - 1 := v], true)
  }

  /** In memory and in the database there is the same tree, as after a start. */
  ghost predicate Sound(c: Setup, s: State) {
    |s.values| == |c.entries| && s.data == Stored(c, s.db)
  }

  predicate Enabled(c: Setup, e: Event) {
    e.Assign? ==> e.entry < |c.entries|
  }

  /** The running value and the tree in memory change before the database is asked. */
  function Assigned(c: Setup, s: State, i: nat, v: Json, commits: bool): State
    requires i < |c.entries| == |s.values|
  {
    var s' := s.(values := s.values[i := v]);
    if !c.persistent then s'
    else match Write(s.data, c.entries[i].Parts(), v)
      case TypeError => s'
      case Done(data) => s'.(data := data, db := if commits then Some(data) else s.db)
  }

  /** Here the database is asked first. */
  function Imported(c: Setup, s: State, config: Json, commits: bool): State
    requires |s.values| == |c.entries|
  {
    if !commits then s else State(Some(config), config, Updated(c, config, s.values, |s.values|).0)
  }

  function Apply(c: Setup, s: State, e: Event): (s': State)
    requires |s.values| == |c.entries| && Enabled(c, e)
    ensures |s'.values| == |c.entries|
  {
    match e
    case Assign(i, v, commits) => Assigned(c, s, i, v, commits)
    case Import(config, commits) => Imported(c, s, config, commits)
  }

  predicate Possible(c: Setup, run: seq<Event>) {
    forall e | e in run :: Enabled(c, e)
  }

  function Run(c: Setup, s: State, run: seq<Event>): (s': State)
    requires |s.values| == |c.entries| && Possible(c, run)
    ensures |s'.values| == |c.entries|
  {
    if run == [] then s else Apply(c, Run(c, s, run[..|run| - 1]), run[|run| - 1])
  }

  predicate AllCommit(run: seq<Event>) {
    forall e | e in run :: e.commits
  }

  /** When every write is accepted, memory and database agree after every run. */
  lemma {:induction false} RunKeepsSound(c: Setup, s: State, run: seq<Event>)
    requires Sound(c, s) && Possible(c, run) && AllCommit(run)
    ensures Sound(c, Run(c, s, run))
  {
    if run != [] {
      RunKeepsSound(c, s, run[..|run| - 1]);
    }
  }

  /** After a refused write they agree only if the write changed nothing; the next accepted one brings
      the whole tree in memory to the database, whatever was refused before. */
  lemma RefusedWrites(c: Setup, s: State, e: Event)
    requires |s.values| == |c.entries| && Enabled(c, e)
    ensures Sound(c, s) && !e.commits ==> (Sound(c, Apply(c, s, e)) <==> Apply(c, s, e).data == s.data)
    ensures e.commits && (e.Assign? ==> c.persistent && Fits(s.data, c.entries[e.entry].Parts())) ==>
              Sound(c, Apply(c, s, e))
  {
    if e.Assign? {
      WriteSucceeds(s.data, c.entries[e.entry].Parts(), e.value);
    }
  }

  // ---------------------------------------------------------------------------------------------
  // The reference: a flat table with one cell per entry
  // ---------------------------------------------------------------------------------------------

  /** Per entry the value in the database, the one in memory (`Null` for none) and the running one: no
      tree, no paths. Memory is a write-back cache: an accepted write stores all of it. */
  datatype Flat = Flat(stored: seq<Json>, memory: seq<Json>, values: seq<Json>) {
    predicate Sized(n: nat) {
      |stored| == |memory| == |values| == n
    }
  }

  /** What an import brings for each entry. */
  function Cells(c: Setup, tree: Json): seq<Json>
    requires AllFit(c, tree)
  {
    seq(|c.entries|, i requires 0 <= i < |c.entries| =>
      FitsReads(tree, c.entries[i].Parts()); Lookup(tree, c.entries[i].Parts()).value)
  }

  predicate AllFit(c: Setup, tree: Json) {
    forall e | e in c.entries :: Fits(tree, e.Parts())
  }

  predicate PrefixFree(c: Setup) {
    forall i, j | 0 <= i < |c.entries| && 0 <= j < |c.entries| && i != j ::
      Unrelated(c.entries[i].Parts(), c.entries[j].Parts())
  }

  /** A value `None` is no value. */
  function OrElse(v: Json, otherwise: Json): Json {
    if v != Null then v else otherwise
  }

  function FlatApply(c: Setup, f: Flat, e: Event): (f': Flat)
    requires f.Sized(|c.entries|) && Enabled(c, e)
    requires e.Import? ==> AllFit(c, e.config)
    ensures f'.Sized(|c.entries|)
  {
    match e
    case Assign(i, v, commits) =>
      var memory := f.memory[i := v];
      Flat(if commits then memory else f.stored, memory, f.values[i := v])
    case Import(config, commits) =>
      if !commits then f
      else
        var cells := Cells(c, config);
        Flat(cells, cells, seq(|f.values|, i requires 0 <= i < |f.values| => OrElse(cells[i], f.values[i])))
  }

  predicate FittingRun(c: Setup, run: seq<Event>) {
    Possible(c, run) && forall e | e in run && e.Import? :: AllFit(c, e.config)
  }

  function FlatRun(c: Setup, f: Flat, run: seq<Event>): (f': Flat)
    requires f.Sized(|c.entries|) && FittingRun(c, run)
    ensures f'.Sized(|c.entries|)
  {
    if run == [] then f else FlatApply(c, FlatRun(c, f, run[..|run| - 1]), run[|run| - 1])
  }

  /** Both trees have room for every entry. */
  predicate Shaped(c: Setup, s: State) {
    |s.values| == |c.entries| && AllFit(c, s.data) && AllFit(c, Stored(c, s.db))
  }

  function Flatten(c: Setup, s: State): Flat
    requires Shaped(c, s)
  {
    Flat(Cells(c, Stored(c, s.db)), Cells(c, s.data), s.values)
  }

  lemma AssignedFits(c: Setup, s: State, i: nat, v: Json, j: nat)
    requires PrefixFree(c) && AllFit(c, s.data) && i < |c.entries| && j < |c.entries|
    ensures var w := Write(s.data, c.entries[i].Parts(), v);
            && w.Done? && Fits(w.value, c.entries[j].Parts())
            && Lookup(w.value, c.entries[j].Parts()) ==
               (if i == j then Done(v) else Lookup(s.data, c.entries[j].Parts()))
  {
    if i == j {
      ReadWritten(s.data, c.entries[i].Parts(), v);
      OwnPathFits(s.data, c.entries[i].Parts(), v);
    } else {
      OtherPathKept(s.data, c.entries[i].Parts(), c.entries[j].Parts(), v);
    }
  }

  lemma AssignRefines(c: Setup, s: State, i: nat, v: Json, commits: bool)
    requires c.persistent && PrefixFree(c) && Shaped(c, s) && i < |c.entries|
    ensures Shaped(c, Assigned(c, s, i, v, commits))
    ensures Flatten(c, Assigned(c, s, i, v, commits)) == FlatApply(c, Flatten(c, s), Assign(i, v, commits))
  {
    var w := Write(s.data, c.entries[i].Parts(), v);
    AssignedFits(c, s, i, v, i);
    forall e | e in c.entries ensures Fits(w.value, e.Parts()) {
      var j :| 0 <= j < |c.entries| && c.entries[j] == e;
      AssignedFits(c, s, i, v, j);
    }
    forall j | 0 <= j < |c.entries| ensures Cells(c, w.value)[j] == Cells(c, s.data)[i := v][j] {
      AssignedFits(c, s, i, v, j);
    }
    assert Cells(c, w.value) == Cells(c, s.data)[i := v];
  }

  lemma {:induction false} UpdateAll(c: Setup, data: Json, values: seq<Json>, n: nat)
    requires c.persistent && AllFit(c, data) && n <= |values| == |c.entries|
    ensures Updated(c, data, values, n).1
    ensures forall i | 0 <= i < |values| ::
              Updated(c, data, values, n).0[i] == if i < n then OrElse(Cells(c, data)[i], values[i]) else values[i]
    decreases n
  {
    if n > 0 {
      UpdateAll(c, data, values, n - 1);
      FitsReads(data, c.entries[n - 1].Parts());
    }
  }

  lemma ImportRefines(c: Setup, s: State, config: Json, commits: bool)
    requires c.persistent && Shaped(c, s) && AllFit(c, config)
    ensures Shaped(c, Imported(c, s, config, commits))
    ensures Flatten(c, Imported(c, s, config, commits)) == FlatApply(c, Flatten(c, s), Import(config, commits))
  {
    UpdateAll(c, config, s.values, |s.values|);
    assert Imported(c, s, config, commits).values == FlatApply(c, Flatten(c, s), Import(config, commits)).values;
  }

  /** MAIN RESULT. With persistence on and prefix-free paths, over every run of assignments and
      imports with accepted and refused writes, the nested tree behaves as the flat table, and a
      restart gives each entry its stored cell or, when that is `None`, the environment's value. */
  lemma {:induction false} TreeIsFlatTable(c: Setup, s: State, run: seq<Event>)
    requires c.persistent && PrefixFree(c) && Shaped(c, s) && FittingRun(c, run)
    ensures var s' := Run(c, s, run);
            && Shaped(c, s') && Flatten(c, s') == FlatRun(c, Flatten(c, s), run)
            && forall i | 0 <= i < |c.entries| ::
                 Restarted(c, s', i) == Done(OrElse(Flatten(c, s').stored[i], c.entries[i].env))
  {
    if run != [] {
      var before := run[..|run| - 1];
      TreeIsFlatTable(c, s, before);
      StepRefines(c, Run(c, s, before), run[|run| - 1]);
    }
    var s' := Run(c, s, run);
    RestartReadsCells(c, s');
  }

  lemma StepRefines(c: Setup, s: State, e: Event)
    requires c.persistent && PrefixFree(c) && Shaped(c, s) && Enabled(c, e)
    requires e.Import? ==> AllFit(c, e.config)
    ensures Shaped(c, Apply(c, s, e)) && Flatten(c, Apply(c, s, e)) == FlatApply(c, Flatten(c, s), e)
  {
    match e
    case Assign(i, v, commits) => AssignRefines(c, s, i, v, commits);
    case Import(config, commits) => ImportRefines(c, s, config, commits);
  }

  lemma RestartReadsCells(c: Setup, s: State)
    requires c.persistent && Shaped(c, s)
    ensures forall i | 0 <= i < |c.entries| ::
              Restarted(c, s, i) == Done(OrElse(Flatten(c, s).stored[i], c.entries[i].env))
  {
    forall i | 0 <= i < |c.entries|
      ensures Restarted(c, s, i) == Done(OrElse(Flatten(c, s).stored[i], c.entries[i].env))
    {
      FitsReads(Stored(c, s.db), c.entries[i].Parts());
    }
  }

  // ---------------------------------------------------------------------------------------------
  // What that means for the values
  // ---------------------------------------------------------------------------------------------

  /** The last value a run assigned to entry `i`, if any. */
  function LastAssigned(run: seq<Event>, i: nat): Option<Json> {
    if run == [] then None
    else
      var e := run[|run| - 1];
      if e.Assign? && e.entry == i then Some(e.value) else LastAssigned(run[..|run| - 1], i)
  }

  predicate OnlyAssigns(run: seq<Event>) {
    forall e | e in run :: e.Assign?
  }

  /** How many events there are up to the last accepted write. */
  function LastCommit(run: seq<Event>): (n: nat)
    ensures n <= |run|
  {
    if run == [] || run[|run| - 1].commits then |run| else LastCommit(run[..|run| - 1])
  }

  function OrBefore(last: Option<Json>, before: Json): Json {
    if last.Some? then last.value else before
  }

  lemma {:induction false} FlatLastAssigned(c: Setup, f: Flat, run: seq<Event>, i: nat)
    requires f.Sized(|c.entries|) && f.stored == f.memory
    requires FittingRun(c, run) && OnlyAssigns(run) && i < |c.entries|
    ensures var f' := FlatRun(c, f, run);
            && f'.stored[i] == OrBefore(LastAssigned(run[..LastCommit(run)], i), f.stored[i])
            && f'.memory[i] == OrBefore(LastAssigned(run, i), f.memory[i])
            && f'.values[i] == OrBefore(LastAssigned(run, i), f.values[i])
  {
    if run != [] {
      var n := |run| - 1;
      FlatLastAssigned(c, f, run[..n], i);
      if run[n].commits {
        assert run[..|run|] == run;
      } else {
        var k := LastCommit(run[..n]);
        assert run[..n][..k] == run[..k];
      }
    }
  }

  /** MAIN RESULT. After any sequence of assignments from a start on, a restart gives each entry the
      last value assigned up to the last accepted write, or the environment's value when that was
      `None`, and every entry not assigned till then what a restart would have given before. */
  lemma RestartAfterAssignments(c: Setup, s: State, run: seq<Event>, i: nat)
    requires c.persistent && PrefixFree(c) && Sound(c, s) && AllFit(c, s.data)
    requires Possible(c, run) && OnlyAssigns(run) && i < |c.entries|
    ensures Restarted(c, Run(c, s, run), i) ==
            match LastAssigned(run[..LastCommit(run)], i)
            case Some(v) => Done(OrElse(v, c.entries[i].env))
            case None => Restarted(c, s, i)
    ensures Run(c, s, run).values[i] ==
            match LastAssigned(run, i)
            case Some(v) => v
            case None => s.values[i]
  {
    TreeIsFlatTable(c, s, run);
    FlatLastAssigned(c, Flatten(c, s), run, i);
    RestartReadsCells(c, s);
  }

  /** A restart does not give the last value other than `None`: an assigned `None` hides it. */
  lemma NoneHidesValue(c: Setup, s: State, i: nat, v: Json)
    requires c.persistent && PrefixFree(c) && Sound(c, s) && AllFit(c, s.data) && i < |c.entries|
    ensures Restarted(c, Run(c, s, [Assign(i, v, true), Assign(i, Null, true)]), i) == Done(c.entries[i].env)
  {
    var run := [Assign(i, v, true), Assign(i, Null, true)];
    assert LastCommit(run) == 2 && run[..2] == run;
    RestartAfterAssignments(c, s, run, i);
  }

  /** A refused assignment is not lost for good: the next accepted one, of any entry, stores it too. */
  lemma RefusedValueReturns(c: Setup, s: State, i: nat, v: Json, j: nat, w: Json)
    requires c.persistent && PrefixFree(c) && Sound(c, s) && AllFit(c, s.data)
    requires i < |c.entries| && j < |c.entries| && i != j
    ensures Restarted(c, Run(c, s, [Assign(i, v, false)]), i) == Restarted(c, s, i)
    ensures Restarted(c, Run(c, s, [Assign(i, v, false), Assign(j, w, true)]), i) == Done(OrElse(v, c.entries[i].env))
  {
    var first := [Assign(i, v, false)];
    assert first[..0] == [] && LastCommit(first) == 0;
    RestartAfterAssignments(c, s, first, i);
    var run := [Assign(i, v, false), Assign(j, w, true)];
    assert LastCommit(run) == 2 && run[..2] == run && run[..1] == first;
    assert LastAssigned(run, i) == LastAssigned(first, i) == Some(v);
    RestartAfterAssignments(c, s, run, i);
  }

  /** An import sets exactly the entries it has a value for, and decides every restart, whatever the
      trees were before; a refused one changes nothing. */
  lemma ImportSetsPresent(c: Setup, s: State, config: Json, i: nat)
    requires c.persistent && |s.values| == |c.entries| && AllFit(c, config) && i < |c.entries|
    ensures var v := Cells(c, config)[i];
            && Apply(c, s, Import(config, true)).values[i] == OrElse(v, s.values[i])
            && Restarted(c, Apply(c, s, Import(config, true)), i) == Done(OrElse(v, c.entries[i].env))
    ensures Apply(c, s, Import(config, false)) == s
  {
    UpdateAll(c, config, s.values, |s.values|);
    RestartReadsCells(c, Apply(c, s, Import(config, true)));
  }

  // ---------------------------------------------------------------------------------------------
  // Where the conditions come from
  // ---------------------------------------------------------------------------------------------

  /** Exactly on a path that fits does the write get as far as the tree and the database; on any other
      it raises after the running value is changed. */
  lemma UnfitLosesAssignment(c: Setup, s: State, i: nat, v: Json, commits: bool)
    requires c.persistent && |s.values| == |c.entries| && i < |c.entries|
    ensures var s' := Assigned(c, s, i, v, commits);
            && s'.values == s.values[i := v]
            && (if Fits(s.data, c.entries[i].Parts())
                then Lookup(s'.data, c.entries[i].Parts()) == Done(v)
                     && s'.db == (if commits then Some(s'.data) else s.db)
                else s'.data == s.data && s'.db == s.db)
  {
    WriteSucceeds(s.data, c.entries[i].Parts(), v);
    if Fits(s.data, c.entries[i].Parts()) {
      ReadWritten(s.data, c.entries[i].Parts(), v);
    }
  }

  /** Two entries with one path above or at the other always have a pair of assignments after which
      the lower one is lost, whatever the tree. */
  lemma PrefixFreeNeeded(c: Setup, s: State, i: nat, j: nat, w: Json)
    requires c.persistent && |s.values| == |c.entries| && i < |c.entries| && j < |c.entries| && i != j
    requires c.entries[i].Parts() <= c.entries[j].Parts() && w != Null && w != Scalar(0)
    requires AllFit(c, s.data)
    ensures Restarted(c, Run(c, s, [Assign(j, w, true), Assign(i, Scalar(0), true)]), j) != Done(w)
  {
    var run := [Assign(j, w, true), Assign(i, Scalar(0), true)];
    var p, q := c.entries[i].Parts(), c.entries[j].Parts();
    assert run[..1] == [run[0]] && run[..1][..0] == [];
    var s1 := Assigned(c, s, j, w, true);
    assert Run(c, s, run[..1]) == s1;
    var s2 := Assigned(c, s1, i, Scalar(0), true);
    assert Run(c, s, run) == s2;
    OwnPathFits(s.data, q, w);
    PrefixFits(s1.data, p, q);
    ReadWritten(s1.data, p, Scalar(0));
    BelowScalar(s2.data, p, q);
  }

  lemma {:induction false} PrefixFits(j: Json, p: Parts, q: Parts)
    requires p <= q && Fits(j, q)
    ensures Fits(j, p)
    decreases |p|
  {
    if p != [] && p[0] in j.fields {
      PrefixFits(j.fields[p[0]], p[1..], q[1..]);
    }
  }

  lemma {:induction false} BelowScalar(j: Json, p: Parts, q: Parts)
    requires p <= q && Lookup(j, p) == Done(Scalar(0))
    ensures Lookup(j, q) == (if p == q then Done(Scalar(0)) else TypeError)
    decreases |p|
  {
    if p != [] {
      BelowScalar(Child(j, p[0]).value.value, p[1..], q[1..]);
      assert p == [p[0]] + p[1..] && q == [q[0]] + q[1..];
    }
  }

  /** An import is reported as failed exactly when an entry cannot be read from the new tree; the
      tree has been replaced all the same, and the next start fails. */
  lemma {:induction false} FailedUpdate(c: Setup, data: Json, values: seq<Json>, n: nat)
    requires c.persistent && n <= |values| == |c.entries|
    ensures Updated(c, data, values, n).1 <==> forall e | e in c.entries[..n] :: BootValue(true, data, e).Done?
    decreases n
  {
    if n > 0 {
      FailedUpdate(c, data, values, n - 1);
      var e := c.entries[n - 1];
      assert c.entries[..n] == c.entries[..n - 1] + [e];
      assert e in c.entries[..n];
      assert BootValue(true, data, e).Done? == Lookup(data, e.Parts()).Done?;
    }
  }

  /** An import that fails at entry `n` has updated the entries before it and no other. */
  lemma {:induction false} FailedImportStops(c: Setup, data: Json, values: seq<Json>, n: nat)
    requires c.persistent && n < |values| == |c.entries|
    requires forall i | 0 <= i < n :: Lookup(data, c.entries[i].Parts()).Done?
    requires Lookup(data, c.entries[n].Parts()).TypeError?
    ensures var r := Updated(c, data, values, |values|);
            && !r.1
            && forall i | 0 <= i < |values| ::
                 r.0[i] == if i < n then OrElse(Lookup(data, c.entries[i].Parts()).value, values[i]) else values[i]
  {
    UpdatedSoFar(c, data, values, n);
    UpdateStops(c, data, values, n + 1, |values|);
  }

  lemma {:induction false} UpdatedSoFar(c: Setup, data: Json, values: seq<Json>, n: nat)
    requires c.persistent && n <= |values| == |c.entries|
    requires forall i | 0 <= i < n :: Lookup(data, c.entries[i].Parts()).Done?
    ensures Updated(c, data, values, n).1
    ensures forall i | 0 <= i < |values| ::
              Updated(c, data, values, n).0[i] ==
              if i < n then OrElse(Lookup(data, c.entries[i].Parts()).value, values[i]) else values[i]
    decreases n
  {
    if n > 0 {
      UpdatedSoFar(c, data, values, n - 1);
    }
  }

  lemma FailedImportBreaksRestart(c: Setup, s: State, config: Json)
    requires c.persistent && |s.values| == |c.entries|
    ensures Updated(c, config, s.values, |s.values|).1 <==>
              forall i | 0 <= i < |c.entries| :: Restarted(c, Imported(c, s, config, true), i).Done?
  {
    FailedUpdate(c, config, s.values, |s.values|);
    assert c.entries[..|s.values|] == c.entries;
    forall i | 0 <= i < |c.entries|
      ensures Restarted(c, Imported(c, s, config, true), i) == BootValue(true, config, c.entries[i])
      ensures c.entries[i] in c.entries
    {
    }
  }

  /** MAIN RESULT. With persistence off the environment decides: no run changes any restarted value,
      imports change no running value, and assignments never reach the database. */
  lemma {:induction false} EnvironmentDecides(c: Setup, s: State, run: seq<Event>, i: nat)
    requires !c.persistent && |s.values| == |c.entries| && Possible(c, run) && i < |c.entries|
    ensures Restarted(c, Run(c, s, run), i) == Done(c.entries[i].env)
    ensures Run(c, s, run).values[i] ==
            match LastAssigned(run, i)
            case Some(v) => v
            case None => s.values[i]
    ensures OnlyAssigns(run) ==> Run(c, s, run).db == s.db && Run(c, s, run).data == s.data
  {
    if run != [] {
      EnvironmentDecides(c, s, run[..|run| - 1], i);
    }
  }

  // ---------------------------------------------------------------------------------------------
  // The program
  // ---------------------------------------------------------------------------------------------

  /** `get_config_value` */
  method GetConfigValue(data: Json, path: string) returns (r: Outcome<Json>)
    ensures r == Lookup(data, Split(path))
  {
    var parts := Split(path);
    var cur, i := data, 0;
    while i < |parts|
      invariant i <= |parts| && Lookup(data, parts) == Lookup(cur, parts[i..])
    {
      match Child(cur, parts[i]) {
        case TypeError => return TypeError;
        case Done(None) => return Done(Null);
        case Done(Some(next)) => cur := next;
      }
      i := i + 1;
    }
    return Done(cur);
  }

  /** The dictionaries passed on the way down, put back around the one at the bottom. */
  function Plug(spine: seq<map<string, Json>>, keys: Parts, bottom: Json): Json
    requires |spine| == |keys|
  {
    if spine == [] then bottom
    else
      var n := |spine| - 1;
      Plug(spine[..n], keys[..n], Obj(spine[n][keys[n] := bottom]))
  }

  /** The walk and the last assignment of `save`. */
  method WriteThrough(data: Json, parts: Parts, v: Json) returns (r: Outcome<Json>)
    requires |parts| > 0
    ensures r == Write(data, parts, v)
  {
    var sub, i := data, 0;
    var spine: seq<map<string, Json>> := [];
    while i < |parts| - 1
      invariant i == |spine| <= |parts| - 1
      invariant Write(data, parts, v) ==
                match Write(sub, parts[i..], v)
                case TypeError => TypeError
                case Done(w) => Done(Plug(spine, parts[..i], w))
    {
      if !sub.Obj? {
        return TypeError;
      }
      var key := parts[i];
      var below := if key in sub.fields then sub.fields[key] else Obj(map[]);
      assert parts[i..][1..] == parts[i + 1..];
      assert parts[..i + 1][..i] == parts[..i] && (spine + [sub.fields])[..i] == spine;
      spine, sub := spine + [sub.fields], below;
      i := i + 1;
    }
    if !sub.Obj? {
      return TypeError;
    }
    sub := Obj(sub.fields[parts[i] := v]);
    while i > 0
      invariant i == |spine| <= |parts| - 1
      invariant Write(data, parts, v) == Done(Plug(spine, parts[..i], sub))
    {
      i := i - 1;
      assert parts[..i + 1][..i] == parts[..i];
      sub, spine := Obj(spine[i][parts[i] := sub]), spine[..i];
    }
    return Done(sub);
  }

  class AppConfig {
    const persistent: bool
    const defaults: Json
    var db: Option<Json>
    var data: Json
    var entries: seq<Entry>
    var values: seq<Json>
    var names: map<string, nat>

    ghost predicate Valid() reads this {
      && |values| == |entries|
      && forall k | k in names :: names[k] < |entries|
    }

    function Settings(): Setup reads this { Setup(persistent, defaults, entries) }
    function Now(): State reads this { State(db, data, values) }

    /** Program start: the tree is the database row, or the built-in defaults. */
    constructor (persistent: bool, defaults: Json, db: Option<Json>)
      ensures Valid() && Sound(Settings(), Now()) && this.persistent == persistent && this.defaults == defaults
      ensures this.db == db && entries == [] && values == [] && names == map[]
    {
      this.persistent, this.defaults, this.db := persistent, defaults, db;
      this.data := if db.Some? then db.value else defaults;
      this.entries, this.values, this.names := [], [], map[];
    }

    /** `PersistentConfig.__init__`, and its assignment to an attribute of the application config. */
    method Register(name: string, e: Entry) returns (ok: bool)
      requires Valid()
      modifies this
      ensures Valid() && db == old(db) && data == old(data)
      ensures ok == BootValue(persistent, old(data), e).Done?
      ensures ok ==>
                && entries == old(entries) + [e]
                && values == old(values) + [BootValue(persistent, old(data), e).value]
                && names == old(names)[name := |old(entries)|]
      ensures !ok ==> entries == old(entries) && values == old(values) && names == old(names)
    {
      var found: Outcome<Json> := Done(Null);
      if persistent {
        found := GetConfigValue(data, e.path);
      }
      if found.TypeError? {
        return false;
      }
      names := names[name := |entries|];
      entries := entries + [e];
      values := values + [if found.value != Null then found.value else e.env];
      return true;
    }

    /** `save`: the tree in memory is changed, then written; nothing happens with persistence off. The
        result is false when it raises. */
    method Save(i: nat, commits: bool) returns (ok: bool)
      requires Valid() && i < |entries|
      modifies this`data, this`db
      ensures Valid()
      ensures Now() == Assigned(Settings(), old(Now()), i, values[i], commits)
      ensures ok <==> !persistent || (Fits(old(data), entries[i].Parts()) && commits)
    {
      if !persistent {
        return true;
      }
      WriteSucceeds(data, entries[i].Parts(), values[i]);
      var written := WriteThrough(data, entries[i].Parts(), values[i]);
      if written.TypeError? {
        return false;
      }
      data := written.value;
      if !commits {
        return false;
      }
      db := Some(data);
      return true;
    }

    /** `AppConfig.__setattr__` with a plain value; an unknown name raises and changes nothing. */
    method SetAttr(name: string, v: Json, commits: bool) returns (ok: bool)
      requires Valid()
      modifies this`data, this`db, this`values
      ensures Valid()
      ensures Now() ==
                if name in names then Apply(Settings(), old(Now()), Assign(names[name], v, commits)) else old(Now())
      ensures ok <==> name in names && (!persistent || (Fits(old(data), entries[names[name]].Parts()) && commits))
    {
      if name !in names {
        return false;
      }
      values := values[names[name] := v];
      ok := Save(names[name], commits);
    }

    /** `save_config`, the import: the tree is replaced first, then every entry adopts its value. */
    method SaveConfig(config: Json, commits: bool) returns (ok: bool)
      requires Valid()
      modifies this`data, this`db, this`values
      ensures Valid()
      ensures Now() == Apply(Settings(), old(Now()), Import(config, commits))
      ensures ok == (commits && Updated(Settings(), config, old(values), |entries|).1)
    {
      if !commits {
        return false;
      }
      db, data := Some(config), config;
      for i := 0 to |entries|
        invariant |values| == |entries| && db == Some(config) && data == config
        invariant Updated(Settings(), config, old(values), i) == (values, true)
      {
        if persistent {
          var found := GetConfigValue(data, entries[i].path);
          if found.TypeError? {
            UpdateStops(Settings(), config, old(values), i + 1, |entries|);
            return false;
          }
          if found.value != Null {
            values := values[i := found.value];
          }
        }
      }
      return true;
    }
  }

  /** Entries after the one that raised keep their values. */
  lemma {:induction false} UpdateStops(c: Setup, data: Json, values: seq<Json>, i: nat, n: nat)
    requires i <= n <= |values| == |c.entries| && !Updated(c, data, values, i).1
    ensures Updated(c, data, values, n) == Updated(c, data, values, i)
    decreases n - i
  {
    if i < n {
      UpdateStops(c, data, values, i, n - 1);
    }
  }
}
