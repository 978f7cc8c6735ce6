/** Model lines and their version history (api/selfai_ui/models/model_versions.py, lines 184-430).
    Tables are maps from ids to rows, a commit is one atomic step and may fail, and a uuid is an id
    never issued before. */
module Versions {

  import opened Wrappers

  type LineId = nat
  type VersionId = nat

  datatype Version = Version(line: LineId, sequence: nat, kind: string, commit: string,
                             parent: Option<VersionId>, base: Option<VersionId>)

  /** One entry of the audit trail kept in the line's `meta["version_moves"]`. */
  datatype Move = Move(to: VersionId, from: Option<VersionId>)

  datatype Line = Line(current: Option<VersionId>, moves: seq<Move>)

  datatype Form = Form(kind: string, commit: string, parent: Option<VersionId>, base: Option<VersionId>)

  datatype Db = Db(lines: map<LineId, Line>, versions: map<VersionId, Version>)

  // ---------------------------------------------------------------------------------------------
  // The table operations
  // ---------------------------------------------------------------------------------------------

  function OnLine(db: Db, l: LineId): set<VersionId> {
    set v | v in db.versions && db.versions[v].line == l
  }

  /** `validate_append`: false is any of its exceptions. */
  predicate ValidAppend(db: Db, l: LineId, kind: string, parent: Option<VersionId>, base: Option<VersionId>) {
    && l in db.lines
    && (kind == "base" || kind == "adapter")
    && (if parent.Some? then parent.value in db.versions && db.versions[parent.value].line == l
        else OnLine(db, l) == {})
    && (base.Some? ==>
          base.value in db.versions && db.versions[base.value].line == l && db.versions[base.value].kind == "base")
  }

  ghost function MaxOf(s: set<nat>): (m: nat)
    requires s != {}
    ensures m in s && forall x | x in s :: x <= m
  {
    var x :| x in s;
    if s == {x} then x
    else
      assert s == {x} + (s - {x});
      var m := MaxOf(s - {x}); if x > m then x else m
  }

  ghost function Sequences(db: Db, l: LineId): set<nat> {
    set v | v in OnLine(db, l) :: db.versions[v].sequence
  }

  /** One more than the highest sequence number on the line. */
  ghost function NextSequence(db: Db, l: LineId): nat {
    if Sequences(db, l) == {} then 1 else MaxOf(Sequences(db, l)) + 1
  }

  ghost function InsertVersion(db: Db, l: LineId, id: VersionId, form: Form, commits: bool): Db {
    if ValidAppend(db, l, form.kind, form.parent, form.base) && form.commit != "" && form.parent != Some(id) && commits
    then
      var row := Version(l, NextSequence(db, l), form.kind, form.commit, form.parent, form.base);
      db.(versions := db.versions[id := row])
    else db
  }

  /** A form's metadata may already carry moves; they are stored as they are. */
  function InsertLine(db: Db, l: LineId, priorMoves: seq<Move>, commits: bool): Db {
    if commits then db.(lines := db.lines[l := Line(None, priorMoves)]) else db
  }

  predicate CanMove(db: Db, l: LineId, v: VersionId) {
    v in db.versions && db.versions[v].line == l && l in db.lines
  }

  function SetCurrent(db: Db, l: LineId, v: VersionId, commits: bool): Db {
    if CanMove(db, l, v) && commits
    then db.(lines := db.lines[l := Line(Some(v), db.lines[l].moves + [Move(v, db.lines[l].current)])])
    else db
  }

  function DeleteLine(db: Db, l: LineId, commits: bool): Db {
    if OnLine(db, l) == {} && commits then db.(lines := db.lines - {l}) else db
  }

  function DeleteVersions(db: Db, l: LineId, commits: bool): Db {
    if commits then db.(versions := db.versions - OnLine(db, l)) else db
  }

  class ModelTables {
    var lines: map<LineId, Line>
    var versions: map<VersionId, Version>

    function View(): Db
      reads this
    {
      Db(lines, versions)
    }

    constructor ()
      ensures View() == Db(map[], map[])
    {
      lines, versions := map[], map[];
    }

    method InsertNewLine(l: LineId, priorMoves: seq<Move>, commits: bool) returns (ok: bool)
      requires l !in lines
      modifies this
      ensures ok == commits && View() == InsertLine(old(View()), l, priorMoves, commits)
    {
      if commits {
        lines := lines[l := Line(None, priorMoves)];
      }
      return commits;
    }

    /** The highest sequence number of the given rows. */
    method MaxSequence(rows: set<VersionId>) returns (m: nat)
      requires rows != {} && rows <= versions.Keys
      ensures exists v :: v in rows && versions[v].sequence == m
      ensures forall v | v in rows :: versions[v].sequence <= m
    {
      var todo := rows;
      m := 0;
      while todo != {}
        invariant todo <= rows && (todo == rows ==> m == 0)
        invariant todo != rows ==> exists v :: v in rows && versions[v].sequence == m
        invariant forall v | v in rows - todo :: versions[v].sequence <= m
        decreases |todo|
      {
        var v :| v in todo;
        if versions[v].sequence > m || todo == rows {
          m := versions[v].sequence;
        }
        todo := todo - {v};
      }
    }

    /** `insert_new_version`; the result is false when it raises. */
    method InsertNewVersion(l: LineId, id: VersionId, form: Form, commits: bool) returns (ok: bool)
      requires id !in versions
      modifies this
      ensures View() == InsertVersion(old(View()), l, id, form, commits)
      ensures ok <==> ValidAppend(old(View()), l, form.kind, form.parent, form.base) && form.commit != ""
                      && form.parent != Some(id) && commits
    {
      if !ValidAppend(View(), l, form.kind, form.parent, form.base) || form.commit == "" || form.parent == Some(id) {
        return false;
      }
      var existing := OnLine(View(), l);
      var sequence := 1;
      if existing != {} {
        var m := MaxSequence(existing);
        assert m in Sequences(View(), l);
        sequence := m + 1;
      }
      if !commits {
        return false;
      }
      versions := versions[id := Version(l, sequence, form.kind, form.commit, form.parent, form.base)];
      return true;
    }

    method SetCurrentVersion(l: LineId, v: VersionId, commits: bool) returns (ok: bool)
      modifies this
      ensures ok <==> CanMove(old(View()), l, v) && commits
      ensures View() == SetCurrent(old(View()), l, v, commits)
    {
      if v !in versions || versions[v].line != l || l !in lines || !commits {
        return false;
      }
      var history := lines[l].moves + [Move(v, lines[l].current)];
      lines := lines[l := Line(Some(v), history)];
      return true;
    }

    method DeleteLineById(l: LineId, commits: bool) returns (ok: bool)
      modifies this
      ensures ok <==> OnLine(old(View()), l) == {} && commits
      ensures View() == DeleteLine(old(View()), l, commits)
    {
      if OnLine(View(), l) != {} || !commits {
        return false;
      }
      lines := lines - {l};
      return true;
    }

    method DeleteVersionsByLine(l: LineId, commits: bool) returns (ok: bool)
      modifies this
      ensures ok == commits && View() == DeleteVersions(old(View()), l, commits)
    {
      if commits {
        versions := versions - OnLine(View(), l);
      }
      return commits;
    }
  }

  // ---------------------------------------------------------------------------------------------
  // A walkable history
  // ---------------------------------------------------------------------------------------------

  predicate HasNumber(db: Db, l: LineId, k: nat) {
    exists v | v in db.versions :: db.versions[v].line == l && db.versions[v].sequence == k
  }

  /** The numbers on a line are exactly 1..n, each used once. */
  predicate Numbered(db: Db, l: LineId) {
    var n := |OnLine(db, l)|;
    && (forall v | v in db.versions && db.versions[v].line == l :: 1 <= db.versions[v].sequence <= n)
    && (forall k | 1 <= k <= n :: HasNumber(db, l, k))
    && (forall a, b | a in db.versions && b in db.versions && a != b
                      && db.versions[a].line == db.versions[b].line == l ::
          db.versions[a].sequence != db.versions[b].sequence)
  }

  /** A row's links: number one has no parent, any other has an earlier one on its line; a named base
      is a base on its line; the line exists. */
  predicate Linked(db: Db, v: VersionId)
    requires v in db.versions
  {
    var row := db.versions[v];
    && row.line in db.lines
    && (row.kind == "base" || row.kind == "adapter")
    && (row.sequence == 1 <==> row.parent == None)
    && (row.parent.Some? ==>
          && row.parent.value in db.versions
          && db.versions[row.parent.value].line == row.line
          && db.versions[row.parent.value].sequence < row.sequence)
    && (row.base.Some? ==>
          && row.base.value in db.versions
          && db.versions[row.base.value].line == row.line
          && db.versions[row.base.value].kind == "base")
  }

  ghost predicate Walkable(db: Db) {
    && (forall l :: Numbered(db, l))
    && (forall v | v in db.versions :: Linked(db, v))
  }

  lemma NextIsCount(db: Db, l: LineId)
    requires Numbered(db, l)
    ensures NextSequence(db, l) == |OnLine(db, l)| + 1
  {
    var rows := OnLine(db, l);
    if rows == {} {
      assert Sequences(db, l) == {};
    } else {
      assert HasNumber(db, l, |rows|);
      var v :| v in db.versions && db.versions[v].line == l && db.versions[v].sequence == |rows|;
      assert v in rows && |rows| in Sequences(db, l);
    }
  }

  /** A line whose rows did not change keeps its numbers. */
  lemma SameRows(db: Db, after: Db, l: LineId)
    requires Numbered(db, l)
    requires forall v :: (v in after.versions && after.versions[v].line == l) <==>
               (v in db.versions && db.versions[v].line == l)
    requires forall v | v in db.versions && db.versions[v].line == l :: after.versions[v] == db.versions[v]
    ensures Numbered(after, l)
  {
    assert OnLine(after, l) == OnLine(db, l);
    forall k | 1 <= k <= |OnLine(after, l)| ensures HasNumber(after, l, k) {
      assert HasNumber(db, l, k);
      var v :| v in db.versions && db.versions[v].line == l && db.versions[v].sequence == k;
      assert after.versions[v].sequence == k;
    }
  }

  /** MAIN RESULT on appends. Writing a row into a walkable history keeps it walkable if and only if
      the row passes `validate_append` and carries the number after the line's last one, at the time
      of the write. */
  lemma WriteKeepsWalkable(db: Db, id: VersionId, row: Version)
    requires Walkable(db) && id !in db.versions && row.parent != Some(id) && row.base != Some(id)
    ensures Walkable(db.(versions := db.versions[id := row]))
       <==> ValidAppend(db, row.line, row.kind, row.parent, row.base) && row.sequence == |OnLine(db, row.line)| + 1
  {
    var after := db.(versions := db.versions[id := row]);
    if ValidAppend(db, row.line, row.kind, row.parent, row.base) && row.sequence == |OnLine(db, row.line)| + 1 {
      forall l ensures Numbered(after, l) {
        assert Numbered(db, l);
        if l == row.line {
          WriteNumbers(db, after, id, row);
        } else {
          SameRows(db, after, l);
        }
      }
      WriteLinks(db, id, row);
    }
    if Walkable(after) {
      WrittenIsValid(db, after, id, row);
    }
  }

  lemma WriteNumbers(db: Db, after: Db, id: VersionId, row: Version)
    requires Numbered(db, row.line) && id !in db.versions && row.sequence == |OnLine(db, row.line)| + 1
    requires after == db.(versions := db.versions[id := row])
    ensures Numbered(after, row.line)
  {
    var l, n := row.line, |OnLine(db, row.line)|;
    assert OnLine(after, l) == OnLine(db, l) + {id};
    assert |OnLine(after, l)| == n + 1;
    forall k | 1 <= k <= n + 1 ensures HasNumber(after, l, k) {
      WrittenHasNumber(db, after, id, row, k);
    }
    forall v | v in after.versions && after.versions[v].line == l
      ensures 1 <= after.versions[v].sequence <= n + 1 && (v != id ==> after.versions[v].sequence <= n)
    {
      assert v != id ==> after.versions[v] == db.versions[v];
    }
  }

  lemma WrittenHasNumber(db: Db, after: Db, id: VersionId, row: Version, k: nat)
    requires id !in db.versions && after == db.(versions := db.versions[id := row])
    ensures HasNumber(db, row.line, k) || row.sequence == k ==> HasNumber(after, row.line, k)
  {
    if row.sequence == k {
      assert after.versions[id] == row;
    } else if HasNumber(db, row.line, k) {
      var v :| v in db.versions && db.versions[v].line == row.line && db.versions[v].sequence == k;
      assert after.versions[v] == db.versions[v];
    }
  }

  lemma WriteLinks(db: Db, id: VersionId, row: Version)
    requires Walkable(db) && id !in db.versions
    requires ValidAppend(db, row.line, row.kind, row.parent, row.base) && row.sequence == |OnLine(db, row.line)| + 1
    ensures var after := db.(versions := db.versions[id := row]);
            forall v | v in after.versions :: Linked(after, v)
  {
    var after := db.(versions := db.versions[id := row]);
    assert Numbered(db, row.line);
    forall v | v in after.versions ensures Linked(after, v) {
      if v != id {
        assert Linked(db, v);
      } else if row.parent.Some? {
        assert row.parent.value in OnLine(db, row.line);
        assert db.versions[row.parent.value].sequence <= |OnLine(db, row.line)|;
      }
    }
  }

  lemma NumberIsForced(db: Db, after: Db, id: VersionId, row: Version)
    requires id !in db.versions && after == db.(versions := db.versions[id := row])
    requires Numbered(db, row.line) && Numbered(after, row.line)
    ensures row.sequence == |OnLine(db, row.line)| + 1
  {
    var l := row.line;
    assert OnLine(after, l) == OnLine(db, l) + {id};
    forall v | v in db.versions && db.versions[v].line == l ensures db.versions[v].sequence != row.sequence {
      assert after.versions[v] == db.versions[v] && after.versions[id] == row;
    }
    assert !HasNumber(db, l, row.sequence);
    assert after.versions[id] == row;
  }

  lemma WrittenIsValid(db: Db, after: Db, id: VersionId, row: Version)
    requires Walkable(db) && id !in db.versions && row.parent != Some(id) && row.base != Some(id)
    requires after == db.(versions := db.versions[id := row]) && Walkable(after)
    ensures ValidAppend(db, row.line, row.kind, row.parent, row.base) && row.sequence == |OnLine(db, row.line)| + 1
  {
    assert Numbered(db, row.line) && Numbered(after, row.line);
    NumberIsForced(db, after, id, row);
    assert Linked(after, id);
  }

  /** The requirement on the number is what two unsynchronised appends break: both read the table
      before either writes, and both get number one. */
  lemma RacingAppendsCollide()
    ensures var db := Db(map[0 := Line(None, [])], map[]);
            var form := Form("base", "c", None, None);
            var row := Version(0, NextSequence(db, 0), form.kind, form.commit, form.parent, form.base);
            var first := db.(versions := db.versions[1 := row]);
            && ValidAppend(db, 0, form.kind, form.parent, form.base)
            && Walkable(db) && Walkable(first)
            && !Walkable(first.(versions := first.versions[2 := row]))
  {
    var db := Db(map[0 := Line(None, [])], map[]);
    forall l ensures Numbered(db, l) {
      assert OnLine(db, l) == {};
    }
    NextIsCount(db, 0);
    var row := Version(0, 1, "base", "c", None, None);
    WriteKeepsWalkable(db, 1, row);
    var first := db.(versions := db.versions[1 := row]);
    assert OnLine(first, 0) == {1};
    WriteKeepsWalkable(first, 2, row);
  }

  lemma DeletingVersionsKeepsWalkable(db: Db, l: LineId)
    requires Walkable(db)
    ensures Walkable(DeleteVersions(db, l, true))
  {
    var after := DeleteVersions(db, l, true);
    forall k ensures Numbered(after, k) {
      assert Numbered(db, k);
      if k == l {
        assert OnLine(after, k) == {};
      } else {
        SameRows(db, after, k);
      }
    }
    forall v | v in after.versions ensures Linked(after, v) {
      assert Linked(db, v);
    }
  }

  lemma LineChangesKeepWalkable(db: Db, after: Db)
    requires Walkable(db) && after.versions == db.versions
    requires forall v | v in db.versions :: db.versions[v].line in after.lines
    ensures Walkable(after)
  {
    forall l ensures Numbered(after, l) {
      assert Numbered(db, l);
      SameRows(db, after, l);
    }
    forall v | v in after.versions ensures Linked(after, v) {
      assert Linked(db, v);
    }
  }

  /** The parents of a version, from itself on. */
  ghost function Ancestry(db: Db, v: VersionId): (path: seq<VersionId>)
    requires Walkable(db) && v in db.versions
    ensures path != []
    decreases db.versions[v].sequence
  {
    assert Linked(db, v);
    if db.versions[v].parent.None? then [v] else [v] + Ancestry(db, db.versions[v].parent.value)
  }

  /** Each version's parent follows it, and the last one is the line's number one. */
  predicate WalksToRoot(db: Db, path: seq<VersionId>, l: LineId) {
    && path != []
    && (forall i | 0 <= i < |path| :: path[i] in db.versions && db.versions[path[i]].line == l)
    && (forall i | 0 <= i < |path| - 1 :: db.versions[path[i]].parent == Some(path[i + 1]))
    && db.versions[path[|path| - 1]].sequence == 1
  }

  lemma WalkFrom(db: Db, v: VersionId, rest: seq<VersionId>, l: LineId)
    requires v in db.versions && db.versions[v].line == l
    requires WalksToRoot(db, rest, l) && db.versions[v].parent == Some(rest[0])
    ensures WalksToRoot(db, [v] + rest, l)
  {
    var path := [v] + rest;
    forall i | 0 <= i < |path| - 1 ensures db.versions[path[i]].parent == Some(path[i + 1]) {
      if i > 0 {
        assert path[i] == rest[i - 1] && path[i + 1] == rest[i];
      }
    }
  }

  /** Walking parents always ends at the root, within as many steps as the version's number. */
  lemma {:induction false} WalkEndsAtRoot(db: Db, v: VersionId)
    requires Walkable(db) && v in db.versions
    ensures WalksToRoot(db, Ancestry(db, v), db.versions[v].line)
    ensures Ancestry(db, v)[0] == v && |Ancestry(db, v)| <= db.versions[v].sequence
    decreases db.versions[v].sequence
  {
    assert Linked(db, v) && Numbered(db, db.versions[v].line);
    if db.versions[v].parent.Some? {
      var parent := db.versions[v].parent.value;
      WalkEndsAtRoot(db, parent);
      WalkFrom(db, v, Ancestry(db, parent), db.versions[v].line);
    }
  }

  /** All versions of a line descend from the same root. */
  lemma OneRoot(db: Db, a: VersionId, b: VersionId)
    requires Walkable(db) && a in db.versions && b in db.versions && db.versions[a].line == db.versions[b].line
    ensures var p, q := Ancestry(db, a), Ancestry(db, b); p[|p| - 1] == q[|q| - 1]
  {
    WalkEndsAtRoot(db, a);
    WalkEndsAtRoot(db, b);
    assert Numbered(db, db.versions[a].line);
  }

  // ---------------------------------------------------------------------------------------------
  // The pointer and its audit trail
  // ---------------------------------------------------------------------------------------------

  /** Where move `i` should start: where the one before it ended, or from nothing. */
  function Start(moves: seq<Move>, i: nat): Option<VersionId>
    requires i < |moves|
  {
    if i == 0 then None else Some(moves[i - 1].to)
  }

  predicate Unbroken(moves: seq<Move>) {
    forall i | 0 <= i < |moves| :: moves[i].from == Start(moves, i)
  }

  /** The pointer after replaying the moves. */
  function Replay(moves: seq<Move>): Option<VersionId> {
    if moves == [] then None else Some(moves[|moves| - 1].to)
  }

  datatype Event =
    | InsertLineEvent(line: LineId, priorMoves: seq<Move>, commits: bool)
    | InsertVersionEvent(line: LineId, id: VersionId, form: Form, commits: bool)
    | MoveEvent(line: LineId, version: VersionId, commits: bool)
    | DeleteLineEvent(line: LineId, commits: bool)
    | DeleteVersionsEvent(line: LineId, commits: bool)

  /** The tables, the ids issued so far, how many moves each line came with, and the lines whose
      versions were deleted since their pointer last moved. */
  datatype World = World(db: Db, issuedLines: set<LineId>, issued: set<VersionId>,
                         prior: map<LineId, nat>, purged: set<LineId>)

  predicate Enabled(w: World, e: Event) {
    match e
    case InsertLineEvent(l, _, _) => l !in w.issuedLines
    case InsertVersionEvent(_, id, _, _) => id !in w.issued
    case _ => true
  }

  ghost function Apply(w: World, e: Event): World {
    match e
    case InsertLineEvent(l, moves, commits) =>
      w.(db := InsertLine(w.db, l, moves, commits), issuedLines := w.issuedLines + {l},
         prior := w.prior[l := |moves|], purged := w.purged - {l})
    case InsertVersionEvent(l, id, form, commits) =>
      w.(db := InsertVersion(w.db, l, id, form, commits), issued := w.issued + {id})
    case MoveEvent(l, v, commits) =>
      w.(db := SetCurrent(w.db, l, v, commits),
         purged := if CanMove(w.db, l, v) && commits then w.purged - {l} else w.purged)
    case DeleteLineEvent(l, commits) => w.(db := DeleteLine(w.db, l, commits))
    case DeleteVersionsEvent(l, commits) =>
      w.(db := DeleteVersions(w.db, l, commits), purged := if commits then w.purged + {l} else w.purged)
  }

  ghost function Initial(): World {
    World(Db(map[], map[]), {}, {}, map[], {})
  }

  ghost predicate IsRun(worlds: seq<World>, events: seq<Event>) {
    && |worlds| == |events| + 1
    && worlds[0] == Initial()
    && forall i | 0 <= i < |events| :: Enabled(worlds[i], events[i]) && worlds[i + 1] == Apply(worlds[i], events[i])
  }

  ghost predicate Issued(w: World) {
    && w.db.versions.Keys <= w.issued
    && w.db.lines.Keys <= w.issuedLines
    && (forall l | l in w.db.lines && w.db.lines[l].current.Some? :: w.db.lines[l].current.value in w.issued)
  }

  /** The trail of a line, without the moves it came with, is unbroken and replays to the pointer. */
  ghost predicate Trailed(w: World) {
    forall l | l in w.db.lines ::
      && l in w.prior && w.prior[l] <= |w.db.lines[l].moves|
      && Unbroken(w.db.lines[l].moves[w.prior[l]..])
      && Replay(w.db.lines[l].moves[w.prior[l]..]) == w.db.lines[l].current
  }

  predicate Points(db: Db, l: LineId)
    requires l in db.lines
  {
    db.lines[l].current.Some? ==>
      db.lines[l].current.value in db.versions && db.versions[db.lines[l].current.value].line == l
  }

  /** A pointer that is set names a version of its line exactly when the line was not purged since. */
  ghost predicate Pointed(w: World) {
    forall l | l in w.db.lines && w.db.lines[l].current.Some? :: Points(w.db, l) <==> l !in w.purged
  }

  ghost predicate Safe(w: World) {
    Walkable(w.db) && Issued(w) && Trailed(w) && Pointed(w)
  }

  lemma WalkableKept(w: World, e: Event)
    requires Walkable(w.db) && Issued(w) && Enabled(w, e)
    ensures Walkable(Apply(w, e).db)
  {
    var db, after := w.db, Apply(w, e).db;
    match e
    case InsertVersionEvent(l, id, form, commits) =>
      if after != db {
        assert Numbered(db, l);
        NextIsCount(db, l);
        WriteKeepsWalkable(db, id, after.versions[id]);
      }
    case DeleteVersionsEvent(l, commits) =>
      if commits {
        DeletingVersionsKeepsWalkable(db, l);
      }
    case _ =>
      forall v | v in db.versions ensures db.versions[v].line in after.lines {
        assert Linked(db, v) && v in OnLine(db, db.versions[v].line);
      }
      LineChangesKeepWalkable(db, after);
  }

  lemma MovedTrail(moves: seq<Move>, k: nat, v: VersionId)
    requires k <= |moves| && Unbroken(moves[k..])
    ensures var more := moves + [Move(v, Replay(moves[k..]))];
            Unbroken(more[k..]) && Replay(more[k..]) == Some(v)
  {
    var more := moves + [Move(v, Replay(moves[k..]))];
    var own := moves[k..];
    var next := own + [Move(v, Replay(own))];
    assert more[k..] == next;
    forall i | 0 <= i < |next| ensures next[i].from == Start(next, i) {
      if i < |own| {
        assert own[i].from == Start(own, i);
      }
    }
  }

  lemma TrailedKept(w: World, e: Event)
    requires Trailed(w) && Issued(w) && Enabled(w, e)
    ensures Trailed(Apply(w, e)) && Issued(Apply(w, e))
  {
    if e.MoveEvent? && CanMove(w.db, e.line, e.version) {
      MovedTrail(w.db.lines[e.line].moves, w.prior[e.line], e.version);
    }
  }

  lemma PointedKept(w: World, e: Event)
    requires Pointed(w) && Issued(w) && Enabled(w, e)
    ensures Pointed(Apply(w, e))
  {
    var v := Apply(w, e);
    forall l | l in v.db.lines && v.db.lines[l].current.Some? ensures Points(v.db, l) <==> l !in v.purged {
      if l in w.db.lines && w.db.lines[l].current.Some? {
        assert Points(w.db, l) <==> l !in w.purged;
      }
    }
  }

  lemma {:induction false} RunIsSafe(worlds: seq<World>, events: seq<Event>, i: nat)
    requires IsRun(worlds, events) && i <= |events|
    ensures Safe(worlds[i])
  {
    if i == 0 {
      forall l ensures Numbered(worlds[0].db, l) {
        assert OnLine(worlds[0].db, l) == {};
      }
    } else {
      RunIsSafe(worlds, events, i - 1);
      WalkableKept(worlds[i - 1], events[i - 1]);
      TrailedKept(worlds[i - 1], events[i - 1]);
      PointedKept(worlds[i - 1], events[i - 1]);
    }
  }

  /** MAIN RESULT. After any sequence of operations, failed ones included, every line's versions are
      numbered 1..n, each version's parent is an earlier one on its line and only number one has
      none, named bases are bases on the line, and no version outlives its line; each line's own moves
      form an unbroken chain that replays to its pointer; and a set pointer names a version of its
      line exactly when the line's versions were not deleted since the pointer last moved. */
  lemma HistoryOfEveryRun(worlds: seq<World>, events: seq<Event>, i: nat, l: LineId)
    requires IsRun(worlds, events) && i <= |events|
    ensures var w := worlds[i];
            && Walkable(w.db)
            && (l in w.db.lines ==>
                  && l in w.prior && w.prior[l] <= |w.db.lines[l].moves|
                  && Unbroken(w.db.lines[l].moves[w.prior[l]..])
                  && Replay(w.db.lines[l].moves[w.prior[l]..]) == w.db.lines[l].current
                  && (w.db.lines[l].current.Some? ==> (Points(w.db, l) <==> l !in w.purged)))
  {
    RunIsSafe(worlds, events, i);
  }

  lemma {:induction false} PurgedMeansDeleted(worlds: seq<World>, events: seq<Event>, i: nat, l: LineId)
    requires IsRun(worlds, events) && i <= |events|
    requires forall j | 0 <= j < i :: events[j] != DeleteVersionsEvent(l, true)
    ensures l !in worlds[i].purged
  {
    if i > 0 {
      PurgedMeansDeleted(worlds, events, i - 1, l);
    }
  }

  /** Until a line's versions are bulk-deleted, its pointer is null or names one of them. */
  lemma PointerUntilPurge(worlds: seq<World>, events: seq<Event>, i: nat, l: LineId)
    requires IsRun(worlds, events) && i <= |events| && l in worlds[i].db.lines
    requires forall j | 0 <= j < i :: events[j] != DeleteVersionsEvent(l, true)
    ensures Points(worlds[i].db, l)
  {
    RunIsSafe(worlds, events, i);
    PurgedMeansDeleted(worlds, events, i, l);
  }

  // ---------------------------------------------------------------------------------------------
  // What each operation does
  // ---------------------------------------------------------------------------------------------

  /** A committed move to a version of the line moves the pointer and appends exactly that move to the
      trail; everything else stays. Any other move changes nothing. */
  lemma MoveMoves(db: Db, l: LineId, v: VersionId, commits: bool)
    ensures var after := SetCurrent(db, l, v, commits);
            if l in db.lines && v in db.versions && db.versions[v].line == l && commits
            then
              && l in after.lines && after.lines[l].current == Some(v)
              && after.lines[l].moves == db.lines[l].moves + [Move(v, db.lines[l].current)]
              && after.lines - {l} == db.lines - {l} && after.versions == db.versions
            else after == db
  {
  }

  /** An accepted append stores the form as it is, under the next number of its line, and no other row
      changes. */
  lemma AppendAppends(db: Db, l: LineId, id: VersionId, form: Form)
    requires Walkable(db) && id !in db.versions && form.commit != "" && form.parent != Some(id)
    requires ValidAppend(db, l, form.kind, form.parent, form.base)
    ensures var after := InsertVersion(db, l, id, form, true);
            && id in after.versions && after.versions - {id} == db.versions && after.lines == db.lines
            && var row := after.versions[id];
               && row.line == l && row.sequence == |OnLine(db, l)| + 1
               && row.kind == form.kind && row.commit == form.commit
               && row.parent == form.parent && row.base == form.base
  {
    assert Numbered(db, l);
    NextIsCount(db, l);
  }

  /** What validation accepts: a known line and kind; a parent on the line, or none on an empty line; and
      a named base that is a version of kind "base" on the line. */
  lemma AppendRules(db: Db, l: LineId, kind: string, parent: Option<VersionId>, base: Option<VersionId>)
    ensures ValidAppend(db, l, kind, parent, base) <==>
              && l in db.lines && (kind == "base" || kind == "adapter")
              && (parent.Some? ==> parent.value in db.versions && db.versions[parent.value].line == l)
              && (parent.None? ==> forall v | v in db.versions :: db.versions[v].line != l)
              && (base.Some? ==> base.value in db.versions && db.versions[base.value].line == l)
              && (base.Some? ==> db.versions[base.value].kind == "base")
  {
    if exists v :: v in db.versions && db.versions[v].line == l {
      var v :| v in db.versions && db.versions[v].line == l;
      assert v in OnLine(db, l);
    }
  }

  /** Deleting a line takes only a line without versions, and only that line; deleting its versions
      takes exactly those. */
  lemma DeletesDelete(db: Db, l: LineId, commits: bool)
    ensures var after := DeleteLine(db, l, commits);
            && after.versions == db.versions
            && (if commits && (forall v | v in db.versions :: db.versions[v].line != l)
                then after.lines == db.lines - {l} else after.lines == db.lines)
    ensures var after := DeleteVersions(db, l, commits);
            && after.lines == db.lines
            && (forall v :: v in after.versions <==> v in db.versions && (commits ==> db.versions[v].line != l))
            && (forall v | v in after.versions :: after.versions[v] == db.versions[v])
    ensures forall moves :: InsertLine(db, l, moves, true) == Db(db.lines[l := Line(None, moves)], db.versions)
    ensures forall moves :: InsertLine(db, l, moves, false) == db
  {
    if !(forall v | v in db.versions :: db.versions[v].line != l) {
      var v :| v in db.versions && db.versions[v].line == l;
      assert v in OnLine(db, l);
    }
  }

  /** The moves that succeeded on a line during the first `i` events, with where each came from. */
  ghost function MovesMade(worlds: seq<World>, events: seq<Event>, i: nat, l: LineId): seq<Move>
    requires i <= |events| < |worlds|
  {
    if i == 0 then []
    else
      var made, e, db := MovesMade(worlds, events, i - 1, l), events[i - 1], worlds[i - 1].db;
      if && e.MoveEvent? && e.line == l && e.commits
         && l in db.lines && e.version in db.versions && db.versions[e.version].line == l
      then made + [Move(e.version, Replay(made))]
      else made
  }

  lemma {:induction false} NoMovesBefore(worlds: seq<World>, events: seq<Event>, i: nat, l: LineId)
    requires IsRun(worlds, events) && i <= |events| && l !in worlds[i].issuedLines
    ensures MovesMade(worlds, events, i, l) == []
  {
    RunIsSafe(worlds, events, i);
    if i > 0 {
      NoMovesBefore(worlds, events, i - 1, l);
      RunIsSafe(worlds, events, i - 1);
    }
  }

  /** MAIN RESULT. The moves a line has recorded, after those it came with, are exactly the moves that
      succeeded on it, in order, each from where the one before it led; and its pointer is the target of
      the last of them, or null when there was none. */
  lemma {:induction false} PointerFollowsMoves(worlds: seq<World>, events: seq<Event>, i: nat, l: LineId)
    requires IsRun(worlds, events) && i <= |events| && l in worlds[i].db.lines
    ensures var w, made := worlds[i], MovesMade(worlds, events, i, l);
            && l in w.prior && w.prior[l] <= |w.db.lines[l].moves|
            && w.db.lines[l].moves[w.prior[l]..] == made
            && w.db.lines[l].current == Replay(made)
  {
    RunIsSafe(worlds, events, i);
    if i > 0 {
      var w, e := worlds[i - 1], events[i - 1];
      RunIsSafe(worlds, events, i - 1);
      if l in w.db.lines {
        PointerFollowsMoves(worlds, events, i - 1, l);
        MoveRecorded(w, e, l, MovesMade(worlds, events, i - 1, l));
      } else {
        NoMovesBefore(worlds, events, i - 1, l);
      }
    }
  }

  lemma MoveRecorded(w: World, e: Event, l: LineId, made: seq<Move>)
    requires Issued(w) && Enabled(w, e) && l in w.db.lines && l in Apply(w, e).db.lines
    requires l in w.prior && w.prior[l] <= |w.db.lines[l].moves| && w.db.lines[l].moves[w.prior[l]..] == made
    requires w.db.lines[l].current == Replay(made)
    ensures var v := Apply(w, e);
            && v.prior[l] == w.prior[l] && w.prior[l] <= |v.db.lines[l].moves|
            && v.db.lines[l].moves[w.prior[l]..] ==
               if && e.MoveEvent? && e.line == l && e.commits
                  && e.version in w.db.versions && w.db.versions[e.version].line == l
               then made + [Move(e.version, Replay(made))] else made
  {
  }

  /** Event `j` appends version `v` with this form to line `l`. */
  ghost predicate AppendsAt(worlds: seq<World>, events: seq<Event>, j: nat, l: LineId, v: VersionId, form: Form) {
    && j < |events| < |worlds| && events[j] == InsertVersionEvent(l, v, form, true)
    && ValidAppend(worlds[j].db, l, form.kind, form.parent, form.base) && form.commit != "" && form.parent != Some(v)
  }

  ghost predicate Kept(events: seq<Event>, j: nat, i: nat, l: LineId) {
    forall k | j < k < i && k < |events| :: events[k] != DeleteVersionsEvent(l, true)
  }

  ghost predicate RowHolds(w: World, l: LineId, v: VersionId, form: Form) {
    && v in w.db.versions
    && var row := w.db.versions[v];
       && row.line == l && row.kind == form.kind && row.commit == form.commit
       && row.parent == form.parent && row.base == form.base
  }

  /** MAIN RESULT. A version appended at some step is there, as its form said, until its line's versions
      are bulk-deleted. */
  lemma {:induction false} AppendedStays(worlds: seq<World>, events: seq<Event>, j: nat, i: nat, l: LineId,
      v: VersionId, form: Form)
    requires IsRun(worlds, events) && j < i <= |events|
    requires AppendsAt(worlds, events, j, l, v, form) && Kept(events, j, i, l)
    ensures RowHolds(worlds[i], l, v, form)
    decreases i
  {
    if j < i - 1 {
      AppendedStays(worlds, events, j, i - 1, l, v, form);
      RunIsSafe(worlds, events, i - 1);
      RowStays(worlds[i - 1], events[i - 1], l, v, form);
    }
  }

  lemma RowStays(w: World, e: Event, l: LineId, v: VersionId, form: Form)
    requires Issued(w) && Enabled(w, e) && RowHolds(w, l, v, form) && e != DeleteVersionsEvent(l, true)
    ensures RowHolds(Apply(w, e), l, v, form)
  {
  }

  /** And every version there was so appended. */
  lemma {:induction false} RowWasAppended(worlds: seq<World>, events: seq<Event>, i: nat, v: VersionId)
    returns (j: nat, l: LineId, form: Form)
    requires IsRun(worlds, events) && i <= |events| && v in worlds[i].db.versions
    ensures j < i && AppendsAt(worlds, events, j, l, v, form) && Kept(events, j, i, l)
    ensures RowHolds(worlds[i], l, v, form)
  {
    if v in worlds[i - 1].db.versions {
      j, l, form := RowWasAppended(worlds, events, i - 1, v);
      RunIsSafe(worlds, events, i - 1);
      assert v in OnLine(worlds[i - 1].db, l);
      RowStays(worlds[i - 1], events[i - 1], l, v, form);
    } else {
      j, l, form := i - 1, events[i - 1].line, events[i - 1].form;
    }
  }
}
