/** Keyset pagination over the files of a knowledge base while its table changes
    (api/selfai_ui/models/knowledge.py, lines 287-319). File ids are strings; the query's `>` and
    `ORDER BY` are the same lexicographic order. */
module Knowledge {

  type Id = string

  // ---------------------------------------------------------------------------------------------
  // The order of ids
  // ---------------------------------------------------------------------------------------------

  predicate Less(a: Id, b: Id) {
    if b == "" then false
    else if a == "" then true
    else a[0] < b[0] || (a[0] == b[0] && Less(a[1..], b[1..]))
  }

  lemma {:induction false} LessTransitive(a: Id, b: Id, c: Id)
    requires Less(a, b) && Less(b, c)
    ensures Less(a, c)
  {
    if a != "" && a[0] == b[0] && b[0] == c[0] {
      LessTransitive(a[1..], b[1..], c[1..]);
    }
  }

  lemma {:induction false} LessIrreflexive(a: Id)
    ensures !Less(a, a)
  {
    if a != "" {
      LessIrreflexive(a[1..]);
    }
  }

  lemma {:induction false} LessTotal(a: Id, b: Id)
    ensures Less(a, b) || a == b || Less(b, a)
  {
    if a != "" && b != "" && a[0] == b[0] {
      LessTotal(a[1..], b[1..]);
      assert a == [a[0]] + a[1..] && b == [b[0]] + b[1..];
    }
  }

  predicate Sorted(s: seq<Id>) {
    forall i, j | 0 <= i < j < |s| :: Less(s[i], s[j])
  }

  // ---------------------------------------------------------------------------------------------
  // One query
  // ---------------------------------------------------------------------------------------------

  /** The rows behind `last`, in order, at most `limit` of them; a row is only left out when the page
      is full and the row is behind its end. */
  predicate IsPage(rows: seq<Id>, table: set<Id>, last: Id, limit: nat) {
    && Sorted(rows) && |rows| <= limit
    && (forall i | 0 <= i < |rows| :: rows[i] in table && Less(last, rows[i]))
    && (forall x | x in table && Less(last, x) && x !in rows ::
          |rows| == limit && (limit > 0 ==> Less(rows[limit - 1], x)))
  }

  method Smallest(s: set<Id>) returns (m: Id)
    requires s != {}
    ensures m in s && forall x | x in s && x != m :: Less(m, x)
  {
    m :| m in s;
    var todo := s - {m};
    while todo != {}
      invariant m in s && m !in todo && todo <= s
      invariant forall x | x in s - todo && x != m :: Less(m, x)
    {
      var y :| y in todo;
      LessTotal(m, y);
      if Less(y, m) {
        forall x | x in s - todo && x != m ensures Less(y, x) {
          LessTransitive(y, m, x);
        }
        m := y;
      }
      todo := todo - {y};
    }
  }

  /** The database query: `id > last ORDER BY id LIMIT limit`. */
  method Query(table: set<Id>, last: Id, limit: nat) returns (rows: seq<Id>)
    ensures IsPage(rows, table, last, limit)
  {
    rows := [];
    var todo := set x | x in table && Less(last, x);
    while |rows| < limit && todo != {}
      invariant |rows| <= limit && Sorted(rows)
      invariant forall i | 0 <= i < |rows| :: rows[i] in table && Less(last, rows[i])
      invariant forall x | x in todo :: x in table && Less(last, x)
      invariant forall x | x in table && Less(last, x) && x !in rows :: x in todo
      invariant forall i, x | 0 <= i < |rows| && x in todo :: Less(rows[i], x)
      decreases |todo|
    {
      var m := Smallest(todo);
      rows, todo := rows + [m], todo - {m};
    }
  }

  // ---------------------------------------------------------------------------------------------
  // The iterator
  // ---------------------------------------------------------------------------------------------

  /** `last_id` before query number `k`; no batch of a run is empty. */
  function LastId(batches: seq<seq<Id>>, k: nat): Id
    requires k <= |batches|
  {
    if k == 0 || batches[k - 1] == [] then "" else batches[k - 1][|batches[k - 1]| - 1]
  }

  /** Batch number `k` is the answer to query number `k`, made when the table was `tables[k]`. */
  predicate IsBatch(tables: seq<set<Id>>, batchSize: nat, batches: seq<seq<Id>>, k: nat) {
    k < |batches| <= |tables| && batches[k] != [] && IsPage(batches[k], tables[k], LastId(batches, k), batchSize)
  }

  /** The queries made so far. */
  predicate Iterating(tables: seq<set<Id>>, batchSize: nat, batches: seq<seq<Id>>) {
    |batches| <= |tables| && forall k | 0 <= k < |batches| :: IsBatch(tables, batchSize, batches, k)
  }

  /** Whether a batch fits depends on the batches up to it and on its table only. */
  lemma SameBatch(tables: seq<set<Id>>, tables': seq<set<Id>>, batchSize: nat, batches: seq<seq<Id>>,
      batches': seq<seq<Id>>, k: nat)
    requires k < |batches| <= |tables| && k < |batches'| <= |tables'|
    requires tables'[k] == tables[k] && batches'[..k + 1] == batches[..k + 1] && IsBatch(tables, batchSize, batches, k)
    ensures IsBatch(tables', batchSize, batches', k)
  {
    assert batches'[k] == batches'[..k + 1][k] && batches[k] == batches[..k + 1][k];
    if k > 0 {
      assert batches'[k - 1] == batches'[..k + 1][k - 1] && batches[k - 1] == batches[..k + 1][k - 1];
    }
    assert LastId(batches', k) == LastId(batches, k);
  }

  /** A run of the iterator; it has ended when a query came back empty. */
  predicate IsIteration(tables: seq<set<Id>>, batchSize: nat, batches: seq<seq<Id>>, ended: bool) {
    && Iterating(tables, batchSize, batches)
    && (ended ==> |batches| < |tables| && IsPage([], tables[|batches|], LastId(batches, |batches|), batchSize))
    && (!ended ==> |batches| == |tables|)
  }

  lemma OneMoreBatch(tables: seq<set<Id>>, batchSize: nat, batches: seq<seq<Id>>, batch: seq<Id>)
    requires Iterating(tables, batchSize, batches) && |batches| < |tables| && batch != []
    requires IsPage(batch, tables[|batches|], LastId(batches, |batches|), batchSize)
    ensures Iterating(tables, batchSize, batches + [batch])
  {
    var more := batches + [batch];
    forall k | 0 <= k < |more| ensures IsBatch(tables, batchSize, more, k) {
      if k < |batches| {
        assert IsBatch(tables, batchSize, batches, k);
        SameBatch(tables, tables, batchSize, batches, more, k);
      } else {
        assert LastId(more, k) == LastId(batches, k);
      }
    }
  }

  /** `iter_files_by_knowledge_id`, driven for as many queries as there are table states given. */
  method IterFiles(tables: seq<set<Id>>, batchSize: nat) returns (batches: seq<seq<Id>>, ended: bool)
    ensures IsIteration(tables, batchSize, batches, ended)
  {
    batches, ended := [], false;
    var last := "";
    while |batches| < |tables|
      invariant Iterating(tables, batchSize, batches)
      invariant last == LastId(batches, |batches|)
    {
      var batch := Query(tables[|batches|], last, batchSize);
      if batch == [] {
        ended := true;
        return;
      }
      OneMoreBatch(tables, batchSize, batches, batch);
      batches := batches + [batch];
      last := batch[|batch| - 1];
    }
  }

  function Yielded(batches: seq<seq<Id>>): seq<Id> {
    if batches == [] then [] else Yielded(batches[..|batches| - 1]) + batches[|batches| - 1]
  }

  lemma IterationPrefix(tables: seq<set<Id>>, batchSize: nat, batches: seq<seq<Id>>, ended: bool, k: nat)
    requires IsIteration(tables, batchSize, batches, ended) && k <= |batches|
    ensures IsIteration(tables[..k], batchSize, batches[..k], false)
    ensures LastId(batches[..k], k) == LastId(batches, k)
  {
    forall i | 0 <= i < k ensures IsBatch(tables[..k], batchSize, batches[..k], i) {
      assert IsBatch(tables, batchSize, batches, i);
      SameBatch(tables, tables[..k], batchSize, batches, batches[..k], i);
    }
  }

  predicate AtMost(a: Id, b: Id) {
    a == b || Less(a, b)
  }

  lemma JoinSorted(a: seq<Id>, b: seq<Id>, last: Id)
    requires Sorted(a) && Sorted(b)
    requires forall i | 0 <= i < |a| :: AtMost(a[i], last)
    requires forall i | 0 <= i < |b| :: Less(last, b[i])
    ensures Sorted(a + b)
  {
    forall i, j | 0 <= i < j < |a + b| ensures Less((a + b)[i], (a + b)[j]) {
      if i < |a| <= j && a[i] != last {
        LessTransitive(a[i], last, b[j - |a|]);
      }
    }
  }

  /** MAIN RESULT. Whatever is inserted or deleted between batches, the ids yielded over the whole run
      strictly increase, so no file is yielded twice. */
  lemma {:induction false} YieldedIncreases(tables: seq<set<Id>>, batchSize: nat, batches: seq<seq<Id>>, ended: bool)
    requires IsIteration(tables, batchSize, batches, ended)
    ensures var ids := Yielded(batches);
            Sorted(ids) && forall i | 0 <= i < |ids| :: AtMost(ids[i], LastId(batches, |batches|))
    decreases |batches|
  {
    if batches != [] {
      var k := |batches| - 1;
      var front, last, batch := Yielded(batches[..k]), LastId(batches, k), batches[k];
      IterationPrefix(tables, batchSize, batches, ended, k);
      YieldedIncreases(tables[..k], batchSize, batches[..k], false);
      assert IsBatch(tables, batchSize, batches, k);
      JoinSorted(front, batch, last);
      var end := batch[|batch| - 1];
      forall i | 0 <= i < |front + batch| ensures AtMost((front + batch)[i], end) {
        if i < |front| && front[i] != last {
          LessTransitive(front[i], last, end);
        }
      }
    }
  }

  lemma {:induction false} YieldedFrom(batches: seq<seq<Id>>, x: Id)
    ensures x in Yielded(batches) <==> exists k | 0 <= k < |batches| :: x in batches[k]
  {
    if batches != [] {
      var k := |batches| - 1;
      YieldedFrom(batches[..k], x);
      assert forall i | 0 <= i < k :: batches[..k][i] == batches[i];
    }
  }

  lemma PageStopsBefore(rows: seq<Id>, table: set<Id>, last: Id, limit: nat, x: Id)
    requires IsPage(rows, table, last, limit) && rows != [] && x in table && Less(last, x) && x !in rows
    ensures Less(rows[|rows| - 1], x)
  {
  }

  /** As long as a linked file has not been yielded, the cursor is before it. */
  lemma {:induction false} NotPassed(tables: seq<set<Id>>, batchSize: nat, batches: seq<seq<Id>>, ended: bool,
      x: Id, k: nat)
    requires IsIteration(tables, batchSize, batches, ended) && batchSize >= 1 && k <= |batches| && x != ""
    requires forall i | 0 <= i < k :: x in tables[i] && x !in batches[i]
    ensures Less(LastId(batches, k), x)
  {
    if k > 0 {
      NotPassed(tables, batchSize, batches, ended, x, k - 1);
      assert IsBatch(tables, batchSize, batches, k - 1);
      PageStopsBefore(batches[k - 1], tables[k - 1], LastId(batches, k - 1), batchSize, x);
    }
  }

  /** MAIN RESULT. In a run that ends, every file linked at each query is yielded, in exactly one
      position, and only files linked when their batch was read are yielded; the empty id, which no
      file has, is the one id the cursor cannot reach. */
  lemma LinkedThroughoutIsYielded(tables: seq<set<Id>>, batchSize: nat, batches: seq<seq<Id>>, x: Id)
    requires IsIteration(tables, batchSize, batches, true) && batchSize >= 1
    requires forall k | 0 <= k <= |batches| :: x in tables[k]
    ensures x in Yielded(batches) <==> x != ""
    ensures var ids := Yielded(batches);
            forall i, j | 0 <= i < |ids| && 0 <= j < |ids| && ids[i] == x == ids[j] :: i == j
  {
    var ids := Yielded(batches);
    YieldedFrom(batches, x);
    YieldedIncreases(tables, batchSize, batches, true);
    forall i, j | 0 <= i < j < |ids| ensures ids[i] != ids[j] {
      LessIrreflexive(ids[j]);
    }
    if x != "" && x !in ids {
      NotPassed(tables, batchSize, batches, true, x, |batches|);
    } else if x == "" {
      forall k | 0 <= k < |batches| ensures x !in batches[k] {
        assert IsBatch(tables, batchSize, batches, k);
      }
    }
  }

  lemma OnlyLinkedIsYielded(tables: seq<set<Id>>, batchSize: nat, batches: seq<seq<Id>>, ended: bool, x: Id)
    requires IsIteration(tables, batchSize, batches, ended) && x in Yielded(batches)
    ensures exists k | 0 <= k < |batches| :: x in batches[k] && x in tables[k]
  {
    YieldedFrom(batches, x);
    var k :| 0 <= k < |batches| && x in batches[k];
    assert IsBatch(tables, batchSize, batches, k);
  }

  // ---------------------------------------------------------------------------------------------
  // A table that does not change
  // ---------------------------------------------------------------------------------------------

  lemma {:induction false} SortedIsUnique(a: seq<Id>, b: seq<Id>)
    requires Sorted(a) && Sorted(b) && forall x :: x in a <==> x in b
    ensures a == b
    decreases |a|
  {
    EmptyTogether(a, b);
    if a != [] {
      FirstIsLeast(a, b);
      assert a[1..] == b[1..] by {
        forall x ensures x in a[1..] <==> x in b[1..] {
          NotInTail(a);
          NotInTail(b);
          assert x in a <==> x == a[0] || x in a[1..];
          assert x in b <==> x == b[0] || x in b[1..];
        }
        SortedIsUnique(a[1..], b[1..]);
      }
      assert a == [a[0]] + a[1..] && b == [b[0]] + b[1..];
    }
  }

  lemma EmptyTogether(a: seq<Id>, b: seq<Id>)
    requires forall x :: x in a <==> x in b
    ensures a == [] <==> b == []
  {
    if a != [] { assert a[0] in a; }
    if b != [] { assert b[0] in b; }
  }

  lemma NotInTail(a: seq<Id>)
    requires Sorted(a) && a != []
    ensures a[0] !in a[1..]
  {
    if a[0] in a[1..] {
      var i :| 1 <= i < |a| && a[i] == a[0];
      LessIrreflexive(a[0]);
    }
  }

  lemma FirstIsLeast(a: seq<Id>, b: seq<Id>)
    requires Sorted(a) && Sorted(b) && a != [] && b != [] && forall x :: x in a <==> x in b
    ensures a[0] == b[0]
  {
    var i :| 0 <= i < |b| && b[i] == a[0] by { assert a[0] in a; }
    var j :| 0 <= j < |a| && a[j] == b[0] by { assert b[0] in b; }
    if i > 0 && j > 0 {
      LessTransitive(a[0], a[j], a[0]);
      LessIrreflexive(a[0]);
    }
  }

  lemma {:induction false} YieldedCount(tables: seq<set<Id>>, batchSize: nat, batches: seq<seq<Id>>, ended: bool)
    requires IsIteration(tables, batchSize, batches, ended)
    ensures |batches| <= |Yielded(batches)|
    decreases |batches|
  {
    if batches != [] {
      var k := |batches| - 1;
      IterationPrefix(tables, batchSize, batches, ended, k);
      assert IsBatch(tables, batchSize, batches, k);
      YieldedCount(tables[..k], batchSize, batches[..k], false);
    }
  }

  lemma {:induction false} SortedFits(s: seq<Id>, table: set<Id>)
    requires Sorted(s) && forall x | x in s :: x in table
    ensures |s| <= |table|
    decreases |s|
  {
    if s != [] {
      NotInTail(s);
      assert forall x | x in s[1..] :: x in s;
      SortedFits(s[1..], table - {s[0]});
    }
  }

  /** MAIN RESULT. On a table that does not change, the run ends within one query more than there are
      files, and its batches join to the sorted list of all of them. */
  lemma StableTable(table: set<Id>, tables: seq<set<Id>>, batchSize: nat, batches: seq<seq<Id>>, ended: bool,
      sorted: seq<Id>)
    requires IsIteration(tables, batchSize, batches, ended) && batchSize >= 1 && "" !in table
    requires forall k | 0 <= k < |tables| :: tables[k] == table
    requires Sorted(sorted) && forall x :: x in sorted <==> x in table
    ensures |tables| > |table| ==> ended
    ensures ended ==> Yielded(batches) == sorted
  {
    var ids := Yielded(batches);
    YieldedIncreases(tables, batchSize, batches, ended);
    forall x | x in ids ensures x in table {
      OnlyLinkedIsYielded(tables, batchSize, batches, ended, x);
    }
    SortedFits(ids, table);
    YieldedCount(tables, batchSize, batches, ended);
    if ended {
      forall x ensures x in ids <==> x in sorted {
        if x in table {
          LinkedThroughoutIsYielded(tables, batchSize, batches, x);
        }
      }
      SortedIsUnique(ids, sorted);
    }
  }
}
