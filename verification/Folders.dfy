/** Recursive listing and deletion of chat folders (api/selfai_ui/models/folders.py, lines 125-143,
    170-175 and 279-306). A folder names its parent; nothing stops the parent links from forming a
    cycle, and Python gives up on a recursion that gets too deep. Both recursions therefore take the
    number of nested calls they may make, and everything below says exactly when that is enough. */
module Folders {

  import opened Wrappers

  type Id = nat
  type User = nat
  type ChatId = nat

  datatype Folder = Folder(parent: Option<Id>, user: User)
  datatype Chat = Chat(user: User, folder: Option<Id>)

  type Table = map<Id, Folder>

  // ---------------------------------------------------------------------------------------------
  // Descendants
  // ---------------------------------------------------------------------------------------------

  predicate IsChild(t: Table, u: User, p: Id, c: Id) {
    c in t && t[c].user == u && t[c].parent == Some(p)
  }

  /** The folder `k` parent links above `y`, following only folders of user `u`. */
  function Above(t: Table, u: User, y: Id, k: nat): Option<Id>
    decreases k
  {
    if k == 0 then Some(y)
    else if y in t && t[y].user == u && t[y].parent.Some? then Above(t, u, t[y].parent.value, k - 1)
    else None
  }

  ghost predicate Below(t: Table, u: User, x: Id, y: Id) {
    exists k: nat | k > 0 :: Above(t, u, y, k) == Some(x)
  }

  /** The strict descendants of `x`. */
  ghost function Descendants(t: Table, u: User, x: Id): set<Id> {
    set y | y in t && Below(t, u, x, y)
  }

  ghost function Subtree(t: Table, u: User, x: Id): set<Id> {
    Descendants(t, u, x) + {x}
  }

  ghost predicate OnCycle(t: Table, u: User, x: Id) {
    Below(t, u, x, x)
  }

  lemma {:induction false} AboveAdds(t: Table, u: User, y: Id, j: nat, k: nat)
    requires Above(t, u, y, j).Some?
    ensures Above(t, u, y, j + k) == Above(t, u, Above(t, u, y, j).value, k)
    decreases j
  {
    if j > 0 {
      AboveAdds(t, u, t[y].parent.value, j - 1, k);
    }
  }

  lemma {:induction false} AboveDefined(t: Table, u: User, y: Id, j: nat, k: nat)
    requires j <= k && Above(t, u, y, k).Some?
    ensures Above(t, u, y, j).Some?
    decreases j
  {
    if j > 0 {
      AboveDefined(t, u, t[y].parent.value, j - 1, k - 1);
    }
  }

  lemma BelowByChild(t: Table, u: User, x: Id, c: Id)
    requires IsChild(t, u, x, c)
    ensures Below(t, u, x, c)
  {
    assert Above(t, u, c, 1) == Some(x);
  }

  lemma BelowTransitive(t: Table, u: User, x: Id, y: Id, z: Id)
    requires Below(t, u, x, y) && Below(t, u, y, z)
    ensures Below(t, u, x, z)
  {
    var j: nat :| j > 0 && Above(t, u, z, j) == Some(y);
    var k: nat :| k > 0 && Above(t, u, y, k) == Some(x);
    AboveAdds(t, u, z, j, k);
  }

  /** A descendant is a child, or a descendant of a child. */
  lemma BelowThroughChild(t: Table, u: User, x: Id, y: Id) returns (c: Id)
    requires Below(t, u, x, y)
    ensures y in t && c in t && IsChild(t, u, x, c) && (y == c || Below(t, u, c, y))
  {
    var k: nat :| k > 0 && Above(t, u, y, k) == Some(x);
    AboveDefined(t, u, y, k - 1, k);
    c := Above(t, u, y, k - 1).value;
    AboveAdds(t, u, y, k - 1, 1);
    assert Above(t, u, c, 1) == Some(x);
  }

  /** A folder above a cycle is on it: every folder has one parent. */
  lemma CycleBelowIsCycleAbove(t: Table, u: User, x: Id, y: Id)
    requires Below(t, u, x, y) && OnCycle(t, u, y)
    ensures OnCycle(t, u, x)
  {
    var j: nat :| j > 0 && Above(t, u, y, j) == Some(x);
    var k: nat :| k > 0 && Above(t, u, y, k) == Some(y);
    AboveAdds(t, u, y, k, j);
    AboveAdds(t, u, y, j, k);
  }

  /** A child of a folder off every cycle is off every cycle, and its descendants are fewer. */
  lemma ChildHasFewer(t: Table, u: User, x: Id, c: Id)
    requires !OnCycle(t, u, x) && IsChild(t, u, x, c)
    ensures !OnCycle(t, u, c)
    ensures Descendants(t, u, c) < Descendants(t, u, x) && c in Descendants(t, u, x) && x != c
  {
    BelowByChild(t, u, x, c);
    if OnCycle(t, u, c) {
      CycleBelowIsCycleAbove(t, u, x, c);
    }
    assert c in Descendants(t, u, x) && c !in Descendants(t, u, c);
    forall y | y in Descendants(t, u, c) ensures y in Descendants(t, u, x) {
      BelowTransitive(t, u, x, c, y);
    }
  }

  /** Two folders above the same one: one of them is the other, or above it. */
  lemma ChainsMeet(t: Table, u: User, y: Id, a: nat, b: nat)
    requires a <= b && Above(t, u, y, a).Some? && Above(t, u, y, b).Some?
    ensures Above(t, u, y, a) == Above(t, u, y, b)
         || Below(t, u, Above(t, u, y, b).value, Above(t, u, y, a).value)
  {
    AboveAdds(t, u, y, a, b - a);
    if a < b {
      assert Above(t, u, Above(t, u, y, a).value, b - a) == Above(t, u, y, b);
    }
  }

  /** A child of `x` off every cycle has no other child of `x` below it. */
  lemma SiblingNotBelow(t: Table, u: User, x: Id, c: Id, d: Id)
    requires !OnCycle(t, u, c) && IsChild(t, u, x, c) && IsChild(t, u, x, d)
    ensures !Below(t, u, c, d)
  {
    assert Above(t, u, c, 1) == Some(x) && Above(t, u, d, 1) == Some(x);
    forall k: nat | k > 0 ensures Above(t, u, d, k) != Some(c) {
      AboveAdds(t, u, d, 1, k - 1);
      AboveAdds(t, u, c, 1, k - 1);
      assert Above(t, u, d, k) == Above(t, u, c, k);
    }
  }

  lemma SiblingsDisjoint(t: Table, u: User, x: Id, c: Id, d: Id)
    requires !OnCycle(t, u, c) && !OnCycle(t, u, d)
    requires IsChild(t, u, x, c) && IsChild(t, u, x, d) && c != d
    ensures Subtree(t, u, c) !! Subtree(t, u, d)
  {
    SiblingNotBelow(t, u, x, c, d);
    SiblingNotBelow(t, u, x, d, c);
    forall y | y in Subtree(t, u, c) && y in Subtree(t, u, d) ensures false {
      if y != c && y != d {
        var a: nat :| a > 0 && Above(t, u, y, a) == Some(c);
        var b: nat :| b > 0 && Above(t, u, y, b) == Some(d);
        if a <= b {
          ChainsMeet(t, u, y, a, b);
        } else {
          ChainsMeet(t, u, y, b, a);
        }
      }
    }
  }

  // ---------------------------------------------------------------------------------------------
  // Deleting whole subtrees leaves the others alone
  // ---------------------------------------------------------------------------------------------

  /** With a folder, `gone` contains its children. */
  predicate ClosedBelow(t: Table, u: User, gone: set<Id>) {
    forall y | y in t && t[y].user == u && t[y].parent.Some? && t[y].parent.value in gone :: y in gone
  }

  lemma {:induction false} AboveAfterRemoval(t: Table, u: User, gone: set<Id>, y: Id, k: nat)
    requires ClosedBelow(t, u, gone) && y !in gone
    ensures k > 0 && Above(t, u, y, k).Some? ==> Above(t - gone, u, y, k) == Above(t, u, y, k)
    decreases k
  {
    if k > 1 && Above(t, u, y, k).Some? {
      AboveDefined(t, u, y, 2, k);
      assert t[y].parent.value in t;
      AboveAfterRemoval(t, u, gone, t[y].parent.value, k - 1);
    }
  }

  lemma {:induction false} AboveBeforeRemoval(t: Table, u: User, gone: set<Id>, y: Id, k: nat)
    requires Above(t - gone, u, y, k).Some?
    ensures Above(t, u, y, k) == Above(t - gone, u, y, k)
    decreases k
  {
    if k > 0 {
      AboveBeforeRemoval(t, u, gone, t[y].parent.value, k - 1);
    }
  }

  lemma DescendantsAfterRemoval(t: Table, u: User, gone: set<Id>, x: Id)
    requires ClosedBelow(t, u, gone)
    ensures Descendants(t - gone, u, x) == Descendants(t, u, x) - gone
    ensures OnCycle(t - gone, u, x) ==> OnCycle(t, u, x)
  {
    forall y | Below(t - gone, u, x, y) ensures Below(t, u, x, y) {
      var k: nat :| k > 0 && Above(t - gone, u, y, k) == Some(x);
      AboveBeforeRemoval(t, u, gone, y, k);
    }
    forall y | y in Descendants(t, u, x) && y !in gone ensures y in Descendants(t - gone, u, x) {
      var k: nat :| k > 0 && Above(t, u, y, k) == Some(x);
      AboveAfterRemoval(t, u, gone, y, k);
    }
  }

  lemma SubtreeIsClosed(t: Table, u: User, x: Id)
    ensures ClosedBelow(t, u, Subtree(t, u, x))
  {
    forall y | y in t && t[y].user == u && t[y].parent.Some? && t[y].parent.value in Subtree(t, u, x)
      ensures y in Subtree(t, u, x)
    {
      var p := t[y].parent.value;
      BelowByChild(t, u, p, y);
      if p != x {
        BelowTransitive(t, u, x, p, y);
      }
    }
  }

  // ---------------------------------------------------------------------------------------------
  // How deep the recursions go
  // ---------------------------------------------------------------------------------------------

  /** There is a chain of `depth` parent links up to `x`, so that visiting everything below `x` takes
      more than `depth` nested calls. */
  ghost predicate TooDeep(t: Table, u: User, x: Id, depth: nat) {
    exists y :: Above(t, u, y, depth) == Some(x)
  }

  lemma DeepIsDeeper(t: Table, u: User, x: Id, j: nat, k: nat)
    requires j <= k && TooDeep(t, u, x, k)
    ensures TooDeep(t, u, x, j)
  {
    var y :| Above(t, u, y, k) == Some(x);
    AboveDefined(t, u, y, k - j, k);
    AboveAdds(t, u, y, k - j, j);
  }

  lemma {:induction false} AroundTheCycle(t: Table, u: User, x: Id, k: nat, n: nat)
    requires k > 0 && Above(t, u, x, k) == Some(x)
    ensures n * k >= n && Above(t, u, x, n * k) == Some(x)
  {
    if n > 0 {
      AroundTheCycle(t, u, x, k, n - 1);
      AboveAdds(t, u, x, (n - 1) * k, k);
      assert n * k == (n - 1) * k + k;
    }
  }

  lemma CycleIsTooDeep(t: Table, u: User, x: Id, depth: nat)
    requires OnCycle(t, u, x)
    ensures TooDeep(t, u, x, depth)
  {
    var k: nat :| k > 0 && Above(t, u, x, k) == Some(x);
    AroundTheCycle(t, u, x, k, depth);
    DeepIsDeeper(t, u, x, depth, depth * k);
  }

  lemma SmallerSet(a: set<Id>, b: set<Id>)
    requires a < b
    ensures |a| < |b|
  {
    assert b == a + (b - a) && b - a != {};
  }

  lemma {:induction false} ChainIsShort(t: Table, u: User, x: Id, y: Id, k: nat)
    requires !OnCycle(t, u, x) && Above(t, u, y, k) == Some(x)
    ensures k <= |Descendants(t, u, x)|
    decreases k
  {
    if k > 0 {
      var c := LastLink(t, u, x, y, k);
      ChildHasFewer(t, u, x, c);
      SmallerSet(Descendants(t, u, c), Descendants(t, u, x));
      ChainIsShort(t, u, c, y, k - 1);
    }
  }

  lemma LastLink(t: Table, u: User, x: Id, y: Id, k: nat) returns (c: Id)
    requires k > 0 && Above(t, u, y, k) == Some(x)
    ensures Above(t, u, y, k - 1) == Some(c) && IsChild(t, u, x, c)
  {
    AboveDefined(t, u, y, k - 1, k);
    c := Above(t, u, y, k - 1).value;
    AboveAdds(t, u, y, k - 1, 1);
    assert Above(t, u, c, 1) == Some(x);
  }

  /** The recursion below a folder ends if and only if the folder is not on a cycle; then it needs at
      most one nested call more than there are descendants. */
  lemma EndsOffCycles(t: Table, u: User, x: Id)
    ensures !OnCycle(t, u, x) <==> exists depth: nat :: !TooDeep(t, u, x, depth)
    ensures !OnCycle(t, u, x) ==> !TooDeep(t, u, x, |Descendants(t, u, x)| + 1)
  {
    if OnCycle(t, u, x) {
      forall depth: nat ensures TooDeep(t, u, x, depth) {
        CycleIsTooDeep(t, u, x, depth);
      }
    } else {
      var n := |Descendants(t, u, x)| + 1;
      forall y | Above(t, u, y, n) == Some(x) ensures false {
        ChainIsShort(t, u, x, y, n);
      }
      assert !TooDeep(t, u, x, n);
    }
  }

  /** One nested call is for the folder, the rest are for the deepest of its children. */
  lemma DeepThroughChild(t: Table, u: User, x: Id, depth: nat)
    requires depth > 0
    ensures TooDeep(t, u, x, depth) <==> exists c: Id :: IsChild(t, u, x, c) && TooDeep(t, u, c, depth - 1)
  {
    if TooDeep(t, u, x, depth) {
      var y :| Above(t, u, y, depth) == Some(x);
      var c := LastLink(t, u, x, y, depth);
    }
    forall c: Id | IsChild(t, u, x, c) && TooDeep(t, u, c, depth - 1) ensures TooDeep(t, u, x, depth) {
      var y :| Above(t, u, y, depth - 1) == Some(c);
      AboveAdds(t, u, y, depth - 1, 1);
      assert Above(t, u, c, 1) == Some(x);
    }
  }

  // ---------------------------------------------------------------------------------------------
  // The tables and the two recursions
  // ---------------------------------------------------------------------------------------------

  /** The chats left when user `u`'s chats in the given folders are deleted. */
  function WithoutChats(chats: map<ChatId, Chat>, u: User, gone: set<Id>): map<ChatId, Chat> {
    map c | c in chats && !(chats[c].user == u && chats[c].folder.Some? && chats[c].folder.value in gone) :: chats[c]
  }

  predicate Distinct(s: seq<Id>) {
    forall i, j | 0 <= i < j < |s| :: s[i] != s[j]
  }

  /** Each folder comes after all of its own descendants. */
  ghost predicate Postorder(t: Table, u: User, s: seq<Id>) {
    forall i, j | 0 <= i < |s| && 0 <= j < |s| && Below(t, u, s[i], s[j]) :: j < i
  }

  /** The subtrees of the first `n` children. */
  ghost function Subtrees(t: Table, u: User, children: seq<Id>): set<Id> {
    if children == [] then {}
    else Subtrees(t, u, children[..|children| - 1]) + Subtree(t, u, children[|children| - 1])
  }

  lemma {:induction false} SubtreesFrom(t: Table, u: User, children: seq<Id>, y: Id)
    ensures y in Subtrees(t, u, children) <==> exists c | c in children :: y in Subtree(t, u, c)
  {
    if children != [] {
      SubtreesFrom(t, u, children[..|children| - 1], y);
      assert children == children[..|children| - 1] + [children[|children| - 1]];
    }
  }

  lemma {:induction false} SubtreesAreClosed(t: Table, u: User, children: seq<Id>)
    ensures ClosedBelow(t, u, Subtrees(t, u, children))
  {
    if children != [] {
      SubtreesAreClosed(t, u, children[..|children| - 1]);
      SubtreeIsClosed(t, u, children[|children| - 1]);
    }
  }

  predicate AreChildren(t: Table, u: User, x: Id, children: seq<Id>) {
    && Distinct(children)
    && (forall c | c in children :: IsChild(t, u, x, c))
    && (forall c | c in t && IsChild(t, u, x, c) :: c in children)
  }

  /** All children's subtrees together are the descendants. */
  lemma SubtreesAreDescendants(t: Table, u: User, x: Id, children: seq<Id>)
    requires AreChildren(t, u, x, children)
    ensures Subtrees(t, u, children) == Descendants(t, u, x)
  {
    forall y ensures y in Subtrees(t, u, children) <==> y in Descendants(t, u, x) {
      SubtreesFrom(t, u, children, y);
      if y in Descendants(t, u, x) {
        var c := BelowThroughChild(t, u, x, y);
        assert c in children && y in Subtree(t, u, c);
      } else if y in Subtrees(t, u, children) {
        var c :| c in children && y in Subtree(t, u, c);
        BelowByChild(t, u, x, c);
        if y != c {
          BelowTransitive(t, u, x, c, y);
        }
      }
    }
  }

  ghost predicate OffCycles(t: Table, u: User, children: seq<Id>) {
    forall c | c in children :: !OnCycle(t, u, c)
  }

  /** A folder that is still there is on a cycle, and has chains below it, as before. */
  lemma CycleAfterRemoval(t: Table, u: User, gone: set<Id>, x: Id)
    requires ClosedBelow(t, u, gone) && x !in gone
    ensures OnCycle(t - gone, u, x) <==> OnCycle(t, u, x)
  {
    DescendantsAfterRemoval(t, u, gone, x);
    if OnCycle(t, u, x) {
      var k: nat :| k > 0 && Above(t, u, x, k) == Some(x);
      AboveAfterRemoval(t, u, gone, x, k);
    }
  }

  lemma DepthAfterRemoval(t: Table, u: User, gone: set<Id>, x: Id, depth: nat)
    requires ClosedBelow(t, u, gone) && x !in gone && (!OnCycle(t, u, x) ==> Subtree(t, u, x) !! gone)
    ensures TooDeep(t - gone, u, x, depth) <==> TooDeep(t, u, x, depth)
  {
    if TooDeep(t - gone, u, x, depth) {
      var y :| Above(t - gone, u, y, depth) == Some(x);
      AboveBeforeRemoval(t, u, gone, y, depth);
    } else if OnCycle(t, u, x) {
      CycleAfterRemoval(t, u, gone, x);
      CycleIsTooDeep(t - gone, u, x, depth);
    } else {
      assert Above(t - gone, u, x, 0) == Some(x);
      forall y | Above(t, u, y, depth) == Some(x) ensures y in Subtree(t, u, x) {
      }
      forall y ensures Above(t, u, y, depth) != Some(x) {
        if y !in gone {
          AboveAfterRemoval(t, u, gone, y, depth);
        }
      }
    }
  }

  /** The next child is not in the subtrees of the earlier ones, its own subtree is untouched by their
      removal, and it goes as deep as before. */
  lemma NextChild(t: Table, u: User, x: Id, children: seq<Id>, i: nat, depth: nat)
    requires AreChildren(t, u, x, children) && i < |children| && OffCycles(t, u, children[..i])
    ensures var gone := Subtrees(t, u, children[..i]);
            var c := children[i];
            && children[..i + 1][..i] == children[..i]
            && ClosedBelow(t, u, gone) && IsChild(t, u, x, c) && c !in gone
            && (TooDeep(t - gone, u, c, depth) <==> TooDeep(t, u, c, depth))
            && (!OnCycle(t, u, c) ==>
                  && Subtree(t, u, c) !! gone && c !in Descendants(t, u, c)
                  && Descendants(t - gone, u, c) == Descendants(t, u, c)
                  && OffCycles(t, u, children[..i + 1]))
  {
    var gone, c := Subtrees(t, u, children[..i]), children[i];
    SubtreesAreClosed(t, u, children[..i]);
    forall d | d in children[..i]
      ensures c !in Subtree(t, u, d) && (!OnCycle(t, u, c) ==> Subtree(t, u, d) !! Subtree(t, u, c))
    {
      SiblingNotBelow(t, u, x, d, c);
      if !OnCycle(t, u, c) {
        SiblingsDisjoint(t, u, x, d, c);
      }
    }
    forall y | y in gone ensures y != c && (!OnCycle(t, u, c) ==> y !in Subtree(t, u, c)) {
      SubtreesFrom(t, u, children[..i], y);
      var d :| d in children[..i] && y in Subtree(t, u, d);
    }
    DepthAfterRemoval(t, u, gone, c, depth);
    DescendantsAfterRemoval(t, u, gone, c);
    assert children[..i + 1] == children[..i] + [c];
  }

  /** What a deletion that may have been given up leaves behind. The folders in `gone` are removed:
      some of the descendants, each with everything below it, and none that is on a cycle. The folders
      in `seen` have lost their chats. */
  ghost predicate Partial(t: Table, u: User, x: Id, gone: set<Id>, seen: set<Id>) {
    && gone <= seen <= Descendants(t, u, x)
    && ClosedBelow(t, u, gone)
    && forall z | z in gone :: !OnCycle(t, u, z)
  }

  lemma SubtreesArePartial(t: Table, u: User, x: Id, children: seq<Id>)
    requires OffCycles(t, u, children) && forall c | c in children :: IsChild(t, u, x, c)
    ensures Partial(t, u, x, Subtrees(t, u, children), Subtrees(t, u, children))
  {
    SubtreesAreClosed(t, u, children);
    forall y | y in Subtrees(t, u, children) ensures y in Descendants(t, u, x) && !OnCycle(t, u, y) {
      SubtreesFrom(t, u, children, y);
      var c :| c in children && y in Subtree(t, u, c);
      BelowByChild(t, u, x, c);
      if y != c {
        BelowTransitive(t, u, x, c, y);
        if OnCycle(t, u, y) {
          CycleBelowIsCycleAbove(t, u, c, y);
        }
      }
    }
  }

  /** The earlier children are gone, and the next one was given up. */
  lemma PartialAgain(t: Table, u: User, x: Id, gone: set<Id>, c: Id, more: set<Id>, seen: set<Id>)
    requires Partial(t, u, x, gone, gone) && IsChild(t, u, x, c) && c !in gone && Partial(t - gone, u, c, more, seen)
    ensures Partial(t, u, x, gone + more, gone + (seen + {c}))
  {
    BelowByChild(t, u, x, c);
    DescendantsAfterRemoval(t, u, gone, c);
    forall y | y in seen ensures y in Descendants(t, u, x) {
      BelowTransitive(t, u, x, c, y);
    }
    forall z | z in more ensures !OnCycle(t, u, z) {
      CycleAfterRemoval(t, u, gone, z);
    }
    forall y | y in t && t[y].user == u && t[y].parent.Some? && t[y].parent.value in gone + more
      ensures y in gone + more
    {
      assert y !in gone ==> y in t - gone && (t - gone)[y] == t[y];
    }
  }

  /** The loop over the children has visited the first `i`, and all they have below them. */
  ghost predicate Visited(t: Table, u: User, x: Id, children: seq<Id>, i: nat, depth: nat) {
    && AreChildren(t, u, x, children) && i <= |children| && OffCycles(t, u, children[..i])
    && forall c | c in children[..i] :: !TooDeep(t, u, c, depth)
  }

  lemma DeleteNext(t: Table, u: User, x: Id, children: seq<Id>, i: nat, depth: nat)
    requires Visited(t, u, x, children, i, depth) && i < |children|
    requires !TooDeep(t - Subtrees(t, u, children[..i]), u, children[i], depth)
    ensures Visited(t, u, x, children, i + 1, depth)
    ensures var gone := Subtrees(t, u, children[..i]);
            var below := Descendants(t - gone, u, children[i]);
            && children[i] in t - gone - below
            && Subtrees(t, u, children[..i + 1]) == gone + (below + {children[i]})
  {
    NextChild(t, u, x, children, i, depth);
    EndsOffCycles(t, u, children[i]);
    assert children[..i + 1] == children[..i] + [children[i]];
  }

  lemma DeleteFails(t: Table, u: User, x: Id, children: seq<Id>, i: nat, depth: nat, more: set<Id>, seen: set<Id>)
    requires Visited(t, u, x, children, i, depth) && i < |children|
    requires var gone := Subtrees(t, u, children[..i]);
             TooDeep(t - gone, u, children[i], depth) && Partial(t - gone, u, children[i], more, seen)
    ensures TooDeep(t, u, x, depth + 1)
    ensures var gone := Subtrees(t, u, children[..i]);
            Partial(t, u, x, gone + more, gone + (seen + {children[i]}))
  {
    NextChild(t, u, x, children, i, depth);
    DeepThroughChild(t, u, x, depth + 1);
    SubtreesArePartial(t, u, x, children[..i]);
    PartialAgain(t, u, x, Subtrees(t, u, children[..i]), children[i], more, seen);
  }

  lemma VisitedAll(t: Table, u: User, x: Id, children: seq<Id>, depth: nat)
    requires Visited(t, u, x, children, |children|, depth)
    ensures !TooDeep(t, u, x, depth + 1)
    ensures Subtrees(t, u, children[..|children|]) == Descendants(t, u, x)
    ensures Partial(t, u, x, Descendants(t, u, x), Descendants(t, u, x))
  {
    assert children[..|children|] == children;
    DeepThroughChild(t, u, x, depth + 1);
    SubtreesAreDescendants(t, u, x, children);
    SubtreesArePartial(t, u, x, children);
  }

  /** A deletion given up on a cycle, as it always is, leaves every folder on a cycle in place. */
  lemma CycleSurvives(t: Table, u: User, x: Id, gone: set<Id>, seen: set<Id>, depth: nat)
    requires OnCycle(t, u, x) && Partial(t, u, x, gone, seen)
    ensures TooDeep(t, u, x, depth) && x !in gone && Below(t - gone, u, x, x)
  {
    CycleIsTooDeep(t, u, x, depth);
    CycleAfterRemoval(t, u, gone, x);
  }

  class FolderTable {
    var folders: Table
    var chats: map<ChatId, Chat>

    constructor (folders: Table, chats: map<ChatId, Chat>)
      ensures this.folders == folders && this.chats == chats
    {
      this.folders, this.chats := folders, chats;
    }

    /** `get_folders_by_parent_id_and_user_id`: the children, in whatever order the database gives. */
    method GetChildren(x: Id, u: User) returns (children: seq<Id>)
      ensures AreChildren(folders, u, x, children)
    {
      var todo := set c | c in folders && IsChild(folders, u, x, c);
      children := [];
      while todo != {}
        invariant Distinct(children)
        invariant forall c | c in children :: c !in todo && IsChild(folders, u, x, c)
        invariant forall c | c in todo :: IsChild(folders, u, x, c)
        invariant forall c | c in folders && IsChild(folders, u, x, c) :: c in children || c in todo
        decreases |todo|
      {
        var c :| c in todo;
        children, todo := children + [c], todo - {c};
      }
    }

    /** The inner function of `get_children_folders_by_id_and_user_id`, with `depth` nested calls left;
        `None` is the error Python raises when there are none. */
    method ListChildren(x: Id, u: User, depth: nat) returns (r: Option<seq<Id>>)
      ensures r.Some? <==> !TooDeep(folders, u, x, depth)
      ensures r.Some? ==> IsListing(folders, u, r.value, Descendants(folders, u, x))
      decreases depth
    {
      if depth == 0 {
        assert Above(folders, u, x, 0) == Some(x);
        return None;
      }
      var children := GetChildren(x, u);
      var list: seq<Id> := [];
      for i := 0 to |children|
        invariant Visited(folders, u, x, children, i, depth - 1)
        invariant IsListing(folders, u, list, Subtrees(folders, u, children[..i]))
      {
        var below := ListChildren(children[i], u, depth - 1);
        if below.None? {
          assert IsChild(folders, u, x, children[i]);
          DeepThroughChild(folders, u, x, depth);
          return None;
        }
        ListNext(folders, u, x, children, i, depth - 1, list, below.value);
        list := list + below.value + [children[i]];
      }
      VisitedAll(folders, u, x, children, depth - 1);
      return Some(list);
    }

    /** `get_children_folders_by_id_and_user_id`; `None` when there is no such folder of this user, or
        when the recursion was given up. */
    method GetChildrenFolders(id: Id, u: User, depth: nat) returns (list: Option<seq<Id>>)
      ensures list.Some? <==> id in folders && folders[id].user == u && !TooDeep(folders, u, id, depth)
      ensures list.Some? ==> IsListing(folders, u, list.value, Descendants(folders, u, id))
    {
      if id !in folders || folders[id].user != u {
        return None;
      }
      list := ListChildren(id, u, depth);
    }

    /** `Chats.delete_chats_by_user_id_and_folder_id` */
    method DeleteChats(u: User, f: Id)
      modifies this`chats
      ensures chats == WithoutChats(old(chats), u, {f})
    {
      chats := WithoutChats(chats, u, {f});
    }

    /** `delete_children`, with `depth` nested calls left: rows go one by one, each after its own
        subtree, and what is gone stays gone when the recursion is given up. */
    method DeleteChildren(x: Id, u: User, depth: nat) returns (ok: bool, ghost gone: set<Id>, ghost seen: set<Id>)
      modifies this
      ensures ok <==> !TooDeep(old(folders), u, x, depth)
      ensures ok ==> gone == seen == Descendants(old(folders), u, x)
      ensures Partial(old(folders), u, x, gone, seen)
      ensures folders == old(folders) - gone && chats == WithoutChats(old(chats), u, seen)
      decreases depth
    {
      ghost var t := folders;
      if depth == 0 {
        assert Above(t, u, x, 0) == Some(x);
        NothingGone(folders, chats, u);
        return false, {}, {};
      }
      NothingGone(folders, chats, u);
      var children := GetChildren(x, u);
      gone := {};
      for i := 0 to |children|
        invariant Visited(t, u, x, children, i, depth - 1)
        invariant gone == Subtrees(t, u, children[..i])
        invariant folders == t - gone && chats == WithoutChats(old(chats), u, gone)
      {
        var c := children[i];
        DeleteChats(u, c);
        ghost var more, below;
        ok, more, below := DeleteChildren(c, u, depth - 1);
        OneChildLess(t, old(chats), u, gone, more, below, c);
        if !ok {
          DeleteFails(t, u, x, children, i, depth - 1, more, below);
          return false, gone + more, gone + (below + {c});
        }
        DeleteNext(t, u, x, children, i, depth - 1);
        assert c in folders;
        folders := folders - {c};
        gone := gone + (below + {c});
      }
      VisitedAll(t, u, x, children, depth - 1);
      return true, gone, gone;
    }

    /** `delete_folder_by_id_and_user_id` */
    method DeleteFolder(id: Id, u: User, depth: nat) returns (ok: bool, ghost gone: set<Id>, ghost seen: set<Id>)
      modifies this
      ensures ok <==> id in old(folders) && old(folders)[id].user == u && !TooDeep(old(folders), u, id, depth)
      ensures folders == old(folders) - gone && chats == WithoutChats(old(chats), u, seen)
      // all or nothing, unless the recursion is given up
      ensures ok ==> gone == seen == Subtree(old(folders), u, id)
      ensures id !in old(folders) || old(folders)[id].user != u ==> gone == seen == {}
      ensures !ok && id in old(folders) && old(folders)[id].user == u ==>
                id in seen && exists below :: seen == below + {id} && Partial(old(folders), u, id, gone, below)
    {
      if id !in folders || folders[id].user != u {
        NothingGone(folders, chats, u);
        return false, {}, {};
      }
      ghost var t := folders;
      DeleteChats(u, id);
      ghost var below;
      ok, gone, below := DeleteChildren(id, u, depth);
      OneChildLess(t, old(chats), u, {}, gone, below, id);
      NothingGone(t, old(chats), u);
      seen := {} + (below + {id});
      if ok {
        folders := folders - {id};
        gone := gone + {id};
      }
      assert seen == below + {id};
    }
  }

  lemma NothingGone(t: Table, chats: map<ChatId, Chat>, u: User)
    ensures t - {} == t && WithoutChats(chats, u, {}) == chats
  {
  }

  /** What one turn of the deletion loop adds up to. */
  lemma OneChildLess(t: Table, chats: map<ChatId, Chat>, u: User, gone: set<Id>, more: set<Id>, seen: set<Id>, c: Id)
    ensures t - gone - more == t - (gone + more) && t - gone - more - {c} == t - (gone + (more + {c}))
    ensures WithoutChats(WithoutChats(WithoutChats(chats, u, gone), u, {c}), u, seen) ==
              WithoutChats(chats, u, gone + (seen + {c}))
  {
  }

  /** Exactly `ids`, each once and after everything below it. */
  ghost predicate IsListing(t: Table, u: User, list: seq<Id>, ids: set<Id>) {
    Distinct(list) && Postorder(t, u, list) && forall y :: y in list <==> y in ids
  }

  lemma ListNext(t: Table, u: User, x: Id, children: seq<Id>, i: nat, depth: nat, list: seq<Id>, below: seq<Id>)
    requires Visited(t, u, x, children, i, depth) && i < |children| && !TooDeep(t, u, children[i], depth)
    requires IsListing(t, u, list, Subtrees(t, u, children[..i]))
    requires IsListing(t, u, below, Descendants(t, u, children[i]))
    ensures Visited(t, u, x, children, i + 1, depth)
    ensures IsListing(t, u, list + below + [children[i]], Subtrees(t, u, children[..i + 1]))
  {
    NextChild(t, u, x, children, i, depth);
    EndsOffCycles(t, u, children[i]);
    DeleteNext(t, u, x, children, i, depth);
    AppendSubtree(t, u, list, below, children[i], Subtrees(t, u, children[..i]));
  }

  lemma AppendSubtree(t: Table, u: User, list: seq<Id>, below: seq<Id>, c: Id, gone: set<Id>)
    requires Distinct(list) && Postorder(t, u, list) && forall y :: y in list <==> y in gone
    requires Distinct(below) && Postorder(t, u, below) && forall y :: y in below <==> y in Descendants(t, u, c)
    requires !OnCycle(t, u, c) && Subtree(t, u, c) !! gone && ClosedBelow(t, u, gone)
    ensures var next := list + below + [c];
            && Distinct(next) && Postorder(t, u, next)
            && forall y :: y in next <==> y in gone + Subtree(t, u, c)
  {
    var next := list + below + [c];
    assert forall y :: y in next <==> y in list || y in below || y == c;
    assert c !in below && c !in list && forall y | y in below :: y in Subtree(t, u, c);
    AppendDistinct(list, below, c);
    forall i, j | 0 <= i < |next| && 0 <= j < |next| && Below(t, u, next[i], next[j]) ensures j < i {
      BelowStays(t, u, gone, next[i], next[j]);
      SubtreeIsClosed(t, u, c);
      BelowStays(t, u, Subtree(t, u, c), next[i], next[j]);
      AppendCase(t, u, list, below, c, gone, i, j);
    }
  }

  lemma AppendDistinct(list: seq<Id>, below: seq<Id>, c: Id)
    requires Distinct(list) && Distinct(below) && c !in list && c !in below
    requires forall y | y in below :: y !in list
    ensures Distinct(list + below + [c])
  {
    var next := list + below + [c];
    forall i, j | 0 <= i < j < |next| ensures next[i] != next[j] {
      if j < |list| {
        assert next[i] == list[i] && next[j] == list[j];
      } else if i < |list| {
        assert next[i] == list[i] && (next[j] == c || next[j] in below);
      } else if j < |list| + |below| {
        assert next[i] == below[i - |list|] && next[j] == below[j - |list|];
      } else {
        assert next[i] == below[i - |list|] && next[j] == c;
      }
    }
  }

  lemma BelowStays(t: Table, u: User, gone: set<Id>, x: Id, y: Id)
    requires ClosedBelow(t, u, gone) && Below(t, u, x, y)
    ensures x in gone ==> y in gone
  {
    if x in gone {
      var k: nat :| k > 0 && Above(t, u, y, k) == Some(x);
      StaysGone(t, u, gone, y, k);
    }
  }

  lemma {:induction false} StaysGone(t: Table, u: User, gone: set<Id>, y: Id, k: nat)
    requires ClosedBelow(t, u, gone) && Above(t, u, y, k).Some? && Above(t, u, y, k).value in gone
    ensures y in gone
    decreases k
  {
    if k > 0 {
      StaysGone(t, u, gone, t[y].parent.value, k - 1);
    }
  }

  lemma AppendCase(t: Table, u: User, list: seq<Id>, below: seq<Id>, c: Id, gone: set<Id>, i: nat, j: nat)
    requires var next := list + below + [c];
             && i < |next| && j < |next| && Below(t, u, next[i], next[j])
             && (next[i] in gone ==> next[j] in gone)
             && (next[i] in Subtree(t, u, c) ==> next[j] in Subtree(t, u, c))
    requires Postorder(t, u, list) && forall y :: y in list <==> y in gone
    requires Postorder(t, u, below) && forall y :: y in below <==> y in Descendants(t, u, c)
    requires !OnCycle(t, u, c) && Subtree(t, u, c) !! gone
    ensures j < i
  {
    var next := list + below + [c];
    if i < |list| {
      assert next[i] == list[i] && list[i] in gone;
      assert j < |list| && next[j] == list[j];
    } else if i < |list| + |below| {
      assert next[i] == below[i - |list|] && next[i] in Descendants(t, u, c);
      if j == |list| + |below| {
        BelowTransitive(t, u, c, next[i], c);
      } else if j >= |list| {
        assert next[j] == below[j - |list|];
      }
    }
  }

  /** MAIN RESULT beside the contracts of `FolderTable`. After a deletion no folder of the user has a
      removed parent, and folders of other users are untouched. */
  lemma NoOrphans(t: Table, u: User, id: Id, y: Id)
    requires y in t - Subtree(t, u, id)
    ensures t[y].user == u && t[y].parent.Some? ==> t[y].parent.value !in Subtree(t, u, id)
    ensures (t - Subtree(t, u, id))[y] == t[y]
  {
    SubtreeIsClosed(t, u, id);
  }

  /** Only folders of the user are descendants, so a deletion by the owner removes nothing else. */
  lemma OnlyOwnFolders(t: Table, u: User, id: Id, y: Id)
    requires id in t && t[id].user == u && y in Subtree(t, u, id)
    ensures y in t && t[y].user == u
  {
    if y != id {
      var k: nat :| k > 0 && Above(t, u, y, k) == Some(id);
    }
  }


  /** Of the chats, exactly the user's own in the given folders go; all others stay as they are. */
  lemma ChatsAfterwards(chats: map<ChatId, Chat>, u: User, gone: set<Id>, c: ChatId)
    requires c in chats
    ensures chats[c].user != u ==> c in WithoutChats(chats, u, gone)
    ensures chats[c].folder == None ==> c in WithoutChats(chats, u, gone)
    ensures forall f :: chats[c] == Chat(u, Some(f)) ==> (c in WithoutChats(chats, u, gone) <==> f !in gone)
    ensures c in WithoutChats(chats, u, gone) ==> WithoutChats(chats, u, gone)[c] == chats[c]
    ensures WithoutChats(chats, u, gone).Keys <= chats.Keys
  {
  }

  /** A child is a folder of the user that names the parent. */
  lemma ChildrenByParent(t: Table, u: User, p: Id, c: Id)
    ensures IsChild(t, u, p, c) <==> c in t && t[c] == Folder(Some(p), u)
  {
  }
}
