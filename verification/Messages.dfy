/** Thread pages and reactions (api/selfai_ui/models/messages.py, lines 157-179 and 208-223). */
module Messages {

  import opened Wrappers

  datatype Message = Message(id: string, createdAt: int)

  // ---------------------------------------------------------------------------------------------
  // Thread pages
  // ---------------------------------------------------------------------------------------------

  function Min(a: nat, b: nat): nat { if a < b then a else b }

  /** `offset(skip).limit(limit)` */
  function Window(replies: seq<Message>, skip: nat, limit: nat): seq<Message> {
    replies[Min(skip, |replies|)..Min(skip + limit, |replies|)]
  }

  function Page(parent: Message, replies: seq<Message>, skip: nat, limit: nat): seq<Message> {
    var page := Window(replies, skip, limit);
    if |page| < limit then page + [parent] else page
  }

  /** `get_messages_by_parent_id`; `replies` is the order the database gives the replies in, newest
      first. Without the parent there are no pages. */
  method GetMessagesByParentId(parent: Option<Message>, replies: seq<Message>, skip: nat, limit: nat)
    returns (page: seq<Message>)
    ensures page == if parent.Some? then Page(parent.value, replies, skip, limit) else []
    ensures |page| <= limit
  {
    if parent.None? {
      return [];
    }
    page := [];
    var i := Min(skip, |replies|);
    while i < |replies| && |page| < limit
      invariant Min(skip, |replies|) <= i <= |replies| && |page| == i - Min(skip, |replies|) <= limit
      invariant page == replies[Min(skip, |replies|)..i]
    {
      page := page + [replies[i]];
      i := i + 1;
    }
    if |page| < limit {
      page := page + [parent.value];
    }
  }

  /** The pages 0 to `n - 1` one after another. */
  function Pages(parent: Message, replies: seq<Message>, limit: nat, n: nat): seq<Message> {
    if n == 0 then [] else Pages(parent, replies, limit, n - 1) + Page(parent, replies, (n - 1) * limit, limit)
  }

  lemma FullPage(parent: Message, replies: seq<Message>, skip: nat, limit: nat)
    requires skip + limit <= |replies|
    ensures replies[..skip] + Page(parent, replies, skip, limit) == replies[..skip + limit]
  {
  }

  lemma LastPage(parent: Message, replies: seq<Message>, skip: nat, limit: nat)
    requires skip <= |replies| < skip + limit
    ensures replies[..skip] + Page(parent, replies, skip, limit) == replies + [parent]
  {
    assert Window(replies, skip, limit) == replies[skip..];
    assert replies[..skip] + (replies[skip..] + [parent]) == replies + [parent];
  }

  lemma LaterPage(parent: Message, replies: seq<Message>, skip: nat, limit: nat)
    requires |replies| <= skip && limit > 0
    ensures Page(parent, replies, skip, limit) == [parent]
  {
    assert Window(replies, skip, limit) == [];
  }

  lemma {:induction false} FullPages(parent: Message, replies: seq<Message>, limit: nat, n: nat)
    requires n * limit <= |replies|
    ensures Pages(parent, replies, limit, n) == replies[..n * limit]
    decreases n
  {
    if n > 0 {
      var skip := (n - 1) * limit;
      assert n * limit == skip + limit;
      FullPages(parent, replies, limit, n - 1);
      FullPage(parent, replies, skip, limit);
    }
  }

  /** MAIN RESULT. Pages 0 to |replies| / limit are all replies in order and then the parent, once;
      every later page repeats the parent alone. */
  lemma PagesAreThread(parent: Message, replies: seq<Message>, limit: nat, later: nat)
    requires limit > 0
    ensures Pages(parent, replies, limit, |replies| / limit + 1) == replies + [parent]
    ensures later > |replies| / limit ==> Page(parent, replies, later * limit, limit) == [parent]
  {
    var n := |replies| / limit;
    FloorBounds(|replies|, limit);
    FullPages(parent, replies, limit, n);
    LastPage(parent, replies, n * limit, limit);
    if later > n {
      Multiples(n + 1, later, limit);
      assert (n + 1) * limit == n * limit + limit;
      LaterPage(parent, replies, later * limit, limit);
    }
  }

  lemma FloorBounds(a: nat, b: nat)
    requires b > 0
    ensures a / b * b <= a < a / b * b + b
  {
  }

  lemma Multiples(a: nat, b: nat, k: nat)
    requires a <= b
    ensures a * k <= b * k
  {
    assert (b - a) * k >= 0;
    assert b * k == a * k + (b - a) * k;
  }

  // ---------------------------------------------------------------------------------------------
  // Reactions
  // ---------------------------------------------------------------------------------------------

  datatype Reaction = Reaction(name: string, user: string)
  datatype Group = Group(name: string, users: seq<string>, count: nat)

  /** The users who reacted with `name`, in order. */
  function UsersOf(reactions: seq<Reaction>, name: string): seq<string> {
    if reactions == [] then []
    else
      var r := reactions[|reactions| - 1];
      UsersOf(reactions[..|reactions| - 1], name) + if r.name == name then [r.user] else []
  }

  function Total(groups: seq<Group>): nat {
    if groups == [] then 0 else Total(groups[..|groups| - 1]) + groups[|groups| - 1].count
  }

  /** Each name once, with exactly its users, and no name left out. */
  predicate Grouped(reactions: seq<Reaction>, groups: seq<Group>) {
    && (forall i, j | 0 <= i < j < |groups| :: groups[i].name != groups[j].name)
    && (forall i | 0 <= i < |groups| ::
          groups[i].users == UsersOf(reactions, groups[i].name) && groups[i].count == |groups[i].users| > 0)
    && (forall r | r in reactions :: exists i | 0 <= i < |groups| :: groups[i].name == r.name)
  }

  function Position(groups: seq<Group>, name: string): (k: nat)
    ensures k <= |groups|
    ensures k < |groups| ==> groups[k].name == name
    ensures k == |groups| ==> forall i | 0 <= i < |groups| :: groups[i].name != name
  {
    if groups == [] then 0
    else if groups[0].name == name then 0
    else Position(groups[1..], name) + 1
  }

  function Added(groups: seq<Group>, r: Reaction): seq<Group> {
    var k := Position(groups, r.name);
    if k == |groups| then groups + [Group(r.name, [r.user], 1)]
    else groups[k := Group(r.name, groups[k].users + [r.user], groups[k].count + 1)]
  }

  lemma AddOne(reactions: seq<Reaction>, n: nat, groups: seq<Group>)
    requires n < |reactions| && Grouped(reactions[..n], groups) && Total(groups) == n
    ensures Grouped(reactions[..n + 1], Added(groups, reactions[n])) && Total(Added(groups, reactions[n])) == n + 1
  {
    AddKeepsGrouped(reactions[..n], groups, reactions[n]);
    assert reactions[..n] + [reactions[n]] == reactions[..n + 1];
    AddCounts(groups, reactions[n]);
  }

  /** `get_reactions_by_message_id`: no reaction is lost and none is counted twice. */
  method GetReactions(reactions: seq<Reaction>) returns (groups: seq<Group>)
    ensures Grouped(reactions, groups) && Total(groups) == |reactions|
  {
    groups := [];
    for n := 0 to |reactions|
      invariant Grouped(reactions[..n], groups) && Total(groups) == n
    {
      AddOne(reactions, n, groups);
      groups := Added(groups, reactions[n]);
    }
    assert reactions[..|reactions|] == reactions;
  }

  lemma {:induction false} NoUsers(reactions: seq<Reaction>, name: string)
    requires forall r | r in reactions :: r.name != name
    ensures UsersOf(reactions, name) == []
  {
    if reactions != [] {
      NoUsers(reactions[..|reactions| - 1], name);
    }
  }

  lemma AddKeepsGrouped(reactions: seq<Reaction>, groups: seq<Group>, r: Reaction)
    requires Grouped(reactions, groups)
    ensures Grouped(reactions + [r], Added(groups, r))
  {
    var all, next, k := reactions + [r], Added(groups, r), Position(groups, r.name);
    assert all[..|reactions|] == reactions;
    if k == |groups| {
      NoUsers(reactions, r.name);
    }
    forall i | 0 <= i < |next|
      ensures next[i].users == UsersOf(all, next[i].name) && next[i].count == |next[i].users| > 0
    {
      if i < |groups| {
        assert next[i].name == groups[i].name;
      }
    }
    forall x | x in all ensures exists i | 0 <= i < |next| :: next[i].name == x.name {
      if x == r {
        assert next[k].name == r.name;
      } else {
        var i :| 0 <= i < |groups| && groups[i].name == x.name;
        assert next[i].name == x.name;
      }
    }
  }

  lemma {:induction false} TotalUpdate(groups: seq<Group>, k: nat, g: Group)
    requires k < |groups|
    ensures Total(groups[k := g]) == Total(groups) - groups[k].count + g.count
  {
    var n := |groups| - 1;
    if k < n {
      TotalUpdate(groups[..n], k, g);
      assert groups[k := g][..n] == groups[..n][k := g];
    } else {
      assert groups[k := g][..n] == groups[..n];
    }
  }

  lemma AddCounts(groups: seq<Group>, r: Reaction)
    ensures Total(Added(groups, r)) == Total(groups) + 1
  {
    var k := Position(groups, r.name);
    if k < |groups| {
      TotalUpdate(groups, k, Group(r.name, groups[k].users + [r.user], groups[k].count + 1));
    } else {
      assert Added(groups, r)[..|groups|] == groups;
    }
  }
}
