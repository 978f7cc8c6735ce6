/** The per-traversal robots.txt cache (api/selfai_ui/browse/robots.py), as a protocol of concurrent
    lookups. Each step is what a lookup does between two suspension points: acquiring the lock of
    its origin, and fetching robots.txt. */
module Robots {

  import opened Wrappers

  type Origin = (string, string)
  type Lookup = nat

  /** What `browse_fetch` returned: no success or blank content, or text the robots parser accepts or
      not. */
  datatype Fetched = Nothing | Content(text: string, parses: bool)

  /** A parsed robots.txt, kept as its text, or "allow all". */
  datatype Answer = AllowAll | Rules(text: string)

  /** What gets cached for a fetch: rules if there are any and they can be parsed, else "allow all". */
  function AnswerOf(f: Fetched): Answer {
    if f.Content? && f.parses then Rules(f.text) else AllowAll
  }

  // ---------------------------------------------------------------------------------------------
  // The cache object
  // ---------------------------------------------------------------------------------------------

  /** `_parsers`, and `_locks` as the holder of each origin's lock. */
  datatype Cache = Cache(parsers: map<Origin, Answer>, locks: map<Origin, Option<Lookup>>) {
    function Get(o: Origin): Option<Answer> {
      if o in parsers then Some(parsers[o]) else None
    }

    /** The first check, outside the lock, and `setdefault` on the lock table. */
    function Touch(o: Origin): Cache {
      if o in parsers || o in locks then this else SetLock(o, None)
    }

    /** `async with lock` and the second check: a cached answer leaves the lock at once. */
    function Enter(p: Lookup, o: Origin): Cache {
      if o in parsers then this else SetLock(o, Some(p))
    }

    function SetLock(o: Origin, holder: Option<Lookup>): Cache {
      this.(locks := locks[o := holder])
    }

    function Put(o: Origin, answer: Answer): Cache {
      this.(parsers := parsers[o := answer])
    }
  }

  class RobotsCache {
    var parsers: map<Origin, Answer>
    var locks: map<Origin, Option<Lookup>>

    ghost function View(): Cache
      reads this
    {
      Cache(parsers, locks)
    }

    constructor ()
      ensures View() == Cache(map[], map[])
    {
      parsers, locks := map[], map[];
    }

    /** The part of `_parser_for` before the lock. */
    method Begin(o: Origin) returns (cached: Option<Answer>)
      modifies this
      ensures cached == old(View()).Get(o) && View() == old(View()).Touch(o)
    {
      if o in parsers {
        return Some(parsers[o]);
      }
      if o !in locks {
        locks := locks[o := None];
      }
      return None;
    }

    /** From entering the lock to the fetch, or to the return. */
    method Acquire(p: Lookup, o: Origin) returns (cached: Option<Answer>)
      requires o in locks && locks[o] == None
      modifies this
      ensures cached == old(View()).Get(o) && View() == old(View()).Enter(p, o)
    {
      locks := locks[o := Some(p)];
      if o in parsers {
        locks := locks[o := None];
        assert locks == old(locks);
        return Some(parsers[o]);
      }
      return None;
    }

    /** The fetch came back: parse, store the answer and leave the lock. */
    method Store(o: Origin, f: Fetched) returns (answer: Answer)
      requires o in locks
      modifies this
      ensures answer == AnswerOf(f) && View() == old(View()).Put(o, answer).SetLock(o, None)
    {
      answer := AllowAll;
      if f.Content? && f.parses {
        answer := Rules(f.text);
      }
      parsers := parsers[o := answer];
      locks := locks[o := None];
    }

    /** The fetch was cancelled: only the lock is released. */
    method Release(o: Origin)
      requires o in locks
      modifies this
      ensures View() == old(View()).SetLock(o, None)
    {
      locks := locks[o := None];
    }
  }

  // ---------------------------------------------------------------------------------------------
  // Concurrent lookups
  // ---------------------------------------------------------------------------------------------

  datatype Phase = Waiting | Fetching | Answered(answer: Answer) | Failed

  datatype Call = Call(origin: Origin, phase: Phase)

  /** `fetches` records the origin of every fetch that completed normally. */
  datatype World = World(cache: Cache, calls: map<Lookup, Call>, fetches: seq<Origin>)

  datatype Event =
    | Start(lookup: Lookup, origin: Origin)
    | Enter(lookup: Lookup)
    | FetchReturns(lookup: Lookup, fetched: Fetched)
    | FetchCancelled(lookup: Lookup)
    | WaitCancelled(lookup: Lookup)

  predicate InPhase(w: World, p: Lookup, phase: Phase) {
    p in w.calls && w.calls[p].phase == phase && w.calls[p].origin in w.cache.locks
  }

  /** Any waiting lookup may be the next to get a free lock. */
  predicate Enabled(w: World, e: Event) {
    match e
    case Start(p, _) => p !in w.calls
    case Enter(p) => InPhase(w, p, Waiting) && w.cache.locks[w.calls[p].origin] == None
    case FetchReturns(p, _) => InPhase(w, p, Fetching)
    case FetchCancelled(p) => InPhase(w, p, Fetching)
    case WaitCancelled(p) => InPhase(w, p, Waiting)
  }

  /** The phase of a lookup that has just looked into the cache. */
  function PhaseOf(cached: Option<Answer>, otherwise: Phase): Phase {
    if cached.Some? then Answered(cached.value) else otherwise
  }

  function SetPhase(w: World, p: Lookup, phase: Phase): World
    requires p in w.calls
  {
    w.(calls := w.calls[p := w.calls[p].(phase := phase)])
  }

  function Apply(w: World, e: Event): World
    requires Enabled(w, e)
  {
    match e
    case Start(p, o) =>
      w.(cache := w.cache.Touch(o), calls := w.calls[p := Call(o, PhaseOf(w.cache.Get(o), Waiting))])
    case Enter(p) =>
      var o := w.calls[p].origin;
      SetPhase(w, p, PhaseOf(w.cache.Get(o), Fetching)).(cache := w.cache.Enter(p, o))
    case FetchReturns(p, f) =>
      var o, answer := w.calls[p].origin, AnswerOf(f);
      SetPhase(w, p, Answered(answer)).(cache := w.cache.Put(o, answer).SetLock(o, None), fetches := w.fetches + [o])
    case FetchCancelled(p) =>
      SetPhase(w, p, Failed).(cache := w.cache.SetLock(w.calls[p].origin, None))
    case WaitCancelled(p) => SetPhase(w, p, Failed)
  }

  function Initial(): World {
    World(Cache(map[], map[]), map[], [])
  }

  predicate IsRun(worlds: seq<World>, events: seq<Event>) {
    && |worlds| == |events| + 1
    && worlds[0] == Initial()
    && forall i | 0 <= i < |events| :: Enabled(worlds[i], events[i]) && worlds[i + 1] == Apply(worlds[i], events[i])
  }

  // ---------------------------------------------------------------------------------------------
  // What every step keeps
  // ---------------------------------------------------------------------------------------------

  /** The lock of an origin is held by exactly the lookup that fetches for it. */
  predicate LockIsFetch(w: World) {
    && (forall p | p in w.calls && w.calls[p].phase == Fetching ::
          w.calls[p].origin in w.cache.locks && w.cache.locks[w.calls[p].origin] == Some(p))
    && (forall o | o in w.cache.locks && w.cache.locks[o].Some? ::
          var p := w.cache.locks[o].value; p in w.calls && w.calls[p] == Call(o, Fetching))
    && (forall p | p in w.calls && w.calls[p].phase == Waiting :: w.calls[p].origin in w.cache.locks)
  }

  /** A fetch has completed exactly for the cached origins, once each, and none of those is being
      fetched; every answer given is the cached one. */
  ghost predicate CacheIsFetched(w: World) {
    && (forall i, j | 0 <= i < j < |w.fetches| :: w.fetches[i] != w.fetches[j])
    && (forall o :: o in w.fetches <==> o in w.cache.parsers)
    && (forall p | p in w.calls && w.calls[p].phase == Fetching :: w.calls[p].origin !in w.cache.parsers)
    && (forall p | p in w.calls && w.calls[p].phase.Answered? ::
          w.calls[p].origin in w.cache.parsers && w.cache.parsers[w.calls[p].origin] == w.calls[p].phase.answer)
  }

  ghost predicate Safe(w: World) {
    LockIsFetch(w) && CacheIsFetched(w)
  }

  lemma LockIsFetchKept(w: World, e: Event)
    requires LockIsFetch(w) && Enabled(w, e)
    ensures LockIsFetch(Apply(w, e))
  {
  }

  lemma CacheIsFetchedKept(w: World, e: Event)
    requires Safe(w) && Enabled(w, e)
    ensures CacheIsFetched(Apply(w, e))
  {
    var v := Apply(w, e);
    match e
    case FetchReturns(p, _) =>
      forall q | q in v.calls && v.calls[q].phase == Fetching ensures v.calls[q].origin !in v.cache.parsers {
        assert w.cache.locks[w.calls[q].origin] == Some(q);
      }
    case _ =>
  }

  /** An answer, once cached, is never replaced. */
  lemma CacheOnlyGrows(w: World, e: Event)
    requires Safe(w) && Enabled(w, e)
    ensures forall o | o in w.cache.parsers ::
              o in Apply(w, e).cache.parsers && Apply(w, e).cache.parsers[o] == w.cache.parsers[o]
  {
  }

  lemma {:induction false} RunIsSafe(worlds: seq<World>, events: seq<Event>, i: nat)
    requires IsRun(worlds, events) && i <= |events|
    ensures Safe(worlds[i])
  {
    if i > 0 {
      RunIsSafe(worlds, events, i - 1);
      LockIsFetchKept(worlds[i - 1], events[i - 1]);
      CacheIsFetchedKept(worlds[i - 1], events[i - 1]);
    }
  }

  lemma {:induction false} CacheIsStable(worlds: seq<World>, events: seq<Event>, i: nat, j: nat, o: Origin)
    requires IsRun(worlds, events) && i <= j <= |events| && o in worlds[i].cache.parsers
    ensures o in worlds[j].cache.parsers && worlds[j].cache.parsers[o] == worlds[i].cache.parsers[o]
    decreases j
  {
    if i < j {
      CacheIsStable(worlds, events, i, j - 1, o);
      RunIsSafe(worlds, events, j - 1);
      CacheOnlyGrows(worlds[j - 1], events[j - 1]);
    }
  }

  /** MAIN RESULT. In every interleaving of lookups, cancellations included: at most one fetch per
      origin is in flight; at most one per origin ever completes; a cached answer never changes; and
      any two lookups of an origin, whenever they return, return the same answer. */
  lemma LookupProtocol(worlds: seq<World>, events: seq<Event>, i: nat, j: nat, p: Lookup, q: Lookup)
    requires IsRun(worlds, events) && i <= j <= |events|
    requires p in worlds[i].calls && q in worlds[j].calls && worlds[i].calls[p].origin == worlds[j].calls[q].origin
    ensures var a, b := worlds[i].calls[p].phase, worlds[j].calls[q].phase;
            && (i == j && a == Fetching && b == Fetching ==> p == q)
            && (a.Answered? && b.Answered? ==> a.answer == b.answer)
            && (a.Answered? ==> b != Fetching)
    ensures forall k, l | 0 <= k < l < |worlds[j].fetches| :: worlds[j].fetches[k] != worlds[j].fetches[l]
  {
    RunIsSafe(worlds, events, i);
    RunIsSafe(worlds, events, j);
    var o := worlds[i].calls[p].origin;
    if worlds[i].calls[p].phase.Answered? {
      CacheIsStable(worlds, events, i, j, o);
    }
  }

  // ---------------------------------------------------------------------------------------------
  // Which answer it is
  // ---------------------------------------------------------------------------------------------

  /** What a lookup does at each of its steps: a cached answer is given at once, before the lock and
      again behind it; otherwise the lookup waits, then fetches, and what comes back is the answer - the
      rules if there are any that parse, and "allow all" if not. */
  lemma LookupSteps(w: World, p: Lookup, o: Origin, f: Fetched)
    ensures p !in w.calls ==>
              Apply(w, Start(p, o)).calls[p].phase ==
              if o in w.cache.parsers then Answered(w.cache.parsers[o]) else Waiting
    ensures Enabled(w, Enter(p)) && w.calls[p].origin == o ==>
              Apply(w, Enter(p)).calls[p].phase ==
              if o in w.cache.parsers then Answered(w.cache.parsers[o]) else Fetching
    ensures Enabled(w, FetchReturns(p, f)) ==>
              Apply(w, FetchReturns(p, f)).calls[p].phase ==
              match f
              case Content(text, true) => Answered(Rules(text))
              case Content(_, false) => Answered(AllowAll)
              case Nothing => Answered(AllowAll)
    ensures Enabled(w, FetchCancelled(p)) ==> Apply(w, FetchCancelled(p)).calls[p].phase == Failed
    ensures Enabled(w, WaitCancelled(p)) ==> Apply(w, WaitCancelled(p)).calls[p].phase == Failed
  {
  }

  /** At step `k` a fetch for `o` comes back with `f`. */
  predicate FetchedAt(worlds: seq<World>, events: seq<Event>, k: nat, o: Origin, f: Fetched) {
    && k < |events| < |worlds| && events[k].FetchReturns? && events[k].fetched == f
    && events[k].lookup in worlds[k].calls && worlds[k].calls[events[k].lookup].origin == o
  }

  predicate Answers(f: Fetched, answer: Answer) {
    match f
    case Content(text, true) => answer == Rules(text)
    case Content(_, false) => answer == AllowAll
    case Nothing => answer == AllowAll
  }

  ghost predicate FetchedBefore(worlds: seq<World>, events: seq<Event>, i: nat, o: Origin, answer: Answer) {
    exists k, f | 0 <= k < i :: FetchedAt(worlds, events, k, o, f) && Answers(f, answer)
  }

  lemma CacheStep(w: World, e: Event, o: Origin)
    requires Safe(w) && Enabled(w, e) && o in Apply(w, e).cache.parsers
    ensures || (o in w.cache.parsers && Apply(w, e).cache.parsers[o] == w.cache.parsers[o])
            || (&& e.FetchReturns? && w.calls[e.lookup].origin == o
                && Answers(e.fetched, Apply(w, e).cache.parsers[o]))
  {
    CacheOnlyGrows(w, e);
  }

  lemma {:induction false} CachedIsFetched(worlds: seq<World>, events: seq<Event>, i: nat, o: Origin)
    requires IsRun(worlds, events) && i <= |events| && o in worlds[i].cache.parsers
    ensures FetchedBefore(worlds, events, i, o, worlds[i].cache.parsers[o])
  {
    if i > 0 {
      RunIsSafe(worlds, events, i - 1);
      CacheStep(worlds[i - 1], events[i - 1], o);
      if o in worlds[i - 1].cache.parsers && worlds[i].cache.parsers[o] == worlds[i - 1].cache.parsers[o] {
        CachedIsFetched(worlds, events, i - 1, o);
        var k, f :| 0 <= k < i - 1 && FetchedAt(worlds, events, k, o, f) && Answers(f, worlds[i - 1].cache.parsers[o]);
      } else {
        assert FetchedAt(worlds, events, i - 1, o, events[i - 1].fetched);
      }
    }
  }

  /** MAIN RESULT. Every answer a lookup gives is what an earlier fetch for its origin brought: the
      rules in the text if it parses, and "allow all" otherwise. */
  lemma AnswerIsFetched(worlds: seq<World>, events: seq<Event>, i: nat, p: Lookup)
    requires IsRun(worlds, events) && i <= |events| && p in worlds[i].calls && worlds[i].calls[p].phase.Answered?
    ensures FetchedBefore(worlds, events, i, worlds[i].calls[p].origin, worlds[i].calls[p].phase.answer)
  {
    RunIsSafe(worlds, events, i);
    CachedIsFetched(worlds, events, i, worlds[i].calls[p].origin);
  }

  // ---------------------------------------------------------------------------------------------
  // No lookup is stuck
  // ---------------------------------------------------------------------------------------------

  /** The event that moves lookup `p`, or the one it waits for, without any cancellation. */
  function Helper(w: World, p: Lookup): Event
    requires p in w.calls && w.calls[p].phase in {Waiting, Fetching} && LockIsFetch(w)
  {
    var o := w.calls[p].origin;
    if w.calls[p].phase == Fetching then FetchReturns(p, Nothing)
    else if w.cache.locks[o] == None then Enter(p)
    else FetchReturns(w.cache.locks[o].value, Nothing)
  }

  function Rank(phase: Phase): nat {
    if phase == Waiting then 2 else if phase == Fetching then 1 else 0
  }

  /** In every reachable state an unfinished lookup is at most one event from progress: the lookup
      itself or the holder of its lock can always take a step that no cancellation is part of. */
  lemma NeverStuck(worlds: seq<World>, events: seq<Event>, i: nat, p: Lookup)
    requires IsRun(worlds, events) && i <= |events|
    requires p in worlds[i].calls && worlds[i].calls[p].phase in {Waiting, Fetching}
    ensures LockIsFetch(worlds[i])
    ensures var w := worlds[i];
            var e := Helper(w, p);
            && Enabled(w, e)
            && e.lookup in w.calls && w.calls[e.lookup].origin == w.calls[p].origin
            && Rank(Apply(w, e).calls[e.lookup].phase) < Rank(w.calls[e.lookup].phase)
  {
    RunIsSafe(worlds, events, i);
  }
}
