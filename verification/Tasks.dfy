/** The registry of running tasks and their cancel hooks (api/selfai_ui/tasks.py), as a protocol:
    every step below is what one coroutine or callback does between two suspension points. */
module Tasks {

  type TaskId = nat
  type HookId = nat
  type StopId = nat

  // ---------------------------------------------------------------------------------------------
  // The two dictionaries
  // ---------------------------------------------------------------------------------------------

  /** `tasks` and `task_cancel_hooks`. */
  datatype Tables = Tables(tasks: set<TaskId>, hooks: map<TaskId, HookId>) {
    function Cleanup(id: TaskId): Tables { Tables(tasks - {id}, hooks - {id}) }
    function AddTask(id: TaskId): Tables { Tables(tasks + {id}, hooks) }
    function DropTask(id: TaskId): Tables { Tables(tasks - {id}, hooks) }
    function PutHook(id: TaskId, h: HookId): Tables { Tables(tasks, hooks[id := h]) }
    function DropHook(id: TaskId): Tables { Tables(tasks, hooks - {id}) }
  }

  /** The module's globals, with the operations that touch them. A handle stands for the
      `asyncio.Task` object; a coroutine runs the part of `stop_task` up to its next `await`. */
  class Registry {
    var tasks: map<TaskId, nat>
    var hooks: map<TaskId, HookId>

    ghost function View(): Tables
      reads this
    {
      Tables(tasks.Keys, hooks)
    }

    constructor ()
      ensures View() == Tables({}, map[])
    {
      tasks, hooks := map[], map[];
    }

    /** `cleanup_task`, the done callback */
    method CleanupTask(id: TaskId)
      modifies this
      ensures View() == old(View()).Cleanup(id)
    {
      tasks, hooks := tasks - {id}, hooks - {id};
      assert tasks.Keys == old(tasks.Keys) - {id};
    }

    /** `create_task` */
    method CreateTask(id: TaskId, handle: nat)
      modifies this
      ensures View() == old(View()).AddTask(id) && tasks[id] == handle
    {
      tasks := tasks[id := handle];
      assert tasks.Keys == old(tasks.Keys) + {id};
    }

    /** `register_cancel_hook` */
    method RegisterCancelHook(id: TaskId, hook: HookId)
      modifies this
      ensures View() == old(View()).PutHook(id, hook)
    {
      hooks := hooks[id := hook];
    }

    /** The synchronous head of `stop_task`: the lookup, and the pop in `_run_cancel_hook`. */
    method BeginStop(id: TaskId) returns (found: bool, taken: set<HookId>)
      modifies this
      ensures found <==> id in old(View()).tasks
      ensures taken == if found && id in old(hooks) then {old(hooks)[id]} else {}
      ensures View() == if found then old(View()).DropHook(id) else old(View())
    {
      found, taken := id in tasks, {};
      if found && id in hooks {
        taken := {hooks[id]};
      }
      if found {
        hooks := hooks - {id};
      }
    }

    /** The tail of `stop_task`, once the task has finished. */
    method EndStop(id: TaskId)
      modifies this
      ensures View() == old(View()).DropTask(id)
    {
      tasks := tasks - {id};
      assert tasks.Keys == old(tasks.Keys) - {id};
    }
  }

  // ---------------------------------------------------------------------------------------------
  // The event loop
  // ---------------------------------------------------------------------------------------------

  datatype Outcome = Returned | Cancelled | Failed

  datatype Status = Running | Finished(outcome: Outcome)

  /** Where a call of `stop_task` is: waiting for the hook, waiting for the task, or ended. */
  datatype Phase = HookWait | TaskWait | Succeeded | NotFound | Aborted

  datatype Stop = Stop(task: TaskId, begun: nat, phase: Phase)

  /** A call of `task.cancel()` by a stop, with the hook that was in the table at that moment. */
  datatype Request = Request(stop: StopId, hook: map<TaskId, HookId>)

  /** The tables and everything the event loop knows. `clock` counts steps; `registered`, `started`,
      `requests` and `late` are records of the past that no step reads. */
  datatype World = World(
    tables: Tables,
    status: map<TaskId, Status>,
    pending: set<TaskId>,
    stops: map<StopId, Stop>,
    clock: nat,
    registered: map<HookId, nat>,
    started: seq<HookId>,
    requests: seq<Request>,
    late: set<TaskId>)

  datatype Event =
    | Create(task: TaskId)
    | Register(task: TaskId, hook: HookId)
    | Complete(task: TaskId, outcome: Outcome)
    | Callback(task: TaskId)
    | BeginStop(stop: StopId, task: TaskId)
    | HookEnds(stop: StopId)
    | HookWaitCancelled(stop: StopId)
    | TaskWakes(stop: StopId)
    | TaskWaitCancelled(stop: StopId)

  function Initial(): World {
    World(Tables({}, map[]), map[], {}, map[], 0, map[], [], [], {})
  }

  predicate InPhase(w: World, s: StopId, phase: Phase) {
    s in w.stops && w.stops[s].phase == phase && w.stops[s].task in w.status
  }

  /** New ids are fresh; a wait is resumed only by what it waits for. */
  predicate Enabled(w: World, e: Event) {
    match e
    case Create(id) => id !in w.status
    case Register(_, h) => h !in w.registered
    case Complete(id, _) => id in w.status && w.status[id] == Running
    case Callback(id) => id in w.pending
    case BeginStop(s, id) => s !in w.stops && (id in w.tables.tasks ==> id in w.status)
    case HookEnds(s) => InPhase(w, s, HookWait)
    case HookWaitCancelled(s) => InPhase(w, s, HookWait)
    case TaskWakes(s) => InPhase(w, s, TaskWait) && w.status[w.stops[s].task].Finished?
    case TaskWaitCancelled(s) => InPhase(w, s, TaskWait)
  }

  function SetPhase(w: World, s: StopId, phase: Phase): World
    requires s in w.stops
  {
    w.(stops := w.stops[s := w.stops[s].(phase := phase)])
  }

  /** Leaving `stop_task` with success: the task is removed from the table. */
  function Succeed(w: World, s: StopId): World
    requires s in w.stops
  {
    SetPhase(w, s, Succeeded).(tables := w.tables.DropTask(w.stops[s].task))
  }

  /** `task.cancel()` and `await task`; awaiting a finished task does not suspend. */
  function RequestCancel(w: World, s: StopId): World
    requires s in w.stops && w.stops[s].task in w.status
  {
    var id := w.stops[s].task;
    var asked := w.(requests := w.requests + [Request(s, map h | h in w.tables.hooks && h == id :: w.tables.hooks[h])]);
    if w.status[id].Finished? then Succeed(asked, s) else SetPhase(asked, s, TaskWait)
  }

  function Apply(w: World, e: Event): World
    requires Enabled(w, e)
  {
    var v := w.(clock := w.clock + 1);
    match e
    case Create(id) => v.(tables := v.tables.AddTask(id), status := v.status[id := Running])
    case Register(id, h) =>
      v.(tables := v.tables.PutHook(id, h), registered := v.registered[h := w.clock],
         late := if id in v.status && v.status[id].Finished? && id !in v.pending then v.late + {id} else v.late)
    case Complete(id, o) => v.(status := v.status[id := Finished(o)], pending := v.pending + {id})
    case Callback(id) => v.(tables := v.tables.Cleanup(id), pending := v.pending - {id})
    case BeginStop(s, id) =>
      if id !in v.tables.tasks then v.(stops := v.stops[s := Stop(id, w.clock, NotFound)])
      else if id in v.tables.hooks then
        v.(stops := v.stops[s := Stop(id, w.clock, HookWait)],
           tables := v.tables.DropHook(id), started := v.started + [v.tables.hooks[id]])
      else RequestCancel(v.(stops := v.stops[s := Stop(id, w.clock, HookWait)]), s)
    case HookEnds(s) => RequestCancel(v, s)
    case HookWaitCancelled(s) => SetPhase(v, s, Aborted)
    case TaskWakes(s) => Succeed(v, s)
    case TaskWaitCancelled(s) =>
      if v.status[v.stops[s].task] == Finished(Cancelled) then Succeed(v, s) else SetPhase(v, s, Aborted)
  }

  predicate IsRun(worlds: seq<World>, events: seq<Event>) {
    && |worlds| == |events| + 1
    && worlds[0] == Initial()
    && forall i | 0 <= i < |events| :: Enabled(worlds[i], events[i]) && worlds[i + 1] == Apply(worlds[i], events[i])
  }

  // ---------------------------------------------------------------------------------------------
  // Hooks start at most once
  // ---------------------------------------------------------------------------------------------

  predicate Distinct<T(==)>(s: seq<T>) {
    forall i, j | 0 <= i < j < |s| :: s[i] != s[j]
  }

  /** A hook is in at most one place: waiting under one task, or started once. */
  predicate HooksOnce(w: World) {
    && Distinct(w.started)
    && (forall h | h in w.started :: h in w.registered)
    && (forall id | id in w.tables.hooks :: w.tables.hooks[id] in w.registered && w.tables.hooks[id] !in w.started)
    && (forall a, b | a in w.tables.hooks && b in w.tables.hooks && a != b :: w.tables.hooks[a] != w.tables.hooks[b])
  }

  lemma HooksOnceShrinks(w: World, v: World)
    requires HooksOnce(w) && v.started == w.started && v.registered == w.registered
    requires forall id | id in v.tables.hooks :: id in w.tables.hooks && v.tables.hooks[id] == w.tables.hooks[id]
    ensures HooksOnce(v)
  {
  }

  lemma HookTaken(w: World, v: World, id: TaskId)
    requires HooksOnce(w) && id in w.tables.hooks
    requires v.started == w.started + [w.tables.hooks[id]] && v.registered == w.registered
    requires v.tables.hooks == w.tables.hooks - {id}
    ensures HooksOnce(v)
  {
  }

  lemma HooksOnceKept(w: World, e: Event)
    requires HooksOnce(w) && Enabled(w, e)
    ensures HooksOnce(Apply(w, e))
  {
    var v := Apply(w, e);
    if e.BeginStop? && e.task in w.tables.tasks && e.task in w.tables.hooks {
      HookTaken(w, v, e.task);
    } else if !e.Register? {
      HooksOnceShrinks(w, v);
    }
  }

  // ---------------------------------------------------------------------------------------------
  // A stop asks for cancellation only after older hooks are gone
  // ---------------------------------------------------------------------------------------------

  predicate Begun(w: World) {
    && (forall h | h in w.registered :: w.registered[h] < w.clock)
    && (forall s | s in w.stops :: w.stops[s].begun < w.clock)
    && (forall id | id in w.tables.hooks :: w.tables.hooks[id] in w.registered)
  }

  /** Any hook under `id` was registered after step `t`. */
  predicate YoungHook(w: World, id: TaskId, t: nat) {
    id in w.tables.hooks ==> w.tables.hooks[id] in w.registered && w.registered[w.tables.hooks[id]] > t
  }

  /** From its first step on, a stop that found its task sees only hooks registered after it began. */
  predicate NoOlderHook(w: World) {
    forall s | s in w.stops && w.stops[s].phase != NotFound :: YoungHook(w, w.stops[s].task, w.stops[s].begun)
  }

  predicate RequestOk(w: World, r: Request) {
    && r.stop in w.stops
    && forall id | id in r.hook :: r.hook[id] in w.registered && w.registered[r.hook[id]] > w.stops[r.stop].begun
  }

  predicate RequestsOk(w: World) {
    forall r | r in w.requests :: RequestOk(w, r)
  }

  /** Stops keep their task and starting time, and hooks only disappear. */
  predicate OnlyShrinks(w: World, v: World) {
    && v.registered == w.registered
    && v.stops.Keys == w.stops.Keys
    && (forall s | s in v.stops :: v.stops[s].task == w.stops[s].task && v.stops[s].begun == w.stops[s].begun
                                   && (v.stops[s].phase == NotFound <==> w.stops[s].phase == NotFound))
    && (forall id | id in v.tables.hooks :: id in w.tables.hooks && v.tables.hooks[id] == w.tables.hooks[id])
  }

  lemma MostEventsOnlyShrink(w: World, e: Event)
    requires Enabled(w, e) && !e.Register? && !e.BeginStop?
    ensures OnlyShrinks(w, Apply(w, e))
  {
  }

  lemma ShrinkingKeepsYoung(w: World, v: World)
    requires NoOlderHook(w) && OnlyShrinks(w, v)
    ensures NoOlderHook(v)
  {
    forall s | s in v.stops && v.stops[s].phase != NotFound
      ensures YoungHook(v, v.stops[s].task, v.stops[s].begun)
    {
      assert YoungHook(w, w.stops[s].task, w.stops[s].begun);
    }
  }

  lemma BegunKept(w: World, e: Event)
    requires Begun(w) && Enabled(w, e)
    ensures Begun(Apply(w, e)) && Apply(w, e).clock == w.clock + 1
  {
    if !e.Register? && !e.BeginStop? {
      MostEventsOnlyShrink(w, e);
    }
  }

  /** A stop that begins takes the hook in the same step. */
  lemma BeginStopTakesHook(w: World, s: StopId, id: TaskId)
    requires NoOlderHook(w) && Enabled(w, BeginStop(s, id))
    ensures NoOlderHook(Apply(w, BeginStop(s, id)))
    ensures id in w.tables.tasks ==> id !in Apply(w, BeginStop(s, id)).tables.hooks
  {
    var v := Apply(w, BeginStop(s, id));
    assert v.registered == w.registered && v.stops.Keys == w.stops.Keys + {s};
    forall t | t in v.stops && v.stops[t].phase != NotFound
      ensures YoungHook(v, v.stops[t].task, v.stops[t].begun)
    {
      if t != s {
        assert YoungHook(w, w.stops[t].task, w.stops[t].begun);
      }
    }
  }

  lemma NoOlderHookKept(w: World, e: Event)
    requires Begun(w) && NoOlderHook(w) && Enabled(w, e)
    ensures NoOlderHook(Apply(w, e))
  {
    if e.BeginStop? {
      BeginStopTakesHook(w, e.stop, e.task);
    } else if e.Register? {
      var v := Apply(w, e);
      forall t | t in v.stops && v.stops[t].phase != NotFound
        ensures YoungHook(v, v.stops[t].task, v.stops[t].begun)
      {
        assert YoungHook(w, w.stops[t].task, w.stops[t].begun);
      }
    } else {
      MostEventsOnlyShrink(w, e);
      ShrinkingKeepsYoung(w, Apply(w, e));
    }
  }

  /** The requests a step adds: none, or one by the stop that the event is about. */
  lemma NewRequests(w: World, e: Event)
    requires Enabled(w, e)
    ensures var v := Apply(w, e);
            || v.requests == w.requests
            || ((e.BeginStop? || e.HookEnds?) && e.stop in v.stops && v.stops[e.stop].phase != NotFound
                && v.requests == w.requests + [Request(e.stop,
                     map h | h in v.tables.hooks && h == v.stops[e.stop].task :: v.tables.hooks[h])])
  {
  }

  lemma RequestsOkKept(w: World, e: Event)
    requires Begun(w) && NoOlderHook(w) && RequestsOk(w) && Enabled(w, e)
    ensures RequestsOk(Apply(w, e))
  {
    var v := Apply(w, e);
    NewRequests(w, e);
    NoOlderHookKept(w, e);
    BegunAndRegisteredStay(w, e);
    forall r | r in v.requests ensures RequestOk(v, r) {
      if r in w.requests {
        assert RequestOk(w, r);
      } else {
        assert YoungHook(v, v.stops[r.stop].task, v.stops[r.stop].begun);
      }
    }
  }

  lemma BegunAndRegisteredStay(w: World, e: Event)
    requires Enabled(w, e)
    ensures var v := Apply(w, e);
            && (forall h | h in w.registered :: h in v.registered && v.registered[h] == w.registered[h])
            && (forall s | s in w.stops ::
                  s in v.stops && v.stops[s].begun == w.stops[s].begun && v.stops[s].task == w.stops[s].task)
  {
    if !e.Register? && !e.BeginStop? {
      MostEventsOnlyShrink(w, e);
    }
  }

  // ---------------------------------------------------------------------------------------------
  // Success means finished, after exactly one request
  // ---------------------------------------------------------------------------------------------

  predicate SuccessIsFinished(w: World) {
    forall s | s in w.stops && w.stops[s].phase == Succeeded ::
      w.stops[s].task in w.status && w.status[w.stops[s].task].Finished?
  }

  lemma SuccessIsFinishedKept(w: World, e: Event)
    requires SuccessIsFinished(w) && Enabled(w, e)
    ensures SuccessIsFinished(Apply(w, e))
  {
    var v := Apply(w, e);
    assert forall id | id in w.status && w.status[id].Finished? :: id in v.status && v.status[id].Finished?;
  }

  function Askers(w: World): seq<StopId> {
    seq(|w.requests|, i requires 0 <= i < |w.requests| => w.requests[i].stop)
  }

  /** Each stop asks at most once; it has not asked while it waits for the hook, and has asked once
      it waits for the task or has succeeded. */
  predicate AsksOnce(w: World) {
    && Distinct(Askers(w))
    && (forall s | s in Askers(w) :: s in w.stops && w.stops[s].phase !in {HookWait, NotFound})
    && (forall s | s in w.stops && w.stops[s].phase in {TaskWait, Succeeded} :: s in Askers(w))
  }

  lemma AsksOnceKept(w: World, e: Event)
    requires AsksOnce(w) && Enabled(w, e)
    ensures AsksOnce(Apply(w, e))
  {
    var v := Apply(w, e);
    NewRequests(w, e);
    if v.requests == w.requests {
      assert Askers(v) == Askers(w);
    } else {
      assert Askers(v) == Askers(w) + [e.stop];
      assert e.stop !in Askers(w);
    }
  }

  // ---------------------------------------------------------------------------------------------
  // What is left in the tables
  // ---------------------------------------------------------------------------------------------

  predicate Done(w: World, id: TaskId) {
    id in w.status && w.status[id].Finished? && id !in w.pending
  }

  /** A finished task whose callback has run is out of the task table, and in the hook table exactly
      when a hook was registered for it after that. */
  predicate Settled(w: World) {
    && (forall id | id in w.tables.tasks :: id in w.status)
    && (forall id | id in w.pending :: id in w.status && w.status[id].Finished?)
    && (forall id | id in w.status && Done(w, id) :: id !in w.tables.tasks && (id in w.tables.hooks <==> id in w.late))
    && (forall id | id in w.late :: Done(w, id))
  }

  lemma SettledKept(w: World, e: Event)
    requires Settled(w) && Enabled(w, e)
    ensures Settled(Apply(w, e))
  {
    var v := Apply(w, e);
    if !e.Create? && !e.Register? && !e.Complete? && !e.Callback? {
      assert v.status == w.status && v.pending == w.pending && v.late == w.late;
      assert v.tables.tasks <= w.tables.tasks;
      forall id | id in v.status && Done(v, id)
        ensures id !in v.tables.tasks && (id in v.tables.hooks <==> id in v.late)
      {
        assert Done(w, id);
      }
    }
  }

  // ---------------------------------------------------------------------------------------------
  // Every run
  // ---------------------------------------------------------------------------------------------

  predicate Safe(w: World) {
    && HooksOnce(w) && Begun(w) && NoOlderHook(w) && RequestsOk(w)
    && SuccessIsFinished(w) && AsksOnce(w) && Settled(w)
  }

  lemma SafeKept(w: World, e: Event)
    requires Safe(w) && Enabled(w, e)
    ensures Safe(Apply(w, e))
  {
    HooksOnceKept(w, e);
    BegunKept(w, e);
    NoOlderHookKept(w, e);
    RequestsOkKept(w, e);
    SuccessIsFinishedKept(w, e);
    AsksOnceKept(w, e);
    SettledKept(w, e);
  }

  lemma {:induction false} RunIsSafe(worlds: seq<World>, events: seq<Event>, i: nat)
    requires IsRun(worlds, events) && i <= |events|
    ensures Safe(worlds[i])
  {
    if i > 0 {
      RunIsSafe(worlds, events, i - 1);
      SafeKept(worlds[i - 1], events[i - 1]);
    }
  }

  /** Event `j` registers a hook for a task whose done callback has already run. */
  predicate LateRegistration(worlds: seq<World>, events: seq<Event>, j: nat, id: TaskId)
    requires j < |events| < |worlds|
  {
    events[j].Register? && events[j].task == id && Done(worlds[j], id)
  }

  lemma LateStep(w: World, e: Event)
    requires Enabled(w, e)
    ensures Apply(w, e).late == if e.Register? && Done(w, e.task) then w.late + {e.task} else w.late
  {
  }

  lemma {:induction false} LateIsRecorded(worlds: seq<World>, events: seq<Event>, i: nat, id: TaskId)
    requires IsRun(worlds, events) && i <= |events|
    ensures id in worlds[i].late <==> exists j | 0 <= j < i :: LateRegistration(worlds, events, j, id)
  {
    if i > 0 {
      LateIsRecorded(worlds, events, i - 1, id);
      LateStep(worlds[i - 1], events[i - 1]);
      assert id in worlds[i].late <==> id in worlds[i - 1].late || LateRegistration(worlds, events, i - 1, id);
    }
  }

  /** MAIN RESULT. In every interleaving of creations, hook registrations, completions, callbacks and
      concurrent stops: each registered hook starts at most once; a stop asks for cancellation at
      most once, and when it does, no hook registered before it began is still waiting; a stop
      succeeds only after asking, and only for a finished task; and once a finished task's callback has
      run, the task is in neither table - except that a hook stays exactly when it was registered
      after that callback. */
  lemma StopProtocol(worlds: seq<World>, events: seq<Event>, i: nat)
    requires IsRun(worlds, events) && i <= |events|
    ensures var w := worlds[i];
            && Distinct(w.started)
            && Distinct(Askers(w))
            && (forall r | r in w.requests :: RequestOk(w, r))
            && (forall s | s in w.stops && w.stops[s].phase == Succeeded ::
                  s in Askers(w) && w.stops[s].task in w.status && w.status[w.stops[s].task].Finished?)
            && (forall id | id in w.status && Done(w, id) ::
                  && id !in w.tables.tasks
                  && (id in w.tables.hooks <==> exists j | 0 <= j < i :: LateRegistration(worlds, events, j, id)))
  {
    RunIsSafe(worlds, events, i);
    var w := worlds[i];
    forall id | id in w.status && Done(w, id)
      ensures id in w.tables.hooks <==> exists j | 0 <= j < i :: LateRegistration(worlds, events, j, id)
    {
      LateIsRecorded(worlds, events, i, id);
    }
  }

  /** When hooks are only ever registered for listed tasks, no finished task stays in either table
      once the callbacks have run. */
  lemma NothingLeaks(worlds: seq<World>, events: seq<Event>, i: nat, id: TaskId)
    requires IsRun(worlds, events) && i <= |events|
    requires forall j | 0 <= j < i && events[j].Register? :: events[j].task in worlds[j].tables.tasks
    requires worlds[i].pending == {} && id in worlds[i].status && worlds[i].status[id].Finished?
    ensures id !in worlds[i].tables.tasks && id !in worlds[i].tables.hooks
  {
    StopProtocol(worlds, events, i);
    forall j | 0 <= j < i ensures !LateRegistration(worlds, events, j, id) {
      RunIsSafe(worlds, events, j);
    }
    assert Done(worlds[i], id);
  }

  /** Without that discipline a hook leaks: it is registered after the callback and no step can
      take it out again. */
  lemma LateHookLeaks()
    ensures var e := [Create(0), Complete(0, Returned), Callback(0), Register(0, 7)];
            var w1 := Apply(Initial(), e[0]);
            && Enabled(w1, e[1]) && var w2 := Apply(w1, e[1]);
            && Enabled(w2, e[2]) && var w3 := Apply(w2, e[2]);
            && Enabled(w3, e[3]) && var w4 := Apply(w3, e[3]);
            && w4.pending == {} && w4.status[0] == Finished(Returned) && 0 in w4.tables.hooks
  {
  }

  lemma LateHookStays(w: World, e: Event, id: TaskId)
    requires Settled(w) && Enabled(w, e) && Done(w, id) && id in w.tables.hooks
    ensures id in Apply(w, e).tables.hooks && Done(Apply(w, e), id)
  {
    assert id !in w.tables.tasks;
  }

  // ---------------------------------------------------------------------------------------------
  // What does happen: the fate of every stop
  // ---------------------------------------------------------------------------------------------

  predicate BeginsAt(events: seq<Event>, j: nat, s: StopId) {
    j < |events| && events[j].BeginStop? && events[j].stop == s
  }

  /** The stop asks for cancellation at step `j`: its hook is over, or there was none. */
  predicate AsksAt(worlds: seq<World>, events: seq<Event>, j: nat, s: StopId)
    requires |events| < |worlds|
  {
    && j < |events|
    && (|| events[j] == HookEnds(s)
        || (&& BeginsAt(events, j, s) && events[j].task in worlds[j].tables.tasks
            && events[j].task !in worlds[j].tables.hooks))
  }

  /** The stop's own wait is cancelled at step `j`, and the task has not ended cancelled. */
  predicate GivesUpAt(worlds: seq<World>, events: seq<Event>, j: nat, s: StopId)
    requires |events| < |worlds|
  {
    && j < |events|
    && (|| events[j] == HookWaitCancelled(s)
        || (&& events[j] == TaskWaitCancelled(s) && s in worlds[j].stops
            && (worlds[j].stops[s].task in worlds[j].status ==>
                  worlds[j].status[worlds[j].stops[s].task] != Finished(Cancelled))))
  }

  /** The stop finds no such task at step `j`. */
  predicate MissesAt(worlds: seq<World>, events: seq<Event>, j: nat, s: StopId)
    requires |events| < |worlds|
  {
    j < |events| && BeginsAt(events, j, s) && events[j].task !in worlds[j].tables.tasks
  }

  predicate FinishedAt(w: World, id: TaskId) {
    id in w.status && w.status[id].Finished?
  }

  /** The stop reports success at step `j`: it asks when the task is already over, it is woken by the
      end of the task, or its wait is cancelled after the task has ended cancelled. */
  predicate SucceedsAt(worlds: seq<World>, events: seq<Event>, j: nat, s: StopId)
    requires |events| < |worlds|
  {
    && j < |events|
    && (|| events[j] == TaskWakes(s)
        || (BeginsAt(events, j, s) && AsksAt(worlds, events, j, s) && FinishedAt(worlds[j], events[j].task))
        || (&& s in worlds[j].stops
            && (|| (events[j] == HookEnds(s) && FinishedAt(worlds[j], worlds[j].stops[s].task))
                || (&& events[j] == TaskWaitCancelled(s) && worlds[j].stops[s].task in worlds[j].status
                    && worlds[j].status[worlds[j].stops[s].task] == Finished(Cancelled)))))
  }

  predicate HasPhase(w: World, s: StopId, phase: Phase) {
    s in w.stops && w.stops[s].phase == phase
  }

  /** What step `j` does to stop `s`. */
  predicate Stepped(worlds: seq<World>, events: seq<Event>, j: nat, s: StopId)
    requires |events| < |worlds|
  {
    && j < |events|
    && (s in Askers(worlds[j + 1]) <==> s in Askers(worlds[j]) || AsksAt(worlds, events, j, s))
    && (HasPhase(worlds[j + 1], s, Aborted) <==> HasPhase(worlds[j], s, Aborted) || GivesUpAt(worlds, events, j, s))
    && (HasPhase(worlds[j + 1], s, NotFound) <==> HasPhase(worlds[j], s, NotFound) || MissesAt(worlds, events, j, s))
    && (HasPhase(worlds[j + 1], s, Succeeded) <==>
          HasPhase(worlds[j], s, Succeeded) || SucceedsAt(worlds, events, j, s))
  }

  lemma StopStep(worlds: seq<World>, events: seq<Event>, j: nat, s: StopId)
    requires IsRun(worlds, events) && j < |events|
    ensures Stepped(worlds, events, j, s)
  {
    var w, v, e := worlds[j], worlds[j + 1], events[j];
    assert Enabled(w, e) && v == Apply(w, e);
    AskersStep(w, e, s);
    PhaseStep(w, e, s);
    SuccessStep(w, e, s);
  }

  lemma SuccessStep(w: World, e: Event, s: StopId)
    requires Enabled(w, e)
    ensures HasPhase(Apply(w, e), s, Succeeded) <==>
              || HasPhase(w, s, Succeeded) || e == TaskWakes(s)
              || (&& e.BeginStop? && e.stop == s && e.task in w.tables.tasks && e.task !in w.tables.hooks
                  && FinishedAt(w, e.task))
              || (e == HookEnds(s) && FinishedAt(w, w.stops[s].task))
              || (e == TaskWaitCancelled(s) && w.status[w.stops[s].task] == Finished(Cancelled))
  {
  }

  /** Which event takes a stop into which end. */
  lemma PhaseStep(w: World, e: Event, s: StopId)
    requires Enabled(w, e)
    ensures var v := Apply(w, e);
            && (s in v.stops <==> s in w.stops || (e.BeginStop? && e.stop == s))
            && (HasPhase(v, s, Aborted) <==>
                  || HasPhase(w, s, Aborted) || e == HookWaitCancelled(s)
                  || (e == TaskWaitCancelled(s) && w.status[w.stops[s].task] != Finished(Cancelled)))
            && (HasPhase(v, s, NotFound) <==>
                  HasPhase(w, s, NotFound) || (e.BeginStop? && e.stop == s && e.task !in w.tables.tasks))
  {
  }

  lemma AskersStep(w: World, e: Event, s: StopId)
    requires Enabled(w, e)
    ensures s in Askers(Apply(w, e)) <==>
              || s in Askers(w) || e == HookEnds(s)
              || (e.BeginStop? && e.stop == s && e.task in w.tables.tasks && e.task !in w.tables.hooks)
  {
    var v := Apply(w, e);
    if e.HookEnds? || (e.BeginStop? && e.task in w.tables.tasks && e.task !in w.tables.hooks) {
      assert Askers(v) == Askers(w) + [e.stop];
    } else {
      assert v.requests == w.requests;
      assert Askers(v) == Askers(w);
    }
  }

  lemma {:induction false} AskHistory(worlds: seq<World>, events: seq<Event>, i: nat, s: StopId)
    requires i <= |events| < |worlds| && forall j | 0 <= j < i :: Stepped(worlds, events, j, s)
    requires !(s in Askers(worlds[0]))
    ensures s in Askers(worlds[i]) <==> exists j | 0 <= j < i :: AsksAt(worlds, events, j, s)
  {
    if i > 0 {
      AskHistory(worlds, events, i - 1, s);
      assert Stepped(worlds, events, i - 1, s);
    }
  }

  lemma {:induction false} GiveUpHistory(worlds: seq<World>, events: seq<Event>, i: nat, s: StopId)
    requires i <= |events| < |worlds| && forall j | 0 <= j < i :: Stepped(worlds, events, j, s)
    requires !(HasPhase(worlds[0], s, Aborted))
    ensures HasPhase(worlds[i], s, Aborted) <==> exists j | 0 <= j < i :: GivesUpAt(worlds, events, j, s)
  {
    if i > 0 {
      GiveUpHistory(worlds, events, i - 1, s);
      assert Stepped(worlds, events, i - 1, s);
    }
  }

  lemma {:induction false} MissHistory(worlds: seq<World>, events: seq<Event>, i: nat, s: StopId)
    requires i <= |events| < |worlds| && forall j | 0 <= j < i :: Stepped(worlds, events, j, s)
    requires !(HasPhase(worlds[0], s, NotFound))
    ensures HasPhase(worlds[i], s, NotFound) <==> exists j | 0 <= j < i :: MissesAt(worlds, events, j, s)
  {
    if i > 0 {
      MissHistory(worlds, events, i - 1, s);
      assert Stepped(worlds, events, i - 1, s);
    }
  }

  lemma {:induction false} SuccessHistory(worlds: seq<World>, events: seq<Event>, i: nat, s: StopId)
    requires i <= |events| < |worlds| && forall j | 0 <= j < i :: Stepped(worlds, events, j, s)
    requires !(HasPhase(worlds[0], s, Succeeded))
    ensures HasPhase(worlds[i], s, Succeeded) <==> exists j | 0 <= j < i :: SucceedsAt(worlds, events, j, s)
  {
    if i > 0 {
      SuccessHistory(worlds, events, i - 1, s);
      assert Stepped(worlds, events, i - 1, s);
    }
  }

  lemma StopHistory(worlds: seq<World>, events: seq<Event>, i: nat, s: StopId)
    requires IsRun(worlds, events) && i <= |events|
    ensures s in Askers(worlds[i]) <==> exists j | 0 <= j < i :: AsksAt(worlds, events, j, s)
    ensures HasPhase(worlds[i], s, Aborted) <==> exists j | 0 <= j < i :: GivesUpAt(worlds, events, j, s)
    ensures HasPhase(worlds[i], s, NotFound) <==> exists j | 0 <= j < i :: MissesAt(worlds, events, j, s)
    ensures HasPhase(worlds[i], s, Succeeded) <==> exists j | 0 <= j < i :: SucceedsAt(worlds, events, j, s)
  {
    forall j | 0 <= j < i ensures Stepped(worlds, events, j, s) {
      StopStep(worlds, events, j, s);
    }
    assert worlds[0].stops == map[] && Askers(worlds[0]) == [];
    AskHistory(worlds, events, i, s);
    GiveUpHistory(worlds, events, i, s);
    MissHistory(worlds, events, i, s);
    SuccessHistory(worlds, events, i, s);
  }

  /** MAIN RESULT. In every run each stop goes its way: it fails with "not found" exactly when its task
      was not listed as it began; it asks for cancellation exactly when its hook is over, or at once if
      there is none; it is abandoned exactly when its own wait is cancelled and the task has not ended
      cancelled; it succeeds exactly when it asks or is woken and the task is over, or its wait is
      cancelled after the task has ended cancelled, and then its task is listed no more; past its hook
      it has asked. */
  lemma StopFate(worlds: seq<World>, events: seq<Event>, i: nat, s: StopId)
    requires IsRun(worlds, events) && i <= |events|
    ensures var w := worlds[i];
            && (HasPhase(w, s, NotFound) <==> exists j | 0 <= j < i :: MissesAt(worlds, events, j, s))
            && (s in Askers(w) <==> exists j | 0 <= j < i :: AsksAt(worlds, events, j, s))
            && (HasPhase(w, s, Aborted) <==> exists j | 0 <= j < i :: GivesUpAt(worlds, events, j, s))
            && (HasPhase(w, s, Succeeded) <==> exists j | 0 <= j < i :: SucceedsAt(worlds, events, j, s))
            && (s in w.stops && w.stops[s].phase !in {NotFound, Aborted, HookWait} ==> s in Askers(w))
            && (HasPhase(w, s, Succeeded) ==> w.stops[s].task !in w.tables.tasks)
  {
    StopHistory(worlds, events, i, s);
    RunIsSafe(worlds, events, i);
    ListedExactly(worlds, events, i);
  }

  /** A task is listed from its creation until its callback runs or a stop of it succeeds. */
  predicate Listed(w: World) {
    && (forall id | id in w.tables.tasks :: id in w.status && !Done(w, id))
    && (forall s | s in w.stops && w.stops[s].phase == Succeeded ::
          w.stops[s].task in w.status && w.stops[s].task !in w.tables.tasks)
    && (forall id | id in w.status && !Done(w, id) && id !in w.tables.tasks :: SomeSucceeded(w, id))
  }

  predicate SomeSucceeded(w: World, id: TaskId) {
    exists s | s in w.stops :: w.stops[s].phase == Succeeded && w.stops[s].task == id
  }

  lemma SucceededStays(w: World, e: Event, id: TaskId)
    requires Enabled(w, e) && SomeSucceeded(w, id)
    ensures SomeSucceeded(Apply(w, e), id)
  {
    var s :| s in w.stops && w.stops[s].phase == Succeeded && w.stops[s].task == id;
    var v := Apply(w, e);
    assert s in v.stops && v.stops[s] == w.stops[s];
  }

  /** A task leaves the table unfinished business only when a stop of it succeeds. */
  lemma UnlistedBySuccess(w: World, e: Event, id: TaskId)
    requires Enabled(w, e) && id in w.tables.tasks && id !in Apply(w, e).tables.tasks && e != Callback(id)
    ensures SomeSucceeded(Apply(w, e), id)
  {
    var v := Apply(w, e);
    assert e.BeginStop? || e.HookEnds? || e.TaskWakes? || e.TaskWaitCancelled?;
    assert e.stop in v.stops && v.stops[e.stop].phase == Succeeded && v.stops[e.stop].task == id;
  }

  lemma SuccessUnlists(w: World, e: Event)
    requires Settled(w) && Listed(w) && Enabled(w, e)
    ensures forall s | s in Apply(w, e).stops && Apply(w, e).stops[s].phase == Succeeded ::
              Apply(w, e).stops[s].task in Apply(w, e).status && Apply(w, e).stops[s].task !in Apply(w, e).tables.tasks
  {
  }

  lemma ListedKept(w: World, e: Event)
    requires Settled(w) && Listed(w) && Enabled(w, e)
    ensures Listed(Apply(w, e))
  {
    var v := Apply(w, e);
    SettledKept(w, e);
    SuccessUnlists(w, e);
    forall id | id in v.status && !Done(v, id) && id !in v.tables.tasks ensures SomeSucceeded(v, id) {
      if id in w.tables.tasks {
        UnlistedBySuccess(w, e, id);
      } else {
        SucceededStays(w, e, id);
      }
    }
  }

  lemma {:induction false} ListedExactly(worlds: seq<World>, events: seq<Event>, i: nat)
    requires IsRun(worlds, events) && i <= |events|
    ensures Listed(worlds[i])
    ensures forall id :: id in worlds[i].tables.tasks <==>
              id in worlds[i].status && !Done(worlds[i], id) && !SomeSucceeded(worlds[i], id)
  {
    if i > 0 {
      ListedExactly(worlds, events, i - 1);
      RunIsSafe(worlds, events, i - 1);
      ListedKept(worlds[i - 1], events[i - 1]);
    }
  }

  // ---------------------------------------------------------------------------------------------
  // What does happen: the fate of every hook
  // ---------------------------------------------------------------------------------------------

  predicate RegistersAt(events: seq<Event>, j: nat, id: TaskId) {
    j < |events| && events[j].Register? && events[j].task == id
  }

  /** A stop finds its task listed at step `j`. */
  predicate FindsAt(worlds: seq<World>, events: seq<Event>, j: nat, id: TaskId)
    requires |events| < |worlds|
  {
    j < |events| && events[j].BeginStop? && events[j].task == id && id in worlds[j].tables.tasks
  }

  /** Step `j` ends the waiting of any hook under `id`. */
  predicate EndsWaitAt(worlds: seq<World>, events: seq<Event>, j: nat, id: TaskId)
    requires |events| < |worlds|
  {
    RegistersAt(events, j, id) || FindsAt(worlds, events, j, id) || (j < |events| && events[j] == Callback(id))
  }

  predicate Waiting(w: World, id: TaskId, h: HookId) {
    id in w.tables.hooks && w.tables.hooks[id] == h
  }

  lemma HookStep(worlds: seq<World>, events: seq<Event>, j: nat, id: TaskId, h: HookId)
    requires IsRun(worlds, events) && j < |events|
    ensures Waiting(worlds[j + 1], id, h) <==>
              events[j] == Register(id, h) || (Waiting(worlds[j], id, h) && !EndsWaitAt(worlds, events, j, id))
    ensures h in worlds[j + 1].started <==>
              || h in worlds[j].started
              || (&& events[j].BeginStop? && FindsAt(worlds, events, j, events[j].task)
                  && Waiting(worlds[j], events[j].task, h))
  {
    StartedStep(worlds[j], events[j], h);
    WaitingStep(worlds[j], events[j], id, h);
  }

  lemma WaitingStep(w: World, e: Event, id: TaskId, h: HookId)
    requires Enabled(w, e)
    ensures Waiting(Apply(w, e), id, h) <==>
              || e == Register(id, h)
              || (&& Waiting(w, id, h) && !(e.Register? && e.task == id) && e != Callback(id)
                  && !(e.BeginStop? && e.task == id && id in w.tables.tasks))
  {
  }

  /** A registered hook waits from its registration until the next event that ends its wait. */
  lemma {:induction false} HookWaits(worlds: seq<World>, events: seq<Event>, j: nat, i: nat, id: TaskId, h: HookId)
    requires IsRun(worlds, events) && j < i <= |events| && events[j] == Register(id, h)
    requires forall k | j < k < i :: !EndsWaitAt(worlds, events, k, id)
    ensures Waiting(worlds[i], id, h)
    decreases i
  {
    HookStep(worlds, events, i - 1, id, h);
    if j < i - 1 {
      HookWaits(worlds, events, j, i - 1, id, h);
    }
  }

  lemma {:induction false} StartedStays(worlds: seq<World>, events: seq<Event>, i: nat, k: nat, h: HookId)
    requires IsRun(worlds, events) && k <= i <= |events| && h in worlds[k].started
    ensures h in worlds[i].started
    decreases i
  {
    if k < i {
      StartedStays(worlds, events, i - 1, k, h);
      StartedGrows(worlds[i - 1], events[i - 1]);
    }
  }

  lemma StartedGrows(w: World, e: Event)
    requires Enabled(w, e)
    ensures w.started <= Apply(w, e).started
  {
  }

  /** MAIN RESULT. A hook registered at step `j` is waiting at step `i`, or the first event that ended
      its wait decides: a later registration for the task replaced it, the task's callback dropped it,
      or a stop that found the task took it - and then it was started. */
  lemma {:induction false} HookFate(worlds: seq<World>, events: seq<Event>, j: nat, i: nat, id: TaskId, h: HookId)
    requires IsRun(worlds, events) && j < i <= |events| && events[j] == Register(id, h)
    ensures || (Waiting(worlds[i], id, h) && forall k | j < k < i :: !EndsWaitAt(worlds, events, k, id))
            || (exists k | j < k < i :: FirstEnd(worlds, events, j, k, id)
                  && (|| RegistersAt(events, k, id)
                      || events[k] == Callback(id)
                      || (FindsAt(worlds, events, k, id) && h in worlds[k + 1].started && h in worlds[i].started)))
    decreases i
  {
    if forall k | j < k < i :: !EndsWaitAt(worlds, events, k, id) {
      HookWaits(worlds, events, j, i, id, h);
    } else {
      var k := FirstEndAfter(worlds, events, j, i, id);
      HookWaits(worlds, events, j, k, id, h);
      HookStep(worlds, events, k, id, h);
      if FindsAt(worlds, events, k, id) {
        StartedStays(worlds, events, i, k + 1, h);
      }
    }
  }

  /** Step `k` is the first after `j` that ends a wait under `id`. */
  predicate FirstEnd(worlds: seq<World>, events: seq<Event>, j: nat, k: nat, id: TaskId)
    requires |events| < |worlds|
  {
    j < k && EndsWaitAt(worlds, events, k, id) && forall m | j < m < k :: !EndsWaitAt(worlds, events, m, id)
  }

  lemma {:induction false} FirstEndAfter(worlds: seq<World>, events: seq<Event>, j: nat, i: nat, id: TaskId)
    returns (k: nat)
    requires |events| < |worlds| && exists m | j < m < i :: EndsWaitAt(worlds, events, m, id)
    ensures j < k < i && FirstEnd(worlds, events, j, k, id)
    decreases i
  {
    var m :| j < m < i && EndsWaitAt(worlds, events, m, id);
    if exists n | j < n < m :: EndsWaitAt(worlds, events, n, id) {
      k := FirstEndAfter(worlds, events, j, m, id);
    } else {
      k := m;
    }
  }

  /** And nothing else is ever started: a started hook was waiting when a stop found its task. */
  lemma {:induction false} StartedIsFound(worlds: seq<World>, events: seq<Event>, i: nat, h: HookId)
    requires IsRun(worlds, events) && i <= |events|
    ensures h in worlds[i].started <==>
              exists k | 0 <= k < i :: events[k].BeginStop? && FindsAt(worlds, events, k, events[k].task)
                                       && Waiting(worlds[k], events[k].task, h)
  {
    if i > 0 {
      StartedIsFound(worlds, events, i - 1, h);
      StartedStep(worlds[i - 1], events[i - 1], h);
    }
  }

  lemma StartedStep(w: World, e: Event, h: HookId)
    requires Enabled(w, e)
    ensures h in Apply(w, e).started <==>
              h in w.started || (e.BeginStop? && e.task in w.tables.tasks && Waiting(w, e.task, h))
  {
  }
}
