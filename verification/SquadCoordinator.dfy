/** Execution of a mission plan by a squad of agents (lib/squad-coordinator.ts): the sequential mode,
    the parallel mode whose task runs interleave at every await, and the breadth-first propagation of
    skips. Both modes are proved against one outcome map, for `continueOnFailure` = true. */
module SquadCoordinator {

  type TaskId = string

  datatype Role = Oracle | Atlas | Sentinel | Verifier | Archivist | Synth | Curator

  datatype Status = Pending | Running | Succeeded | Failed | Skipped

  datatype Task = Task(id: TaskId, role: Role, deps: seq<TaskId>)

  datatype TaskResult = TaskResult(taskId: TaskId, status: Status)

  /** The registered roles, and what the agent does with each task: `ok` is an arbitrary oracle. */
  datatype Squad = Squad(roles: set<Role>, ok: TaskId -> bool) {
    predicate Works(t: Task) { t.role in roles && ok(t.id) }
  }

  type Plan = seq<Task>

  predicate UniqueIds(plan: Plan) {
    forall i, j :: 0 <= i < j < |plan| ==> plan[i].id != plan[j].id
  }

  function Ids(plan: Plan): set<TaskId> { set t | t in plan :: t.id }

  lemma SameTask(plan: Plan, s: Task, t: Task)
    requires UniqueIds(plan) && s in plan && t in plan && s.id == t.id
    ensures s == t
  {
  }

  // ----- The outcome every run must reach: a least fixpoint -----

  predicate DepsIn(t: Task, done: set<TaskId>) {
    forall d :: d in t.deps ==> d in done
  }

  ghost predicate RunClosed(plan: Plan, squad: Squad, done: set<TaskId>) {
    forall t :: t in plan && DepsIn(t, done) && squad.Works(t) ==> t.id in done
  }

  /** The least set that contains every working task whose dependencies it contains. */
  ghost function WillSucceed(plan: Plan, squad: Squad): set<TaskId> {
    set t | t in plan && (forall done: set<TaskId> :: RunClosed(plan, squad, done) ==> t.id in done) :: t.id
  }

  lemma WillSucceedIsClosed(plan: Plan, squad: Squad)
    ensures RunClosed(plan, squad, WillSucceed(plan, squad))
  {
    var least := WillSucceed(plan, squad);
    forall t | t in plan && DepsIn(t, least) && squad.Works(t) ensures t.id in least {
      forall done: set<TaskId> | RunClosed(plan, squad, done) ensures t.id in done {
        assert DepsIn(t, done);
      }
    }
  }

  lemma WillSucceedIsLeast(plan: Plan, squad: Squad, done: set<TaskId>)
    requires RunClosed(plan, squad, done)
    ensures WillSucceed(plan, squad) <= done
  {
  }

  /** A task succeeds exactly when it works and all its dependencies succeed. */
  lemma WillSucceedExactly(plan: Plan, squad: Squad, t: Task)
    requires UniqueIds(plan) && t in plan
    ensures t.id in WillSucceed(plan, squad) <==> squad.Works(t) && DepsIn(t, WillSucceed(plan, squad))
  {
    var least := WillSucceed(plan, squad);
    WillSucceedIsClosed(plan, squad);
    if t.id in least && !(squad.Works(t) && DepsIn(t, least)) {
      var smaller := least - {t.id};
      forall s | s in plan && DepsIn(s, smaller) && squad.Works(s) ensures s.id in smaller {
        assert DepsIn(s, least);
        if s.id == t.id { SameTask(plan, s, t); }
      }
      WillSucceedIsLeast(plan, squad, smaller);
      assert false;
    }
  }

  function OutcomeOf(squad: Squad, t: Task, available: set<TaskId>): Status {
    if !DepsIn(t, available) then Skipped else if squad.Works(t) then Succeeded else Failed
  }

  ghost predicate IsOutcome(plan: Plan, squad: Squad, outcome: map<TaskId, Status>) {
    && outcome.Keys == Ids(plan)
    && forall t :: t in plan ==> outcome[t.id] == OutcomeOf(squad, t, WillSucceed(plan, squad))
  }

  // ----- What a run may do on its way to a goal -----

  /** `goal` assigns a final status to every task and skips whatever depends on a non-success. */
  ghost predicate Consistent(plan: Plan, squad: Squad, goal: map<TaskId, Status>) {
    && UniqueIds(plan) && goal.Keys == Ids(plan)
    && forall t :: t in plan ==> GoalFits(squad, goal, t)
  }

  ghost predicate GoalFits(squad: Squad, goal: map<TaskId, Status>, t: Task) {
    && t.id in goal
    && (goal[t.id] == Skipped || goal[t.id] == if squad.Works(t) then Succeeded else Failed)
    && (goal[t.id] != Skipped ==> forall d :: d in t.deps ==> d in goal && goal[d] == Succeeded)
  }

  /** Where a started task is suspended: in the start hook, in the agent, or in the completion hook. */
  datatype Pc = InStartHook | InAgent | InEndHook

  predicate Ready(t: Task, status: map<TaskId, Status>) {
    forall d :: d in t.deps ==> d in status && status[d] == Succeeded
  }

  ghost predicate TaskOnTrack(squad: Squad, goal: map<TaskId, Status>, status: map<TaskId, Status>,
                              flight: map<TaskId, Pc>, t: Task)
    requires t.id in status && t.id in goal
  {
    && (status[t.id].Pending? && t.id in flight ==>
          flight[t.id].InStartHook? && t.role in squad.roles && Ready(t, status) && goal[t.id] != Skipped)
    && (status[t.id].Running? ==>
          t.id in flight && flight[t.id].InAgent? && t.role in squad.roles && Ready(t, status) && goal[t.id] != Skipped)
    && (status[t.id].Succeeded? || status[t.id].Failed? ==>
          status[t.id] == goal[t.id] && Ready(t, status) && (t.id in flight ==> flight[t.id].InEndHook?))
    && (status[t.id].Skipped? ==> goal[t.id].Skipped? && t.id !in flight)
  }

  /** One result per task that ran, carrying its status, and only after all its dependencies succeeded. */
  ghost predicate ResultsFit(plan: Plan, status: map<TaskId, Status>, results: seq<TaskResult>) {
    && (forall i, j :: 0 <= i < j < |results| ==> results[i].taskId != results[j].taskId)
    && (forall i :: 0 <= i < |results| ==>
          results[i].taskId in status && status[results[i].taskId] == results[i].status
          && (results[i].status == Succeeded || results[i].status == Failed))
    && (forall id :: id in status && (status[id] == Succeeded || status[id] == Failed) ==>
          TaskResult(id, status[id]) in results)
    && (forall i, t, d :: 0 <= i < |results| && t in plan && t.id == results[i].taskId && d in t.deps ==>
          TaskResult(d, Succeeded) in results[..i])
  }

  ghost predicate OnTrack(plan: Plan, squad: Squad, goal: map<TaskId, Status>, status: map<TaskId, Status>,
                          results: seq<TaskResult>, flight: map<TaskId, Pc>) {
    && status.Keys == Ids(plan) && flight.Keys <= Ids(plan) && goal.Keys == Ids(plan)
    && (forall t :: t in plan ==> TaskOnTrack(squad, goal, status, flight, t))
    && ResultsFit(plan, status, results)
  }

  // ----- Skip propagation -----

  /** Tasks that list `id` among their dependencies. */
  ghost predicate IsDependents(plan: Plan, dependents: map<TaskId, seq<TaskId>>) {
    && (forall t, d :: t in plan && d in t.deps ==> d in dependents && t.id in dependents[d])
    && (forall d, id :: d in dependents && id in dependents[d] ==> exists t :: t in plan && t.id == id && d in t.deps)
  }

  method BuildDependents(plan: Plan) returns (dependents: map<TaskId, seq<TaskId>>)
    ensures IsDependents(plan, dependents)
  {
    dependents := map[];
    for i := 0 to |plan|
      invariant IsDependents(plan[..i], dependents)
    {
      var t := plan[i];
      for j := 0 to |t.deps|
        invariant forall s, d :: s in plan[..i] && d in s.deps ==> d in dependents && s.id in dependents[d]
        invariant forall d :: d in t.deps[..j] ==> d in dependents && t.id in dependents[d]
        invariant forall d, id :: d in dependents && id in dependents[d] ==>
                    (exists s :: s in plan[..i] && s.id == id && d in s.deps) || (id == t.id && d in t.deps)
      {
        var d := t.deps[j];
        dependents := dependents[d := (if d in dependents then dependents[d] else []) + [t.id]];
      }
      assert t.deps[..|t.deps|] == t.deps;
      assert plan[..i + 1] == plan[..i] + [t];
      forall d, id | d in dependents && id in dependents[d]
        ensures exists s :: s in plan[..i + 1] && s.id == id && d in s.deps
      {
        if id == t.id && d in t.deps { assert t in plan[..i + 1]; }
      }
    }
    assert plan[..|plan|] == plan;
  }

  predicate Skippable(s: Status) { s == Pending || s == Skipped }

  ghost predicate SkipClosed(plan: Plan, status: map<TaskId, Status>, root: TaskId, region: set<TaskId>) {
    && root in region
    && forall t, d ::
      t in plan && d in t.deps && d in region && t.id in status && Skippable(status[t.id]) ==> t.id in region
  }

  /** Everything downstream of `root` through tasks that have not run. */
  ghost function Downstream(plan: Plan, status: map<TaskId, Status>, root: TaskId): set<TaskId> {
    set id | id in Ids(plan) && (forall region: set<TaskId> :: SkipClosed(plan, status, root, region) ==> id in region)
  }

  function SkipIn(status: map<TaskId, Status>, region: set<TaskId>): map<TaskId, Status> {
    map id | id in status :: if id in region && status[id] == Pending then Skipped else status[id]
  }

  ghost predicate Reached(plan: Plan, status: map<TaskId, Status>, root: TaskId, reached: set<TaskId>) {
    && root in reached && reached <= Ids(plan)
    && forall region: set<TaskId> :: SkipClosed(plan, status, root, region) ==> reached <= region
  }

  /** Every reached task is visited or queued, and visited tasks (other than `open`) have had
      their skippable dependents reached. */
  ghost predicate Searched(plan: Plan, status: map<TaskId, Status>, reached: set<TaskId>,
                           visited: set<TaskId>, queue: seq<TaskId>, open: set<TaskId>) {
    && visited <= reached
    && (forall id :: id in queue ==> id in reached)
    && (forall id :: id in reached ==> id in visited || id in queue)
    && (forall t, d ::
      t in plan && d in t.deps && d in visited && d !in open && t.id in status && Skippable(status[t.id]) ==>
          t.id in reached)
  }

  lemma ReachedAll(plan: Plan, status: map<TaskId, Status>, root: TaskId, reached: set<TaskId>, visited: set<TaskId>)
    requires Reached(plan, status, root, reached) && Searched(plan, status, reached, visited, [], {})
    ensures reached == Downstream(plan, status, root)
  {
    assert SkipClosed(plan, status, root, reached);
  }

  lemma ReachDependent(plan: Plan, status: map<TaskId, Status>, root: TaskId, reached: set<TaskId>, t: Task, d: TaskId)
    requires Reached(plan, status, root, reached) && t in plan && d in t.deps && d in reached
    requires t.id in status && Skippable(status[t.id])
    ensures Reached(plan, status, root, reached + {t.id})
  {
    forall region: set<TaskId> | SkipClosed(plan, status, root, region) ensures reached + {t.id} <= region {
      assert d in region;
    }
  }

  /** One visit of the search: every dependent of `cur` that has not run is skipped and queued. */
  method VisitDependents(plan: Plan, next: seq<TaskId>, ghost status0: map<TaskId, Status>, ghost root: TaskId,
                         ghost reached0: set<TaskId>, visited: set<TaskId>, cur: TaskId,
                         statusIn: map<TaskId, Status>, queueIn: seq<TaskId>)
    returns (status: map<TaskId, Status>, queue: seq<TaskId>, ghost reached: set<TaskId>)
    requires status0.Keys == Ids(plan)
    requires forall id :: id in next <==> exists t :: t in plan && t.id == id && cur in t.deps
    requires Reached(plan, status0, root, reached0) && cur in reached0 && statusIn == SkipIn(status0, reached0)
    requires Searched(plan, status0, reached0, visited, queueIn, {cur})
    ensures Reached(plan, status0, root, reached) && status == SkipIn(status0, reached)
    ensures Searched(plan, status0, reached, visited, queue, {})
  {
    status, queue, reached := statusIn, queueIn, reached0;
    for k := 0 to |next|
      invariant reached0 <= reached
      invariant Reached(plan, status0, root, reached) && status == SkipIn(status0, reached)
      invariant Searched(plan, status0, reached, visited, queue, {cur})
      invariant forall i :: 0 <= i < k && next[i] in status0 && Skippable(status0[next[i]]) ==> next[i] in reached
    {
      var dependent := next[k];
      assert dependent in next;
      ghost var t :| t in plan && t.id == dependent && cur in t.deps;
      assert dependent in status0;
      if status[dependent] == Pending || status[dependent] == Skipped {
        ReachDependent(plan, status0, root, reached, t, cur);
        status := status[dependent := Skipped];
        queue := queue + [dependent];
        reached := reached + {dependent};
      }
    }
    forall t | t in plan && cur in t.deps && Skippable(status0[t.id]) ensures t.id in reached {
      assert t.id in next;
    }
  }

  /** Skips exactly the pending tasks downstream of a task that failed or was skipped. */
  method MarkSkippedDependents(plan: Plan, dependents: map<TaskId, seq<TaskId>>, status0: map<TaskId, Status>,
                               root: TaskId)
    returns (status: map<TaskId, Status>)
    requires IsDependents(plan, dependents) && status0.Keys == Ids(plan)
    requires root in status0 && status0[root] != Pending
    ensures status == SkipIn(status0, Downstream(plan, status0, root))
  {
    status := status0;
    var queue := [root];
    var visited: set<TaskId> := {};
    ghost var reached := {root};
    while |queue| > 0
      invariant Reached(plan, status0, root, reached) && status == SkipIn(status0, reached)
      invariant Searched(plan, status0, reached, visited, queue, {})
      decreases Ids(plan) - visited, |queue|
    {
      var cur := queue[0];
      assert queue == [cur] + queue[1..];
      queue := queue[1..];
      if cur in visited { continue; }
      visited := visited + {cur};
      var next := if cur in dependents then dependents[cur] else [];
      status, queue, reached := VisitDependents(plan, next, status0, root, reached, visited, cur, status, queue);
    }
    assert queue == [];
    ReachedAll(plan, status0, root, reached, visited);
  }

  /** Everything downstream of a non-success is skipped in the goal too. */
  lemma DownstreamIsSkippedInGoal(plan: Plan, squad: Squad, goal: map<TaskId, Status>, status: map<TaskId, Status>,
                                  root: TaskId)
    requires Consistent(plan, squad, goal) && root in goal && goal[root] != Succeeded
    ensures forall id :: id in Downstream(plan, status, root) ==> id in goal && (id == root || goal[id] == Skipped)
  {
    var region := {root} + set id | id in goal && goal[id] == Skipped;
    assert SkipClosed(plan, status, root, region) by {
      forall t, d | t in plan && d in t.deps && d in region && t.id in status && Skippable(status[t.id])
        ensures t.id in region
      {
        assert GoalFits(squad, goal, t);
      }
    }
  }

  lemma SkippedTasks(plan: Plan, squad: Squad, goal: map<TaskId, Status>, status: map<TaskId, Status>,
                     flight: map<TaskId, Pc>, root: TaskId)
    requires Consistent(plan, squad, goal) && status.Keys == Ids(plan) == goal.Keys
    requires forall t :: t in plan ==> TaskOnTrack(squad, goal, status, flight, t)
    requires root in status && goal[root] != Succeeded && status[root] != Pending
    ensures forall t ::
              t in plan ==> TaskOnTrack(squad, goal, SkipIn(status, Downstream(plan, status, root)), flight, t)
  {
    var after := SkipIn(status, Downstream(plan, status, root));
    DownstreamIsSkippedInGoal(plan, squad, goal, status, root);
    forall t | t in plan ensures TaskOnTrack(squad, goal, after, flight, t) {
      assert TaskOnTrack(squad, goal, status, flight, t);
      assert Ready(t, status) ==> Ready(t, after);
    }
  }

  /** Skip propagation keeps a run on track. */
  lemma SkipsOnTrack(plan: Plan, squad: Squad, goal: map<TaskId, Status>, status: map<TaskId, Status>,
                     results: seq<TaskResult>, flight: map<TaskId, Pc>, root: TaskId)
    requires Consistent(plan, squad, goal) && OnTrack(plan, squad, goal, status, results, flight)
    requires root in status && goal[root] != Succeeded && status[root] != Pending
    ensures OnTrack(plan, squad, goal, SkipIn(status, Downstream(plan, status, root)), results, flight)
  {
    SkippedTasks(plan, squad, goal, status, flight, root);
    SkipsKeepResults(plan, status, results, Downstream(plan, status, root));
  }

  lemma SkipsKeepResults(plan: Plan, status: map<TaskId, Status>, results: seq<TaskResult>, region: set<TaskId>)
    requires ResultsFit(plan, status, results)
    ensures ResultsFit(plan, SkipIn(status, region), results)
  {
  }

  // ----- One task run, split at its awaits -----

  lemma FinishedTasks(plan: Plan, squad: Squad, goal: map<TaskId, Status>, status: map<TaskId, Status>,
                      flight: map<TaskId, Pc>, t: Task, final: Status)
    requires UniqueIds(plan) && status.Keys == Ids(plan) == goal.Keys
    requires forall s :: s in plan ==> TaskOnTrack(squad, goal, status, flight, s)
    requires t in plan && (status[t.id] == Pending || status[t.id] == Running) && Ready(t, status)
    requires final == goal[t.id] && (final == Succeeded || final == Failed)
    ensures forall s :: s in plan ==> TaskOnTrack(squad, goal, status[t.id := final], flight[t.id := InEndHook], s)
  {
    var after := status[t.id := final];
    forall s | s in plan ensures TaskOnTrack(squad, goal, after, flight[t.id := InEndHook], s) {
      assert TaskOnTrack(squad, goal, status, flight, s);
      assert Ready(s, status) ==> Ready(s, after);
      if s.id == t.id { SameTask(plan, s, t); }
    }
  }

  lemma FinishOnTrack(plan: Plan, squad: Squad, goal: map<TaskId, Status>, status: map<TaskId, Status>,
                      results: seq<TaskResult>, flight: map<TaskId, Pc>, t: Task, final: Status)
    requires UniqueIds(plan) && OnTrack(plan, squad, goal, status, results, flight)
    requires t in plan && (status[t.id] == Pending || status[t.id] == Running) && Ready(t, status)
    requires final == goal[t.id] && (final == Succeeded || final == Failed)
    ensures OnTrack(plan, squad, goal, status[t.id := final], results + [TaskResult(t.id, final)],
                    flight[t.id := InEndHook])
  {
    FinishedTasks(plan, squad, goal, status, flight, t, final);
    FinishKeepsResults(plan, status, results, t, final);
  }

  lemma FinishKeepsResults(plan: Plan, status: map<TaskId, Status>, results: seq<TaskResult>, t: Task, final: Status)
    requires UniqueIds(plan) && ResultsFit(plan, status, results) && t in plan && t.id in status
    requires (status[t.id] == Pending || status[t.id] == Running) && Ready(t, status)
    requires final == Succeeded || final == Failed
    ensures ResultsFit(plan, status[t.id := final], results + [TaskResult(t.id, final)])
  {
    var after, longer := status[t.id := final], results + [TaskResult(t.id, final)];
    forall i, s, d | 0 <= i < |longer| && s in plan && s.id == longer[i].taskId && d in s.deps
      ensures TaskResult(d, Succeeded) in longer[..i]
    {
      if i < |results| {
        assert longer[..i] == results[..i];
      } else {
        SameTask(plan, s, t);
        assert longer[..i] == results;
      }
    }
    forall id | id in after && (after[id] == Succeeded || after[id] == Failed)
      ensures TaskResult(id, after[id]) in longer
    {
      if id == t.id { assert longer[|results|] == TaskResult(id, after[id]); }
    }
  }

  lemma MovedTasks(plan: Plan, squad: Squad, goal: map<TaskId, Status>, status: map<TaskId, Status>,
                   flight: map<TaskId, Pc>, t: Task, next: Status, pc: Pc)
    requires UniqueIds(plan) && status.Keys == Ids(plan) == goal.Keys
    requires forall s :: s in plan ==> TaskOnTrack(squad, goal, status, flight, s)
    requires t in plan && status[t.id] == Pending && t.role in squad.roles && Ready(t, status) && goal[t.id] != Skipped
    requires (next == Pending && pc == InStartHook) || (next == Running && pc == InAgent)
    ensures forall s :: s in plan ==> TaskOnTrack(squad, goal, status[t.id := next], flight[t.id := pc], s)
  {
    var after := status[t.id := next];
    forall s | s in plan ensures TaskOnTrack(squad, goal, after, flight[t.id := pc], s) {
      assert TaskOnTrack(squad, goal, status, flight, s);
      assert Ready(s, status) ==> Ready(s, after);
      if s.id == t.id { SameTask(plan, s, t); }
    }
  }

  lemma MoveOnTrack(plan: Plan, squad: Squad, goal: map<TaskId, Status>, status: map<TaskId, Status>,
                    results: seq<TaskResult>, flight: map<TaskId, Pc>, t: Task, next: Status, pc: Pc)
    requires UniqueIds(plan) && OnTrack(plan, squad, goal, status, results, flight)
    requires t in plan && status[t.id] == Pending && t.role in squad.roles && Ready(t, status) && goal[t.id] != Skipped
    requires (next == Pending && pc == InStartHook) || (next == Running && pc == InAgent)
    ensures OnTrack(plan, squad, goal, status[t.id := next], results, flight[t.id := pc])
  {
    MovedTasks(plan, squad, goal, status, flight, t, next, pc);
    MoveKeepsResults(plan, status, results, t.id, next);
  }

  lemma MoveKeepsResults(plan: Plan, status: map<TaskId, Status>, results: seq<TaskResult>, id: TaskId, next: Status)
    requires ResultsFit(plan, status, results) && id in status && status[id] == Pending
    requires next == Pending || next == Running
    ensures ResultsFit(plan, status[id := next], results)
  {
  }

  lemma StartOnTrack(plan: Plan, squad: Squad, goal: map<TaskId, Status>, status: map<TaskId, Status>,
                     results: seq<TaskResult>, flight: map<TaskId, Pc>, t: Task)
    requires UniqueIds(plan) && OnTrack(plan, squad, goal, status, results, flight)
    requires t in plan && status[t.id] == Pending && t.role in squad.roles && Ready(t, status) && goal[t.id] != Skipped
    ensures OnTrack(plan, squad, goal, status, results, flight[t.id := InStartHook])
  {
    MoveOnTrack(plan, squad, goal, status, results, flight, t, Pending, InStartHook);
    assert status[t.id := Pending] == status;
  }

  /** The synchronous start of runOne: a task without a registered agent fails at once. */
  method Begin(plan: Plan, squad: Squad, ghost goal: map<TaskId, Status>, t: Task, status0: map<TaskId, Status>,
               results0: seq<TaskResult>, flight0: map<TaskId, Pc>)
    returns (status: map<TaskId, Status>, results: seq<TaskResult>, flight: map<TaskId, Pc>)
    requires Consistent(plan, squad, goal) && OnTrack(plan, squad, goal, status0, results0, flight0)
    requires t in plan && status0[t.id] == Pending && t.id !in flight0 && Ready(t, status0) && goal[t.id] != Skipped
    ensures OnTrack(plan, squad, goal, status, results, flight)
    ensures flight.Keys == flight0.Keys + {t.id}
    ensures forall id :: id in status0 && id != t.id ==> status[id] == status0[id]
    ensures forall id :: id in status0 && status0[id] == Succeeded ==> status[id] == Succeeded
  {
    if t.role !in squad.roles {
      status, results := status0[t.id := Failed], results0 + [TaskResult(t.id, Failed)];
      flight := flight0[t.id := InEndHook];
      assert GoalFits(squad, goal, t);
      FinishOnTrack(plan, squad, goal, status0, results0, flight0, t, Failed);
    } else {
      status, results, flight := status0, results0, flight0[t.id := InStartHook];
      StartOnTrack(plan, squad, goal, status0, results0, flight0, t);
    }
  }

  lemma LandOnTrack(plan: Plan, squad: Squad, goal: map<TaskId, Status>, status: map<TaskId, Status>,
                    results: seq<TaskResult>, flight: map<TaskId, Pc>, id: TaskId)
    requires OnTrack(plan, squad, goal, status, results, flight)
    requires id in flight && flight[id] == InEndHook
    ensures OnTrack(plan, squad, goal, status, results, flight - {id})
  {
    forall t | t in plan ensures TaskOnTrack(squad, goal, status, flight - {id}, t) {
      assert TaskOnTrack(squad, goal, status, flight, t);
    }
  }

  function At(flight: map<TaskId, Pc>, pcs: set<Pc>): set<TaskId> {
    set id | id in flight && flight[id] in pcs
  }

  /** Where the tasks are suspended once `id` has reached its next await, or ended. */
  function Resumed(flight: map<TaskId, Pc>, id: TaskId): (r: map<TaskId, Pc>)
    requires id in flight
    ensures r.Keys == if flight[id] == InEndHook then flight.Keys - {id} else flight.Keys
  {
    match flight[id]
    case InStartHook => flight[id := InAgent]
    case InAgent => flight[id := InEndHook]
    case InEndHook => flight - {id}
  }

  /** One suspended task resumes and runs to its next await, or ends. */
  method Advance(plan: Plan, squad: Squad, dependents: map<TaskId, seq<TaskId>>, ghost goal: map<TaskId, Status>,
                 id: TaskId, status0: map<TaskId, Status>, results0: seq<TaskResult>, flight0: map<TaskId, Pc>)
    returns (status: map<TaskId, Status>, results: seq<TaskResult>, flight: map<TaskId, Pc>)
    requires Consistent(plan, squad, goal) && IsDependents(plan, dependents)
    requires OnTrack(plan, squad, goal, status0, results0, flight0) && id in flight0
    ensures OnTrack(plan, squad, goal, status, results, flight)
    ensures flight == Resumed(flight0, id)
    ensures OthersKept(status0, status, {id})
    ensures flight0[id] == InEndHook ==> Settled(status, {id})
  {
    ghost var t :| t in plan && t.id == id;
    assert TaskOnTrack(squad, goal, status0, flight0, t) && GoalFits(squad, goal, t);
    status, results, flight := status0, results0, Resumed(flight0, id);
    match flight0[id]
    case InStartHook =>
      status := status[id := Running];
      MoveOnTrack(plan, squad, goal, status0, results0, flight0, t, Running, InAgent);
    case InAgent =>
      var final := if squad.ok(id) then Succeeded else Failed;
      status, results := status[id := final], results + [TaskResult(id, final)];
      FinishOnTrack(plan, squad, goal, status0, results0, flight0, t, final);
    case InEndHook =>
      status := Land(plan, squad, dependents, goal, id, status0, results0, flight0);
  }

  /** The end of runOne after its completion hook: a failure propagates to the dependents. */
  method Land(plan: Plan, squad: Squad, dependents: map<TaskId, seq<TaskId>>, ghost goal: map<TaskId, Status>,
              id: TaskId, status0: map<TaskId, Status>, ghost results0: seq<TaskResult>, ghost flight0: map<TaskId, Pc>)
    returns (status: map<TaskId, Status>)
    requires Consistent(plan, squad, goal) && IsDependents(plan, dependents)
    requires OnTrack(plan, squad, goal, status0, results0, flight0) && id in flight0 && flight0[id] == InEndHook
    requires id in status0 && (status0[id] == Succeeded || status0[id] == Failed)
    ensures OnTrack(plan, squad, goal, status, results0, flight0 - {id})
    ensures OthersKept(status0, status, {id}) && Settled(status, {id})
  {
    status := status0;
    ghost var flight := flight0 - {id};
    LandOnTrack(plan, squad, goal, status0, results0, flight0, id);
    if status[id] == Failed {
      SkipsOnTrack(plan, squad, goal, status0, results0, flight, id);
      status := MarkSkippedDependents(plan, dependents, status0, id);
    }
  }

  /** A waiting task outside `moving` is untouched or has been skipped. */
  predicate OthersKept(before: map<TaskId, Status>, after: map<TaskId, Status>, moving: set<TaskId>) {
    && before.Keys == after.Keys
    && forall k ::
      k in before && k !in moving ==> after[k] == before[k] || (before[k] == Pending && after[k] == Skipped)
  }

  predicate Settled(status: map<TaskId, Status>, ids: set<TaskId>) {
    forall k :: k in ids ==> k in status && status[k] != Pending && status[k] != Running
  }

  /** Of the tasks that were to be awaited, those no longer in flight are settled, and no other has changed. */
  ghost predicate Awaited(status0: map<TaskId, Status>, status: map<TaskId, Status>, all: set<TaskId>,
                          left: set<TaskId>) {
    left <= all && Settled(status, all - left) && OthersKept(status0, status, all)
  }

  lemma AwaitedGrows(a: map<TaskId, Status>, b: map<TaskId, Status>, c: map<TaskId, Status>, id: TaskId,
                     all: set<TaskId>, before: set<TaskId>, after: set<TaskId>)
    requires Awaited(a, b, all, before) && OthersKept(b, c, {id}) && id in before
    requires after == before || (after == before - {id} && Settled(c, {id}))
    ensures Awaited(a, c, all, after)
  {
  }

  lemma AwaitedEnds(a: map<TaskId, Status>, c: map<TaskId, Status>, all: set<TaskId>)
    ensures Awaited(a, a, all, all)
    ensures Awaited(a, c, all, {}) ==> OthersKept(a, c, all) && Settled(c, all)
  {
    assert all - {} == all;
  }

  ghost predicate IsCloser(before: map<TaskId, Pc>, after: map<TaskId, Pc>) {
    At(after, {InStartHook}) < At(before, {InStartHook})
    || (At(after, {InStartHook}) == At(before, {InStartHook})
        && (At(after, {InStartHook, InAgent}) < At(before, {InStartHook, InAgent})
            || (At(after, {InStartHook, InAgent}) == At(before, {InStartHook, InAgent}) && after.Keys < before.Keys)))
  }

  /** Every step moves one started task strictly closer to its end. */
  lemma StepDecreases(before: map<TaskId, Pc>, after: map<TaskId, Pc>, id: TaskId)
    requires id in before
    requires after == Resumed(before, id)
    ensures IsCloser(before, after)
    ensures after.Keys == if before[id] == InEndHook then before.Keys - {id} else before.Keys
  {
    match before[id]
    case InStartHook =>
      assert At(after, {InStartHook}) == At(before, {InStartHook}) - {id};
    case InAgent =>
      assert At(after, {InStartHook}) == At(before, {InStartHook});
      assert At(after, {InStartHook, InAgent}) == At(before, {InStartHook, InAgent}) - {id};
    case InEndHook =>
      assert At(after, {InStartHook}) == At(before, {InStartHook});
      assert At(after, {InStartHook, InAgent}) == At(before, {InStartHook, InAgent});
  }

  /** Resumes one suspended task. */
  method AwaitOne(plan: Plan, squad: Squad, dependents: map<TaskId, seq<TaskId>>, ghost goal: map<TaskId, Status>,
                  ghost start: map<TaskId, Status>, ghost all: set<TaskId>,
                  status0: map<TaskId, Status>, results0: seq<TaskResult>, flight0: map<TaskId, Pc>)
    returns (status: map<TaskId, Status>, results: seq<TaskResult>, flight: map<TaskId, Pc>)
    requires Consistent(plan, squad, goal) && IsDependents(plan, dependents) && flight0 != map[]
    requires OnTrack(plan, squad, goal, status0, results0, flight0) && Awaited(start, status0, all, flight0.Keys)
    ensures OnTrack(plan, squad, goal, status, results, flight) && Awaited(start, status, all, flight.Keys)
    ensures IsCloser(flight0, flight)
  {
    var id :| id in flight0;
    status, results, flight := Advance(plan, squad, dependents, goal, id, status0, results0, flight0);
    StepDecreases(flight0, flight, id);
    AwaitedGrows(start, status0, status, id, all, flight0.Keys, flight.Keys);
  }

  /** Waits for all started tasks. The resumed task is any suspended one, so the proof covers every
      interleaving. */
  method Drain(plan: Plan, squad: Squad, dependents: map<TaskId, seq<TaskId>>, ghost goal: map<TaskId, Status>,
               status0: map<TaskId, Status>, results0: seq<TaskResult>, flight0: map<TaskId, Pc>)
    returns (status: map<TaskId, Status>, results: seq<TaskResult>)
    requires Consistent(plan, squad, goal) && IsDependents(plan, dependents)
    requires OnTrack(plan, squad, goal, status0, results0, flight0)
    ensures OnTrack(plan, squad, goal, status, results, map[])
    ensures OthersKept(status0, status, flight0.Keys) && Settled(status, flight0.Keys)
  {
    status, results := status0, results0;
    var flight := flight0;
    AwaitedEnds(status0, status0, flight0.Keys);
    while flight != map[]
      invariant OnTrack(plan, squad, goal, status, results, flight)
      invariant Awaited(status0, status, flight0.Keys, flight.Keys)
      decreases At(flight, {InStartHook}), At(flight, {InStartHook, InAgent}), flight.Keys
    {
      status, results, flight := AwaitOne(plan, squad, dependents, goal, status0, flight0.Keys, status, results,
                                          flight);
    }
    AwaitedEnds(status0, status, flight0.Keys);
  }

  // ----- The outcome, task by task -----

  /** A task is skipped when a dependency has not succeeded; else it succeeds when there is an agent for its role
      and the agent succeeds, and fails when there is none or it does not. */
  lemma OutcomeIs(plan: Plan, squad: Squad, status: map<TaskId, Status>, t: Task)
    requires UniqueIds(plan) && IsOutcome(plan, squad, status) && t in plan
    ensures status[t.id] == if !(forall d :: d in t.deps ==> d in status && status[d] == Succeeded) then Skipped
                            else if t.role in squad.roles && squad.ok(t.id) then Succeeded else Failed
  {
    var least := WillSucceed(plan, squad);
    forall d | d in t.deps ensures d in least <==> d in status && status[d] == Succeeded {
      SucceededIff(plan, squad, status, d);
    }
    assert DepsIn(t, least) <==> forall d :: d in t.deps ==> d in status && status[d] == Succeeded;
  }

  lemma SucceededIff(plan: Plan, squad: Squad, status: map<TaskId, Status>, id: TaskId)
    requires UniqueIds(plan) && IsOutcome(plan, squad, status)
    ensures id in WillSucceed(plan, squad) <==> id in status && status[id] == Succeeded
  {
    if id in status {
      var t :| t in plan && t.id == id;
      WillSucceedExactly(plan, squad, t);
    }
  }

  /** Success rests on no cycle: among any tasks that succeeded, one depends on none of them. */
  lemma SuccessIsFounded(plan: Plan, squad: Squad, status: map<TaskId, Status>, ids: set<TaskId>)
    requires UniqueIds(plan) && IsOutcome(plan, squad, status) && ids != {}
    requires forall id :: id in ids ==> id in status && status[id] == Succeeded
    ensures exists t :: t in plan && t.id in ids && forall d :: d in t.deps ==> d !in ids
  {
    var least := WillSucceed(plan, squad);
    var id :| id in ids;
    SucceededIff(plan, squad, status, id);
    if forall t :: t in plan && t.id in ids ==> exists d :: d in t.deps && d in ids {
      WillSucceedIsClosed(plan, squad);
      forall t | t in plan && DepsIn(t, least - ids) && squad.Works(t) ensures t.id in least - ids {
        assert DepsIn(t, least);
      }
      WillSucceedIsLeast(plan, squad, least - ids);
      assert false;
    }
  }

  // ----- Parallel mode -----

  ghost function Outcomes(plan: Plan, squad: Squad): (r: map<TaskId, Status>)
    requires UniqueIds(plan)
    ensures IsOutcome(plan, squad, r)
  {
    OutcomesGiven(plan, squad, WillSucceed(plan, squad))
  }

  ghost function OutcomesGiven(plan: Plan, squad: Squad, done: set<TaskId>): (r: map<TaskId, Status>)
    requires UniqueIds(plan)
    ensures r.Keys == Ids(plan) && forall t :: t in plan ==> r[t.id] == OutcomeOf(squad, t, done)
  {
    assert forall s, t :: s in plan && t in plan && s.id == t.id ==> s == t;
    map t | t in plan :: t.id := OutcomeOf(squad, t, done)
  }

  lemma OutcomesConsistent(plan: Plan, squad: Squad)
    requires UniqueIds(plan)
    ensures Consistent(plan, squad, Outcomes(plan, squad))
    ensures forall id ::
              id in Ids(plan) ==> (Outcomes(plan, squad)[id] == Succeeded <==> id in WillSucceed(plan, squad))
  {
    var least := WillSucceed(plan, squad);
    forall t | t in plan ensures t.id in least <==> squad.Works(t) && DepsIn(t, least) {
      WillSucceedExactly(plan, squad, t);
    }
  }

  lemma SucceededIsDue(plan: Plan, squad: Squad, status: map<TaskId, Status>, results: seq<TaskResult>, d: TaskId)
    requires UniqueIds(plan) && OnTrack(plan, squad, Outcomes(plan, squad), status, results, map[])
    requires d in status && status[d] == Succeeded
    ensures d in WillSucceed(plan, squad)
  {
    OutcomesConsistent(plan, squad);
    var s :| s in plan && s.id == d;
    assert TaskOnTrack(squad, Outcomes(plan, squad), status, map[], s);
  }

  /** A task whose dependencies have all succeeded is bound to run. */
  lemma ReadyWillRun(plan: Plan, squad: Squad, status: map<TaskId, Status>, results: seq<TaskResult>, t: Task)
    requires UniqueIds(plan) && OnTrack(plan, squad, Outcomes(plan, squad), status, results, map[])
    requires t in plan && Ready(t, status)
    ensures Outcomes(plan, squad)[t.id] != Skipped
  {
    forall d | d in t.deps ensures d in WillSucceed(plan, squad) {
      SucceededIsDue(plan, squad, status, results, d);
    }
    DueRuns(plan, squad, t);
  }

  lemma DueRuns(plan: Plan, squad: Squad, t: Task)
    requires UniqueIds(plan) && t in plan
    ensures Outcomes(plan, squad)[t.id] != Skipped <==> DepsIn(t, WillSucceed(plan, squad))
  {
    assert Outcomes(plan, squad)[t.id] == OutcomeOf(squad, t, WillSucceed(plan, squad));
  }

  /** When nothing can run, every task still pending depends on one that will never succeed. */
  lemma StuckWillBeSkipped(plan: Plan, squad: Squad, status: map<TaskId, Status>, results: seq<TaskResult>)
    requires UniqueIds(plan) && OnTrack(plan, squad, Outcomes(plan, squad), status, results, map[])
    requires forall t :: t in plan && status[t.id] == Pending ==> !Ready(t, status)
    ensures forall t :: t in plan && status[t.id] == Pending ==> Outcomes(plan, squad)[t.id] == Skipped
  {
    var done := set id | id in status && status[id] == Succeeded;
    StuckIsClosed(plan, squad, status, results, done);
    WillSucceedIsLeast(plan, squad, done);
    forall t | t in plan && status[t.id] == Pending ensures Outcomes(plan, squad)[t.id] == Skipped {
      NotReadyNotDue(t, status, done, WillSucceed(plan, squad));
      DueRuns(plan, squad, t);
    }
  }

  lemma NotReadyNotDue(t: Task, status: map<TaskId, Status>, done: set<TaskId>, due: set<TaskId>)
    requires !Ready(t, status) && due <= done && forall id :: id in done ==> id in status && status[id] == Succeeded
    ensures !DepsIn(t, due)
  {
  }

  lemma StuckIsClosed(plan: Plan, squad: Squad, status: map<TaskId, Status>, results: seq<TaskResult>,
                      done: set<TaskId>)
    requires UniqueIds(plan) && OnTrack(plan, squad, Outcomes(plan, squad), status, results, map[])
    requires forall t :: t in plan && status[t.id] == Pending ==> !Ready(t, status)
    requires done == set id | id in status && status[id] == Succeeded
    ensures RunClosed(plan, squad, done)
  {
    forall t | t in plan && DepsIn(t, done) && squad.Works(t) ensures t.id in done {
      assert Ready(t, status);
      ReadyWillRun(plan, squad, status, results, t);
      assert TaskOnTrack(squad, Outcomes(plan, squad), status, map[], t);
    }
  }

  lemma SettledIsGoal(plan: Plan, squad: Squad, goal: map<TaskId, Status>, status: map<TaskId, Status>,
                      results: seq<TaskResult>, rest: set<TaskId>)
    requires OnTrack(plan, squad, goal, status, results, map[])
    requires forall t :: t in plan && status[t.id] == Pending ==> t.id in rest && goal[t.id] == Skipped
    ensures SkipIn(status, rest) == goal
  {
    forall id | id in goal ensures SkipIn(status, rest)[id] == goal[id] {
      var t :| t in plan && t.id == id;
      assert TaskOnTrack(squad, goal, status, map[], t);
    }
  }

  function Runnable(plan: Plan, status: map<TaskId, Status>, pending: set<TaskId>): (r: seq<Task>)
    ensures forall t :: t in r <==> t in plan && t.id in pending && Ready(t, status)
    ensures UniqueIds(plan) ==> UniqueIds(r)
  {
    if plan == [] then [] else
      var t, rest := plan[0], Runnable(plan[1..], status, pending);
      assert plan == [t] + plan[1..];
      if t.id in pending && Ready(t, status) then [t] + rest else rest
  }

  lemma IdsGrow(plan: Plan, k: nat)
    requires UniqueIds(plan) && k < |plan|
    ensures Ids(plan[..k + 1]) == Ids(plan[..k]) + {plan[k].id}
    ensures plan[k].id !in Ids(plan[..k]) && plan[k] in plan
  {
    assert plan[..k + 1] == plan[..k] + [plan[k]];
  }

  lemma FreshOnTrack(plan: Plan, squad: Squad, goal: map<TaskId, Status>, status: map<TaskId, Status>)
    requires goal.Keys == Ids(plan) == status.Keys && forall id :: id in status ==> status[id] == Pending
    ensures OnTrack(plan, squad, goal, status, [], map[])
  {
  }

  /** With nothing runnable, skipping all pending tasks lands on the outcome. */
  lemma Deadlock(plan: Plan, squad: Squad, status: map<TaskId, Status>, results: seq<TaskResult>, pending: set<TaskId>)
    requires UniqueIds(plan) && OnTrack(plan, squad, Outcomes(plan, squad), status, results, map[])
    requires pending <= Ids(plan) && forall t :: t in plan && status[t.id] == Pending ==> t.id in pending
    requires Runnable(plan, status, pending) == []
    ensures IsOutcome(plan, squad, SkipIn(status, pending)) && ResultsFit(plan, SkipIn(status, pending), results)
  {
    forall t | t in plan && status[t.id] == Pending ensures !Ready(t, status) {
    }
    StuckWillBeSkipped(plan, squad, status, results);
    SettledIsGoal(plan, squad, Outcomes(plan, squad), status, results, pending);
    SkipsKeepResults(plan, status, results, pending);
  }

  /** Starts every task of a wave, in order, each up to its first await. */
  method StartWave(plan: Plan, squad: Squad, wave: seq<Task>, status0: map<TaskId, Status>, results0: seq<TaskResult>)
    returns (status: map<TaskId, Status>, results: seq<TaskResult>, flight: map<TaskId, Pc>)
    requires UniqueIds(plan) && OnTrack(plan, squad, Outcomes(plan, squad), status0, results0, map[])
    requires UniqueIds(wave) && forall t :: t in wave ==> t in plan && status0[t.id] == Pending && Ready(t, status0)
    ensures OnTrack(plan, squad, Outcomes(plan, squad), status, results, flight)
    ensures flight.Keys == Ids(wave)
    ensures forall id :: id in status0 && id !in Ids(wave) ==> status[id] == status0[id]
  {
    status, results, flight := status0, results0, map[];
    OutcomesConsistent(plan, squad);
    for k := 0 to |wave|
      invariant OnTrack(plan, squad, Outcomes(plan, squad), status, results, flight)
      invariant flight.Keys == Ids(wave[..k])
      invariant forall id :: id in status0 && id !in flight ==> status[id] == status0[id]
      invariant forall id :: id in status0 && status0[id] == Succeeded ==> status[id] == Succeeded
    {
      var t := wave[k];
      IdsGrow(wave, k);
      ReadyWillRun(plan, squad, status0, results0, t);
      status, results, flight := Begin(plan, squad, Outcomes(plan, squad), t, status, results, flight);
    }
    assert wave[..|wave|] == wave;
  }

  /** One pass of the loop: drop tasks that are no longer pending, start everything runnable and wait
      for it; with nothing runnable, skip the rest. */
  method RunWave(plan: Plan, squad: Squad, dependents: map<TaskId, seq<TaskId>>, status0: map<TaskId, Status>,
                 results0: seq<TaskResult>, pending0: set<TaskId>)
    returns (status: map<TaskId, Status>, results: seq<TaskResult>, pending: set<TaskId>, stuck: bool)
    requires UniqueIds(plan) && IsDependents(plan, dependents)
    requires OnTrack(plan, squad, Outcomes(plan, squad), status0, results0, map[])
    requires pending0 <= Ids(plan) && Settled(status0, Ids(plan) - pending0)
    ensures stuck ==> IsOutcome(plan, squad, status) && ResultsFit(plan, status, results)
    ensures !stuck ==> OnTrack(plan, squad, Outcomes(plan, squad), status, results, map[])
    ensures !stuck ==> pending < pending0 && Settled(status, Ids(plan) - pending)
  {
    ghost var goal := Outcomes(plan, squad);
    status, results, stuck := status0, results0, false;
    pending := set id | id in pending0 && status[id] == Pending;
    WavePending(plan, squad, goal, status, results, pending0, pending);
    var runnable := Runnable(plan, status, pending);
    if |runnable| == 0 {
      Deadlock(plan, squad, status, results, pending);
      status, stuck := SkipIn(status, pending), true;
      return;
    }
    assert runnable[0] in runnable;
    var flight;
    status, results, flight := StartWave(plan, squad, runnable, status, results);
    ghost var started := status;
    pending := pending - Ids(runnable);
    OutcomesConsistent(plan, squad);
    status, results := Drain(plan, squad, dependents, goal, status, results, flight);
    WaveSettled(status0, started, status, Ids(plan), pending, Ids(runnable));
  }

  /** Parallel mode: under every interleaving the run ends with the least-fixpoint outcome, and the
      results list exactly the tasks that ran, each after its dependencies. */
  method RunParallel(plan: Plan, squad: Squad) returns (status: map<TaskId, Status>, results: seq<TaskResult>)
    requires UniqueIds(plan)
    ensures IsOutcome(plan, squad, status)
    ensures ResultsFit(plan, status, results)
  {
    var dependents := BuildDependents(plan);
    status, results := map t | t in plan :: t.id := Pending, [];
    var pending := Ids(plan);
    FreshOnTrack(plan, squad, Outcomes(plan, squad), status);
    while pending != {}
      invariant OnTrack(plan, squad, Outcomes(plan, squad), status, results, map[])
      invariant pending <= Ids(plan) && Settled(status, Ids(plan) - pending)
      decreases pending
    {
      var stuck;
      status, results, pending, stuck := RunWave(plan, squad, dependents, status, results, pending);
      if stuck { return; }
    }
    AllSettled(plan, squad, Outcomes(plan, squad), status, results, pending);
  }

  lemma AllSettled(plan: Plan, squad: Squad, goal: map<TaskId, Status>, status: map<TaskId, Status>,
                   results: seq<TaskResult>, pending: set<TaskId>)
    requires OnTrack(plan, squad, goal, status, results, map[]) && pending == {} && Settled(status, Ids(plan) - pending)
    ensures status == goal
  {
    assert SkipIn(status, {}) == status;
    SettledIsGoal(plan, squad, goal, status, results, {});
  }

  lemma WavePending(plan: Plan, squad: Squad, goal: map<TaskId, Status>, status: map<TaskId, Status>,
                    results: seq<TaskResult>,
                    all: set<TaskId>, pending: set<TaskId>)
    requires OnTrack(plan, squad, goal, status, results, map[])
    requires all <= Ids(plan) && Settled(status, Ids(plan) - all)
    requires pending == set id | id in all && status[id] == Pending
    ensures pending <= all && Settled(status, Ids(plan) - pending)
    ensures forall t :: t in plan && status[t.id] == Pending ==> t.id in pending
  {
    forall id | id in Ids(plan) - pending ensures status[id] != Pending && status[id] != Running {
      var t :| t in plan && t.id == id;
      assert TaskOnTrack(squad, goal, status, map[], t);
    }
  }

  lemma WaveSettled(before: map<TaskId, Status>, started: map<TaskId, Status>, after: map<TaskId, Status>,
                    ids: set<TaskId>, pending: set<TaskId>, wave: set<TaskId>)
    requires before.Keys == started.Keys == ids && wave <= ids
    requires Settled(before, ids - pending - wave) && pending !! wave
    requires forall id :: id in before && id !in wave ==> started[id] == before[id]
    requires OthersKept(started, after, wave) && Settled(after, wave)
    ensures Settled(after, ids - pending)
  {
  }

  // ----- Sequential mode -----

  /** What a single pass in list order completes: a task runs if its dependencies succeeded before it. */
  ghost function PassSucceeds(plan: Plan, squad: Squad, k: nat): set<TaskId>
    requires k <= |plan|
  {
    if k == 0 then {} else
      var before := PassSucceeds(plan, squad, k - 1);
      if OutcomeOf(squad, plan[k - 1], before) == Succeeded then before + {plan[k - 1].id} else before
  }

  ghost predicate IsPassOutcome(plan: Plan, squad: Squad, goal: map<TaskId, Status>) {
    && goal.Keys == Ids(plan)
    && forall k :: 0 <= k < |plan| ==> PassFits(plan, squad, goal, k)
  }

  ghost predicate PassFits(plan: Plan, squad: Squad, goal: map<TaskId, Status>, k: nat) {
    k < |plan| && plan[k].id in goal && goal[plan[k].id] == OutcomeOf(squad, plan[k], PassSucceeds(plan, squad, k))
  }

  lemma {:induction false} PassSucceedsExactly(plan: Plan, squad: Squad, goal: map<TaskId, Status>, k: nat, d: TaskId)
    requires UniqueIds(plan) && k <= |plan| && IsPassOutcome(plan, squad, goal)
    ensures d in PassSucceeds(plan, squad, k) <==> d in Ids(plan[..k]) && goal[d] == Succeeded
  {
    if k > 0 {
      PassSucceedsExactly(plan, squad, goal, k - 1, d);
      IdsGrow(plan, k - 1);
      assert PassFits(plan, squad, goal, k - 1);
    }
  }

  /** In list order, a task is skipped unless every dependency is listed before it and has succeeded. */
  lemma PassIs(plan: Plan, squad: Squad, status: map<TaskId, Status>, k: nat)
    requires UniqueIds(plan) && IsPassOutcome(plan, squad, status) && k < |plan|
    ensures plan[k].id in status
    ensures status[plan[k].id] ==
            if !(forall d :: d in plan[k].deps ==>
                   exists j :: 0 <= j < k && plan[j].id == d && d in status && status[d] == Succeeded) then Skipped
            else if plan[k].role in squad.roles && squad.ok(plan[k].id) then Succeeded else Failed
  {
    assert PassFits(plan, squad, status, k);
    forall d | d in plan[k].deps
      ensures d in PassSucceeds(plan, squad, k)
              <==> exists j :: 0 <= j < k && plan[j].id == d && d in status && status[d] == Succeeded
    {
      PassSucceedsExactly(plan, squad, status, k, d);
      ListedBefore(plan, k, d);
    }
  }

  lemma ListedBefore(plan: Plan, k: nat, d: TaskId)
    requires k <= |plan|
    ensures d in Ids(plan[..k]) <==> exists j :: 0 <= j < k && plan[j].id == d
  {
    if d in Ids(plan[..k]) {
      var t :| t in plan[..k] && t.id == d;
      var j :| 0 <= j < k && plan[j] == t;
    }
    if j :| 0 <= j < k && plan[j].id == d { assert plan[j] in plan[..k]; }
  }

  lemma PassConsistent(plan: Plan, squad: Squad, goal: map<TaskId, Status>)
    requires UniqueIds(plan) && IsPassOutcome(plan, squad, goal)
    ensures Consistent(plan, squad, goal)
  {
    forall t | t in plan ensures GoalFits(squad, goal, t) {
      var k :| 0 <= k < |plan| && plan[k] == t;
      assert PassFits(plan, squad, goal, k);
      forall d { PassSucceedsExactly(plan, squad, goal, k, d); }
    }
  }

  function IndexOf(plan: Plan, id: TaskId): (k: nat)
    requires id in Ids(plan)
    ensures k < |plan| && plan[k].id == id
  {
    if plan[0].id == id then 0 else
      assert plan == [plan[0]] + plan[1..];
      1 + IndexOf(plan[1..], id)
  }

  ghost function PassOutcomes(plan: Plan, squad: Squad): (r: map<TaskId, Status>)
    requires UniqueIds(plan)
    ensures IsPassOutcome(plan, squad, r)
  {
    var r := map id | id in Ids(plan) ::
      var k := IndexOf(plan, id);
      OutcomeOf(squad, plan[k], PassSucceeds(plan, squad, k));
    assert forall k :: 0 <= k < |plan| ==> plan[k] in plan && IndexOf(plan, plan[k].id) == k;
    assert forall k :: 0 <= k < |plan| ==> PassFits(plan, squad, r, k);
    r
  }

  ghost predicate PassTo(plan: Plan, squad: Squad, goal: map<TaskId, Status>, status: map<TaskId, Status>,
                         results: seq<TaskResult>, i: nat) {
    && i <= |plan| && OnTrack(plan, squad, goal, status, results, map[])
    && Settled(status, Ids(plan[..i]))
    && forall k :: i <= k < |plan| ==> Skippable(status[plan[k].id])
  }

  lemma SucceededSoFar(plan: Plan, squad: Squad, goal: map<TaskId, Status>, status: map<TaskId, Status>,
                       results: seq<TaskResult>, i: nat, d: TaskId)
    requires UniqueIds(plan) && IsPassOutcome(plan, squad, goal) && PassTo(plan, squad, goal, status, results, i)
    requires i < |plan|
    ensures d in PassSucceeds(plan, squad, i) <==> d in status && status[d] == Succeeded
  {
    PassSucceedsExactly(plan, squad, goal, i, d);
    if d in Ids(plan) {
      var j :| 0 <= j < |plan| && plan[j].id == d;
      assert TaskOnTrack(squad, goal, status, map[], plan[j]);
      if j < i {
        assert plan[j] in plan[..i];
      } else {
        assert Skippable(status[plan[j].id]);
      }
    }
  }

  /** At its turn, a pending task is ready exactly when the pass is due to run it. */
  lemma TurnIsRight(plan: Plan, squad: Squad, goal: map<TaskId, Status>, status: map<TaskId, Status>,
                    results: seq<TaskResult>, i: nat)
    requires UniqueIds(plan) && IsPassOutcome(plan, squad, goal) && PassTo(plan, squad, goal, status, results, i)
    requires i < |plan|
    ensures Ready(plan[i], status) <==> goal[plan[i].id] != Skipped
  {
    assert PassFits(plan, squad, goal, i);
    forall d { SucceededSoFar(plan, squad, goal, status, results, i, d); }
  }

  lemma SkipOne(status: map<TaskId, Status>, id: TaskId)
    requires id in status && status[id] == Pending
    ensures SkipIn(status, {id}) == status[id := Skipped]
  {
  }

  lemma SkipTurnTasks(plan: Plan, squad: Squad, goal: map<TaskId, Status>, status: map<TaskId, Status>, t: Task)
    requires status.Keys == goal.Keys == Ids(plan)
    requires forall s :: s in plan ==> TaskOnTrack(squad, goal, status, map[], s)
    requires t in plan && status[t.id] == Pending && goal[t.id] == Skipped
    ensures forall s :: s in plan ==> TaskOnTrack(squad, goal, status[t.id := Skipped], map[], s)
  {
    var after := status[t.id := Skipped];
    forall s | s in plan ensures TaskOnTrack(squad, goal, after, map[], s) {
      assert TaskOnTrack(squad, goal, status, map[], s);
      assert Ready(s, status) ==> Ready(s, after);
    }
  }

  lemma SkipTurn(plan: Plan, squad: Squad, goal: map<TaskId, Status>, status: map<TaskId, Status>,
                 results: seq<TaskResult>, t: Task)
    requires OnTrack(plan, squad, goal, status, results, map[])
    requires t in plan && status[t.id] == Pending && goal[t.id] == Skipped
    ensures OnTrack(plan, squad, goal, status[t.id := Skipped], results, map[])
  {
    SkipTurnTasks(plan, squad, goal, status, t);
    SkipsKeepResults(plan, status, results, {t.id});
    SkipOne(status, t.id);
  }

  lemma TurnTaken(plan: Plan, status: map<TaskId, Status>, after: map<TaskId, Status>, i: nat)
    requires UniqueIds(plan) && i < |plan| && status.Keys == Ids(plan)
    requires Settled(status, Ids(plan[..i])) && forall k :: i <= k < |plan| ==> Skippable(status[plan[k].id])
    requires OthersKept(status, after, {plan[i].id}) && Settled(after, {plan[i].id})
    ensures Settled(after, Ids(plan[..i + 1]))
    ensures forall k :: i + 1 <= k < |plan| ==> Skippable(after[plan[k].id])
  {
    IdsGrow(plan, i);
    forall k | i + 1 <= k < |plan| ensures Skippable(after[plan[k].id]) {
      assert plan[k].id != plan[i].id && plan[k].id in status;
    }
  }

  lemma SkipKeepsOthers(status: map<TaskId, Status>, id: TaskId, region: set<TaskId>)
    requires id in status && status[id] == Pending
    ensures OthersKept(status, SkipIn(status[id := Skipped], region), {id})
    ensures Settled(SkipIn(status[id := Skipped], region), {id})
  {
  }

  method TakeTurn(plan: Plan, squad: Squad, dependents: map<TaskId, seq<TaskId>>, ghost goal: map<TaskId, Status>,
                  t: Task,
                  status0: map<TaskId, Status>, results0: seq<TaskResult>)
    returns (status: map<TaskId, Status>, results: seq<TaskResult>)
    requires Consistent(plan, squad, goal) && IsDependents(plan, dependents)
    requires OnTrack(plan, squad, goal, status0, results0, map[]) && t in plan && status0[t.id] == Pending
    requires Ready(t, status0) <==> goal[t.id] != Skipped
    ensures OnTrack(plan, squad, goal, status, results, map[])
    ensures OthersKept(status0, status, {t.id}) && Settled(status, {t.id})
  {
    status, results := status0, results0;
    if !Ready(t, status) {
      SkipTurn(plan, squad, goal, status, results, t);
      status := status[t.id := Skipped];
      SkipsOnTrack(plan, squad, goal, status, results, map[], t.id);
      SkipKeepsOthers(status0, t.id, Downstream(plan, status, t.id));
      status := MarkSkippedDependents(plan, dependents, status, t.id);
    } else {
      var flight;
      status, results, flight := Begin(plan, squad, goal, t, status, results, map[]);
      ghost var begun := status;
      status, results := Drain(plan, squad, dependents, goal, status, results, flight);
      BeginThenDrain(status0, begun, status, t.id);
    }
  }

  lemma BeginThenDrain(a: map<TaskId, Status>, b: map<TaskId, Status>, c: map<TaskId, Status>, id: TaskId)
    requires a.Keys == b.Keys && (forall k :: k in a && k != id ==> b[k] == a[k]) && OthersKept(b, c, {id})
    ensures OthersKept(a, c, {id})
  {
  }

  lemma AlreadySkipped(plan: Plan, squad: Squad, goal: map<TaskId, Status>, status: map<TaskId, Status>,
                       results: seq<TaskResult>, t: Task)
    requires OnTrack(plan, squad, goal, status, results, map[]) && t in plan && status[t.id] != Pending
    ensures OthersKept(status, status, {t.id}) && Settled(status, {t.id})
  {
    assert TaskOnTrack(squad, goal, status, map[], t);
  }

  /** Sequential mode ends with the outcome of one pass in list order. */
  method RunSequential(plan: Plan, squad: Squad) returns (status: map<TaskId, Status>, results: seq<TaskResult>)
    requires UniqueIds(plan)
    ensures IsPassOutcome(plan, squad, status)
    ensures ResultsFit(plan, status, results)
  {
    var dependents := BuildDependents(plan);
    status, results := map t | t in plan :: t.id := Pending, [];
    ghost var goal := PassOutcomes(plan, squad);
    PassBegins(plan, squad, goal, status);
    PassConsistent(plan, squad, goal);
    for i := 0 to |plan|
      invariant PassTo(plan, squad, goal, status, results, i)
    {
      var task := plan[i];
      ghost var before := status;
      TurnIsRight(plan, squad, goal, status, results, i);
      if status[task.id] == Pending {
        status, results := TakeTurn(plan, squad, dependents, goal, task, status, results);
      } else {
        AlreadySkipped(plan, squad, goal, status, results, task);
      }
      TurnTaken(plan, before, status, i);
    }
    PassDone(plan, squad, goal, status, results);
  }

  lemma PassBegins(plan: Plan, squad: Squad, goal: map<TaskId, Status>, status: map<TaskId, Status>)
    requires goal.Keys == Ids(plan) == status.Keys && forall id :: id in status ==> status[id] == Pending
    ensures PassTo(plan, squad, goal, status, [], 0)
  {
    FreshOnTrack(plan, squad, goal, status);
    assert Ids(plan[..0]) == {};
  }

  lemma PassDone(plan: Plan, squad: Squad, goal: map<TaskId, Status>, status: map<TaskId, Status>,
                 results: seq<TaskResult>)
    requires PassTo(plan, squad, goal, status, results, |plan|)
    ensures status == goal
  {
    assert plan[..|plan|] == plan;
    AllSettled(plan, squad, goal, status, results, {});
  }

  // ----- When the two modes agree -----

  /** Every task that is going to run is listed after all its dependencies. */
  ghost predicate RunnersListedLate(plan: Plan, squad: Squad) {
    forall k :: 0 <= k < |plan| && DepsIn(plan[k], WillSucceed(plan, squad)) ==> DepsIn(plan[k], Ids(plan[..k]))
  }

  lemma DueAtTurn(plan: Plan, squad: Squad, k: nat, before: set<TaskId>)
    requires UniqueIds(plan) && RunnersListedLate(plan, squad) && k < |plan|
    requires before == WillSucceed(plan, squad) * Ids(plan[..k])
    ensures OutcomeOf(squad, plan[k], before) == Succeeded <==> plan[k].id in WillSucceed(plan, squad)
  {
    WillSucceedExactly(plan, squad, plan[k]);
    if DepsIn(plan[k], WillSucceed(plan, squad)) {
      assert DepsIn(plan[k], Ids(plan[..k]));
      assert DepsIn(plan[k], before);
    } else {
      assert !DepsIn(plan[k], before);
    }
  }

  lemma {:induction false} PassIsPrefixOfOutcome(plan: Plan, squad: Squad, k: nat)
    requires UniqueIds(plan) && RunnersListedLate(plan, squad) && k <= |plan|
    ensures PassSucceeds(plan, squad, k) == WillSucceed(plan, squad) * Ids(plan[..k])
  {
    if k > 0 {
      PassIsPrefixOfOutcome(plan, squad, k - 1);
      var before := PassSucceeds(plan, squad, k - 1);
      DueAtTurn(plan, squad, k - 1, before);
      IdsGrow(plan, k - 1);
      MeetGrows(WillSucceed(plan, squad), Ids(plan[..k - 1]), plan[k - 1].id);
      assert PassSucceeds(plan, squad, k) ==
        if plan[k - 1].id in WillSucceed(plan, squad) then before + {plan[k - 1].id} else before;
    }
  }

  lemma MeetGrows(a: set<TaskId>, b: set<TaskId>, id: TaskId)
    ensures a * (b + {id}) == if id in a then a * b + {id} else a * b
  {
  }

  lemma PassEqualsOutcomeIf(plan: Plan, squad: Squad, pass: map<TaskId, Status>, outcome: map<TaskId, Status>)
    requires UniqueIds(plan) && IsPassOutcome(plan, squad, pass) && IsOutcome(plan, squad, outcome)
    requires RunnersListedLate(plan, squad)
    ensures pass == outcome
  {
    forall id | id in outcome ensures pass[id] == outcome[id] {
      var k :| 0 <= k < |plan| && plan[k].id == id;
      PassIsPrefixOfOutcome(plan, squad, k);
      assert PassFits(plan, squad, pass, k);
      assert DepsIn(plan[k], WillSucceed(plan, squad)) <==> DepsIn(plan[k], PassSucceeds(plan, squad, k));
    }
  }

  lemma PassEqualsOutcomeOnlyIf(plan: Plan, squad: Squad, pass: map<TaskId, Status>)
    requires UniqueIds(plan) && IsPassOutcome(plan, squad, pass) && IsOutcome(plan, squad, pass)
    ensures RunnersListedLate(plan, squad)
  {
    forall k | 0 <= k < |plan| && DepsIn(plan[k], WillSucceed(plan, squad)) ensures DepsIn(plan[k], Ids(plan[..k])) {
      assert plan[k] in plan && pass[plan[k].id] != Skipped;
      assert PassFits(plan, squad, pass, k);
      forall d | d in plan[k].deps ensures d in Ids(plan[..k]) { PassSucceedsExactly(plan, squad, pass, k, d); }
    }
  }

  /** For given agents, one pass in list order gives the parallel outcome exactly when every task that
      is going to run is listed after its dependencies. */
  lemma PassEqualsOutcomeIff(plan: Plan, squad: Squad)
    requires UniqueIds(plan)
    ensures PassOutcomes(plan, squad) == Outcomes(plan, squad) <==> RunnersListedLate(plan, squad)
  {
    var pass, outcome := PassOutcomes(plan, squad), Outcomes(plan, squad);
    if RunnersListedLate(plan, squad) { PassEqualsOutcomeIf(plan, squad, pass, outcome); }
    if pass == outcome { PassEqualsOutcomeOnlyIf(plan, squad, pass); }
  }

  /** A squad in which every task works. */
  ghost function Tireless(): Squad {
    Squad({Oracle, Atlas, Sentinel, Verifier, Archivist, Synth, Curator}, id => true)
  }

  lemma TirelessWorks(t: Task)
    ensures Tireless().Works(t)
  {
    match t.role {
      case Oracle => case Atlas => case Sentinel => case Verifier => case Archivist => case Synth => case Curator =>
    }
  }

  lemma BetterSquadSucceedsMore(plan: Plan, squad: Squad)
    requires UniqueIds(plan)
    ensures WillSucceed(plan, squad) <= WillSucceed(plan, Tireless())
  {
    var most := WillSucceed(plan, Tireless());
    forall t | t in plan && DepsIn(t, most) && squad.Works(t) ensures t.id in most {
      TirelessWorks(t);
      WillSucceedExactly(plan, Tireless(), t);
    }
    WillSucceedIsLeast(plan, squad, most);
  }

  /** The modes agree for every squad exactly when each task that could ever run (no dependency cycle
      or unknown id upstream) is listed after its dependencies. */
  lemma ModesAgreeIff(plan: Plan)
    requires UniqueIds(plan)
    ensures (forall squad :: PassOutcomes(plan, squad) == Outcomes(plan, squad))
            <==> RunnersListedLate(plan, Tireless())
  {
    PassEqualsOutcomeIff(plan, Tireless());
    if RunnersListedLate(plan, Tireless()) {
      forall squad ensures PassOutcomes(plan, squad) == Outcomes(plan, squad) {
        BetterSquadSucceedsMore(plan, squad);
        PassEqualsOutcomeIff(plan, squad);
      }
    }
  }

  function TwoTasks(first: TaskId, second: TaskId): Plan { [Task(first, Synth, [second]), Task(second, Synth, [])] }

  lemma TwoInParallel(first: TaskId, second: TaskId)
    requires first != second
    ensures UniqueIds(TwoTasks(first, second))
    ensures Outcomes(TwoTasks(first, second), Tireless()) == map[first := Succeeded, second := Succeeded]
  {
    var plan := TwoTasks(first, second);
    TirelessWorks(plan[0]);
    TirelessWorks(plan[1]);
    WillSucceedExactly(plan, Tireless(), plan[1]);
    WillSucceedExactly(plan, Tireless(), plan[0]);
    OutcomesConsistent(plan, Tireless());
    assert Ids(plan) == {first, second} by { assert plan[0] in plan && plan[1] in plan; }
  }

  lemma TwoInSequence(first: TaskId, second: TaskId)
    requires first != second
    ensures UniqueIds(TwoTasks(first, second))
    ensures PassOutcomes(TwoTasks(first, second), Tireless()) == map[first := Skipped, second := Succeeded]
  {
    var plan := TwoTasks(first, second);
    TirelessWorks(plan[1]);
    var done := PassSucceeds(plan, Tireless(), 0);
    assert second !in done && OutcomeOf(Tireless(), plan[0], done) == Skipped;
    assert PassSucceeds(plan, Tireless(), 1) == done;
    assert OutcomeOf(Tireless(), plan[1], done) == Succeeded;
    var r := PassOutcomes(plan, Tireless());
    assert PassFits(plan, Tireless(), r, 0) && PassFits(plan, Tireless(), r, 1);
    assert Ids(plan) == {first, second} by { assert plan[0] in plan && plan[1] in plan; }
  }

  /** A task listed before its dependency: both succeed in parallel, but the sequential mode skips it. */
  lemma ListedTooEarly(first: TaskId, second: TaskId)
    requires first != second
    ensures UniqueIds(TwoTasks(first, second))
    ensures Outcomes(TwoTasks(first, second), Tireless())[first] == Succeeded
    ensures PassOutcomes(TwoTasks(first, second), Tireless())[first] == Skipped
  {
    TwoInParallel(first, second);
    TwoInSequence(first, second);
  }

  predicate DependencyOrdered(plan: Plan) {
    forall k, d :: 0 <= k < |plan| && d in plan[k].deps && d in Ids(plan) ==> d in Ids(plan[..k])
  }

  lemma OrderedPlansAgree(plan: Plan, squad: Squad)
    requires UniqueIds(plan) && DependencyOrdered(plan)
    ensures PassOutcomes(plan, squad) == Outcomes(plan, squad)
  {
    PassEqualsOutcomeIff(plan, squad);
  }

  // ----- Plans made from a brief -----

  /** Each task of the plan depends on the one before it. */
  predicate IsChain(plan: Plan) {
    && (|plan| > 0 ==> plan[0].deps == [])
    && forall k :: 0 < k < |plan| ==> plan[k].deps == [plan[k - 1].id]
  }

  function AddTask(plan: Plan, wanted: bool, role: Role, newIds: seq<TaskId>): Plan
    requires |plan| < |newIds|
  {
    if !wanted then plan else
      plan + [Task(newIds[|plan|], role, if plan == [] then [] else [plan[|plan| - 1].id])]
  }

  /** createPlanFromBrief: the optional roles found in the brief, and a supply of new task ids. */
  function CreatePlan(roles: set<Role>, newIds: seq<TaskId>): (plan: Plan)
    requires |newIds| >= 6
    ensures 1 <= |plan| <= 6
  {
    var p0 := AddTask([], Oracle in roles, Oracle, newIds);
    var p1 := AddTask(p0, true, Synth, newIds);
    var p2 := AddTask(p1, Sentinel in roles, Sentinel, newIds);
    var p3 := AddTask(p2, Verifier in roles, Verifier, newIds);
    var p4 := AddTask(p3, Archivist in roles, Archivist, newIds);
    AddTask(p4, Atlas in roles, Atlas, newIds)
  }

  ghost predicate IsFreshChain(plan: Plan, newIds: seq<TaskId>) {
    IsChain(plan) && |plan| <= |newIds| && forall k :: 0 <= k < |plan| ==> plan[k].id == newIds[k]
  }

  lemma FreshChain(plan: Plan, newIds: seq<TaskId>)
    requires IsFreshChain(plan, newIds) && forall i, j :: 0 <= i < j < |newIds| ==> newIds[i] != newIds[j]
    ensures UniqueIds(plan) && IsChain(plan) && DependencyOrdered(plan)
  {
    ChainIsOrdered(plan);
  }

  lemma AddTaskKeepsChain(plan: Plan, wanted: bool, role: Role, newIds: seq<TaskId>)
    requires |plan| < |newIds| && IsFreshChain(plan, newIds)
    ensures IsFreshChain(AddTask(plan, wanted, role, newIds), newIds)
  {
    var longer := AddTask(plan, wanted, role, newIds);
    forall k | 0 < k < |longer| ensures longer[k].deps == [longer[k - 1].id] {
      assert longer[k - 1] == plan[k - 1];
      if k < |plan| { assert longer[k] == plan[k]; }
    }
  }

  /** Plans made from a brief are chains with distinct ids, so both modes agree on them. */
  lemma CreatedPlanIsChain(roles: set<Role>, newIds: seq<TaskId>)
    requires |newIds| >= 6 && forall i, j :: 0 <= i < j < |newIds| ==> newIds[i] != newIds[j]
    ensures UniqueIds(CreatePlan(roles, newIds)) && IsChain(CreatePlan(roles, newIds))
    ensures DependencyOrdered(CreatePlan(roles, newIds))
  {
    var p0 := AddTask([], Oracle in roles, Oracle, newIds);
    var p1 := AddTask(p0, true, Synth, newIds);
    var p2 := AddTask(p1, Sentinel in roles, Sentinel, newIds);
    var p3 := AddTask(p2, Verifier in roles, Verifier, newIds);
    var p4 := AddTask(p3, Archivist in roles, Archivist, newIds);
    assert IsFreshChain([], newIds);
    AddTaskKeepsChain([], Oracle in roles, Oracle, newIds);
    AddTaskKeepsChain(p0, true, Synth, newIds);
    AddTaskKeepsChain(p1, Sentinel in roles, Sentinel, newIds);
    AddTaskKeepsChain(p2, Verifier in roles, Verifier, newIds);
    AddTaskKeepsChain(p3, Archivist in roles, Archivist, newIds);
    AddTaskKeepsChain(p4, Atlas in roles, Atlas, newIds);
    FreshChain(CreatePlan(roles, newIds), newIds);
  }

  /** The place of a role in a plan made from a brief; the curator has none. */
  function Turn(role: Role): nat {
    match role
    case Oracle => 0 case Synth => 1 case Sentinel => 2 case Verifier => 3 case Archivist => 4 case Atlas => 5
    case Curator => 6
  }

  /** The roles come in their places, each at most once. */
  predicate InPlaces(plan: Plan) {
    forall i, j :: 0 <= i < j < |plan| ==> Turn(plan[i].role) < Turn(plan[j].role)
  }

  function RolesOf(plan: Plan): set<Role> { set t | t in plan :: t.role }

  lemma AddTaskRoles(plan: Plan, wanted: bool, role: Role, newIds: seq<TaskId>)
    requires |plan| < |newIds| && InPlaces(plan) && forall r :: r in RolesOf(plan) ==> Turn(r) < Turn(role)
    ensures var longer := AddTask(plan, wanted, role, newIds);
      InPlaces(longer) && RolesOf(longer) == RolesOf(plan) + If(wanted, role)
  {
    var longer := AddTask(plan, wanted, role, newIds);
    forall i | 0 <= i < |plan| ensures Turn(plan[i].role) < Turn(role) { assert plan[i].role in RolesOf(plan); }
    assert forall t :: t in longer <==> t in plan || (wanted && t == longer[|plan|]);
  }

  function If(wanted: bool, role: Role): set<Role> { if wanted then {role} else {} }

  lemma AllRoles(roles: set<Role>)
    ensures If(Oracle in roles, Oracle) + {Synth} + If(Sentinel in roles, Sentinel) + If(Verifier in roles, Verifier)
              + If(Archivist in roles, Archivist) + If(Atlas in roles, Atlas)
            == roles - {Curator} + {Synth}
  {
    forall r | r in roles
      ensures r == Curator || r in {Oracle, Synth, Sentinel, Verifier, Archivist, Atlas}
    {
      match r case Oracle => case Atlas => case Sentinel => case Verifier => case Archivist => case Synth =>
      case Curator =>
    }
  }

  lemma FirstRoles(roles: set<Role>, newIds: seq<TaskId>, plan: Plan)
    requires |newIds| >= 6
    requires var p0 := AddTask([], Oracle in roles, Oracle, newIds);
      plan == AddTask(AddTask(p0, true, Synth, newIds), Sentinel in roles, Sentinel, newIds)
    ensures InPlaces(plan)
    ensures RolesOf(plan) == If(Oracle in roles, Oracle) + {Synth} + If(Sentinel in roles, Sentinel)
  {
    var p0 := AddTask([], Oracle in roles, Oracle, newIds);
    var p1 := AddTask(p0, true, Synth, newIds);
    AddTaskRoles([], Oracle in roles, Oracle, newIds);
    AddTaskRoles(p0, true, Synth, newIds);
    AddTaskRoles(p1, Sentinel in roles, Sentinel, newIds);
  }

  /** A plan made from a brief has one task to implement it and one for each role found in the brief except the
      curator: research comes before the implementation, then security, verification, documents, packaging. */
  lemma CreatedPlanRoles(roles: set<Role>, newIds: seq<TaskId>)
    requires |newIds| >= 6
    ensures RolesOf(CreatePlan(roles, newIds)) == roles - {Curator} + {Synth}
    ensures InPlaces(CreatePlan(roles, newIds))
  {
    var p0 := AddTask([], Oracle in roles, Oracle, newIds);
    var p2 := AddTask(AddTask(p0, true, Synth, newIds), Sentinel in roles, Sentinel, newIds);
    FirstRoles(roles, newIds, p2);
    LastRoles(roles, newIds, p2);
    AllRoles(roles);
  }

  lemma LastRoles(roles: set<Role>, newIds: seq<TaskId>, p2: Plan)
    requires |newIds| >= 6 && |p2| <= 3 && InPlaces(p2) && RolesOf(p2) <= {Oracle, Synth, Sentinel}
    ensures var p3 := AddTask(p2, Verifier in roles, Verifier, newIds);
            var p4 := AddTask(p3, Archivist in roles, Archivist, newIds);
            var p5 := AddTask(p4, Atlas in roles, Atlas, newIds);
      && InPlaces(p5)
      && RolesOf(p5) == RolesOf(p2) + If(Verifier in roles, Verifier) + If(Archivist in roles, Archivist)
                        + If(Atlas in roles, Atlas)
  {
    var p3 := AddTask(p2, Verifier in roles, Verifier, newIds);
    var p4 := AddTask(p3, Archivist in roles, Archivist, newIds);
    AddTaskRoles(p2, Verifier in roles, Verifier, newIds);
    AddTaskRoles(p3, Archivist in roles, Archivist, newIds);
    AddTaskRoles(p4, Atlas in roles, Atlas, newIds);
  }

  lemma ChainIsOrdered(plan: Plan)
    requires IsChain(plan)
    ensures DependencyOrdered(plan)
  {
    forall k, d | 0 <= k < |plan| && d in plan[k].deps ensures d in Ids(plan[..k]) {
      assert plan[k - 1] in plan[..k];
    }
  }

  /** A chain succeeds up to its first task that does not work; that one fails and the rest are skipped. */
  lemma {:induction false} ChainOutcome(plan: Plan, squad: Squad, k: nat)
    requires UniqueIds(plan) && IsChain(plan) && k < |plan|
    ensures Outcomes(plan, squad)[plan[k].id] ==
      if exists j :: 0 <= j < k && !squad.Works(plan[j]) then Skipped
      else if squad.Works(plan[k]) then Succeeded else Failed
  {
    OutcomesConsistent(plan, squad);
    assert plan[k] in plan;
    if k > 0 {
      ChainOutcome(plan, squad, k - 1);
      assert plan[k].deps == [plan[k - 1].id] && plan[k - 1] in plan;
      assert DepsIn(plan[k], WillSucceed(plan, squad)) <==> plan[k - 1].id in WillSucceed(plan, squad);
    }
  }

  /** If no task failed, then every task without a cycle or an unknown id upstream succeeded. */
  lemma NoFailureMeansSuccess(plan: Plan, squad: Squad)
    requires UniqueIds(plan) && forall id :: id in Ids(plan) ==> Outcomes(plan, squad)[id] != Failed
    ensures WillSucceed(plan, squad) == WillSucceed(plan, Tireless())
  {
    BetterSquadSucceedsMore(plan, squad);
    var least := WillSucceed(plan, squad);
    forall t | t in plan && DepsIn(t, least) && Tireless().Works(t) ensures t.id in least {
      WillSucceedExactly(plan, squad, t);
      assert Outcomes(plan, squad)[t.id] != Failed;
    }
    WillSucceedIsLeast(plan, Tireless(), least);
  }
}
