/** Safety of missions over whole runs: sessions that advance, raise or crash at any save, resumes, and
    rollbacks between them (lib/mission-runner.ts:125-175, lib/mission-state-machine.ts:305-353). */
module MissionSafety {
  import opened Wrappers
  import opened MissionStateMachine
  import opened GateChecks
  import opened MissionRunner
  import Squad = SquadCoordinator

  /** The saved record of one mission and, while a session runs, the record that session started from.
      A session that raises marks that starting record as failed, whatever it had saved since. */
  datatype World = World(saved: MissionRecord, session: Option<MissionRecord>)

  datatype Event = Begin | Advance(x: Input) | Raise | Crash | RollbackTo(target: Phase)

  ghost predicate Next(cfg: Config, w: World, e: Event, v: World) {
    match e
    case Begin =>
      w.session.None? && w.saved.phase !in {Closed, Error} && v == World(w.saved, Some(w.saved))
    case Advance(x) =>
      w.session.Some? && InputFits(cfg, w.saved, x) && Step(w.saved, x).Ok?
      && v == World(Step(w.saved, x).value, if Step(w.saved, x).value.phase in {Closed, Error} then None else w.session)
    case Raise =>
      w.session.Some?
      && v == World(if FailMission(w.session.value).Ok? then FailMission(w.session.value).value else w.saved, None)
    case Crash =>
      w.session.Some? && v == World(w.saved, None)
    case RollbackTo(target) =>
      w.session.None?
      && v == World(if Rollback(w.saved, target).Ok? then Rollback(w.saved, target).value else w.saved, None)
  }

  /** `ws` lists the worlds of a run from its creation, `es` the events between them. */
  ghost predicate IsRun(cfg: Config, ws: seq<World>, es: seq<Event>) {
    && |ws| == |es| + 1
    && (exists id, brief :: id != "" && ws[0] == World(NewMission(id, brief), Some(NewMission(id, brief))))
    && forall i :: 0 <= i < |es| ==> StepAt(cfg, ws, es, i)
  }

  ghost predicate StepAt(cfg: Config, ws: seq<World>, es: seq<Event>, i: int) {
    0 <= i < |es| && i + 1 < |ws| && Next(cfg, ws[i], es[i], ws[i + 1])
  }

  // ----- Which rollbacks are allowed -----

  /** A policy on rollbacks: the phase the error struck in, and the target. */
  type Policy = (Phase, Phase) -> bool

  /** The phases an error can strike in, and a rollback can succeed to. */
  predicate IsOpen(p: Phase) { p != Closed && p != Error }

  /** Every rollback that takes effect is one the policy allows. */
  ghost predicate Follows(policy: Policy, ws: seq<World>, es: seq<Event>) {
    |ws| == |es| + 1 && forall i :: 0 <= i < |es| ==> Allowed(policy, ws[i], es[i])
  }

  ghost predicate Allowed(policy: Policy, w: World, e: Event) {
    e.RollbackTo? && Rollback(w.saved, e.target).Ok? && w.saved.errorAt.Some? ==>
      policy(w.saved.errorAt.value, e.target)
  }

  /** Never forward past the phase the error struck in, unless verification runs again. */
  predicate Reverifies(at: Phase, target: Phase) {
    Rank(target) <= Rank(at) || target in {Briefing, Planning, Executing}
  }

  /** Never forward past the phase the error struck in, unless execution runs again. */
  predicate Reexecutes(at: Phase, target: Phase) {
    Rank(target) <= Rank(at) || target in {Briefing, Planning}
  }

  ghost predicate Within(policy: Policy, bound: Policy) {
    forall at, target :: IsOpen(at) && IsOpen(target) && policy(at, target) ==> bound(at, target)
  }

  // ----- What every run keeps -----

  /** The phase the record is in, or was in when the error struck. */
  function Stage(r: MissionRecord): Phase {
    if r.phase == Error && r.errorAt.Some? then r.errorAt.value else r.phase
  }

  /** The verification is a verdict of the gates on the record's current plan and execution. */
  ghost predicate Fresh(cfg: Config, r: MissionRecord) {
    && r.verification.Some? && r.plan.Some? && r.execution.Some?
    && exists m: MissionRecord, signal :: m.plan == r.plan && m.execution == r.execution
                           && IsVerdict(cfg.gates, cfg.allowWarnings, m, signal, r.verification.value)
  }

  ghost predicate Verified(cfg: Config, r: MissionRecord) {
    && (Rank(Stage(r)) >= Rank(Verifying) ==> Fresh(cfg, r))
    && (Rank(Stage(r)) >= Rank(Delivering) ==> r.verification.Some? && r.verification.value.overall == Passed)
  }

  ghost predicate Planned(r: MissionRecord) {
    r.plan.Some? ==> r.plan.value != [] && Squad.UniqueIds(r.plan.value) && Squad.IsChain(r.plan.value)
  }

  ghost predicate Executed(r: MissionRecord) {
    Rank(Stage(r)) >= Rank(Executing) ==>
      r.plan.Some? && r.execution.Some? && ExecutionFits(r.plan.value, r.execution.value)
  }

  ghost predicate Sound(cfg: Config, r: MissionRecord) {
    WellFormed(r) && Planned(r) && Verified(cfg, r)
    && (r.phase == Error ==> r.errorAt.Some? && Rank(r.errorAt.value) <= Rank(Delivering))
  }

  lemma StepWalks(m: MissionRecord, x: Input)
    requires |x.newIds| >= 6 && WellFormed(m) && Step(m, x).Ok?
    ensures WellFormed(Step(m, x).value)
  {
    var n := Step(m, x).value;
    match m.phase
    case Briefing => TransitionKeeps(m, Planning, NO_PATCH.(plan := n.plan));
    case Planning => TransitionKeeps(m, Executing, NO_PATCH.(execution := Some(x.execution)));
    case Executing => TransitionKeeps(m, Verifying, NO_PATCH.(verification := Some(x.verification)));
    case Verifying =>
      if n.phase == Error {
        TransitionKeeps(m, Error, NO_PATCH.(errorAt := Some(m.phase)));
      } else {
        TransitionKeeps(m, Delivering, NO_PATCH.(delivered := true));
      }
    case Delivering => TransitionKeeps(m, Closed, NO_PATCH);
  }

  lemma StepSound(cfg: Config, m: MissionRecord, x: Input)
    requires Sound(cfg, m) && m.phase !in {Closed, Error} && InputFits(cfg, m, x) && Step(m, x).Ok?
    ensures Sound(cfg, Step(m, x).value)
    ensures Executed(m) ==> Executed(Step(m, x).value)
  {
    match m.phase
    case Briefing => PlanSound(cfg, m, x);
    case Planning => ExecuteSound(cfg, m, x);
    case Executing =>
      StepWalks(m, x);
      VerifyingIsFresh(cfg, m, x);
    case Verifying => DeliverSound(cfg, m, x);
    case Delivering =>
      StepWalks(m, x);
      SameContents(cfg, m, Step(m, x).value);
  }

  lemma PlanSound(cfg: Config, m: MissionRecord, x: Input)
    requires Sound(cfg, m) && m.phase == Briefing && InputFits(cfg, m, x) && Step(m, x).Ok?
    ensures Sound(cfg, Step(m, x).value) && Executed(Step(m, x).value)
  {
    StepWalks(m, x);
    Squad.CreatedPlanIsChain(m.brief.value.roles, x.newIds);
    var plan := Squad.CreatePlan(m.brief.value.roles, x.newIds);
    assert Step(m, x).value.plan == Some(plan);
  }

  lemma ExecuteSound(cfg: Config, m: MissionRecord, x: Input)
    requires Sound(cfg, m) && m.phase == Planning && InputFits(cfg, m, x) && Step(m, x).Ok?
    ensures Sound(cfg, Step(m, x).value) && Executed(Step(m, x).value)
  {
    StepWalks(m, x);
    var n := Step(m, x).value;
    assert n.plan == m.plan && n.plan.Some? && n.execution == Some(x.execution);
  }

  lemma DeliverSound(cfg: Config, m: MissionRecord, x: Input)
    requires Sound(cfg, m) && m.phase == Verifying && InputFits(cfg, m, x) && Step(m, x).Ok?
    ensures Sound(cfg, Step(m, x).value)
    ensures Executed(m) ==> Executed(Step(m, x).value)
  {
    if m.verification.Some? && m.verification.value.overall != Passed {
      FailSound(cfg, m);
    } else {
      StepWalks(m, x);
      SameContents(cfg, m, Step(m, x).value);
    }
  }

  lemma VerifyingIsFresh(cfg: Config, m: MissionRecord, x: Input)
    requires Sound(cfg, m) && m.phase == Executing && InputFits(cfg, m, x) && Step(m, x).Ok?
    ensures Fresh(cfg, Step(m, x).value)
  {
    var n := Step(m, x).value;
    var signal :| IsVerdict(cfg.gates, cfg.allowWarnings, m, signal, x.verification);
    assert m.plan == n.plan && m.execution == n.execution;
  }

  lemma SameContents(cfg: Config, m: MissionRecord, n: MissionRecord)
    requires m.plan == n.plan && m.execution == n.execution && m.verification == n.verification
    ensures Fresh(cfg, m) ==> Fresh(cfg, n)
  {
    if Fresh(cfg, m) {
      var k: MissionRecord, signal :| k.plan == m.plan && k.execution == m.execution
                             && IsVerdict(cfg.gates, cfg.allowWarnings, k, signal, m.verification.value);
      assert k.plan == n.plan && k.execution == n.execution;
    }
  }

  lemma FailSound(cfg: Config, m: MissionRecord)
    requires Sound(cfg, m) && m.phase !in {Closed, Error} && FailMission(m).Ok?
    ensures Sound(cfg, FailMission(m).value)
    ensures Executed(m) ==> Executed(FailMission(m).value)
  {
    var n := FailMission(m).value;
    TransitionKeeps(m, Error, NO_PATCH.(errorAt := Some(m.phase)));
    SameContents(cfg, m, n);
    assert n.plan == m.plan && n.execution == m.execution && n.verification == m.verification && Stage(n) == m.phase;
  }

  lemma RollbackSound(cfg: Config, r: MissionRecord, target: Phase)
    requires Sound(cfg, r) && Rollback(r, target).Ok?
    requires Reverifies(r.errorAt.value, target)
    ensures Sound(cfg, Rollback(r, target).value)
    ensures Reexecutes(r.errorAt.value, target) && Executed(r) ==> Executed(Rollback(r, target).value)
  {
    var n := Rollback(r, target).value;
    RollbackSucceedsIff(r, target);
    SameContents(cfg, r, n);
    assert n.plan == r.plan && n.execution == r.execution && n.verification == r.verification && Stage(n) == target;
  }

  // ----- The same, over whole runs -----

  ghost predicate WorldSound(cfg: Config, w: World) {
    Sound(cfg, w.saved) && (w.session.Some? ==> Sound(cfg, w.session.value) && w.session.value.phase !in {Closed, Error}
                                                && w.saved.phase !in {Closed, Error})
  }

  ghost predicate WorldExecuted(w: World) {
    Executed(w.saved) && (w.session.Some? ==> Executed(w.session.value))
  }

  lemma NextSound(cfg: Config, policy: Policy, w: World, e: Event, v: World)
    requires WorldSound(cfg, w) && Next(cfg, w, e, v) && Allowed(policy, w, e) && Within(policy, Reverifies)
    ensures WorldSound(cfg, v)
    ensures WorldExecuted(w) && Within(policy, Reexecutes) ==> WorldExecuted(v)
  {
    match e
    case Begin =>
    case Advance(x) => StepSound(cfg, w.saved, x);
    case Raise => if FailMission(w.session.value).Ok? { FailSound(cfg, w.session.value); }
    case Crash =>
    case RollbackTo(target) =>
      if Rollback(w.saved, target).Ok? {
        ClosedIsAbsorbing(w.saved, Briefing, NO_PATCH);
        assert policy(w.saved.errorAt.value, target);
        RollbackSound(cfg, w.saved, target);
      }
  }

  lemma {:induction false} RunSound(cfg: Config, policy: Policy, ws: seq<World>, es: seq<Event>, k: nat)
    requires IsRun(cfg, ws, es) && Follows(policy, ws, es) && k <= |es| && Within(policy, Reverifies)
    ensures WorldSound(cfg, ws[k])
    ensures Within(policy, Reexecutes) ==> WorldExecuted(ws[k])
  {
    if k > 0 {
      RunSound(cfg, policy, ws, es, k - 1);
      assert StepAt(cfg, ws, es, k - 1);
      NextSound(cfg, policy, ws[k - 1], es[k - 1], ws[k]);
    }
  }

  lemma SoundDelivered(cfg: Config, r: MissionRecord)
    requires Verified(cfg, r) && r.phase in {Delivering, Closed}
    ensures Fresh(cfg, r) && r.verification.value.overall == Passed
  {
  }

  /** Over every run whose rollbacks go to brief, plan or execute, or not past the failed phase, a
      mission in delivery or closed carries a pass of the gates on its current plan and execution. */
  lemma DeliveredMeansVerified(cfg: Config, policy: Policy, ws: seq<World>, es: seq<Event>, k: nat)
    requires IsRun(cfg, ws, es) && k <= |es|
    requires Follows(policy, ws, es) && Within(policy, Reverifies)
    requires ws[k].saved.phase in {Delivering, Closed}
    ensures Fresh(cfg, ws[k].saved) && ws[k].saved.verification.value.overall == Passed
  {
    RunSound(cfg, policy, ws, es, k);
    SoundDelivered(cfg, ws[k].saved);
  }

  ghost predicate WorldWalks(w: World) {
    WellFormed(w.saved) && (w.session.Some? ==> WellFormed(w.session.value) && w.saved.phase !in {Closed, Error})
  }

  lemma NextWalks(cfg: Config, w: World, e: Event, v: World)
    requires WorldWalks(w) && Next(cfg, w, e, v)
    ensures WorldWalks(v) && (w.saved.phase == Closed ==> v.saved == w.saved)
  {
    match e
    case Begin =>
    case Advance(x) => StepWalks(w.saved, x);
    case Raise =>
      var m := w.session.value;
      if FailMission(m).Ok? { TransitionKeeps(m, Error, NO_PATCH.(errorAt := Some(m.phase))); }
    case Crash =>
    case RollbackTo(target) =>
      if Rollback(w.saved, target).Ok? { RollbackSucceedsIff(w.saved, target); }
  }

  /** Every history of every run, whatever its rollbacks, is a walk ending in the current phase, with
      closed only last: once closed, a mission never changes again. */
  lemma {:induction false} HistoriesAreWalks(cfg: Config, ws: seq<World>, es: seq<Event>, k: nat, j: nat)
    requires IsRun(cfg, ws, es) && k <= j <= |es|
    ensures WorldWalks(ws[j])
    ensures ws[k].saved.phase == Closed ==> ws[j].saved == ws[k].saved
    decreases j
  {
    if j == 0 {
      var id, brief :| id != "" && ws[0] == World(NewMission(id, brief), Some(NewMission(id, brief)));
      NewIsWellFormed(id, brief);
    } else {
      HistoriesAreWalks(cfg, ws, es, if k < j then k else j - 1, j - 1);
      assert StepAt(cfg, ws, es, j - 1);
      NextWalks(cfg, ws[j - 1], es[j - 1], ws[j]);
    }
  }

  // ----- What a raise loses -----

  /** The open session has taken a step since it began. */
  predicate Advanced(es: seq<Event>, k: nat)
    requires k <= |es|
  {
    k > 0 && (es[k - 1].Advance? || (!es[k - 1].Begin? && Advanced(es, k - 1)))
  }

  /** An open session holds the record it began with, and each of its steps has lengthened the saved one. */
  ghost predicate SessionKept(w: World, advanced: bool) {
    w.session.Some? ==>
      IsOpen(w.session.value.phase) && WellFormed(w.session.value)
      && if advanced then |w.saved.history| > |w.session.value.history| else w.saved == w.session.value
  }

  lemma {:induction false} RunKeepsSession(cfg: Config, ws: seq<World>, es: seq<Event>, k: nat)
    requires IsRun(cfg, ws, es) && k <= |es|
    ensures SessionKept(ws[k], Advanced(es, k))
  {
    HistoriesAreWalks(cfg, ws, es, k, k);
    if k > 0 {
      RunKeepsSession(cfg, ws, es, k - 1);
      assert StepAt(cfg, ws, es, k - 1);
      if es[k - 1].Advance? { StepLengthens(ws[k - 1].saved, es[k - 1].x); }
    }
  }

  lemma StepLengthens(m: MissionRecord, x: Input)
    requires |x.newIds| >= 6 && Step(m, x).Ok?
    ensures |Step(m, x).value.history| == |m.history| + 1
  {
  }

  /** A session that raises saves the failure of the record it began with; that is the failure of the
      record saved last, so that nothing is lost, exactly when the session has not taken a step. */
  lemma RaiseLosesNothingIff(cfg: Config, ws: seq<World>, es: seq<Event>, k: nat)
    requires IsRun(cfg, ws, es) && k < |es| && es[k] == Raise
    ensures FailMission(ws[k].saved) == Ok(ws[k + 1].saved) <==> !Advanced(es, k)
  {
    RunKeepsSession(cfg, ws, es, k);
    HistoriesAreWalks(cfg, ws, es, k, k);
    assert StepAt(cfg, ws, es, k);
    assert FailMission(ws[k].session.value).Ok?;
  }

  lemma PassMeans(cfg: Config, leaks: Execution -> bool, r: MissionRecord)
    requires cfg.gates == DefaultGates(leaks) && Fresh(cfg, r) && r.verification.value.overall == Passed
    ensures r.plan.value != [] && !leaks(r.execution.value)
    ensures forall id :: id in r.execution.value.status ==> r.execution.value.status[id] != Squad.Failed
  {
    var n: MissionRecord, signal :| n.plan == r.plan && n.execution == r.execution
                     && IsVerdict(cfg.gates, cfg.allowWarnings, n, signal, r.verification.value);
    DefaultPassMeans(leaks, cfg.allowWarnings, n, signal, r.verification.value);
  }

  /** The mission has a plan and an execution of that plan in which every task succeeded. */
  predicate AllSucceeded(m: MissionRecord) {
    && m.plan.Some? && m.execution.Some? && m.plan.value != []
    && m.execution.value.status.Keys == Squad.Ids(m.plan.value)
    && forall t ::
      t in m.plan.value ==> t.id in m.execution.value.status && m.execution.value.status[t.id] == Squad.Succeeded
  }

  /** End to end, under the default gates and rollbacks that never go past the failed phase unless
      execution runs again: when a mission is closed, every task of its plan has succeeded. */
  lemma ClosedMeansAllSucceeded(cfg: Config, leaks: Execution -> bool, policy: Policy, ws: seq<World>, es: seq<Event>,
                                k: nat)
    requires cfg.gates == DefaultGates(leaks)
    requires IsRun(cfg, ws, es) && k <= |es|
    requires Follows(policy, ws, es) && Within(policy, Reexecutes)
    requires ws[k].saved.phase == Closed
    ensures AllSucceeded(ws[k].saved) && !leaks(ws[k].saved.execution.value)
  {
    var m := ws[k].saved;
    RunSound(cfg, policy, ws, es, k);
    SoundDelivered(cfg, m);
    PassMeans(cfg, leaks, m);
    ChainWithoutFailure(m.plan.value, m.execution.value);
  }

  lemma ChainWithoutFailure(plan: Squad.Plan, e: Execution)
    requires Squad.IsChain(plan) && ExecutionFits(plan, e)
    requires forall id :: id in e.status ==> e.status[id] != Squad.Failed
    ensures e.status.Keys == Squad.Ids(plan)
    ensures forall t :: t in plan ==> e.status[t.id] == Squad.Succeeded
  {
    var squad :| (Squad.IsOutcome(plan, squad, e.status) || Squad.IsPassOutcome(plan, squad, e.status))
                 && Squad.ResultsFit(plan, e.status, e.results);
    Squad.ChainIsOrdered(plan);
    Squad.OrderedPlansAgree(plan, squad);
    var outcome, pass := Squad.Outcomes(plan, squad), Squad.PassOutcomes(plan, squad);
    assert e.status == outcome by {
      if Squad.IsOutcome(plan, squad, e.status) {
        SameOutcome(plan, squad, e.status, outcome);
      } else {
        SamePass(plan, squad, e.status, pass);
      }
    }
    forall t | t in plan ensures e.status[t.id] == Squad.Succeeded {
      var k :| 0 <= k < |plan| && plan[k] == t;
      ChainSucceedsTo(plan, squad, k);
    }
  }

  lemma SameOutcome(plan: Squad.Plan, squad: Squad.Squad, a: map<Squad.TaskId, Squad.Status>,
                    b: map<Squad.TaskId, Squad.Status>)
    requires Squad.IsOutcome(plan, squad, a) && Squad.IsOutcome(plan, squad, b)
    ensures a == b
  {
    forall id | id in a ensures a[id] == b[id] {
      var t :| t in plan && t.id == id;
    }
  }

  lemma SamePass(plan: Squad.Plan, squad: Squad.Squad, a: map<Squad.TaskId, Squad.Status>,
                 b: map<Squad.TaskId, Squad.Status>)
    requires Squad.IsPassOutcome(plan, squad, a) && Squad.IsPassOutcome(plan, squad, b)
    ensures a == b
  {
    forall id | id in a ensures a[id] == b[id] {
      var k :| 0 <= k < |plan| && plan[k].id == id;
      assert Squad.PassFits(plan, squad, a, k) && Squad.PassFits(plan, squad, b, k);
    }
  }

  lemma {:induction false} ChainSucceedsTo(plan: Squad.Plan, squad: Squad.Squad, k: nat)
    requires Squad.UniqueIds(plan) && Squad.IsChain(plan) && k < |plan|
    requires forall id :: id in Squad.Outcomes(plan, squad) ==> Squad.Outcomes(plan, squad)[id] != Squad.Failed
    ensures Squad.Outcomes(plan, squad)[plan[k].id] == Squad.Succeeded
    ensures forall j :: 0 <= j <= k ==> squad.Works(plan[j])
  {
    assert plan[k] in plan;
    if k > 0 { ChainSucceedsTo(plan, squad, k - 1); }
    Squad.ChainOutcome(plan, squad, k);
  }
}
