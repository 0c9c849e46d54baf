/** Running, resuming and rolling back a mission (lib/mission-runner.ts:125-284), with safety over whole
    runs: crashes and exceptions may strike between any two saves. */
module MissionRunner {
  import opened Wrappers
  import opened MissionStateMachine
  import opened GateChecks
  import Squad = SquadCoordinator

  datatype Config = Config(gates: seq<Gate>, allowWarnings: bool)

  /** What one step takes from outside: new task ids, what the squad made of the plan, the verdict of
      the gates. */
  datatype Input = Input(newIds: seq<Squad.TaskId>, execution: Execution, verification: Verification)

  ghost predicate ExecutionFits(plan: Squad.Plan, e: Execution) {
    && Squad.UniqueIds(plan)
    && exists squad :: (Squad.IsOutcome(plan, squad, e.status) || Squad.IsPassOutcome(plan, squad, e.status))
                       && Squad.ResultsFit(plan, e.status, e.results)
  }

  ghost predicate InputFits(cfg: Config, m: MissionRecord, x: Input) {
    && |x.newIds| >= 6 && (forall i, j :: 0 <= i < j < |x.newIds| ==> x.newIds[i] != x.newIds[j])
    && (m.phase == Planning && m.plan.Some? && Squad.UniqueIds(m.plan.value) ==>
      ExecutionFits(m.plan.value, x.execution))
    && (m.phase == Executing ==> exists signal :: IsVerdict(cfg.gates, cfg.allowWarnings, m, signal, x.verification))
  }

  /** One phase of runFromPhase. A refused verification turns into the error phase; a missing field is
      the exception the source would raise. */
  function Step(m: MissionRecord, x: Input): Result<MissionRecord>
    requires |x.newIds| >= 6
  {
    match m.phase
    case Briefing =>
      if m.brief.None? then Err("no brief")
      else Transition(m, Planning, NO_PATCH.(plan := Some(Squad.CreatePlan(m.brief.value.roles, x.newIds))))
    case Planning =>
      if m.plan.None? then Err("no plan") else Transition(m, Executing, NO_PATCH.(execution := Some(x.execution)))
    case Executing => Transition(m, Verifying, NO_PATCH.(verification := Some(x.verification)))
    case Verifying =>
      if m.verification.Some? && m.verification.value.overall != Passed then FailMission(m)
      else if m.execution.None? then Err("no execution")
      else Transition(m, Delivering, NO_PATCH.(delivered := true))
    case Delivering => Transition(m, Closed, NO_PATCH)
    case _ => Err("nothing to run")
  }

  ghost predicate StepsTo(cfg: Config, m: MissionRecord, n: MissionRecord) {
    exists x :: InputFits(cfg, m, x) && Step(m, x) == Ok(n)
  }

  /** Records saved one after the other by a run. */
  ghost predicate IsTrail(cfg: Config, trail: seq<MissionRecord>) {
    |trail| > 0 && forall i :: 0 <= i < |trail| - 1 ==> StepsTo(cfg, trail[i], trail[i + 1])
  }

  lemma TrailGrows(cfg: Config, trail: seq<MissionRecord>, x: Input, n: MissionRecord)
    requires IsTrail(cfg, trail) && InputFits(cfg, trail[|trail| - 1], x) && Step(trail[|trail| - 1], x) == Ok(n)
    ensures IsTrail(cfg, trail + [n])
  {
    var longer := trail + [n];
    forall i | 0 <= i < |longer| - 1 ensures StepsTo(cfg, longer[i], longer[i + 1]) {
      if i < |trail| - 1 { assert StepsTo(cfg, trail[i], trail[i + 1]); }
    }
  }

  function Rank(p: Phase): nat {
    match p
    case Briefing => 0
    case Planning => 1
    case Executing => 2
    case Verifying => 3
    case Delivering => 4
    case Closed => 5
    case Error => 6
  }

  lemma StepOrder(m: MissionRecord, x: Input)
    requires |x.newIds| >= 6 && Step(m, x).Ok?
    ensures Step(m, x).value.id == m.id
    ensures Step(m, x).value.phase == match m.phase
              case Briefing => Planning
              case Planning => Executing
              case Executing => Verifying
              case Verifying =>
                (if m.verification.Some? && m.verification.value.overall != Passed then Error else Delivering)
              case Delivering => Closed
              case _ => Error
  {
  }

  // ----- The runner -----

  class Runner {
    const sm: StateMachine
    const cfg: Config
    const squad: Squad.Squad
    const parallelize: bool

    constructor (sm: StateMachine, cfg: Config, squad: Squad.Squad, parallelize: bool)
      ensures this.sm == sm && this.cfg == cfg && this.squad == squad && this.parallelize == parallelize
    {
      this.sm, this.cfg, this.squad, this.parallelize := sm, cfg, squad, parallelize;
    }

    method ExecutePlan(plan: Squad.Plan) returns (e: Execution)
      requires Squad.UniqueIds(plan)
      ensures ExecutionFits(plan, e)
    {
      var status, results;
      if parallelize {
        status, results := Squad.RunParallel(plan, squad);
      } else {
        status, results := Squad.RunSequential(plan, squad);
      }
      e := Execution(status, results);
    }

    /** One phase of a run: the step of the machine on the mission, saved when it succeeds. */
    method RunPhase(m: MissionRecord, newIds: seq<Squad.TaskId>, signal: Signal) returns (r: Result<MissionRecord>)
      requires |newIds| >= 6 && forall i, j :: 0 <= i < j < |newIds| ==> newIds[i] != newIds[j]
      requires m.plan.Some? ==> Squad.UniqueIds(m.plan.value)
      modifies sm
      ensures exists x :: InputFits(cfg, m, x) && r == Step(m, x)
      ensures sm.store == if r.Ok? then old(sm.store)[m.id := r.value] else old(sm.store)
      ensures r.Ok? && r.value.plan.Some? ==> Squad.UniqueIds(r.value.plan.value)
    {
      var x := Input(newIds, Execution(map[], []), Verification([], Passed));
      match m.phase {
      case Briefing =>
        if m.brief.None? {
          r := Err("no brief");
        } else {
          var plan := Squad.CreatePlan(m.brief.value.roles, newIds);
          Squad.CreatedPlanIsChain(m.brief.value.roles, newIds);
          r := sm.DoTransition(m, Planning, NO_PATCH.(plan := Some(plan)));
        }
      case Planning =>
        if m.plan.None? {
          r := Err("no plan");
        } else {
          var execution := ExecutePlan(m.plan.value);
          x := x.(execution := execution);
          r := sm.DoTransition(m, Executing, NO_PATCH.(execution := Some(execution)));
        }
      case Executing =>
        var verification := RunAll(cfg.gates, cfg.allowWarnings, m, signal);
        x := x.(verification := verification);
        r := sm.DoTransition(m, Verifying, NO_PATCH.(verification := Some(verification)));
      case Verifying =>
        if m.verification.Some? && m.verification.value.overall != Passed {
          r := sm.DoFail(m);
        } else if m.execution.None? {
          r := Err("no execution");
        } else {
          r := sm.DoTransition(m, Delivering, NO_PATCH.(delivered := true));
        }
      case Delivering => r := sm.DoTransition(m, Closed, NO_PATCH);
      case _ => r := Err("nothing to run");
      }
      assert InputFits(cfg, m, x) && r == Step(m, x);
    }

    ghost predicate Saved(before: map<string, MissionRecord>, id: string, trail: seq<MissionRecord>)
      reads sm
    {
      && IsTrail(cfg, trail) && trail[|trail| - 1].id == id
      && (trail[|trail| - 1].plan.Some? ==> Squad.UniqueIds(trail[|trail| - 1].plan.value))
      && sm.store == if |trail| == 1 then before else before[id := trail[|trail| - 1]]
    }

    method RunAndExtend(ghost mission: MissionRecord, m: MissionRecord, ghost trail0: seq<MissionRecord>,
                        ghost before: map<string, MissionRecord>, newIds: seq<Squad.TaskId>, signal: Signal)
      returns (r: Result<MissionRecord>, ghost trail: seq<MissionRecord>)
      requires |newIds| >= 6 && forall i, j :: 0 <= i < j < |newIds| ==> newIds[i] != newIds[j]
      requires Saved(before, mission.id, trail0) && trail0[0] == mission && trail0[|trail0| - 1] == m
      modifies sm
      ensures Saved(before, mission.id, trail) && trail[0] == mission
      ensures if r.Ok? then
                && trail[|trail| - 1] == r.value
                && Rank(r.value.phase) > Rank(m.phase)
                && (Rank(r.value.phase) == Rank(m.phase) + 1 || r.value.phase == Error)
              else trail == trail0
    {
      trail := trail0;
      r := RunPhase(m, newIds, signal);
      if r.Ok? {
        ghost var x :| InputFits(cfg, m, x) && r == Step(m, x);
        StepOrder(m, x);
        TrailGrows(cfg, trail, x, r.value);
        trail := trail + [r.value];
      }
    }

    /** Runs from the mission's phase until it is closed or in error, or a step raises. Every record on
        the way is a step from the one before, and the last one is what the store holds. */
    method RunFromPhase(mission: MissionRecord, newIds: seq<Squad.TaskId>, signal: Signal)
      returns (r: Result<MissionRecord>, ghost trail: seq<MissionRecord>)
      requires |newIds| >= 6 && forall i, j :: 0 <= i < j < |newIds| ==> newIds[i] != newIds[j]
      requires mission.plan.Some? ==> Squad.UniqueIds(mission.plan.value)
      modifies sm
      ensures Saved(old(sm.store), mission.id, trail) && trail[0] == mission
      ensures r.Ok? ==> r.value == trail[|trail| - 1] && r.value.phase in {Closed, Error}
    {
      var m := mission;
      ghost var before := sm.store;
      trail := [m];
      if m.phase == Briefing {
        r, trail := RunAndExtend(mission, m, trail, before, newIds, signal);
        if r.Err? { return; }
        m := r.value;
      }
      if m.phase == Planning {
        r, trail := RunAndExtend(mission, m, trail, before, newIds, signal);
        if r.Err? { return; }
        m := r.value;
      }
      if m.phase == Executing {
        r, trail := RunAndExtend(mission, m, trail, before, newIds, signal);
        if r.Err? { return; }
        m := r.value;
      }
      if m.phase == Verifying {
        r, trail := RunAndExtend(mission, m, trail, before, newIds, signal);
        if r.Err? { return; }
        m := r.value;
      }
      if m.phase == Delivering {
        r, trail := RunAndExtend(mission, m, trail, before, newIds, signal);
        if r.Err? { return; }
        m := r.value;
      }
      r := Ok(m);
    }
  }
}
