/** What a mission record holds in every run (lib/mission-state-machine.ts:240-353, lib/mission-runner.ts:179-284),
    read off its history, and what the state machine asks of any record it is handed. */
module MissionRecords {
  import opened Wrappers
  import opened MissionStateMachine
  import opened GateChecks
  import opened MissionRunner
  import opened MissionSafety
  import Squad = SquadCoordinator

  /** Each field is there exactly when its phase has been visited; the id and the brief never change, the plan is
      for the roles of the brief, and a failed record names the phase it failed in. */
  ghost predicate IsFilled(r: MissionRecord, id: string, brief: Brief) {
    && r.id == id && r.brief == Some(brief) && r.history != [] && r.history[|r.history| - 1] == r.phase
    && (r.plan.Some? <==> Planning in r.history) && (r.execution.Some? <==> Executing in r.history)
    && (r.verification.Some? <==> Verifying in r.history) && (r.delivered <==> Delivering in r.history)
    && (r.plan.Some? ==> IsPlanFor(r.plan.value, brief))
    && if r.phase == Error then |r.history| >= 2 && r.errorAt == Some(r.history[|r.history| - 2]) else r.errorAt == None
  }

  /** An implementation, and a task for every other role the brief calls for, but none for the curator. */
  predicate IsPlanFor(plan: Squad.Plan, brief: Brief) {
    Squad.RolesOf(plan) == brief.roles - {Squad.Curator} + {Squad.Synth}
  }

  lemma HistoryGrows(h: seq<Phase>, next: Phase)
    ensures forall p :: p in h + [next] <==> p in h || p == next
  {
  }

  lemma TransitionFills(m: MissionRecord, next: Phase, p: Patch, id: string, brief: Brief)
    requires IsFilled(m, id, brief) && m.phase != Error && Transition(m, next, p).Ok?
    requires (p.plan.Some? <==> next == Planning) && (p.plan.Some? ==> IsPlanFor(p.plan.value, brief))
    requires (p.execution.Some? <==> next == Executing) && (p.verification.Some? <==> next == Verifying)
    requires p.delivered <==> next == Delivering
    requires p.errorAt == if next == Error then Some(m.phase) else None
    ensures IsFilled(Transition(m, next, p).value, id, brief)
  {
    HistoryGrows(m.history, next);
  }

  lemma StepFills(m: MissionRecord, x: Input, id: string, brief: Brief)
    requires |x.newIds| >= 6 && IsFilled(m, id, brief) && Step(m, x).Ok?
    ensures IsFilled(Step(m, x).value, id, brief)
  {
    match m.phase
    case Briefing =>
      Squad.CreatedPlanRoles(brief.roles, x.newIds);
      var plan := Squad.CreatePlan(brief.roles, x.newIds);
      TransitionFills(m, Planning, NO_PATCH.(plan := Some(plan)), id, brief);
    case Planning => TransitionFills(m, Executing, NO_PATCH.(execution := Some(x.execution)), id, brief);
    case Executing => TransitionFills(m, Verifying, NO_PATCH.(verification := Some(x.verification)), id, brief);
    case Verifying =>
      if m.verification.Some? && m.verification.value.overall != Passed {
        FailFills(m, id, brief);
      } else {
        TransitionFills(m, Delivering, NO_PATCH.(delivered := true), id, brief);
      }
    case Delivering => TransitionFills(m, Closed, NO_PATCH, id, brief);
  }

  lemma FailFills(m: MissionRecord, id: string, brief: Brief)
    requires IsFilled(m, id, brief) && FailMission(m).Ok?
    ensures IsFilled(FailMission(m).value, id, brief)
  {
    HistoryGrows(m.history, Error);
  }

  lemma RollbackFills(m: MissionRecord, target: Phase, id: string, brief: Brief)
    requires IsFilled(m, id, brief) && Rollback(m, target).Ok?
    ensures IsFilled(Rollback(m, target).value, id, brief)
  {
    HistoryGrows(m.history, target);
  }

  lemma NextFills(cfg: Config, w: World, e: Event, v: World, id: string, brief: Brief)
    requires Next(cfg, w, e, v) && IsFilled(w.saved, id, brief)
    requires w.session.Some? ==> IsFilled(w.session.value, id, brief)
    ensures IsFilled(v.saved, id, brief) && (v.session.Some? ==> IsFilled(v.session.value, id, brief))
  {
    match e
    case Begin =>
    case Advance(x) => StepFills(w.saved, x, id, brief);
    case Raise => if FailMission(w.session.value).Ok? { FailFills(w.session.value, id, brief); }
    case Crash =>
    case RollbackTo(target) => if Rollback(w.saved, target).Ok? { RollbackFills(w.saved, target, id, brief); }
  }

  /** Over every run, whatever it crashes, raises or rolls back. */
  lemma {:induction false} RecordsAreFilled(cfg: Config, ws: seq<World>, es: seq<Event>, k: nat, id: string,
                                            brief: Brief)
    requires IsRun(cfg, ws, es) && k < |ws| && ws[0] == World(NewMission(id, brief), Some(NewMission(id, brief)))
    ensures IsFilled(ws[k].saved, id, brief) && (ws[k].session.Some? ==> IsFilled(ws[k].session.value, id, brief))
  {
    if k > 0 {
      RecordsAreFilled(cfg, ws, es, k - 1, id, brief);
      assert StepAt(cfg, ws, es, k - 1);
      NextFills(cfg, ws[k - 1], es[k - 1], ws[k], id, brief);
    }
  }

  /** Of any record at all, well-formed or not: a transition goes one phase ahead, or to error from an open phase,
      and asks for an id and for every field the next phase builds on. */
  lemma AnyTransitionIff(r: MissionRecord, next: Phase, p: Patch)
    ensures Transition(r, next, p).Ok? <==>
      var hasPlan, hasExecution := r.plan.Some? || p.plan.Some?, r.execution.Some? || p.execution.Some?;
      var hasVerification := r.verification.Some? || p.verification.Some?;
      && r.id != ""
      && match next
         case Planning => r.phase == Briefing && r.brief.Some?
         case Executing => r.phase == Planning && r.brief.Some? && hasPlan
         case Verifying => r.phase == Executing && r.brief.Some? && hasPlan && hasExecution
         case Delivering => r.phase == Verifying && r.brief.Some? && hasPlan && hasExecution && hasVerification
         case Closed =>
           r.phase == Delivering && r.brief.Some? && hasPlan && hasExecution && hasVerification
           && (r.delivered || p.delivered)
         case Error => r.phase !in {Closed, Error} && (r.errorAt.Some? || p.errorAt.Some?)
         case Briefing => false
  {
  }
}
