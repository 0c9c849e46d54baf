/** What the history of a mission tells about its record: exactly when the verification, and the
    execution, it carries are current. Every possible history is played out by a run, so the conditions
    are exact; so are the policies on rollbacks (lib/mission-state-machine.ts:223-231, 329-333). */
module MissionHistory {
  import opened Wrappers
  import opened MissionStateMachine
  import opened GateChecks
  import opened MissionRunner
  import opened MissionSafety
  import Squad = SquadCoordinator

  // ----- Reading a history -----

  /** The last position at which the phase was entered by a transition rather than a rollback, or -1.
      Entering plan, execute and verify by a transition is what writes those fields. */
  function LastForward(h: seq<Phase>, p: Phase): (i: int)
    ensures -1 <= i < |h| && i != 0
    ensures i > 0 ==> h[i] == p && h[i - 1] != Error
  {
    if |h| < 2 then -1
    else if h[|h| - 1] == p && h[|h| - 2] != Error then |h| - 1
    else LastForward(h[..|h| - 1], p)
  }

  /** Verified after it was last planned and last executed. */
  predicate VerificationCurrent(h: seq<Phase>) {
    LastForward(h, Verifying) > LastForward(h, Planning) && LastForward(h, Verifying) > LastForward(h, Executing)
  }

  /** Executed after it was last planned. */
  predicate ExecutionCurrent(h: seq<Phase>) {
    LastForward(h, Executing) > LastForward(h, Planning)
  }

  ghost predicate HoldsItsExecution(r: MissionRecord) {
    r.plan.Some? && r.execution.Some? && ExecutionFits(r.plan.value, r.execution.value)
  }

  lemma ForwardAppend(h: seq<Phase>, q: Phase, p: Phase)
    requires |h| > 0
    ensures LastForward(h + [q], p) == if q == p && h[|h| - 1] != Error then |h| else LastForward(h, p)
  {
    assert (h + [q])[..|h|] == h;
  }

  /** An error and a rollback change neither verdict. */
  lemma RollbackKeepsCurrent(h: seq<Phase>, t: Phase)
    requires |h| > 0 && IsOpen(t)
    ensures VerificationCurrent(h + [Error] + [t]) == VerificationCurrent(h)
    ensures ExecutionCurrent(h + [Error] + [t]) == ExecutionCurrent(h)
  {
    forall p | p in {Planning, Executing, Verifying} ensures LastForward(h + [Error] + [t], p) == LastForward(h, p) {
      ForwardAppend(h, Error, p);
      ForwardAppend(h + [Error], t, p);
    }
  }

  // ----- Current by history means current -----

  ghost predicate Traced(cfg: Config, r: MissionRecord) {
    && Planned(r)
    && (VerificationCurrent(r.history) ==> Fresh(cfg, r))
    && (ExecutionCurrent(r.history) ==> HoldsItsExecution(r))
  }

  lemma SameTraced(cfg: Config, m: MissionRecord, n: MissionRecord)
    requires Traced(cfg, m) && m.plan == n.plan && m.execution == n.execution && m.verification == n.verification
    requires VerificationCurrent(n.history) ==> VerificationCurrent(m.history)
    requires ExecutionCurrent(n.history) ==> ExecutionCurrent(m.history)
    ensures Traced(cfg, n)
  {
    SameContents(cfg, m, n);
  }

  lemma ForwardAppends(h: seq<Phase>, q: Phase)
    requires |h| > 0
    ensures forall p :: LastForward(h + [q], p) == if q == p && h[|h| - 1] != Error then |h| else LastForward(h, p)
  {
    forall p { ForwardAppend(h, q, p); }
  }

  /** Only a transition into `q` moves the last position of `q`, and it moves it to the end. */
  ghost predicate Moved(before: seq<Phase>, after: seq<Phase>, q: Phase) {
    forall p :: LastForward(after, p) == if p == q then |before| else LastForward(before, p)
  }

  lemma PlanTraced(cfg: Config, m: MissionRecord, n: MissionRecord)
    requires Moved(m.history, n.history, Planning) && Planned(n)
    ensures Traced(cfg, n)
  {
    assert LastForward(n.history, Planning) == |m.history|;
    assert LastForward(n.history, Verifying) == LastForward(m.history, Verifying);
    assert LastForward(n.history, Executing) == LastForward(m.history, Executing);
  }

  lemma ExecuteTraced(cfg: Config, m: MissionRecord, n: MissionRecord)
    requires Moved(m.history, n.history, Executing) && Planned(n) && HoldsItsExecution(n)
    ensures Traced(cfg, n)
  {
    assert LastForward(n.history, Executing) == |m.history|;
    assert LastForward(n.history, Verifying) == LastForward(m.history, Verifying);
  }

  lemma VerifyTraced(cfg: Config, m: MissionRecord, n: MissionRecord)
    requires Moved(m.history, n.history, Verifying) && Traced(cfg, m) && Fresh(cfg, n)
    requires n.plan == m.plan && n.execution == m.execution
    ensures Traced(cfg, n)
  {
    assert LastForward(n.history, Planning) == LastForward(m.history, Planning);
    assert LastForward(n.history, Executing) == LastForward(m.history, Executing);
  }

  lemma MovedBy(h: seq<Phase>, q: Phase)
    requires |h| > 0 && h[|h| - 1] != Error
    ensures Moved(h, h + [q], q)
  {
    ForwardAppends(h, q);
  }

  lemma StepTraced(cfg: Config, m: MissionRecord, x: Input)
    requires WellFormed(m) && Traced(cfg, m) && IsOpen(m.phase) && InputFits(cfg, m, x) && Step(m, x).Ok?
    ensures Traced(cfg, Step(m, x).value)
  {
    match m.phase
    case Briefing => PlanStepTraced(cfg, m, x);
    case Planning => ExecuteStepTraced(cfg, m, x);
    case Executing => VerifyStepTraced(cfg, m, x);
    case _ => LastStepsTraced(cfg, m, x);
  }

  lemma PlanStepTraced(cfg: Config, m: MissionRecord, x: Input)
    requires WellFormed(m) && m.phase == Briefing && InputFits(cfg, m, x) && Step(m, x).Ok?
    ensures Traced(cfg, Step(m, x).value)
  {
    MovedBy(m.history, Planning);
    Squad.CreatedPlanIsChain(m.brief.value.roles, x.newIds);
    PlanTraced(cfg, m, Step(m, x).value);
  }

  lemma ExecuteStepTraced(cfg: Config, m: MissionRecord, x: Input)
    requires WellFormed(m) && Traced(cfg, m) && m.phase == Planning && InputFits(cfg, m, x) && Step(m, x).Ok?
    ensures Traced(cfg, Step(m, x).value)
  {
    var n := Step(m, x).value;
    MovedBy(m.history, Executing);
    assert n.plan == m.plan && n.execution == Some(x.execution);
    ExecuteTraced(cfg, m, n);
  }

  lemma VerifyStepTraced(cfg: Config, m: MissionRecord, x: Input)
    requires WellFormed(m) && Traced(cfg, m) && m.phase == Executing && InputFits(cfg, m, x) && Step(m, x).Ok?
    ensures Traced(cfg, Step(m, x).value)
  {
    MovedBy(m.history, Verifying);
    VerifiedNow(cfg, m, x);
    VerifyTraced(cfg, m, Step(m, x).value);
  }

  lemma LastStepsTraced(cfg: Config, m: MissionRecord, x: Input)
    requires WellFormed(m) && Traced(cfg, m) && (m.phase == Verifying || m.phase == Delivering) && |x.newIds| >= 6
    requires Step(m, x).Ok?
    ensures Traced(cfg, Step(m, x).value)
  {
    LaterStep(m, x);
    var n := Step(m, x).value;
    MovedBy(m.history, n.phase);
    LaterTraced(cfg, m, n, n.phase);
  }

  lemma LaterStep(m: MissionRecord, x: Input)
    requires (m.phase == Verifying || m.phase == Delivering) && |x.newIds| >= 6 && Step(m, x).Ok?
    ensures var n := Step(m, x).value;
      && n.plan == m.plan && n.execution == m.execution && n.verification == m.verification
      && n.history == m.history + [n.phase] && n.phase !in {Planning, Executing, Verifying}
  {
  }

  lemma LaterTraced(cfg: Config, m: MissionRecord, n: MissionRecord, q: Phase)
    requires Moved(m.history, n.history, q) && q !in {Planning, Executing, Verifying} && Traced(cfg, m)
    requires n.plan == m.plan && n.execution == m.execution && n.verification == m.verification
    ensures Traced(cfg, n)
  {
    assert LastForward(n.history, Planning) == LastForward(m.history, Planning);
    assert LastForward(n.history, Executing) == LastForward(m.history, Executing);
    assert LastForward(n.history, Verifying) == LastForward(m.history, Verifying);
    SameTraced(cfg, m, n);
  }

  lemma VerifiedNow(cfg: Config, m: MissionRecord, x: Input)
    requires WellFormed(m) && m.phase == Executing && InputFits(cfg, m, x) && Step(m, x).Ok?
    ensures Fresh(cfg, Step(m, x).value)
  {
    var n := Step(m, x).value;
    var signal :| IsVerdict(cfg.gates, cfg.allowWarnings, m, signal, x.verification);
    assert n.plan == m.plan && n.execution == m.execution && n.verification == Some(x.verification);
  }

  ghost predicate WorldTraced(cfg: Config, w: World) {
    Traced(cfg, w.saved) && (w.session.Some? ==> Traced(cfg, w.session.value))
  }

  lemma NextTraced(cfg: Config, w: World, e: Event, v: World)
    requires WorldWalks(w) && WorldTraced(cfg, w) && Next(cfg, w, e, v)
    ensures WorldTraced(cfg, v)
  {
    match e
    case Begin =>
    case Advance(x) => StepTraced(cfg, w.saved, x);
    case Raise => if FailMission(w.session.value).Ok? { FailTraced(cfg, w.session.value); }
    case Crash =>
    case RollbackTo(target) => if Rollback(w.saved, target).Ok? { RollbackTraced(cfg, w.saved, target); }
  }

  lemma FailTraced(cfg: Config, m: MissionRecord)
    requires Traced(cfg, m) && |m.history| > 0 && FailMission(m).Ok?
    ensures Traced(cfg, FailMission(m).value)
  {
    ForwardAppends(m.history, Error);
    SameTraced(cfg, m, FailMission(m).value);
  }

  lemma RollbackTraced(cfg: Config, m: MissionRecord, target: Phase)
    requires Traced(cfg, m) && WellFormed(m) && Rollback(m, target).Ok?
    ensures Traced(cfg, Rollback(m, target).value)
  {
    ForwardAppends(m.history, target);
    SameTraced(cfg, m, Rollback(m, target).value);
  }

  lemma {:induction false} RunTraced(cfg: Config, ws: seq<World>, es: seq<Event>, k: nat)
    requires IsRun(cfg, ws, es) && k <= |es|
    ensures WorldWalks(ws[k]) && WorldTraced(cfg, ws[k])
  {
    HistoriesAreWalks(cfg, ws, es, k, k);
    if k > 0 {
      RunTraced(cfg, ws, es, k - 1);
      assert StepAt(cfg, ws, es, k - 1);
      NextTraced(cfg, ws[k - 1], es[k - 1], ws[k]);
    }
  }

  /** Whatever the rollbacks of a run: when a closed mission passed the default gates and its history is
      current, every task of its plan has succeeded. */
  lemma ClosedByHistory(cfg: Config, leaks: Execution -> bool, ws: seq<World>, es: seq<Event>, k: nat)
    requires cfg.gates == DefaultGates(leaks)
    requires IsRun(cfg, ws, es) && k <= |es| && ws[k].saved.phase == Closed
    requires VerificationCurrent(ws[k].saved.history) && ExecutionCurrent(ws[k].saved.history)
    requires ws[k].saved.verification.Some? && ws[k].saved.verification.value.overall == Passed
    ensures AllSucceeded(ws[k].saved)
  {
    var m := ws[k].saved;
    RunTraced(cfg, ws, es, k);
    PassMeans(cfg, leaks, m);
    ChainWithoutFailure(m.plan.value, m.execution.value);
  }

  // ----- Extending a run -----

  lemma Grow(cfg: Config, policy: Policy, ws: seq<World>, es: seq<Event>, e: Event, v: World)
    returns (ws2: seq<World>, es2: seq<Event>)
    requires IsRun(cfg, ws, es) && Follows(policy, ws, es) && Next(cfg, ws[|es|], e, v) && Allowed(policy, ws[|es|], e)
    ensures IsRun(cfg, ws2, es2) && Follows(policy, ws2, es2) && ws2[|es2|] == v
  {
    ws2, es2 := ws + [v], es + [e];
    forall i | 0 <= i < |es2| ensures StepAt(cfg, ws2, es2, i) && Allowed(policy, ws2[i], es2[i]) {
      if i < |es| { assert StepAt(cfg, ws, es, i) && Allowed(policy, ws[i], es[i]); }
    }
  }

  /** The open session takes a step. */
  lemma Forward(cfg: Config, policy: Policy, ws: seq<World>, es: seq<Event>, x: Input)
    returns (ws2: seq<World>, es2: seq<Event>)
    requires IsRun(cfg, ws, es) && Follows(policy, ws, es) && ws[|es|].session.Some?
    requires InputFits(cfg, ws[|es|].saved, x) && Step(ws[|es|].saved, x).Ok?
    ensures IsRun(cfg, ws2, es2) && Follows(policy, ws2, es2)
    ensures var n := Step(ws[|es|].saved, x).value;
      ws2[|es2|].saved == n && (ws2[|es2|].session.Some? <==> IsOpen(n.phase))
  {
    var n := Step(ws[|es|].saved, x).value;
    ws2, es2 := Grow(cfg, policy, ws, es, Advance(x),
                     World(n, if n.phase in {Closed, Error} then None else ws[|es|].session));
  }

  /** The session dies, the mission is resumed, and the resumed session raises. */
  lemma Strike(cfg: Config, policy: Policy, ws: seq<World>, es: seq<Event>) returns (ws2: seq<World>, es2: seq<Event>)
    requires IsRun(cfg, ws, es) && Follows(policy, ws, es) && ws[|es|].session.Some?
    requires WellFormed(ws[|es|].saved) && IsOpen(ws[|es|].saved.phase)
    ensures IsRun(cfg, ws2, es2) && Follows(policy, ws2, es2)
    ensures FailMission(ws[|es|].saved) == Ok(ws2[|es2|].saved) && WellFormed(ws2[|es2|].saved)
    ensures ws2[|es2|].session.None?
  {
    var m := ws[|es|].saved;
    TransitionKeeps(m, Error, NO_PATCH.(errorAt := Some(m.phase)));
    ws2, es2 := Grow(cfg, policy, ws, es, Crash, World(m, None));
    ws2, es2 := Grow(cfg, policy, ws2, es2, Begin, World(m, Some(m)));
    ws2, es2 := Grow(cfg, policy, ws2, es2, Raise, World(FailMission(m).value, None));
  }

  /** The mission is rolled back and resumed. */
  lemma Jump(cfg: Config, policy: Policy, ws: seq<World>, es: seq<Event>, target: Phase)
    returns (ws2: seq<World>, es2: seq<Event>)
    requires IsRun(cfg, ws, es) && Follows(policy, ws, es) && ws[|es|].session.None?
    requires WellFormed(ws[|es|].saved) && ws[|es|].saved.phase == Error && IsOpen(target)
    requires target in ws[|es|].saved.history
    requires ws[|es|].saved.errorAt.Some? && policy(ws[|es|].saved.errorAt.value, target)
    ensures IsRun(cfg, ws2, es2) && Follows(policy, ws2, es2)
    ensures Rollback(ws[|es|].saved, target) == Ok(ws2[|es2|].saved) && WellFormed(ws2[|es2|].saved)
    ensures ws2[|es2|].session.Some?
  {
    RollbackSucceedsIff(ws[|es|].saved, target);
    var n := Rollback(ws[|es|].saved, target).value;
    ws2, es2 := Grow(cfg, policy, ws, es, RollbackTo(target), World(n, None));
    ws2, es2 := Grow(cfg, policy, ws2, es2, Begin, World(n, Some(n)));
  }

  // ----- Playing out a history -----

  const IDS: seq<Squad.TaskId> := ["a", "b", "c", "d", "e", "f"]
  const OTHER_IDS: seq<Squad.TaskId> := ["u", "v", "w", "x", "y", "z"]

  const SAMPLE := Brief("t", {})

  function OneTask(ids: seq<Squad.TaskId>): Squad.Plan
    requires |ids| > 0
  {
    [Squad.Task(ids[0], Squad.Synth, [])]
  }

  function Ended(id: Squad.TaskId, status: Squad.Status): Execution {
    Execution(map[id := status], [Squad.TaskResult(id, status)])
  }

  /** A squad whose agents all fail, or all succeed. */
  function Uniform(ok: bool): Squad.Squad {
    Squad.Squad({Squad.Synth}, id => ok)
  }

  lemma EndedFits(ids: seq<Squad.TaskId>, ok: bool)
    requires |ids| >= 6
    ensures Squad.CreatePlan({}, ids) == OneTask(ids)
    ensures ExecutionFits(OneTask(ids), Ended(ids[0], if ok then Squad.Succeeded else Squad.Failed))
  {
    var plan, status := OneTask(ids), if ok then Squad.Succeeded else Squad.Failed;
    var e := Ended(ids[0], status);
    Squad.ChainOutcome(plan, Uniform(ok), 0);
    var outcome := Squad.Outcomes(plan, Uniform(ok));
    assert plan[0] in plan;
    assert outcome == e.status;
    assert Squad.ResultsFit(plan, e.status, e.results) by {
      assert e.results[0] == Squad.TaskResult(ids[0], status);
    }
  }

  /** Up to position `cut` of the history plans are made with one set of ids and their task succeeds;
      from then on with the other set, and it fails. */
  function IdsAt(i: int, cut: int): (ids: seq<Squad.TaskId>)
    ensures |ids| >= 6 && forall i, j :: 0 <= i < j < |ids| ==> ids[i] != ids[j]
  {
    if i > cut then OTHER_IDS else IDS
  }

  ghost predicate Failing(e: Execution) { exists id :: e == Ended(id, Squad.Failed) }

  ghost predicate PlanHolds(plan: Option<Squad.Plan>, at: int, cut: int) {
    plan == if at < 0 then None else Some(OneTask(IdsAt(at, cut)))
  }

  ghost predicate ExecutionHolds(e: Option<Execution>, at: int, cut: int) {
    if at < 0 then e.None?
    else if at <= cut then e == Some(Ended("a", Squad.Succeeded))
    else e.Some? && Failing(e.value)
  }

  ghost predicate VerificationHolds(v: Option<Verification>, at: int, verdict: Verification) {
    v == if at < 0 then None else Some(verdict)
  }

  /** What the record of a run played out from the history holds. */
  ghost predicate Holds(m: MissionRecord, h: seq<Phase>, cut: int, verdict: Verification) {
    && m.history == h && WellFormed(m) && m.brief == Some(SAMPLE)
    && PlanHolds(m.plan, LastForward(h, Planning), cut)
    && ExecutionHolds(m.execution, LastForward(h, Executing), cut)
    && VerificationHolds(m.verification, LastForward(h, Verifying), verdict)
    && (Delivering in h ==> m.delivered)
  }

  /** The gates can pass the successful execution: of the first plan, or of both. */
  ghost predicate Approves(cfg: Config, verdict: Verification, both: bool) {
    && verdict.overall == Passed
    && forall m: MissionRecord ::
         m.execution == Some(Ended("a", Squad.Succeeded))
           && (m.plan == Some(OneTask(IDS)) || (both && m.plan == Some(OneTask(OTHER_IDS)))) ==>
           ApprovesRecord(cfg, m, verdict)
  }

  ghost predicate ApprovesRecord(cfg: Config, m: MissionRecord, verdict: Verification) {
    exists signal :: IsVerdict(cfg.gates, cfg.allowWarnings, m, signal, verdict)
  }

  ghost predicate JumpsAllowed(policy: Policy, h: seq<Phase>) {
    forall i :: 0 < i < |h| - 1 ==> JumpAllowed(policy, h, i)
  }

  ghost predicate JumpAllowed(policy: Policy, h: seq<Phase>, i: int) {
    0 < i < |h| - 1 && (h[i] == Error ==> policy(h[i - 1], h[i + 1]))
  }

  /** Phases other than brief are first entered by a transition. */
  lemma {:induction false} VisitedMeansForward(h: seq<Phase>, p: Phase)
    requires IsWalk(h) && p in h && p != Briefing && p != Error
    ensures LastForward(h, p) > 0
  {
    var n := |h| - 1;
    if n > 0 {
      WalkPrefix(h, n);
      if p in h[..n] {
        VisitedMeansForward(h[..n], p);
      } else {
        assert h == h[..n] + [h[n]];
        WalkStep(h, n - 1);
      }
    }
  }

  lemma WalkStep(h: seq<Phase>, i: nat)
    requires IsWalk(h) && i + 1 < |h|
    ensures h[i + 1] in AllowedForward(h[i]) || (h[i] == Error && h[i + 1] != Error && h[i + 1] in h[..i + 1])
  {
    assert WalksAt(h, i);
    assert h[..i] <= h[..i + 1];
  }

  lemma WalkPrefix(h: seq<Phase>, n: nat)
    requires IsWalk(h) && 0 < n <= |h|
    ensures IsWalk(h[..n])
  {
    forall i | 0 <= i < n - 1 ensures WalksAt(h[..n], i) {
      assert h[..n][..i] == h[..i];
      assert WalksAt(h, i);
    }
  }

  /** The input that takes the played out record one transition further. */
  function InputAt(m: MissionRecord, i: int, cut: int, verdict: Verification): Input {
    Input(IdsAt(i, cut),
          if i <= cut then Ended("a", Squad.Succeeded)
          else Ended(if m.plan.Some? && m.plan.value != [] then m.plan.value[0].id else "", Squad.Failed),
          verdict)
  }

  lemma InputAtFits(cfg: Config, m: MissionRecord, h: seq<Phase>, cut: int, verdict: Verification, both: bool)
    requires Holds(m, h, cut, verdict) && IsOpen(m.phase) && Approves(cfg, verdict, both)
    requires m.phase == Executing ==> LastForward(h, Executing) <= cut && (both || |h| <= cut)
    ensures InputFits(cfg, m, InputAt(m, |h|, cut, verdict))
  {
    if m.phase == Planning {
      VisitedMeansForward(h, Planning);
      EndedFits(IdsAt(LastForward(h, Planning), cut), |h| <= cut);
    }
    if m.phase == Executing {
      VisitedMeansForward(h, Executing);
      VisitedMeansForward(h, Planning) by { assert HasFieldsFor(m, Executing); }
      assert ApprovesRecord(cfg, m, verdict);
    }
  }

  lemma PlayHolds(m: MissionRecord, h: seq<Phase>, cut: int, verdict: Verification, q: Phase)
    requires Holds(m, h, cut, verdict) && IsOpen(m.phase) && verdict.overall == Passed && q in AllowedForward(m.phase)
    requires q != Error
    ensures var r := Step(m, InputAt(m, |h|, cut, verdict));
            r.Ok? && r.value.phase == q && Holds(r.value, h + [q], cut, verdict)
  {
    var x := InputAt(m, |h|, cut, verdict);
    PlayFields(m, h, cut, verdict);
    if m.phase == Briefing { EndedFits(IdsAt(|h|, cut), true); }
    StepPlays(m, x, q, IdsAt(|h|, cut));
    StepWalks(m, x);
    MovedBy(h, q);
    HoldsOn(m, Step(m, x).value, h, q, x, cut, verdict);
  }

  /** The fields the record needs for its next step are there. */
  lemma PlayFields(m: MissionRecord, h: seq<Phase>, cut: int, verdict: Verification)
    requires Holds(m, h, cut, verdict) && IsOpen(m.phase)
    ensures m.phase != Briefing ==> m.plan.Some?
    ensures m.phase !in {Briefing, Planning} ==> m.execution.Some?
    ensures m.phase == Verifying ==> m.verification == Some(verdict)
    ensures m.phase == Delivering ==> m.delivered
  {
    assert m.phase in h;
    if m.phase == Planning { VisitedMeansForward(h, Planning); }
    if m.phase == Executing { VisitedMeansForward(h, Executing); }
    if m.phase == Verifying { VisitedMeansForward(h, Verifying); }
  }

  /** What one step does to a record that has all it needs. */
  lemma StepPlays(m: MissionRecord, x: Input, q: Phase, ids: seq<Squad.TaskId>)
    requires WellFormed(m) && IsOpen(m.phase) && |x.newIds| >= 6 && x.newIds == ids && q in AllowedForward(m.phase)
    requires q != Error
    requires m.phase == Briefing ==> m.brief == Some(SAMPLE) && Squad.CreatePlan({}, ids) == OneTask(ids)
    requires m.phase != Briefing ==> m.plan.Some?
    requires m.phase !in {Briefing, Planning} ==> m.execution.Some?
    requires m.phase == Verifying ==> m.verification.Some? && m.verification.value.overall == Passed
    requires m.phase == Delivering ==> m.delivered
    ensures Step(m, x).Ok?
    ensures var n := Step(m, x).value;
      && n.phase == q && n.history == m.history + [q] && n.brief == m.brief
      && (m.delivered || q == Delivering ==> n.delivered)
      && n.plan == (if q == Planning then Some(OneTask(ids)) else m.plan)
      && n.execution == (if q == Executing then Some(x.execution) else m.execution)
      && n.verification == (if q == Verifying then Some(x.verification) else m.verification)
  {
  }

  lemma HoldsOn(m: MissionRecord, n: MissionRecord, h: seq<Phase>, q: Phase, x: Input, cut: int, verdict: Verification)
    requires Holds(m, h, cut, verdict) && Moved(h, h + [q], q) && WellFormed(n) && x == InputAt(m, |h|, cut, verdict)
    requires n.history == h + [q] && n.brief == m.brief && (m.delivered || q == Delivering ==> n.delivered)
    requires n.plan == if q == Planning then Some(OneTask(IdsAt(|h|, cut))) else m.plan
    requires n.execution == if q == Executing then Some(x.execution) else m.execution
    requires n.verification == if q == Verifying then Some(verdict) else m.verification
    ensures Holds(n, h + [q], cut, verdict)
  {
    var g := h + [q];
    assert LastForward(g, Planning) == if q == Planning then |h| else LastForward(h, Planning);
    assert LastForward(g, Executing) == if q == Executing then |h| else LastForward(h, Executing);
    assert LastForward(g, Verifying) == if q == Verifying then |h| else LastForward(h, Verifying);
    assert q == Executing ==> ExecutionHolds(n.execution, |h|, cut);
  }

  lemma PlayError(m: MissionRecord, h: seq<Phase>, cut: int, verdict: Verification, n: MissionRecord)
    requires Holds(m, h, cut, verdict) && FailMission(m) == Ok(n) && WellFormed(n)
    ensures Holds(n, h + [Error], cut, verdict)
  {
    ForwardAppends(h, Error);
  }

  lemma PlayRollback(m: MissionRecord, h: seq<Phase>, cut: int, verdict: Verification, t: Phase, n: MissionRecord)
    requires Holds(m, h, cut, verdict) && Rollback(m, t) == Ok(n) && WellFormed(n)
    ensures Holds(n, h + [t], cut, verdict)
  {
    ForwardAppends(h, t);
  }

  /** A run played out up to the history. */
  ghost predicate Played(cfg: Config, policy: Policy, ws: seq<World>, es: seq<Event>, h: seq<Phase>, cut: int,
                         verdict: Verification) {
    && IsRun(cfg, ws, es) && Follows(policy, ws, es) && |h| > 0 && Holds(ws[|es|].saved, h, cut, verdict)
    && (ws[|es|].session.Some? <==> IsOpen(h[|h| - 1]))
    && (|h| > 1 && h[|h| - 1] == Error ==> ws[|es|].saved.errorAt == Some(h[|h| - 2]))
  }

  lemma PlayStart(cfg: Config, policy: Policy, cut: int, verdict: Verification) returns (ws: seq<World>, es: seq<Event>)
    ensures Played(cfg, policy, ws, es, [Briefing], cut, verdict)
  {
    var m := NewMission("m", SAMPLE);
    NewIsWellFormed("m", SAMPLE);
    ws, es := [World(m, Some(m))], [];
  }

  lemma PlayOnError(cfg: Config, policy: Policy, ws: seq<World>, es: seq<Event>, h: seq<Phase>, cut: int,
                    verdict: Verification)
    returns (ws2: seq<World>, es2: seq<Event>)
    requires Played(cfg, policy, ws, es, h, cut, verdict) && IsOpen(h[|h| - 1])
    ensures Played(cfg, policy, ws2, es2, h + [Error], cut, verdict)
  {
    ws2, es2 := Strike(cfg, policy, ws, es);
    PlayError(ws[|es|].saved, h, cut, verdict, ws2[|es2|].saved);
  }

  lemma PlayOnJump(cfg: Config, policy: Policy, ws: seq<World>, es: seq<Event>, h: seq<Phase>, t: Phase, cut: int,
                   verdict: Verification)
    returns (ws2: seq<World>, es2: seq<Event>)
    requires Played(cfg, policy, ws, es, h, cut, verdict) && |h| > 1 && h[|h| - 1] == Error
    requires IsOpen(t) && t in h && policy(h[|h| - 2], t)
    ensures Played(cfg, policy, ws2, es2, h + [t], cut, verdict)
  {
    ws2, es2 := Jump(cfg, policy, ws, es, t);
    PlayRollback(ws[|es|].saved, h, cut, verdict, t, ws2[|es2|].saved);
  }

  lemma PlayOnForward(cfg: Config, policy: Policy, ws: seq<World>, es: seq<Event>, h: seq<Phase>, q: Phase, cut: int,
                      verdict: Verification, both: bool)
    returns (ws2: seq<World>, es2: seq<Event>)
    requires Played(cfg, policy, ws, es, h, cut, verdict) && Approves(cfg, verdict, both)
    requires q in AllowedForward(h[|h| - 1]) && q != Error
    requires q == Verifying ==> LastForward(h, Executing) <= cut && (both || |h| <= cut)
    ensures Played(cfg, policy, ws2, es2, h + [q], cut, verdict)
  {
    var m := ws[|es|].saved;
    InputAtFits(cfg, m, h, cut, verdict, both);
    PlayHolds(m, h, cut, verdict, q);
    ws2, es2 := Forward(cfg, policy, ws, es, InputAt(m, |h|, cut, verdict));
  }

  /** A walk whose jumps the policy allows, with the cut where the gates can still be passed. */
  ghost predicate Playable(policy: Policy, h: seq<Phase>, cut: int, both: bool) {
    IsWalk(h) && JumpsAllowed(policy, h) && LastForward(h, if both then Executing else Verifying) <= cut
  }

  /** Nothing is verified past the cut unless the execution is from before it. */
  ghost predicate Verifiable(h: seq<Phase>, q: Phase, cut: int, both: bool) {
    |h| > 0 && (q == Verifying && h[|h| - 1] != Error ==> LastForward(h, Executing) <= cut && (both || |h| <= cut))
  }

  lemma PlayPrefix(policy: Policy, h: seq<Phase>, cut: int, both: bool)
    requires Playable(policy, h, cut, both) && |h| > 1
    ensures h == h[..|h| - 1] + [h[|h| - 1]] && Playable(policy, h[..|h| - 1], cut, both)
    ensures Continues(policy, h[..|h| - 1], h[|h| - 1]) && Verifiable(h[..|h| - 1], h[|h| - 1], cut, both)
  {
    EndSplit(h);
    WalkPrefix(h, |h| - 1);
    JumpsPrefix(policy, h);
    BoundPrefix(h, cut, both);
    PlayJump(policy, h);
  }

  /** Every walk from brief is the history of a run whose rollbacks are those of the walk. */
  lemma {:induction false} Play(cfg: Config, policy: Policy, h: seq<Phase>, cut: int, verdict: Verification, both: bool)
    returns (ws: seq<World>, es: seq<Event>)
    requires Playable(policy, h, cut, both) && Approves(cfg, verdict, both)
    ensures Played(cfg, policy, ws, es, h, cut, verdict)
  {
    var n := |h| - 1;
    if n == 0 {
      ws, es := PlayStart(cfg, policy, cut, verdict);
      assert h == [Briefing];
    } else {
      PlayPrefix(policy, h, cut, both);
      ws, es := Play(cfg, policy, h[..n], cut, verdict, both);
      ws, es := PlayOn(cfg, policy, ws, es, h[..n], h[n], cut, verdict, both);
    }
  }

  /** The next phase is one a walk may continue with, and a jump to it is allowed. */
  ghost predicate Continues(policy: Policy, h: seq<Phase>, q: Phase) {
    && |h| > 0
    && (q in AllowedForward(h[|h| - 1])
        || (|h| > 1 && h[|h| - 1] == Error && IsOpen(q) && q in h && policy(h[|h| - 2], q)))
  }

  lemma PlayOn(cfg: Config, policy: Policy, ws: seq<World>, es: seq<Event>, h: seq<Phase>, q: Phase, cut: int,
               verdict: Verification, both: bool)
    returns (ws2: seq<World>, es2: seq<Event>)
    requires Played(cfg, policy, ws, es, h, cut, verdict) && Approves(cfg, verdict, both) && Continues(policy, h, q)
    requires Verifiable(h, q, cut, both)
    ensures Played(cfg, policy, ws2, es2, h + [q], cut, verdict)
  {
    if q == Error {
      ws2, es2 := PlayOnError(cfg, policy, ws, es, h, cut, verdict);
    } else if h[|h| - 1] == Error {
      ws2, es2 := PlayOnJump(cfg, policy, ws, es, h, q, cut, verdict);
    } else {
      ws2, es2 := PlayOnForward(cfg, policy, ws, es, h, q, cut, verdict, both);
    }
  }

  lemma BoundPrefix(h: seq<Phase>, cut: int, both: bool)
    requires |h| > 1 && LastForward(h, if both then Executing else Verifying) <= cut
    ensures LastForward(h[..|h| - 1], if both then Executing else Verifying) <= cut
    ensures h[|h| - 1] == Verifying && h[|h| - 2] != Error ==>
              LastForward(h[..|h| - 1], Executing) <= cut && (both || |h| - 1 <= cut)
  {
    if both { ForwardEnd(h, Executing); } else { ForwardEnd(h, Verifying); }
  }

  lemma EndSplit(h: seq<Phase>)
    requires |h| > 0
    ensures h == h[..|h| - 1] + [h[|h| - 1]]
  {
  }

  lemma JumpsPrefix(policy: Policy, h: seq<Phase>)
    requires JumpsAllowed(policy, h) && |h| > 1
    ensures JumpsAllowed(policy, h[..|h| - 1])
  {
    var n := |h| - 1;
    forall i | 0 < i < n - 1 ensures JumpAllowed(policy, h[..n], i) { assert JumpAllowed(policy, h, i); }
  }

  lemma ForwardEnd(h: seq<Phase>, p: Phase)
    requires |h| > 1
    ensures var n := |h| - 1; LastForward(h, p) == if h[n] == p && h[n - 1] != Error then n else LastForward(h[..n], p)
  {
  }

  /** A jump of a walk is a rollback the policy allows. */
  lemma PlayJump(policy: Policy, h: seq<Phase>)
    requires IsWalk(h) && JumpsAllowed(policy, h) && |h| > 1
    ensures Continues(policy, h[..|h| - 1], h[|h| - 1])
  {
    var n := |h| - 1;
    WalkStep(h, n - 1);
    if h[n] !in AllowedForward(h[n - 1]) {
      assert n > 1 by { assert h[0] == Briefing; }
      assert JumpAllowed(policy, h, n - 1);
      var i :| 0 <= i < n && h[..n][i] == h[n];
      WalkStep(h, i);
    }
  }

  // ----- The exact conditions -----

  /** The run reaches a record with this history. */
  ghost predicate Reaches(cfg: Config, ws: seq<World>, es: seq<Event>, k: int, h: seq<Phase>) {
    IsRun(cfg, ws, es) && 0 <= k <= |es| && ws[k].saved.history == h
  }

  /** A gate that passes the first plan with nothing failed. */
  function Telling(): Gate {
    Gate("telling", (m: MissionRecord, s: Signal) =>
      if m.plan == Some(OneTask(IDS)) && m.execution == Some(Ended("a", Squad.Succeeded)) then Pass else Fail)
  }

  const TOLD := Verification([Pass], Passed)

  lemma TellingApproves(cfg: Config)
    requires cfg == Config([Telling()], true)
    ensures Approves(cfg, TOLD, false)
  {
    forall m: MissionRecord | m.execution == Some(Ended("a", Squad.Succeeded)) && m.plan == Some(OneTask(IDS))
      ensures ApprovesRecord(cfg, m, TOLD)
    {
      assert IsVerdict(cfg.gates, cfg.allowWarnings, m, Signal(None, 0), TOLD);
    }
  }

  function Anywhere(): Policy { (at: Phase, target: Phase) => true }

  lemma AllJumpsAllowed(h: seq<Phase>)
    ensures JumpsAllowed(Anywhere(), h)
  {
    forall i | 0 < i < |h| - 1 ensures JumpAllowed(Anywhere(), h, i) {}
  }

  /** Failing executions are not successful ones. */
  lemma FailingDiffers(e: Execution)
    requires Failing(e)
    ensures e != Ended("a", Squad.Succeeded) && exists id :: id in e.status && e.status[id] == Squad.Failed
  {
    var id :| e == Ended(id, Squad.Failed);
    assert id in e.status;
  }

  lemma StaleVerification(cfg: Config, m: MissionRecord, h: seq<Phase>)
    requires cfg == Config([Telling()], true) && Holds(m, h, LastForward(h, Verifying), TOLD) && !VerificationCurrent(h)
    ensures !Fresh(cfg, m)
  {
    var cut := LastForward(h, Verifying);
    if cut >= 0 {
      if LastForward(h, Executing) > cut { FailingDiffers(m.execution.value); }
      assert OneTask(IDS)[0].id != OneTask(OTHER_IDS)[0].id;
      forall k: MissionRecord, signal | k.plan == m.plan && k.execution == m.execution
        ensures !IsVerdict(cfg.gates, cfg.allowWarnings, k, signal, TOLD)
      {
        assert Telling().run(k, signal) == Fail;
      }
    }
  }

  /** The verification in every record with this history, under any gates and any rollbacks, is a verdict
      on the record's plan and execution, exactly when the history says so. */
  lemma VerificationCurrentIff(h: seq<Phase>)
    requires IsWalk(h)
    ensures VerificationCurrent(h) <==>
      forall cfg: Config, ws: seq<World>, es: seq<Event>, k: int ::
        Reaches(cfg, ws, es, k, h) ==> Fresh(cfg, ws[k].saved)
  {
    if VerificationCurrent(h) {
      forall cfg: Config, ws: seq<World>, es: seq<Event>, k: int | Reaches(cfg, ws, es, k, h)
        ensures Fresh(cfg, ws[k].saved)
      {
        RunTraced(cfg, ws, es, k);
      }
    } else {
      var cfg := Config([Telling()], true);
      TellingApproves(cfg);
      AllJumpsAllowed(h);
      var ws, es := Play(cfg, Anywhere(), h, LastForward(h, Verifying), TOLD, false);
      StaleVerification(cfg, ws[|es|].saved, h);
      assert Reaches(cfg, ws, es, |es|, h);
    }
  }

  const UNGATED := Verification([], Passed)

  lemma UngatedApproves(cfg: Config)
    requires cfg == Config([], true)
    ensures Approves(cfg, UNGATED, true)
  {
    forall m: MissionRecord ensures ApprovesRecord(cfg, m, UNGATED) {
      assert IsVerdict(cfg.gates, cfg.allowWarnings, m, Signal(None, 0), UNGATED);
    }
  }

  lemma StaleExecution(m: MissionRecord, h: seq<Phase>, verdict: Verification)
    requires Holds(m, h, LastForward(h, Executing), verdict) && !ExecutionCurrent(h)
    ensures !HoldsItsExecution(m)
    ensures LastForward(h, Executing) >= 0 ==>
              m.plan == Some(OneTask(OTHER_IDS)) && m.execution == Some(Ended("a", Squad.Succeeded))
  {
    if LastForward(h, Executing) >= 0 {
      assert "a" in m.execution.value.status;
      assert "a" !in Squad.Ids(OneTask(OTHER_IDS));
    }
  }

  /** The execution in every record with this history is one of the record's plan exactly when the
      history says so. */
  lemma ExecutionCurrentIff(h: seq<Phase>)
    requires IsWalk(h)
    ensures ExecutionCurrent(h) <==>
      forall cfg: Config, ws: seq<World>, es: seq<Event>, k: int ::
        Reaches(cfg, ws, es, k, h) ==> HoldsItsExecution(ws[k].saved)
  {
    if ExecutionCurrent(h) {
      forall cfg: Config, ws: seq<World>, es: seq<Event>, k: int | Reaches(cfg, ws, es, k, h)
        ensures HoldsItsExecution(ws[k].saved)
      {
        RunTraced(cfg, ws, es, k);
      }
    } else {
      var cfg := Config([], true);
      UngatedApproves(cfg);
      AllJumpsAllowed(h);
      var ws, es := Play(cfg, Anywhere(), h, LastForward(h, Executing), UNGATED, true);
      StaleExecution(ws[|es|].saved, h, UNGATED);
      assert Reaches(cfg, ws, es, |es|, h);
    }
  }

  // ----- Policies on rollbacks -----

  const APPROVED := Verification([Pass, Pass, Pass, Pass], Passed)
  const REFUSED := Verification([Pass, Fail], Refused)
  const WITHHELD := Verification([Pass, Pass, Pass, RequireApproval], NeedsApproval)

  /** The default gates, with a scan that finds no secret in the successful execution. */
  ghost predicate IsDefault(cfg: Config, leaks: Execution -> bool) {
    cfg.gates == DefaultGates(leaks) && !leaks(Ended("a", Squad.Succeeded))
  }

  lemma DefaultVerdicts(cfg: Config, leaks: Execution -> bool, m: MissionRecord)
    requires IsDefault(cfg, leaks) && m.plan.Some? && m.plan.value != []
    ensures m.execution == Some(Ended("a", Squad.Succeeded)) ==>
              ApprovesRecord(cfg, m, APPROVED) && ApprovesRecord(cfg, m, WITHHELD)
    ensures m.execution.Some? && Failing(m.execution.value) ==> ApprovesRecord(cfg, m, REFUSED)
  {
    if m.execution == Some(Ended("a", Squad.Succeeded)) {
      assert IsVerdict(cfg.gates, cfg.allowWarnings, m, Signal(None, 0), APPROVED);
      assert IsVerdict(cfg.gates, cfg.allowWarnings, m, Signal(Some(false), 0), WITHHELD);
    }
    if m.execution.Some? && Failing(m.execution.value) {
      FailingDiffers(m.execution.value);
      assert IsVerdict(cfg.gates, cfg.allowWarnings, m, Signal(None, 0), REFUSED);
    }
  }

  lemma DefaultApproves(cfg: Config, leaks: Execution -> bool, both: bool)
    requires IsDefault(cfg, leaks)
    ensures Approves(cfg, APPROVED, both)
  {
    forall m: MissionRecord | m.execution == Some(Ended("a", Squad.Succeeded))
                              && (m.plan == Some(OneTask(IDS)) || (both && m.plan == Some(OneTask(OTHER_IDS))))
      ensures ApprovesRecord(cfg, m, APPROVED)
    {
      DefaultVerdicts(cfg, leaks, m);
    }
  }

  /** Rolling back no further forward than the failed phase is allowed. */
  ghost predicate AllowsBackward(policy: Policy) {
    forall at, target :: IsOpen(at) && IsOpen(target) && Rank(target) <= Rank(at) ==> policy(at, target)
  }

  ghost predicate Route(policy: Policy, h: seq<Phase>) { IsWalk(h) && JumpsAllowed(policy, h) }

  lemma RouteOn(policy: Policy, h: seq<Phase>, q: Phase)
    requires Route(policy, h) && q in AllowedForward(h[|h| - 1])
    ensures Route(policy, h + [q])
    ensures forall p :: LastForward(h + [q], p) == if q == p then |h| else LastForward(h, p)
  {
    WalkAppend(h, q);
    ForwardAppends(h, q);
    forall i | 0 < i < |h| ensures JumpAllowed(policy, h + [q], i) {
      if i < |h| - 1 { assert JumpAllowed(policy, h, i); }
    }
  }

  /** An error strikes, and the mission is rolled back. */
  lemma RouteBack(policy: Policy, h: seq<Phase>, t: Phase)
    requires Route(policy, h) && IsOpen(h[|h| - 1]) && IsOpen(t) && t in h && policy(h[|h| - 1], t)
    ensures Route(policy, h + [Error] + [t])
    ensures forall p :: p != Error ==> LastForward(h + [Error] + [t], p) == LastForward(h, p)
  {
    var g := h + [Error];
    RouteOn(policy, h, Error);
    WalkAppend(g, t);
    ForwardAppends(g, t);
    forall i | 0 < i < |g| ensures JumpAllowed(policy, g + [t], i) {
      if i < |g| - 1 { assert JumpAllowed(policy, g, i); }
    }
  }

  /** Delivered once, then back to plan and executed anew: from here on the verification is stale. */
  lemma RouteToStale(policy: Policy) returns (h: seq<Phase>)
    requires AllowsBackward(policy)
    ensures Route(policy, h) && h[|h| - 1] == Executing && {Briefing, Planning, Verifying, Delivering} <= set p | p in h
    ensures 0 < LastForward(h, Planning) < LastForward(h, Verifying) < LastForward(h, Executing)
  {
    h := RouteToDelivered(policy);
    RouteBack(policy, h, Planning);
    h := h + [Error] + [Planning];
    RouteOn(policy, h, Executing);
    h := h + [Executing];
  }

  /** One position of a run under a policy. */
  ghost predicate Under(cfg: Config, policy: Policy, ws: seq<World>, es: seq<Event>, k: int) {
    IsRun(cfg, ws, es) && Follows(policy, ws, es) && 0 <= k <= |es|
  }

  ghost predicate IsVerified(cfg: Config, m: MissionRecord) {
    Fresh(cfg, m) && m.verification.value.overall == Passed
  }

  /** Every mission delivered or closed under the policy carries a current pass. */
  ghost predicate KeepsVerified(cfg: Config, policy: Policy) {
    forall ws: seq<World>, es: seq<Event>, k: int :: Under(cfg, policy, ws, es, k) ==>
      (ws[k].saved.phase in {Delivering, Closed} ==> IsVerified(cfg, ws[k].saved))
  }

  /** Every mission closed under the policy has completed every task of its plan. */
  ghost predicate KeepsSucceeded(cfg: Config, policy: Policy) {
    forall ws: seq<World>, es: seq<Event>, k: int :: Under(cfg, policy, ws, es, k) ==>
      (ws[k].saved.phase == Closed ==> AllSucceeded(ws[k].saved))
  }

  lemma FailingIsNotVerified(cfg: Config, leaks: Execution -> bool, m: MissionRecord)
    requires IsDefault(cfg, leaks) && m.execution.Some? && Failing(m.execution.value)
    requires m.verification == Some(APPROVED) || m.verification == Some(REFUSED)
    ensures !IsVerified(cfg, m) && !AllSucceeded(m)
  {
    FailingDiffers(m.execution.value);
    if IsVerified(cfg, m) { PassMeans(cfg, leaks, m); }
    FailingIsNotSucceeded(m);
  }

  lemma FailingIsNotSucceeded(m: MissionRecord)
    requires m.execution.Some? && Failing(m.execution.value)
    ensures !AllSucceeded(m)
  {
    FailingDiffers(m.execution.value);
    var id :| id in m.execution.value.status && m.execution.value.status[id] == Squad.Failed;
    if m.plan.Some? && id in Squad.Ids(m.plan.value) {
      var t :| t in m.plan.value && t.id == id;
    }
  }

  /** Every rollback forward to verify or deliver past the failed phase can close an unverified mission,
      with a failed task in its execution. */
  lemma BreaksVerified(cfg: Config, leaks: Execution -> bool, policy: Policy, at: Phase, target: Phase)
    returns (ws: seq<World>, es: seq<Event>)
    requires IsDefault(cfg, leaks) && AllowsBackward(policy)
    requires IsOpen(at) && IsOpen(target) && policy(at, target) && !Reverifies(at, target)
    ensures Under(cfg, policy, ws, es, |es|) && ws[|es|].saved.phase == Closed
    ensures !IsVerified(cfg, ws[|es|].saved) && !AllSucceeded(ws[|es|].saved)
  {
    if at == Verifying {
      ws, es := CloseRefused(cfg, leaks, policy);
    } else {
      var h := RouteStaleFrom(policy, at);
      h := RouteToClosed(policy, h, target);
      ws, es := PlayStale(cfg, leaks, policy, h);
    }
  }

  /** The stale mission, with the error to strike in `at`. */
  lemma RouteStaleFrom(policy: Policy, at: Phase) returns (h: seq<Phase>)
    requires AllowsBackward(policy) && at in {Briefing, Planning, Executing}
    ensures Route(policy, h) && h[|h| - 1] == at && Verifying in h && Delivering in h
    ensures 0 < LastForward(h, Planning) < LastForward(h, Verifying) < LastForward(h, Executing)
  {
    h := RouteToStale(policy);
    if at != Executing {
      assert at in set p | p in h;
      RouteBack(policy, h, at);
      h := h + [Error] + [at];
    }
  }

  lemma PlayStale(cfg: Config, leaks: Execution -> bool, policy: Policy, h: seq<Phase>)
    returns (ws: seq<World>, es: seq<Event>)
    requires IsDefault(cfg, leaks) && Route(policy, h) && h[|h| - 1] == Closed
    requires LastForward(h, Planning) < LastForward(h, Verifying) < LastForward(h, Executing)
    requires LastForward(h, Verifying) >= 0
    ensures Under(cfg, policy, ws, es, |es|) && ws[|es|].saved.phase == Closed && ws[|es|].saved.history == h
    ensures ws[|es|].saved.verification == Some(APPROVED) && ws[|es|].saved.execution.Some?
    ensures Failing(ws[|es|].saved.execution.value)
    ensures !IsVerified(cfg, ws[|es|].saved) && !AllSucceeded(ws[|es|].saved)
  {
    DefaultApproves(cfg, leaks, false);
    ws, es := Play(cfg, policy, h, LastForward(h, Verifying), APPROVED, false);
    FailingIsNotVerified(cfg, leaks, ws[|es|].saved);
  }

  /** Rolled back to the target and run to its end, with nothing executed or verified on the way. */
  lemma RouteToClosed(policy: Policy, h0: seq<Phase>, target: Phase) returns (h: seq<Phase>)
    requires Route(policy, h0) && IsOpen(h0[|h0| - 1]) && target in h0 && policy(h0[|h0| - 1], target)
    requires target == Verifying || target == Delivering
    ensures Route(policy, h) && h[|h| - 1] == Closed
    ensures forall p :: p in {Planning, Executing, Verifying} ==> LastForward(h, p) == LastForward(h0, p)
  {
    RouteBack(policy, h0, target);
    h := h0 + [Error] + [target];
    if target == Verifying {
      RouteOn(policy, h, Delivering);
      h := h + [Delivering];
    }
    RouteOn(policy, h, Closed);
    h := h + [Closed];
  }

  /** The second execution fails, the gates refuse it, and the mission is rolled back to deliver. */
  lemma CloseRefused(cfg: Config, leaks: Execution -> bool, policy: Policy) returns (ws: seq<World>, es: seq<Event>)
    requires IsDefault(cfg, leaks) && AllowsBackward(policy) && policy(Verifying, Delivering)
    ensures Under(cfg, policy, ws, es, |es|) && ws[|es|].saved.phase == Closed
    ensures !IsVerified(cfg, ws[|es|].saved) && !AllSucceeded(ws[|es|].saved)
  {
    ws, es := PlayRefusable(cfg, leaks, policy);
    ws, es := CloseWith(cfg, policy, ws, es, REFUSED);
    FailingIsNotVerified(cfg, leaks, ws[|es|].saved);
  }

  lemma PlayRefusable(cfg: Config, leaks: Execution -> bool, policy: Policy) returns (ws: seq<World>, es: seq<Event>)
    requires IsDefault(cfg, leaks) && AllowsBackward(policy)
    ensures IsRun(cfg, ws, es) && Follows(policy, ws, es) && ws[|es|].session.Some?
    ensures var m := ws[|es|].saved;
      && WellFormed(m) && m.phase == Executing && Delivering in m.history && m.delivered
      && m.execution.Some? && Failing(m.execution.value) && ApprovesRecord(cfg, m, REFUSED)
  {
    var h := RouteToStale(policy);
    DefaultApproves(cfg, leaks, false);
    ws, es := Play(cfg, policy, h, LastForward(h, Verifying), APPROVED, false);
    Refusable(cfg, leaks, ws[|es|].saved, LastForward(h, Planning), LastForward(h, Executing),
              LastForward(h, Verifying));
  }

  lemma Refusable(cfg: Config, leaks: Execution -> bool, m: MissionRecord, planned: int, executed: int, cut: int)
    requires IsDefault(cfg, leaks) && PlanHolds(m.plan, planned, cut) && ExecutionHolds(m.execution, executed, cut)
    requires planned > 0 && executed > cut && executed > 0
    ensures m.execution.Some? && Failing(m.execution.value) && ApprovesRecord(cfg, m, REFUSED)
  {
    assert m.plan.value[0] == OneTask(IdsAt(planned, cut))[0];
    DefaultVerdicts(cfg, leaks, m);
  }

  /** The gates do not pass the execution at hand; the mission is rolled back to deliver, and closed. */
  lemma CloseWith(cfg: Config, policy: Policy, ws: seq<World>, es: seq<Event>, v: Verification)
    returns (ws2: seq<World>, es2: seq<Event>)
    requires IsRun(cfg, ws, es) && Follows(policy, ws, es) && ws[|es|].session.Some? && policy(Verifying, Delivering)
    requires var m := ws[|es|].saved;
      WellFormed(m) && m.phase == Executing && Delivering in m.history && m.delivered && m.execution.Some?
        && ApprovesRecord(cfg, m, v)
    ensures IsRun(cfg, ws2, es2) && Follows(policy, ws2, es2) && ws2[|es2|].saved.phase == Closed
    ensures ws2[|es2|].saved.plan == ws[|es|].saved.plan && ws2[|es2|].saved.execution == ws[|es|].saved.execution
    ensures ws2[|es2|].saved.verification == Some(v)
  {
    var m := ws[|es|].saved;
    var x := Input(IDS, m.execution.value, v);
    StepWalks(m, x);
    ws2, es2 := Forward(cfg, policy, ws, es, x);
    ws2, es2 := Strike(cfg, policy, ws2, es2);
    ws2, es2 := Jump(cfg, policy, ws2, es2, Delivering);
    ws2, es2 := Forward(cfg, policy, ws2, es2, x);
  }

  /** Rollback to execute after an error before it delivers a new plan with the old execution. */
  lemma BreaksExecuted(cfg: Config, leaks: Execution -> bool, policy: Policy, at: Phase)
    returns (ws: seq<World>, es: seq<Event>)
    requires IsDefault(cfg, leaks) && AllowsBackward(policy)
    requires (at == Briefing || at == Planning) && policy(at, Executing)
    ensures Under(cfg, policy, ws, es, |es|) && ws[|es|].saved.phase == Closed && !AllSucceeded(ws[|es|].saved)
    ensures ws[|es|].saved.plan == Some(OneTask(OTHER_IDS))
    ensures ws[|es|].saved.execution == Some(Ended("a", Squad.Succeeded))
  {
    var h := RouteToReplanned(policy, at);
    h := RouteStraight(policy, h);
    ws, es := PlayReplanned(cfg, leaks, policy, h);
    OtherIsNotSucceeded(ws[|es|].saved);
  }

  lemma PlayReplanned(cfg: Config, leaks: Execution -> bool, policy: Policy, h: seq<Phase>)
    returns (ws: seq<World>, es: seq<Event>)
    requires IsDefault(cfg, leaks) && Route(policy, h) && h[|h| - 1] == Closed
    requires 0 < LastForward(h, Executing) < LastForward(h, Planning)
    ensures Under(cfg, policy, ws, es, |es|) && ws[|es|].saved.phase == Closed
    ensures ws[|es|].saved.plan == Some(OneTask(OTHER_IDS))
    ensures ws[|es|].saved.execution == Some(Ended("a", Squad.Succeeded))
  {
    DefaultApproves(cfg, leaks, true);
    ws, es := Play(cfg, policy, h, LastForward(h, Executing), APPROVED, true);
    StaleExecution(ws[|es|].saved, h, APPROVED);
  }

  lemma OtherIsNotSucceeded(m: MissionRecord)
    requires m.plan == Some(OneTask(OTHER_IDS)) && m.execution == Some(Ended("a", Squad.Succeeded))
    ensures !AllSucceeded(m)
  {
    assert "a" in m.execution.value.status;
    assert "a" !in Squad.Ids(OneTask(OTHER_IDS));
  }

  /** Rolled back to execute and run to its end. */
  lemma RouteStraight(policy: Policy, h0: seq<Phase>) returns (h: seq<Phase>)
    requires Route(policy, h0) && IsOpen(h0[|h0| - 1]) && Executing in h0 && policy(h0[|h0| - 1], Executing)
    ensures Route(policy, h) && h[|h| - 1] == Closed
    ensures LastForward(h, Planning) == LastForward(h0, Planning)
    ensures LastForward(h, Executing) == LastForward(h0, Executing)
  {
    RouteBack(policy, h0, Executing);
    h := h0 + [Error] + [Executing];
    RouteOn(policy, h, Verifying);
    h := h + [Verifying];
    RouteOn(policy, h, Delivering);
    h := h + [Delivering];
    RouteOn(policy, h, Closed);
    h := h + [Closed];
  }

  /** Executed, planned anew, and now in `at`. */
  lemma RouteToReplanned(policy: Policy, at: Phase) returns (h: seq<Phase>)
    requires AllowsBackward(policy) && (at == Briefing || at == Planning)
    ensures Route(policy, h) && h[|h| - 1] == at && Executing in h
    ensures 0 < LastForward(h, Executing) < LastForward(h, Planning)
  {
    h := [Briefing];
    RouteOn(policy, h, Planning);
    h := h + [Planning];
    RouteOn(policy, h, Executing);
    h := h + [Executing];
    RouteBack(policy, h, Briefing);
    h := h + [Error] + [Briefing];
    RouteOn(policy, h, Planning);
    h := h + [Planning];
    if at == Briefing {
      RouteBack(policy, h, Briefing);
      h := h + [Error] + [Briefing];
    }
  }

  /** A policy that allows backward rollbacks keeps delivered missions verified exactly when every other
      rollback it allows goes to brief, plan or execute. */
  lemma ReverifyingIff(cfg: Config, leaks: Execution -> bool, policy: Policy)
    requires IsDefault(cfg, leaks) && AllowsBackward(policy)
    ensures KeepsVerified(cfg, policy) <==> Within(policy, Reverifies)
  {
    if Within(policy, Reverifies) {
      forall ws: seq<World>, es: seq<Event>, k: int |
        Under(cfg, policy, ws, es, k) && ws[k].saved.phase in {Delivering, Closed}
        ensures IsVerified(cfg, ws[k].saved)
      {
        DeliveredMeansVerified(cfg, policy, ws, es, k);
      }
    } else {
      var at, target :| IsOpen(at) && IsOpen(target) && policy(at, target) && !Reverifies(at, target);
      var ws, es := BreaksVerified(cfg, leaks, policy, at, target);
    }
  }

  /** It keeps every closed mission's tasks completed exactly when they go to brief or plan. */
  lemma ReexecutingIff(cfg: Config, leaks: Execution -> bool, policy: Policy)
    requires IsDefault(cfg, leaks) && AllowsBackward(policy)
    ensures KeepsSucceeded(cfg, policy) <==> Within(policy, Reexecutes)
  {
    if Within(policy, Reexecutes) {
      forall ws: seq<World>, es: seq<Event>, k: int | Under(cfg, policy, ws, es, k) && ws[k].saved.phase == Closed
        ensures AllSucceeded(ws[k].saved)
      {
        ClosedMeansAllSucceeded(cfg, leaks, policy, ws, es, k);
      }
    } else {
      var at, target :| IsOpen(at) && IsOpen(target) && policy(at, target) && !Reexecutes(at, target);
      if target == Executing {
        var ws, es := BreaksExecuted(cfg, leaks, policy, at);
      } else {
        var ws, es := BreaksVerified(cfg, leaks, policy, at, target);
      }
    }
  }

  // ----- Four runs -----

  /** A mission closed although its gates withheld approval: delivered, rolled back to execution, held
      back by the gates, and rolled back to delivery. */
  lemma UnrestrictedRollbackClosesUnverified(cfg: Config) returns (ws: seq<World>, es: seq<Event>)
    requires cfg == Config(DefaultGates(e => false), true)
    ensures IsRun(cfg, ws, es) && ws[|es|].saved.phase == Closed
    ensures ws[|es|].saved.verification == Some(WITHHELD)
  {
    var policy := Anywhere();
    var h := RouteToDelivered(policy);
    RouteBack(policy, h, Executing);
    h := h + [Error] + [Executing];
    DefaultApproves(cfg, e => false, false);
    ws, es := Play(cfg, policy, h, LastForward(h, Verifying), APPROVED, false);
    DefaultVerdicts(cfg, e => false, ws[|es|].saved);
    ws, es := CloseWith(cfg, policy, ws, es, WITHHELD);
  }

  lemma RouteToDelivered(policy: Policy) returns (h: seq<Phase>)
    ensures Route(policy, h) && h == [Briefing, Planning, Executing, Verifying, Delivering]
    ensures LastForward(h, Planning) == 1 && LastForward(h, Executing) == 2 && LastForward(h, Verifying) == 3
  {
    h := [Briefing];
    RouteOn(policy, h, Planning);
    h := h + [Planning];
    RouteOn(policy, h, Executing);
    h := h + [Executing];
    RouteOn(policy, h, Verifying);
    h := h + [Verifying];
    RouteOn(policy, h, Delivering);
    h := h + [Delivering];
  }

  /** Rollback to verify with an old verification: a mission is closed with the pass of its first
      execution and the failure of its second. */
  lemma StaleVerificationCanBeDelivered(cfg: Config) returns (ws: seq<World>, es: seq<Event>)
    requires cfg == Config(DefaultGates(e => false), true)
    ensures IsRun(cfg, ws, es) && ws[|es|].saved.phase == Closed && !VerificationCurrent(ws[|es|].saved.history)
    ensures ws[|es|].saved.verification == Some(APPROVED) && ws[|es|].saved.execution.Some?
    ensures Failing(ws[|es|].saved.execution.value)
  {
    var policy := Anywhere();
    var h := RouteToStale(policy);
    h := RouteToClosed(policy, h, Verifying);
    ws, es := PlayStale(cfg, e => false, policy, h);
  }

  /** Rollback to execution after an error in planning delivers the new plan with the old execution:
      the gates pass, yet no task of the closed mission's plan ever started. */
  lemma StaleExecutionCanBeDelivered(cfg: Config) returns (ws: seq<World>, es: seq<Event>)
    requires cfg == Config(DefaultGates(e => false), true)
    ensures IsRun(cfg, ws, es) && ws[|es|].saved.phase == Closed
    ensures ws[|es|].saved.plan == Some(OneTask(OTHER_IDS))
    ensures ws[|es|].saved.execution == Some(Ended("a", Squad.Succeeded))
  {
    ws, es := BreaksExecuted(cfg, e => false, Anywhere(), Planning);
  }

  /** A session that raises after its first step: the plan it had saved is gone. */
  lemma RaiseDropsThePlan(cfg: Config) returns (ws: seq<World>, es: seq<Event>)
    ensures IsRun(cfg, ws, es) && |es| == 2 && es[1] == Raise && Advanced(es, 1)
    ensures ws[1].saved.phase == Planning && ws[1].saved.plan.Some?
    ensures ws[2].saved.errorAt == Some(Briefing) && ws[2].saved.plan.None?
  {
    var m, x := NewMission("m", SAMPLE), Input(IDS, Ended("a", Squad.Succeeded), APPROVED);
    var n := Step(m, x).value;
    ws := [World(m, Some(m)), World(n, Some(m)), World(FailMission(m).value, None)];
    es := [Advance(x), Raise];
    assert es[0].Advance?;
    assert StepAt(cfg, ws, es, 0) && StepAt(cfg, ws, es, 1);
  }
}
