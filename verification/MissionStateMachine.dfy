/** The persistent mission record and its phase machine (lib/mission-state-machine.ts). Timestamps and
    metrics are left out: they are always set and never decide anything. */
module MissionStateMachine {
  import opened Wrappers
  import Squad = SquadCoordinator

  datatype Result<+T> = Ok(value: T) | Err(reason: string)

  datatype Phase = Briefing | Planning | Executing | Verifying | Delivering | Closed | Error

  /** A brief, reduced to the roles its text calls for. */
  datatype Brief = Brief(title: string, roles: set<Squad.Role>)

  datatype Execution = Execution(status: map<Squad.TaskId, Squad.Status>, results: seq<Squad.TaskResult>)

  datatype GateStatus = Pass | Fail | Warn | RequireApproval

  datatype Overall = Passed | Refused | NeedsApproval

  datatype Verification = Verification(results: seq<GateStatus>, overall: Overall)

  datatype MissionRecord = MissionRecord(
    id: string, phase: Phase, brief: Option<Brief>, plan: Option<Squad.Plan>, execution: Option<Execution>,
    verification: Option<Verification>, delivered: bool, errorAt: Option<Phase>, history: seq<Phase>)

  /** The fields a transition overwrites; None leaves a field as it is. */
  datatype Patch = Patch(plan: Option<Squad.Plan>, execution: Option<Execution>,
                         verification: Option<Verification>, delivered: bool, errorAt: Option<Phase>)

  const NO_PATCH := Patch(None, None, None, false, None)

  function AllowedForward(p: Phase): set<Phase> {
    match p
    case Briefing => {Planning, Error}
    case Planning => {Executing, Error}
    case Executing => {Verifying, Error}
    case Verifying => {Delivering, Error}
    case Delivering => {Closed, Error}
    case Closed => {}
    case Error => {}
  }

  /** What validateRecord demands of a record in a given phase. */
  predicate HasFieldsFor(r: MissionRecord, p: Phase) {
    && (p != Error ==> r.brief.Some?)
    && (p in {Executing, Verifying, Delivering, Closed} ==> r.plan.Some?)
    && (p in {Verifying, Delivering, Closed} ==> r.execution.Some?)
    && (p in {Delivering, Closed} ==> r.verification.Some?)
    && (p == Closed ==> r.delivered)
    && (p == Error ==> r.errorAt.Some?)
  }

  predicate IsValid(r: MissionRecord) { r.id != "" && HasFieldsFor(r, r.phase) }

  function Override<T>(old_: Option<T>, patched: Option<T>): Option<T> {
    if patched.Some? then patched else old_
  }

  function Patched(r: MissionRecord, next: Phase, p: Patch): MissionRecord {
    MissionRecord(r.id, next, r.brief, Override(r.plan, p.plan), Override(r.execution, p.execution),
                  Override(r.verification, p.verification), r.delivered || p.delivered,
                  Override(r.errorAt, p.errorAt), r.history + [next])
  }

  function Checked(r: MissionRecord): Result<MissionRecord> {
    if IsValid(r) then Ok(r) else Err("invalid mission record")
  }

  function Transition(r: MissionRecord, next: Phase, p: Patch): Result<MissionRecord> {
    if next !in AllowedForward(r.phase) then Err("invalid mission transition") else Checked(Patched(r, next, p))
  }

  function FailMission(r: MissionRecord): Result<MissionRecord> {
    Transition(r, Error, NO_PATCH.(errorAt := Some(r.phase)))
  }

  function Rollback(r: MissionRecord, target: Phase): Result<MissionRecord> {
    if r.phase != Error then Err("rollback only allowed from error phase")
    else if target == Error || target !in r.history then Err("rollback target phase not in history")
    else Checked(r.(phase := target, errorAt := None, history := r.history + [target]))
  }

  function NewMission(id: string, brief: Brief): MissionRecord {
    MissionRecord(id, Briefing, Some(brief), None, None, None, false, None, [Briefing])
  }

  // ----- Histories -----

  /** A history is a walk: forward edges, plus jumps from error to a phase visited before. */
  predicate IsWalk(h: seq<Phase>) {
    && |h| > 0 && h[0] == Briefing
    && forall i :: 0 <= i < |h| - 1 ==> WalksAt(h, i)
  }

  predicate WalksAt(h: seq<Phase>, i: int) {
    && 0 <= i < |h| - 1
    && (h[i + 1] in AllowedForward(h[i]) || (h[i] == Error && h[i + 1] != Error && h[i + 1] in h[..i]))
  }

  lemma WalkAppend(h: seq<Phase>, p: Phase)
    requires IsWalk(h)
    requires p in AllowedForward(h[|h| - 1]) || (h[|h| - 1] == Error && p != Error && p in h)
    ensures IsWalk(h + [p])
  {
    var n := |h| - 1;
    if p !in AllowedForward(h[n]) {
      assert p in h[..n] by {
        var i :| 0 <= i <= n && h[i] == p;
        assert i < n;
      }
    }
    forall i | 0 <= i < n + 1 ensures WalksAt(h + [p], i) {
      assert (h + [p])[..i] == h[..i];
      if i < n { assert WalksAt(h, i); }
    }
  }

  /** Every phase visited keeps the fields it needed. */
  predicate KeepsFields(r: MissionRecord) {
    forall p :: p in r.history && p != Error ==> HasFieldsFor(r, p)
  }

  predicate WellFormed(r: MissionRecord) {
    IsWalk(r.history) && r.history[|r.history| - 1] == r.phase && KeepsFields(r) && IsValid(r)
  }

  lemma NewIsWellFormed(id: string, brief: Brief)
    requires id != ""
    ensures WellFormed(NewMission(id, brief))
  {
  }

  /** Every successful transition extends the walk and loses no field. */
  lemma TransitionKeeps(r: MissionRecord, next: Phase, p: Patch)
    requires WellFormed(r) && Transition(r, next, p).Ok?
    ensures WellFormed(Transition(r, next, p).value)
  {
    var s := Transition(r, next, p).value;
    WalkAppend(r.history, next);
    forall q | q in s.history && q != Error ensures HasFieldsFor(s, q) {
      assert q in r.history || q == next;
    }
  }

  /** A transition succeeds exactly along an allowed edge with the one field the next phase is about:
      every field needed earlier is there already. */
  lemma TransitionSucceedsIff(r: MissionRecord, next: Phase, p: Patch)
    requires WellFormed(r)
    ensures Transition(r, next, p).Ok? <==>
      && next in AllowedForward(r.phase)
      && match next
         case Executing => r.plan.Some? || p.plan.Some?
         case Verifying => r.execution.Some? || p.execution.Some?
         case Delivering => r.verification.Some? || p.verification.Some?
         case Closed => r.delivered || p.delivered
         case Error => r.errorAt.Some? || p.errorAt.Some?
         case _ => true
  {
    assert r.phase in r.history;
  }

  /** Failing always succeeds from an open phase, and rolling back to that phase undoes it, up to the two
      entries in the history. */
  lemma FailThenRollback(r: MissionRecord)
    requires WellFormed(r) && r.phase !in {Closed, Error}
    ensures FailMission(r).Ok?
    ensures Rollback(FailMission(r).value, r.phase)
            == Ok(r.(errorAt := None, history := r.history + [Error] + [r.phase]))
  {
    assert r.phase in r.history;
    TransitionKeeps(r, Error, NO_PATCH.(errorAt := Some(r.phase)));
    RollbackSucceedsIff(FailMission(r).value, r.phase);
  }

  /** Rollback to a phase never fails validation: it succeeds exactly for the phases visited. */
  lemma RollbackSucceedsIff(r: MissionRecord, target: Phase)
    requires WellFormed(r) && r.phase == Error && target != Error
    ensures Rollback(r, target).Ok? <==> target in r.history
    ensures Rollback(r, target).Ok? ==> WellFormed(Rollback(r, target).value)
  {
    if target in r.history { WalkAppend(r.history, target); }
  }

  lemma NothingAfterClosed(r: MissionRecord, i: nat)
    requires WellFormed(r) && i + 1 < |r.history|
    ensures r.history[i] != Closed
  {
    assert WalksAt(r.history, i);
  }

  /** Closed is absorbing: it is visited only as the current phase, and nothing leaves it. */
  lemma ClosedIsAbsorbing(r: MissionRecord, next: Phase, p: Patch)
    requires WellFormed(r)
    ensures Closed in r.history <==> r.phase == Closed
    ensures r.phase == Closed ==> Transition(r, next, p).Err? && Rollback(r, next).Err?
  {
    if Closed in r.history {
      var i :| 0 <= i < |r.history| && r.history[i] == Closed;
      if i + 1 < |r.history| { NothingAfterClosed(r, i); }
    }
  }

  // ----- The persisted store -----

  /** The state machine with its store: a record is saved exactly when its operation succeeds. */
  class StateMachine {
    var store: map<string, MissionRecord>

    constructor ()
      ensures store == map[]
    {
      store := map[];
    }

    method CreateMission(brief: Brief, id: string) returns (r: MissionRecord)
      modifies this
      ensures r == NewMission(id, brief) && store == old(store)[id := r]
    {
      r := NewMission(id, brief);
      store := store[id := r];
    }

    method DoTransition(record: MissionRecord, next: Phase, patch: Patch) returns (r: Result<MissionRecord>)
      modifies this
      ensures r == Transition(record, next, patch)
      ensures store == if r.Ok? then old(store)[record.id := r.value] else old(store)
    {
      r := Transition(record, next, patch);
      if r.Ok? { store := store[record.id := r.value]; }
    }

    method DoFail(record: MissionRecord) returns (r: Result<MissionRecord>)
      modifies this
      ensures r == FailMission(record)
      ensures store == if r.Ok? then old(store)[record.id := r.value] else old(store)
    {
      r := DoTransition(record, Error, NO_PATCH.(errorAt := Some(record.phase)));
    }

    method DoRollback(record: MissionRecord, target: Phase) returns (r: Result<MissionRecord>)
      modifies this
      ensures r == Rollback(record, target)
      ensures store == if r.Ok? then old(store)[record.id := r.value] else old(store)
    {
      r := Rollback(record, target);
      if r.Ok? { store := store[record.id := r.value]; }
    }
  }
}
