/** The gate checks run between execution and verification (lib/gate-checks.ts). */
module GateChecks {
  import opened Wrappers
  import opened MissionStateMachine
  import Squad = SquadCoordinator

  /** What reaches a gate from outside the mission: the approval callback's answer, if there is a
      callback, and whatever else a custom gate may consult. */
  datatype Signal = Signal(approve: Option<bool>, noise: nat)

  datatype Gate = Gate(id: string, run: (MissionRecord, Signal) -> GateStatus)

  predicate IsTerminal(s: GateStatus) { s == Fail || s == RequireApproval }

  /** The results are those of the gates in order, up to and including the first terminal one; the
      verdict is that of the terminal gate, or a pass unless warnings are refused. */
  predicate IsVerdict(gates: seq<Gate>, allowWarnings: bool, m: MissionRecord, signal: Signal, v: Verification) {
    && |v.results| <= |gates|
    && (forall i :: 0 <= i < |v.results| ==> v.results[i] == gates[i].run(m, signal))
    && (forall i :: 0 <= i < |v.results| - 1 ==> !IsTerminal(v.results[i]))
    && if |v.results| > 0 && IsTerminal(v.results[|v.results| - 1]) then
         v.overall == if v.results[|v.results| - 1] == Fail then Refused else NeedsApproval
       else
         |v.results| == |gates| && v.overall == if !allowWarnings && Warn in v.results then Refused else Passed
  }

  method RunAll(gates: seq<Gate>, allowWarnings: bool, m: MissionRecord, signal: Signal) returns (v: Verification)
    ensures IsVerdict(gates, allowWarnings, m, signal, v)
  {
    var results: seq<GateStatus> := [];
    for i := 0 to |gates|
      invariant |results| == i
      invariant forall k :: 0 <= k < i ==> results[k] == gates[k].run(m, signal) && !IsTerminal(results[k])
    {
      var result := gates[i].run(m, signal);
      results := results + [result];
      if result == Fail { return Verification(results, Refused); }
      if result == RequireApproval { return Verification(results, NeedsApproval); }
    }
    if Warn in results && !allowWarnings { return Verification(results, Refused); }
    return Verification(results, Passed);
  }

  /** The verdict is a pass exactly when no gate fails or asks for approval, and none warns where
      warnings are refused. */
  lemma PassedIff(gates: seq<Gate>, allowWarnings: bool, m: MissionRecord, signal: Signal, v: Verification)
    requires IsVerdict(gates, allowWarnings, m, signal, v)
    ensures v.overall == Passed <==>
      forall i ::
        0 <= i < |gates| ==> !IsTerminal(gates[i].run(m, signal)) && (gates[i].run(m, signal) == Warn ==> allowWarnings)
  {
    var n := |v.results|;
    if v.overall == Passed {
      forall i | 0 <= i < |gates|
        ensures !IsTerminal(gates[i].run(m, signal)) && (gates[i].run(m, signal) == Warn ==> allowWarnings)
      {
        assert v.results[i] in v.results;
        assert i < n - 1 ==> !IsTerminal(v.results[i]);
      }
    } else if n > 0 && IsTerminal(v.results[n - 1]) {
      assert v.results[n - 1] == gates[n - 1].run(m, signal);
    } else {
      var i :| 0 <= i < n && v.results[i] == Warn;
      assert v.results[i] == gates[i].run(m, signal);
    }
  }

  /** The four default gates; `leaks` is the scan of task artifacts for secret markers. */
  function DefaultGates(leaks: Execution -> bool): seq<Gate> {
    [ Gate("quality.plan.nonempty", (m: MissionRecord, s: Signal) =>
        if m.plan.Some? && m.plan.value != [] then Pass else Fail),
      Gate("quality.execute.all_succeeded_or_skipped", (m: MissionRecord, s: Signal) =>
        if m.execution.Some?
          && (exists id :: id in m.execution.value.status && m.execution.value.status[id] == Squad.Failed)
        then Fail else Pass),
      Gate("security.artifacts.no_obvious_secrets", (m: MissionRecord, s: Signal) =>
        if m.execution.Some? && leaks(m.execution.value) then Fail else Pass),
      Gate("approval.optional", (m: MissionRecord, s: Signal) =>
        if s.approve == Some(false) then RequireApproval else Pass) ]
  }

  /** A pass of the default gates means: a non-empty plan, no failed task, no leak, no refusal. */
  lemma DefaultPassMeans(leaks: Execution -> bool, allowWarnings: bool, m: MissionRecord, signal: Signal,
                         v: Verification)
    requires IsVerdict(DefaultGates(leaks), allowWarnings, m, signal, v) && m.execution.Some?
    ensures v.overall == Passed <==>
      && m.plan.Some? && m.plan.value != []
      && (forall id :: id in m.execution.value.status ==> m.execution.value.status[id] != Squad.Failed)
      && !leaks(m.execution.value)
      && signal.approve != Some(false)
  {
    var gates := DefaultGates(leaks);
    PassedIff(gates, allowWarnings, m, signal, v);
    if v.overall == Passed {
      assert !IsTerminal(gates[0].run(m, signal)) && !IsTerminal(gates[1].run(m, signal));
      assert !IsTerminal(gates[2].run(m, signal)) && !IsTerminal(gates[3].run(m, signal));
    }
  }
}
