/** The promise-chain lock of the conversation engine (lib/conversation-engine.ts:800-817) around
    read-modify-write bodies: first in first out per conversation, and therefore serializable. */
module ConversationLock {
  import opened Wrappers

  /** Where a locked call is suspended: awaiting the promise of its predecessor, about to load, working
      on the state it loaded, about to release, or over. */
  datatype Pc<S> = Waiting | Entered | Holding(loaded: S) | Finishing | Over

  /** A call to withLock. `body` maps the loaded state to the state it saves; None stands for a body
      that returns without saving or throws. `prior` is the call whose promise it awaits. */
  datatype Call<!S> = Call(conversation: string, body: S -> Option<S>, prior: Option<nat>, pc: Pc<S>)

  datatype System<!S> = System(store: map<string, S>, calls: seq<Call<S>>, tails: map<string, nat>)

  datatype Step<!S> = Arrive(conversation: string, body: S -> Option<S>)
                    | Enter(i: nat) | Load(i: nat) | Work(i: nat) | Release(i: nat)

  /** The promise that call `i` leaves in the lock table, prior.then(gate): it settles once the chain
      before it has and its own gate is released. */
  predicate Settled<S>(calls: seq<Call<S>>, i: nat) {
    && i < |calls| && calls[i].pc.Over?
    && (calls[i].prior.Some? ==> calls[i].prior.value < i && Settled(calls, calls[i].prior.value))
  }

  predicate Enabled<S>(s: System<S>, step: Step<S>) {
    match step
    case Arrive(conversation, body) => true
    case Enter(i) => i < |s.calls| && s.calls[i].pc.Waiting?
                     && (s.calls[i].prior.Some? ==> Settled(s.calls, s.calls[i].prior.value))
    case Load(i) => i < |s.calls| && s.calls[i].pc.Entered?
    case Work(i) => i < |s.calls| && s.calls[i].pc.Holding?
    case Release(i) => i < |s.calls| && s.calls[i].pc.Finishing?
  }

  function Moved<S>(s: System<S>, i: nat, pc: Pc<S>): System<S>
    requires i < |s.calls|
  {
    s.(calls := s.calls[i := s.calls[i].(pc := pc)])
  }

  function After<S>(s: System<S>, step: Step<S>): System<S>
    requires Enabled(s, step)
  {
    match step
    case Arrive(conversation, body) =>
      var prior := if conversation in s.tails then Some(s.tails[conversation]) else None;
      s.(calls := s.calls + [Call(conversation, body, prior, Waiting)], tails := s.tails[conversation := |s.calls|])
    case Enter(i) => Moved(s, i, Entered)
    case Load(i) =>
      var c := s.calls[i].conversation;
      Moved(s, i, if c in s.store then Holding(s.store[c]) else Finishing)
    case Work(i) =>
      var saved := s.calls[i].body(s.calls[i].pc.loaded);
      var t := Moved(s, i, Finishing);
      if saved.Some? then t.(store := t.store[s.calls[i].conversation := saved.value]) else t
    case Release(i) => Moved(s, i, Over)
  }

  // ----- Running the bodies one by one -----

  function Serve<S>(body: S -> Option<S>, state: S): S {
    var saved := body(state);
    if saved.Some? then saved.value else state
  }

  /** The state of `conversation` after the bodies of its first calls that have finished, in call order. */
  function Served<S>(calls: seq<Call<S>>, conversation: string, start: S): S {
    if calls == [] then start else
      var c, state := calls[|calls| - 1], Served(calls[..|calls| - 1], conversation, start);
      if c.conversation == conversation && (c.pc.Finishing? || c.pc.Over?) then Serve(c.body, state) else state
  }

  // ----- What every interleaving keeps -----

  ghost predicate Chained<S>(s: System<S>) {
    && (forall i :: 0 <= i < |s.calls| && s.calls[i].prior.None? ==>
          forall j :: 0 <= j < i ==> s.calls[j].conversation != s.calls[i].conversation)
    && (forall i :: 0 <= i < |s.calls| && s.calls[i].prior.Some? ==>
          IsLast(s.calls, i, s.calls[i].conversation, s.calls[i].prior.value))
    && (forall c :: c in s.tails ==> IsLast(s.calls, |s.calls|, c, s.tails[c]))
    && (forall i :: 0 <= i < |s.calls| ==> s.calls[i].conversation in s.tails)
  }

  /** Among the first `n` calls, `i` is the last one of the conversation. */
  predicate IsLast<S>(calls: seq<Call<S>>, n: nat, conversation: string, i: nat) {
    && i < n <= |calls| && calls[i].conversation == conversation
    && forall j :: i < j < n ==> calls[j].conversation != conversation
  }

  /** A call past its lock has only finished calls of its conversation before it. */
  ghost predicate InOrder<S>(calls: seq<Call<S>>) {
    forall i, j ::
      0 <= i < j < |calls| && calls[i].conversation == calls[j].conversation && !calls[j].pc.Waiting? ==>
        calls[i].pc.Over?
  }

  ghost predicate UpToDate<S>(s: System<S>, start: map<string, S>) {
    && s.store.Keys == start.Keys
    && (forall c :: c in start ==> s.store[c] == Served(s.calls, c, start[c]))
    && (forall i :: 0 <= i < |s.calls| && s.calls[i].pc.Holding? ==>
          s.calls[i].conversation in s.store && s.calls[i].pc.loaded == s.store[s.calls[i].conversation])
    && (forall i :: 0 <= i < |s.calls| && s.calls[i].conversation !in start ==> !s.calls[i].pc.Holding?)
  }

  ghost predicate Inv<S>(s: System<S>, start: map<string, S>) {
    Chained(s) && InOrder(s.calls) && UpToDate(s, start)
  }

  lemma {:induction false} SettledMeansOver<S>(s: System<S>, i: nat)
    requires Chained(s) && Settled(s.calls, i)
    ensures forall j :: 0 <= j <= i && s.calls[j].conversation == s.calls[i].conversation ==> s.calls[j].pc.Over?
  {
    var calls := s.calls;
    if calls[i].prior.Some? {
      var p := calls[i].prior.value;
      assert IsLast(calls, i, calls[i].conversation, p);
      SettledMeansOver(s, p);
    }
  }

  lemma {:induction false} OverMeansSettled<S>(s: System<S>, i: nat)
    requires Chained(s) && i < |s.calls|
    requires forall j :: 0 <= j <= i && s.calls[j].conversation == s.calls[i].conversation ==> s.calls[j].pc.Over?
    ensures Settled(s.calls, i)
  {
    if s.calls[i].prior.Some? {
      assert IsLast(s.calls, i, s.calls[i].conversation, s.calls[i].prior.value);
      OverMeansSettled(s, s.calls[i].prior.value);
    }
  }

  /** Moving a call within its body changes nothing already served. */
  lemma {:induction false} ServedUnmoved<S>(calls: seq<Call<S>>, i: nat, pc: Pc<S>, c: string, start: S)
    requires i < |calls|
    requires (calls[i].pc.Finishing? || calls[i].pc.Over?) == (pc.Finishing? || pc.Over?) || calls[i].conversation != c
    ensures Served(calls[i := calls[i].(pc := pc)], c, start) == Served(calls, c, start)
  {
    var n := |calls| - 1;
    var moved := calls[i := calls[i].(pc := pc)];
    if i < n {
      assert moved[..n] == calls[..n][i := calls[i].(pc := pc)];
      ServedUnmoved(calls[..n], i, pc, c, start);
    } else {
      assert moved[..n] == calls[..n];
    }
  }

  /** A call that finishes when no later call of its conversation has started is served last. */
  lemma {:induction false} ServedFinish<S>(calls: seq<Call<S>>, i: nat, c: string, start: S)
    requires i < |calls| && calls[i].conversation == c && !calls[i].pc.Finishing? && !calls[i].pc.Over?
    requires forall j :: i < j < |calls| && calls[j].conversation == c ==> calls[j].pc.Waiting?
    ensures Served(calls[i := calls[i].(pc := Finishing)], c, start) == Serve(calls[i].body, Served(calls, c, start))
  {
    var n := |calls| - 1;
    var moved := calls[i := calls[i].(pc := Finishing)];
    if i < n {
      assert moved[..n] == calls[..n][i := calls[i].(pc := Finishing)];
      ServedFinish(calls[..n], i, c, start);
    } else {
      assert moved[..n] == calls[..n];
    }
  }

  lemma MoveKeepsChain<S>(s: System<S>, i: nat, pc: Pc<S>)
    requires Chained(s) && i < |s.calls|
    ensures Chained(Moved(s, i, pc))
  {
    var t := Moved(s, i, pc);
    assert |t.calls| == |s.calls| && t.tails == s.tails;
    assert forall k :: 0 <= k < |t.calls| ==> t.calls[k] == s.calls[k].(pc := t.calls[k].pc);
    forall k | 0 <= k < |t.calls| && t.calls[k].prior.Some?
      ensures IsLast(t.calls, k, t.calls[k].conversation, t.calls[k].prior.value)
    {
      assert IsLast(s.calls, k, s.calls[k].conversation, s.calls[k].prior.value);
    }
    forall c | c in t.tails ensures IsLast(t.calls, |t.calls|, c, t.tails[c]) {
      assert IsLast(s.calls, |s.calls|, c, s.tails[c]);
    }
  }

  lemma ArriveKeepsChain<S>(s: System<S>, conversation: string, body: S -> Option<S>)
    requires Chained(s)
    ensures Chained(After(s, Arrive(conversation, body)))
  {
    var t, n := After(s, Arrive(conversation, body)), |s.calls|;
    forall k | 0 <= k < |t.calls| && t.calls[k].prior.Some?
      ensures IsLast(t.calls, k, t.calls[k].conversation, t.calls[k].prior.value)
    {
      if k < n {
        assert IsLast(s.calls, k, s.calls[k].conversation, s.calls[k].prior.value);
      } else {
        assert IsLast(s.calls, n, conversation, s.tails[conversation]);
      }
    }
    forall c | c in t.tails ensures IsLast(t.calls, |t.calls|, c, t.tails[c]) {
      if c != conversation { assert IsLast(s.calls, n, c, s.tails[c]); }
    }
  }

  lemma ArriveKeeps<S>(s: System<S>, start: map<string, S>, conversation: string, body: S -> Option<S>)
    requires UpToDate(s, start)
    ensures UpToDate(After(s, Arrive(conversation, body)), start)
  {
    var t := After(s, Arrive(conversation, body));
    assert t.calls[..|s.calls|] == s.calls;
    forall c | c in start ensures t.store[c] == Served(t.calls, c, start[c]) {
      assert Served(t.calls, c, start[c]) == Served(s.calls, c, start[c]);
    }
  }

  /** Entering the lock: everything before it in its conversation is over. */
  lemma EnterIsInOrder<S>(s: System<S>, i: nat)
    requires Chained(s) && Enabled(s, Enter(i))
    ensures forall j :: 0 <= j < i && s.calls[j].conversation == s.calls[i].conversation ==> s.calls[j].pc.Over?
  {
    if s.calls[i].prior.Some? {
      var p := s.calls[i].prior.value;
      assert IsLast(s.calls, i, s.calls[i].conversation, p);
      SettledMeansOver(s, p);
    }
  }

  lemma MoveKeepsServed<S>(s: System<S>, start: map<string, S>, i: nat, pc: Pc<S>)
    requires UpToDate(s, start) && i < |s.calls| && !pc.Holding?
    requires (s.calls[i].pc.Finishing? || s.calls[i].pc.Over?) == (pc.Finishing? || pc.Over?)
             || s.calls[i].conversation !in start
    ensures UpToDate(Moved(s, i, pc), start)
  {
    forall c | c in start ensures s.store[c] == Served(Moved(s, i, pc).calls, c, start[c]) {
      ServedUnmoved(s.calls, i, pc, c, start[c]);
    }
  }

  lemma LoadKeeps<S>(s: System<S>, start: map<string, S>, i: nat)
    requires Inv(s, start) && Enabled(s, Load(i))
    ensures UpToDate(After(s, Load(i)), start)
  {
    var c := s.calls[i].conversation;
    if c in s.store {
      var t := After(s, Load(i));
      forall k | k in start ensures t.store[k] == Served(t.calls, k, start[k]) {
        ServedUnmoved(s.calls, i, Holding(s.store[c]), k, start[k]);
      }
    } else {
      MoveKeepsServed(s, start, i, Finishing);
    }
  }

  lemma WorkKeeps<S>(s: System<S>, start: map<string, S>, i: nat)
    requires Inv(s, start) && Enabled(s, Work(i))
    ensures UpToDate(After(s, Work(i)), start)
  {
    var c, t := s.calls[i].conversation, After(s, Work(i));
    forall k | k in start ensures t.store[k] == Served(t.calls, k, start[k]) {
      if k == c {
        ServedFinish(s.calls, i, c, start[c]);
      } else {
        ServedUnmoved(s.calls, i, Finishing, k, start[k]);
      }
    }
    WorkKeepsLoaded(s, start, i);
  }

  /** The save reaches no state that another call is holding. */
  lemma WorkKeepsLoaded<S>(s: System<S>, start: map<string, S>, i: nat)
    requires InOrder(s.calls) && UpToDate(s, start) && Enabled(s, Work(i))
    ensures var t := After(s, Work(i));
      && t.store.Keys == s.store.Keys
      && (forall j :: 0 <= j < |t.calls| && t.calls[j].pc.Holding? ==>
            t.calls[j].conversation in t.store && t.calls[j].pc.loaded == t.store[t.calls[j].conversation])
  {
    var c, t := s.calls[i].conversation, After(s, Work(i));
    forall j | 0 <= j < |t.calls| && t.calls[j].pc.Holding?
      ensures t.calls[j].conversation in s.store && t.calls[j].pc.loaded == t.store[t.calls[j].conversation]
    {
      assert j != i && t.calls[j] == s.calls[j];
      assert s.calls[j].conversation != c;
    }
  }

  lemma MoveKeepsOrder<S>(s: System<S>, i: nat, pc: Pc<S>)
    requires InOrder(s.calls) && i < |s.calls| && !s.calls[i].pc.Over?
    requires s.calls[i].pc.Waiting? ==>
      forall j :: 0 <= j < i && s.calls[j].conversation == s.calls[i].conversation ==> s.calls[j].pc.Over?
    ensures InOrder(Moved(s, i, pc).calls)
  {
  }

  lemma MoveKeeps<S>(s: System<S>, start: map<string, S>, step: Step<S>)
    requires Inv(s, start) && Enabled(s, step) && (step.Enter? || step.Release?)
    ensures Inv(After(s, step), start)
  {
    var pc := if step.Enter? then Entered else Over;
    if step.Enter? { EnterIsInOrder(s, step.i); }
    MoveKeepsChain(s, step.i, pc);
    MoveKeepsOrder(s, step.i, pc);
    MoveKeepsServed(s, start, step.i, pc);
  }

  lemma LoadKeepsInv<S>(s: System<S>, start: map<string, S>, i: nat)
    requires Inv(s, start) && Enabled(s, Load(i))
    ensures Inv(After(s, Load(i)), start)
  {
    var pc := if s.calls[i].conversation in s.store then Holding(s.store[s.calls[i].conversation]) else Finishing;
    MoveKeepsChain(s, i, pc);
    MoveKeepsOrder(s, i, pc);
    LoadKeeps(s, start, i);
  }

  lemma WorkKeepsInv<S>(s: System<S>, start: map<string, S>, i: nat)
    requires Inv(s, start) && Enabled(s, Work(i))
    ensures Inv(After(s, Work(i)), start)
  {
    StoreKeepsChain(s, i);
    MoveKeepsOrder(s, i, Finishing);
    WorkKeeps(s, start, i);
  }

  lemma ArriveKeepsInv<S>(s: System<S>, start: map<string, S>, conversation: string, body: S -> Option<S>)
    requires Inv(s, start)
    ensures Inv(After(s, Arrive(conversation, body)), start)
  {
    ArriveKeepsChain(s, conversation, body);
    ArriveKeeps(s, start, conversation, body);
  }

  lemma StepKeeps<S>(s: System<S>, start: map<string, S>, step: Step<S>)
    requires Inv(s, start) && Enabled(s, step)
    ensures Inv(After(s, step), start)
  {
    match step
    case Arrive(conversation, body) => ArriveKeepsInv(s, start, conversation, body);
    case Enter(_) => MoveKeeps(s, start, step);
    case Load(i) => LoadKeepsInv(s, start, i);
    case Work(i) => WorkKeepsInv(s, start, i);
    case Release(_) => MoveKeeps(s, start, step);
  }

  lemma StoreKeepsChain<S>(s: System<S>, i: nat)
    requires Chained(s) && Enabled(s, Work(i))
    ensures Chained(After(s, Work(i)))
  {
    MoveKeepsChain(s, i, Finishing);
  }

  // ----- Whole runs -----

  function Idle<S>(start: map<string, S>): System<S> { System(start, [], map[]) }

  /** The system after a sequence of steps; None if one of them was not enabled. */
  function RunSteps<S>(start: map<string, S>, steps: seq<Step<S>>): Option<System<S>> {
    if steps == [] then Some(Idle(start)) else
      var before, last := RunSteps(start, steps[..|steps| - 1]), steps[|steps| - 1];
      if before.Some? && Enabled(before.value, last) then Some(After(before.value, last)) else None
  }

  lemma {:induction false} ReachableInv<S>(start: map<string, S>, steps: seq<Step<S>>)
    requires RunSteps(start, steps).Some?
    ensures Inv(RunSteps(start, steps).value, start)
  {
    if steps != [] {
      ReachableInv(start, steps[..|steps| - 1]);
      StepKeeps(RunSteps(start, steps[..|steps| - 1]).value, start, steps[|steps| - 1]);
    }
  }

  predicate InBody<S>(pc: Pc<S>) { pc.Entered? || pc.Holding? || pc.Finishing? }

  /** At most one body per conversation runs at a time, and bodies start in call order. */
  lemma MutualExclusion<S>(start: map<string, S>, steps: seq<Step<S>>, s: System<S>, i: nat, j: nat)
    requires RunSteps(start, steps) == Some(s) && i < j < |s.calls|
    requires s.calls[i].conversation == s.calls[j].conversation
    ensures !(InBody(s.calls[i].pc) && InBody(s.calls[j].pc))
    ensures !s.calls[j].pc.Waiting? ==> s.calls[i].pc.Over?
  {
    ReachableInv(start, steps);
  }

  /** The bodies of one conversation run one by one, in call order, whatever they do. */
  function Serial<S>(calls: seq<Call<S>>, conversation: string, start: S): S {
    if calls == [] then start else
      var c, state := calls[|calls| - 1], Serial(calls[..|calls| - 1], conversation, start);
      if c.conversation == conversation then Serve(c.body, state) else state
  }

  lemma {:induction false} AllServed<S>(calls: seq<Call<S>>, conversation: string, start: S)
    requires forall i :: 0 <= i < |calls| ==> calls[i].pc.Over?
    ensures Served(calls, conversation, start) == Serial(calls, conversation, start)
  {
    if calls != [] { AllServed(calls[..|calls| - 1], conversation, start); }
  }

  /** No lost update: when all calls are over, under any interleaving, every conversation holds the
      state of running its calls one by one in call order. */
  lemma Serializable<S>(start: map<string, S>, steps: seq<Step<S>>, s: System<S>, conversation: string)
    requires RunSteps(start, steps) == Some(s) && conversation in start
    requires forall i :: 0 <= i < |s.calls| ==> s.calls[i].pc.Over?
    ensures conversation in s.store && s.store[conversation] == Serial(s.calls, conversation, start[conversation])
  {
    ReachableInv(start, steps);
    AllServed(s.calls, conversation, start[conversation]);
  }

  /** No deadlock: while a call is not over, its conversation can take a step; the lock is released
      even when a body throws. */
  lemma Progress<S>(start: map<string, S>, steps: seq<Step<S>>, s: System<S>, i: nat) returns (step: Step<S>)
    requires RunSteps(start, steps) == Some(s) && i < |s.calls| && !s.calls[i].pc.Over?
    ensures !step.Arrive? && Enabled(s, step) && step.i <= i && s.calls[step.i].conversation == s.calls[i].conversation
  {
    ReachableInv(start, steps);
    var k := i;
    while exists j :: 0 <= j < k && s.calls[j].conversation == s.calls[i].conversation && !s.calls[j].pc.Over?
      invariant 0 <= k <= i && s.calls[k].conversation == s.calls[i].conversation && !s.calls[k].pc.Over?
      decreases k
    {
      var j :| 0 <= j < k && s.calls[j].conversation == s.calls[i].conversation && !s.calls[j].pc.Over?;
      k := j;
    }
    match s.calls[k].pc
    case Waiting =>
      step := Enter(k);
      if s.calls[k].prior.Some? {
        assert IsLast(s.calls, k, s.calls[k].conversation, s.calls[k].prior.value);
        OverMeansSettled(s, s.calls[k].prior.value);
      }
    case Entered => step := Load(k);
    case Holding(_) => step := Work(k);
    case Finishing => step := Release(k);
  }
}
