/** What becomes of a message (lib/conversation-engine.ts:447-603), read off the log and the requests of a run:
    which text is logged, when it is delivered, and what the conversation waits for. */
module ConversationOutcomes {
  import opened Wrappers
  import opened Hitl
  import opened HitlDecisions
  import opened ConversationEngine
  import opened ConversationSafety

  predicate IsAgent(p: Party) { p != User && p != Operator && p != Broadcast }

  /** The status lets the sender speak, and it is their turn where turns are enforced. */
  predicate IsHeard(cfg: EngineConfig, s: Conversation, r: Request) {
    && s.status != Closed && (s.status == Active || r.sender == Operator)
    && (!cfg.enforceTurns || r.overrideTurn || r.sender in {User, Operator, s.currentTurn})
  }

  /** Where the message is meant to go: as the request says, or else as the sender's role card does. */
  predicate IsMeantFor(r: Request, x: Answers, to: seq<Party>) {
    r.to == Some(to) || (r.to == None && x.route == Some(to))
  }

  /** The message goes to the mediator instead: it is for agents, of whom the mediator is none, and the sender is
      at odds with one of them. */
  ghost predicate IsMediated(cfg: EngineConfig, r: Request, to: seq<Party>, x: Answers) {
    && r.sender !in {User, Operator} && cfg.mediator !in Agents(to)
    && exists p :: p in to && IsAgent(p) && (x.affinity(p) < cfg.mediationThreshold || 1.0 < cfg.mediationThreshold)
  }

  /** Some agent the message goes to has no valid hand-off from the sender. */
  ghost predicate IsRefused(cfg: EngineConfig, r: Request, to: seq<Party>, x: Answers) {
    && r.sender !in {User, Operator} && !IsMediated(cfg, r, to, x)
    && exists p :: p in to && IsAgent(p) && !x.handoffValid(p)
  }

  lemma MediatedIff(cfg: EngineConfig, r: Request, to: seq<Party>, x: Answers)
    ensures NeedsMediation(cfg, r, to, x.affinity) <==> IsMediated(cfg, r, to, x)
  {
    if NeedsMediation(cfg, r, to, x.affinity) {
      if exists p :: p in Agents(to) && x.affinity(p) < cfg.mediationThreshold {
        var p :| p in Agents(to) && x.affinity(p) < cfg.mediationThreshold;
        assert p in to && IsAgent(p);
      } else {
        assert Agents(to)[0] in Agents(to);
        assert Agents(to)[0] in to && IsAgent(Agents(to)[0]);
      }
    }
    if IsMediated(cfg, r, to, x) {
      var p :| p in to && IsAgent(p) && (x.affinity(p) < cfg.mediationThreshold || 1.0 < cfg.mediationThreshold);
      assert p in Agents(to);
    }
  }

  lemma RefusedIff(cfg: EngineConfig, r: Request, to: seq<Party>, x: Answers)
    ensures HandoffFails(cfg, r, to, x) <==> IsRefused(cfg, r, to, x)
  {
    MediatedIff(cfg, r, to, x);
    if HandoffFails(cfg, r, to, x) {
      var p :| p in Agents(to) && !x.handoffValid(p);
      assert p in to && IsAgent(p);
    }
    if IsRefused(cfg, r, to, x) {
      var p :| p in to && IsAgent(p) && !x.handoffValid(p);
      assert p in Agents(to);
    }
  }

  // ----- One message -----

  /** The message is logged as the request asks, unless it is over the rate limit or has no valid hand-off: then
      it is kept, blocked, in the sender's own words. Otherwise its text is the sanitized one, and it is delivered
      unless the escalation check stops it. */
  ghost predicate IsLoggedAs(cfg: EngineConfig, s: Conversation, r: Request, x: Answers, m: Message) {
    exists to :: IsLoggedTo(cfg, s, r, x, m, to)
  }

  ghost predicate IsLoggedTo(cfg: EngineConfig, s: Conversation, r: Request, x: Answers, m: Message, to: seq<Party>) {
    && IsMeantFor(r, x, to) && IsHeard(cfg, s, r) && !x.raises && x.structureValid
    && m.id == x.messageId && m.sender == r.sender && m.to == to
    && m.injection == x.injection && m.policyWarnings == x.policyWarnings && m.voiceViolations == x.voiceViolations
    && m.deliveredTo == (if IsMediated(cfg, r, to, x) then [cfg.mediator] else to)
    && if !x.rateAllowed || IsRefused(cfg, r, to, x) then m.content == r.content && m.status == Blocked
       else m.content == x.sanitized && m.status == if ActionOn(cfg, s, x) in {Pause, RequireApproval} then Blocked
                                                    else Delivered
  }

  lemma GateIff(cfg: EngineConfig, s: Conversation, r: Request)
    ensures Gate(cfg, s, r).None? <==> IsHeard(cfg, s, r)
    ensures Gate(cfg, s, r) == Some(Rejected) ==> (s.status == Active || r.sender == Operator) && s.status != Closed
  {
  }

  lemma JudgedIs(cfg: EngineConfig, s: Conversation, r: Request, x: Answers, m: Message)
    ensures var v := Judge(cfg, s, r, x);
      (v.Audited? || v.Checked?) && v.m == m <==> IsLoggedAs(cfg, s, r, x, m)
  {
    GateIff(cfg, s, r);
    var route := if r.to.Some? then r.to else x.route;
    if route.Some? {
      var to := route.value;
      MediatedIff(cfg, r, to, x);
      RefusedIff(cfg, r, to, x);
      JudgedTo(cfg, s, r, x, m, to);
    }
  }

  lemma JudgedTo(cfg: EngineConfig, s: Conversation, r: Request, x: Answers, m: Message, to: seq<Party>)
    requires IsMeantFor(r, x, to)
    requires NeedsMediation(cfg, r, to, x.affinity) <==> IsMediated(cfg, r, to, x)
    requires HandoffFails(cfg, r, to, x) <==> IsRefused(cfg, r, to, x)
    ensures var v := Judge(cfg, s, r, x);
      (v.Audited? || v.Checked?) && v.m == m <==> IsLoggedTo(cfg, s, r, x, m, to)
  {
    GateIff(cfg, s, r);
  }

  /** No check keeps the message from being carried through: the escalation check decides its delivery. */
  ghost predicate IsCarried(cfg: EngineConfig, s: Conversation, r: Request, x: Answers) {
    && IsHeard(cfg, s, r) && !x.raises && x.structureValid && x.rateAllowed
    && exists to :: IsMeantFor(r, x, to) && !IsRefused(cfg, r, to, x)
  }

  lemma CarriedIff(cfg: EngineConfig, s: Conversation, r: Request, x: Answers)
    ensures Judge(cfg, s, r, x).Checked? <==> IsCarried(cfg, s, r, x)
    ensures Judge(cfg, s, r, x).Checked? ==> Judge(cfg, s, r, x).action == ActionOn(cfg, s, x)
  {
    GateIff(cfg, s, r);
    var route := if r.to.Some? then r.to else x.route;
    if route.Some? {
      assert IsMeantFor(r, x, route.value);
      RefusedIff(cfg, r, route.value, x);
    }
  }

  /** A summary is due after the message: the log is long enough, and holds a chunk that no summary covers. */
  predicate IsChunkFull(cfg: EngineConfig, s: Conversation, logged: nat) {
    logged >= cfg.summaryTrigger && logged >= cfg.chunkSize * (|s.summaries| + 1)
  }

  lemma {:induction false} CoveredCount(cfg: EngineConfig, summaries: seq<Summary>)
    requires forall i :: 0 <= i < |summaries| ==> |summaries[i].covers| == cfg.chunkSize
    ensures |Covered(summaries)| == cfg.chunkSize * |summaries|
  {
    if summaries != [] {
      CoveredCount(cfg, summaries[..|summaries| - 1]);
      OneMore(cfg.chunkSize, |summaries| - 1);
    }
  }

  lemma OneMore(size: nat, n: nat)
    ensures size * (n + 1) == size * n + size
  {
  }

  lemma DueIff(cfg: EngineConfig, s: Conversation, log: seq<Message>)
    requires Faithful(cfg, s, log)
    ensures IsSummaryDue(cfg, s)
            <==> |log| >= cfg.summaryTrigger && |log| >= cfg.chunkSize * (|s.summaries| + 1)
  {
    PendingIds(cfg, s, log);
    CoveredCount(cfg, s.summaries);
  }

  lemma DueAfterIff(cfg: EngineConfig, s: Conversation, log: seq<Message>, r: Request, x: Answers, m: Message,
                    action: Action)
    requires Faithful(cfg, s, log) && m.id !in MessageIds(log)
    ensures IsSummaryDue(cfg, Accounted(cfg, s, r, x, m, action)) <==> IsChunkFull(cfg, s, |log| + 1)
  {
    AccountedFaithful(cfg, s, log, r, x, m, action);
    DueIff(cfg, Accounted(cfg, s, r, x, m, action), log + [m]);
  }

  /** The message is lost with its summary. */
  ghost predicate IsLostWithSummary(cfg: EngineConfig, s: Conversation, logged: nat, r: Request, x: Answers) {
    IsCarried(cfg, s, r, x) && x.summaryRaises && IsChunkFull(cfg, s, logged + 1)
  }

  lemma LogsIff(cfg: EngineConfig, s: Conversation, log: seq<Message>, r: Request, x: Answers, m: Message)
    requires Faithful(cfg, s, log) && x.messageId !in MessageIds(log)
    ensures Logs(cfg, Send(r, x), s) == [m]
            <==> IsLoggedAs(cfg, s, r, x, m) && !IsLostWithSummary(cfg, s, |log|, r, x)
    ensures |Logs(cfg, Send(r, x), s)| <= 1
  {
    var v := Judge(cfg, s, r, x);
    JudgedIs(cfg, s, r, x, m);
    CarriedIff(cfg, s, r, x);
    if v.Checked? {
      JudgedIs(cfg, s, r, x, v.m);
      DueAfterIff(cfg, s, log, r, x, v.m, v.action);
    }
  }

  /** What the caller is told: rejected out of turn; nothing where the call throws; delivered where the message
      is logged so; and blocked in every other case. */
  lemma OutcomeIs(cfg: EngineConfig, s: Conversation, log: seq<Message>, r: Request, x: Answers)
    requires Faithful(cfg, s, log) && x.messageId !in MessageIds(log)
    ensures var told := Outcome(Ruling(cfg, s, r, x));
      && (told == Some(Rejected)
          <==> s.status != Closed && (s.status == Active || r.sender == Operator) && !IsHeard(cfg, s, r))
      && (told == None
          <==> IsHeard(cfg, s, r) && (x.raises || (r.to == None && x.route == None)
                                      || IsLostWithSummary(cfg, s, |log|, r, x)))
      && (told == Some(Delivered)
          <==> && IsCarried(cfg, s, r, x) && ActionOn(cfg, s, x) !in {Pause, RequireApproval}
               && !IsLostWithSummary(cfg, s, |log|, r, x))
  {
    var v := Judge(cfg, s, r, x);
    GateIff(cfg, s, r);
    CarriedIff(cfg, s, r, x);
    if v.Checked? { DueAfterIff(cfg, s, log, r, x, v.m, v.action); }
  }

  // ----- Runs -----

  /** The message is the one operation `k` logged. */
  ghost predicate IsFrom(cfg: EngineConfig, ops: seq<Operation>, s: Conversation, k: nat, m: Message) {
    && k < |ops| && ops[k].Send?
    && var before, logged := Run(cfg, ops[..k], s), |Log(cfg, ops[..k], s)|;
       && IsLoggedAs(cfg, before, ops[k].r, ops[k].x, m)
       && !IsLostWithSummary(cfg, before, logged, ops[k].r, ops[k].x)
  }

  lemma FreshEarlier(cfg: EngineConfig, ops: seq<Operation>, s: Conversation, k: nat)
    requires FreshIds(cfg, ops, s) && k <= |ops|
    ensures FreshIds(cfg, ops[..k], s)
  {
    forall i | 0 <= i < k ensures FreshAt(cfg, ops[..k], s, i) {
      assert FreshAt(cfg, ops, s, i) && ops[..k][..i] == ops[..i];
    }
  }

  lemma IsFromIff(cfg: EngineConfig, ops: seq<Operation>, s: Conversation, k: nat, m: Message)
    requires Faithful(cfg, s, []) && FreshIds(cfg, ops, s) && k < |ops|
    ensures Logs(cfg, ops[k], Run(cfg, ops[..k], s)) == [m] <==> IsFrom(cfg, ops, s, k, m)
    ensures |Logs(cfg, ops[k], Run(cfg, ops[..k], s))| <= 1
  {
    FreshEarlier(cfg, ops, s, k);
    RunFaithful(cfg, ops[..k], s);
    assert FreshAt(cfg, ops, s, k);
    if ops[k].Send? { LogsIff(cfg, Run(cfg, ops[..k], s), Log(cfg, ops[..k], s), ops[k].r, ops[k].x, m); }
  }

  lemma LogNext(cfg: EngineConfig, ops: seq<Operation>, s: Conversation, k: nat)
    requires k < |ops|
    ensures Log(cfg, ops[..k + 1], s) == Log(cfg, ops[..k], s) + Logs(cfg, ops[k], Run(cfg, ops[..k], s))
  {
    assert ops[..k + 1][..k] == ops[..k];
  }

  lemma PrefixOfSum(a: seq<Message>, b: seq<Message>, c: seq<Message>, d: seq<Message>)
    requires a <= b && d == b + c
    ensures a <= d
  {
  }

  lemma {:induction false} LogGrows(cfg: EngineConfig, ops: seq<Operation>, s: Conversation, k: nat, n: nat)
    requires k <= n <= |ops|
    ensures Log(cfg, ops[..k], s) <= Log(cfg, ops[..n], s)
    decreases n
  {
    if k < n {
      var a, b, d := Log(cfg, ops[..k], s), Log(cfg, ops[..n - 1], s), Log(cfg, ops[..n], s);
      assert a <= b by { LogGrows(cfg, ops, s, k, n - 1); }
      assert d == b + Logs(cfg, ops[n - 1], Run(cfg, ops[..n - 1], s)) by { LogNext(cfg, ops, s, n - 1); }
      PrefixOfSum(a, b, Logs(cfg, ops[n - 1], Run(cfg, ops[..n - 1], s)), d);
    }
  }

  lemma NextIsFrom(cfg: EngineConfig, ops: seq<Operation>, s: Conversation, k: nat, j: nat)
    requires Faithful(cfg, s, []) && FreshIds(cfg, ops, s) && k < |ops|
    requires |Log(cfg, ops[..k], s)| <= j < |Log(cfg, ops[..k + 1], s)|
    ensures IsFrom(cfg, ops, s, k, Log(cfg, ops[..k + 1], s)[j]) && |Log(cfg, ops[..k], s)| == j
  {
    var m, logged := Log(cfg, ops[..k + 1], s)[j], Logs(cfg, ops[k], Run(cfg, ops[..k], s));
    LogNext(cfg, ops, s, k);
    IsFromIff(cfg, ops, s, k, m);
    assert logged == [m];
  }

  /** Every logged message is from a request of the run, which logged it in its place. */
  lemma {:induction false} LoggedIsFrom(cfg: EngineConfig, ops: seq<Operation>, s: Conversation, n: nat, j: nat)
    returns (k: nat)
    requires Faithful(cfg, s, []) && FreshIds(cfg, ops, s) && n <= |ops| && j < |Log(cfg, ops[..n], s)|
    ensures k < n && IsFrom(cfg, ops, s, k, Log(cfg, ops[..n], s)[j]) && |Log(cfg, ops[..k], s)| == j
  {
    if j < |Log(cfg, ops[..n - 1], s)| {
      LogGrows(cfg, ops, s, n - 1, n);
      k := LoggedIsFrom(cfg, ops, s, n - 1, j);
    } else {
      k := n - 1;
      NextIsFrom(cfg, ops, s, k, j);
    }
  }

  /** And every request that is to be logged is. */
  lemma RequestIsLogged(cfg: EngineConfig, ops: seq<Operation>, s: Conversation, k: nat, m: Message)
    requires Faithful(cfg, s, []) && FreshIds(cfg, ops, s) && IsFrom(cfg, ops, s, k, m)
    ensures var j := |Log(cfg, ops[..k], s)|; j < |Log(cfg, ops, s)| && Log(cfg, ops, s)[j] == m
  {
    IsFromIff(cfg, ops, s, k, m);
    LogNext(cfg, ops, s, k);
    LogGrows(cfg, ops, s, k + 1, |ops|);
    assert ops[..|ops|] == ops;
  }

  /** Every stored message is from a request of the run; its text is there, unless it was discarded as summarized. */
  lemma StoredIsFrom(cfg: EngineConfig, ops: seq<Operation>, s: Conversation, j: nat) returns (k: nat, m: Message)
    requires Faithful(cfg, s, []) && FreshIds(cfg, ops, s) && j < |Run(cfg, ops, s).messages|
    ensures IsFrom(cfg, ops, s, k, m) && |Log(cfg, ops[..k], s)| == j
    ensures var t := Run(cfg, ops, s);
      t.messages[j] == if cfg.discard && j < cfg.chunkSize * |t.summaries| then m.(content := "") else m
  {
    RunFaithful(cfg, ops, s);
    assert ops[..|ops|] == ops;
    k := LoggedIsFrom(cfg, ops, s, |ops|, j);
    m := Log(cfg, ops, s)[j];
    CoveredCount(cfg, Run(cfg, ops, s).summaries);
  }

  /** The texts of a run: whatever is delivered, or stopped by the escalation check, is the sanitized text of its
      request; what is over the rate limit or has no valid hand-off is blocked, in the sender's words. */
  lemma TextIsSanitized(cfg: EngineConfig, ops: seq<Operation>, s: Conversation, j: nat) returns (k: nat)
    requires Faithful(cfg, s, []) && FreshIds(cfg, ops, s) && j < |Log(cfg, ops, s)|
    ensures k < |ops| && ops[k].Send?
    ensures var m, r, x := Log(cfg, ops, s)[j], ops[k].r, ops[k].x;
      && m.id == x.messageId && m.sender == r.sender
      && (m.status == Delivered ==> m.content == x.sanitized && x.rateAllowed)
      && (!x.rateAllowed || IsRefused(cfg, r, m.to, x) ==> m.content == r.content && m.status == Blocked)
      && (x.rateAllowed && !IsRefused(cfg, r, m.to, x) ==> m.content == x.sanitized)
  {
    assert ops[..|ops|] == ops;
    k := LoggedIsFrom(cfg, ops, s, |ops|, j);
    var m := Log(cfg, ops, s)[j];
    var to :| IsLoggedTo(cfg, Run(cfg, ops[..k], s), ops[k].r, ops[k].x, m, to);
  }

  // ----- What the conversation waits for -----

  /** The status an operation leaves, where it sets one: a pause waits to be lifted, approval for an approval. */
  ghost function StatusBy(cfg: EngineConfig, ops: seq<Operation>, s: Conversation, k: nat): Option<Status>
    requires k < |ops|
  {
    var before := Run(cfg, ops[..k], s);
    match ops[k]
    case SetStatus(status) => Some(status)
    case AddParticipant(_, _) => None
    case Send(r, x) =>
      if !IsCarried(cfg, before, r, x) || IsLostWithSummary(cfg, before, |Log(cfg, ops[..k], s)|, r, x) then None
      else if ActionOn(cfg, before, x) == Pause then Some(Paused)
      else if ActionOn(cfg, before, x) == RequireApproval then Some(AwaitingApproval)
      else None
  }

  lemma StatusNext(cfg: EngineConfig, ops: seq<Operation>, s: Conversation, k: nat)
    requires Faithful(cfg, s, []) && FreshIds(cfg, ops, s) && k < |ops|
    ensures Run(cfg, ops[..k + 1], s).status
            == match StatusBy(cfg, ops, s, k) case Some(status) => status case None => Run(cfg, ops[..k], s).status
  {
    assert ops[..k + 1][..k] == ops[..k];
    FreshEarlier(cfg, ops, s, k);
    RunFaithful(cfg, ops[..k], s);
    assert FreshAt(cfg, ops, s, k);
    if ops[k].Send? { SentStatus(cfg, Run(cfg, ops[..k], s), Log(cfg, ops[..k], s), ops[k].r, ops[k].x); }
  }

  lemma VerdictFor(cfg: EngineConfig, s: Conversation, log: seq<Message>, r: Request, x: Answers)
    requires Faithful(cfg, s, log) && x.messageId !in MessageIds(log)
    ensures var v := Ruling(cfg, s, r, x);
      && (v.Checked? <==> IsCarried(cfg, s, r, x) && !IsLostWithSummary(cfg, s, |log|, r, x))
      && (v.Checked? ==> v.action == ActionOn(cfg, s, x))
  {
    CarriedIff(cfg, s, r, x);
    var v := Judge(cfg, s, r, x);
    if v.Checked? { DueAfterIff(cfg, s, log, r, x, v.m, v.action); }
  }

  lemma KeptBySummary(cfg: EngineConfig, s: Conversation, text: string)
    ensures var t := Summarized(cfg, s, text); t.status == s.status && t.lowestAffinity == s.lowestAffinity
  {
  }

  lemma SavedIs(cfg: EngineConfig, s: Conversation, r: Request, x: Answers)
    ensures var v, saved := Ruling(cfg, s, r, x), Sent(cfg, s, r, x);
      if v.Checked? then
        saved.Some? && saved.value.lowestAffinity == x.lowestAffinity
        && saved.value.status == match v.action case Pause => Paused case RequireApproval => AwaitingApproval
                                                case _ => s.status
      else saved.Some? ==> saved.value.status == s.status && saved.value.lowestAffinity == s.lowestAffinity
  {
    var v := Ruling(cfg, s, r, x);
    if v.Checked? { KeptBySummary(cfg, Accounted(cfg, s, r, x, v.m, v.action), x.summary); }
  }

  lemma SentStatus(cfg: EngineConfig, s: Conversation, log: seq<Message>, r: Request, x: Answers)
    requires Faithful(cfg, s, log) && x.messageId !in MessageIds(log)
    ensures var saved, action := Sent(cfg, s, r, x), ActionOn(cfg, s, x);
      if !IsCarried(cfg, s, r, x) || IsLostWithSummary(cfg, s, |log|, r, x) then
        saved.Some? ==> saved.value.status == s.status && saved.value.lowestAffinity == s.lowestAffinity
      else
        saved.Some? && saved.value.lowestAffinity == x.lowestAffinity
        && saved.value.status == match action case Pause => Paused case RequireApproval => AwaitingApproval
                                              case _ => s.status
  {
    VerdictFor(cfg, s, log, r, x);
    SavedIs(cfg, s, r, x);
  }

  lemma StatusStays(cfg: EngineConfig, ops: seq<Operation>, s: Conversation, i: nat)
    requires Faithful(cfg, s, []) && FreshIds(cfg, ops, s) && i < |ops| && StatusBy(cfg, ops, s, i) == None
    ensures Run(cfg, ops[..i + 1], s).status == Run(cfg, ops[..i], s).status
  {
    StatusNext(cfg, ops, s, i);
  }

  lemma {:induction false} StatusKept(cfg: EngineConfig, ops: seq<Operation>, s: Conversation, k: nat, n: nat)
    requires Faithful(cfg, s, []) && FreshIds(cfg, ops, s) && k <= n <= |ops|
    requires forall i :: k <= i < n ==> StatusBy(cfg, ops, s, i) == None
    ensures Run(cfg, ops[..n], s).status == Run(cfg, ops[..k], s).status
  {
    if k < n {
      StatusKept(cfg, ops, s, k, n - 1);
      StatusStays(cfg, ops, s, n - 1);
    }
  }

  /** The status of a conversation is what the last operation to set one left: paused where the escalation check
      asked for a pause, waiting for approval where it asked for one. */
  lemma StatusIs(cfg: EngineConfig, ops: seq<Operation>, s: Conversation, k: nat, n: nat)
    requires Faithful(cfg, s, []) && FreshIds(cfg, ops, s) && k < n <= |ops| && StatusBy(cfg, ops, s, k).Some?
    requires forall i :: k < i < n ==> StatusBy(cfg, ops, s, i) == None
    ensures Run(cfg, ops[..n], s).status == StatusBy(cfg, ops, s, k).value
  {
    StatusNext(cfg, ops, s, k);
    StatusKept(cfg, ops, s, k + 1, n);
  }

  /** With the built-in triggers, what the escalation check asks for is decided by its table. */
  lemma ActionByTable(cfg: EngineConfig, s: Conversation, x: Answers)
    requires cfg.triggers == BUILTIN_TRIGGERS
    ensures ActionOn(cfg, s, x)
            == BuiltinAction(cfg.hitl, Signals(s.consecutiveChallenges, s.challengeCount, s.lowestAffinity,
                                               s.tokenBudget, s.tokensUsed, s.injectionScores),
                             MessageSignals(x.injection, 0, x.policyWarnings, x.blockingVoiceViolations,
                                            !x.rateAllowed))
  {
    BuiltinActionIs(cfg.hitl, SignalsOf(s),
                    MessageSignals(x.injection, 0, x.policyWarnings, x.blockingVoiceViolations, !x.rateAllowed));
  }

  predicate IsAdded(op: Operation, p: Party) { op.AddParticipant? && op.p == p }

  predicate HasJoined(ops: seq<Operation>, p: Party) { exists i :: 0 <= i < |ops| && IsAdded(ops[i], p) }

  lemma JoinedNext(ops: seq<Operation>, p: Party)
    requires ops != []
    ensures HasJoined(ops, p) <==> HasJoined(ops[..|ops| - 1], p) || IsAdded(ops[|ops| - 1], p)
  {
    if HasJoined(ops[..|ops| - 1], p) {
      var i :| 0 <= i < |ops| - 1 && IsAdded(ops[..|ops| - 1][i], p);
      assert IsAdded(ops[i], p);
    }
    if HasJoined(ops, p) && !IsAdded(ops[|ops| - 1], p) {
      var i :| 0 <= i < |ops| && IsAdded(ops[i], p);
      assert IsAdded(ops[..|ops| - 1][i], p);
    }
  }

  lemma MembersNext(before: seq<Party>, after: seq<Party>, op: Operation, p: Party)
    requires after == before + if op.AddParticipant? && op.p !in before then [op.p] else []
    ensures p in after <==> p in before || IsAdded(op, p)
  {
  }

  /** The participants are those at the start and those that have joined since. */
  lemma {:induction false} ParticipantsAre(cfg: EngineConfig, ops: seq<Operation>, s: Conversation, p: Party)
    ensures p in Run(cfg, ops, s).participants <==> p in s.participants || HasJoined(ops, p)
  {
    if ops != [] {
      var n := |ops| - 1;
      var before := Run(cfg, ops[..n], s);
      ParticipantsAre(cfg, ops[..n], s, p);
      ParticipantsNext(cfg, ops[n], before);
      JoinedNext(ops, p);
      MembersNext(before.participants, Run(cfg, ops, s).participants, ops[n], p);
    }
  }

  lemma ParticipantsNext(cfg: EngineConfig, op: Operation, s: Conversation)
    ensures var saved := Apply(cfg, op, s);
      (if saved.Some? then saved.value else s).participants
      == s.participants + if op.AddParticipant? && op.p !in s.participants then [op.p] else []
  {
    if op.Send? { SentParticipants(cfg, s, op.r, op.x); }
  }

  lemma SentParticipants(cfg: EngineConfig, s: Conversation, r: Request, x: Answers)
    ensures var saved := Sent(cfg, s, r, x); saved.Some? ==> saved.value.participants == s.participants
  {
    var v := Ruling(cfg, s, r, x);
    if v.Checked? {
      var t := Accounted(cfg, s, r, x, v.m, v.action);
      assert Summarized(cfg, t, x.summary).participants == t.participants;
    }
  }

  /** The lowest affinity an operation leaves, where it sets one. */
  ghost function LowestBy(cfg: EngineConfig, ops: seq<Operation>, s: Conversation, k: nat): Option<real>
    requires k < |ops|
  {
    var before := Run(cfg, ops[..k], s);
    match ops[k]
    case SetStatus(_) => None
    case AddParticipant(_, lowest) => Some(lowest)
    case Send(r, x) =>
      if !IsCarried(cfg, before, r, x) || IsLostWithSummary(cfg, before, |Log(cfg, ops[..k], s)|, r, x) then None
      else Some(x.lowestAffinity)
  }

  /** The affinity the escalation check reads is as the last join, or the last message carried through, left it. */
  lemma LowestNext(cfg: EngineConfig, ops: seq<Operation>, s: Conversation, k: nat)
    requires Faithful(cfg, s, []) && FreshIds(cfg, ops, s) && k < |ops|
    ensures Run(cfg, ops[..k + 1], s).lowestAffinity
            == match LowestBy(cfg, ops, s, k)
               case Some(lowest) => lowest
               case None => Run(cfg, ops[..k], s).lowestAffinity
  {
    assert ops[..k + 1][..k] == ops[..k];
    FreshEarlier(cfg, ops, s, k);
    RunFaithful(cfg, ops[..k], s);
    assert FreshAt(cfg, ops, s, k);
    if ops[k].Send? { SentStatus(cfg, Run(cfg, ops[..k], s), Log(cfg, ops[..k], s), ops[k].r, ops[k].x); }
  }

  // ----- What the limiter is told -----

  /** A message that no check and no escalation stops, sent to these recipients: the mediator, or those meant. */
  ghost predicate IsDeliveredTo(cfg: EngineConfig, s: Conversation, r: Request, x: Answers, deliveredTo: seq<Party>) {
    && IsHeard(cfg, s, r) && !x.raises && x.structureValid && x.rateAllowed
    && ActionOn(cfg, s, x) !in {Pause, RequireApproval}
    && exists to :: IsMeantFor(r, x, to) && !IsRefused(cfg, r, to, x)
                    && deliveredTo == if IsMediated(cfg, r, to, x) then [cfg.mediator] else to
  }

  lemma DeliveredToIff(cfg: EngineConfig, s: Conversation, r: Request, x: Answers, deliveredTo: seq<Party>)
    ensures var v := Judge(cfg, s, r, x);
      IsDeliveredTo(cfg, s, r, x, deliveredTo)
      <==> v.Checked? && v.m.status == Delivered && v.m.deliveredTo == deliveredTo
  {
    GateIff(cfg, s, r);
    var route := if r.to.Some? then r.to else x.route;
    if route.Some? {
      assert IsMeantFor(r, x, route.value);
      MediatedIff(cfg, r, route.value, x);
      RefusedIff(cfg, r, route.value, x);
    }
  }

  /** The limiter is told of each delivery, under its sender and its conversation, and of a challenge also under its
      sender and its first recipient; and of nothing else. */
  lemma RecordsAre(cfg: EngineConfig, id: string, s: Conversation, r: Request, x: Answers, deliveredTo: seq<Party>)
    ensures IsDeliveredTo(cfg, s, r, x, deliveredTo) ==>
              RecordsOf(cfg, id, s, r, x)
              == [MessageRecord(r.sender, id)]
                 + if r.isChallenge && |deliveredTo| > 0 then [ChallengeRecord(r.sender, deliveredTo[0])] else []
    ensures RecordsOf(cfg, id, s, r, x) != [] ==> exists to :: IsDeliveredTo(cfg, s, r, x, to)
  {
    DeliveredToIff(cfg, s, r, x, deliveredTo);
    var v := Judge(cfg, s, r, x);
    if v.Checked? { DeliveredToIff(cfg, s, r, x, v.m.deliveredTo); }
  }

  /** A conversation keeps the budget it was started with. */
  lemma {:induction false} BudgetIsKept(cfg: EngineConfig, ops: seq<Operation>, participants: seq<Party>, turn: Party,
                                        budget: int, lowest: real)
    ensures Run(cfg, ops, Started(participants, turn, budget, lowest)).tokenBudget == budget
  {
    if ops != [] {
      var n, s := |ops| - 1, Started(participants, turn, budget, lowest);
      BudgetIsKept(cfg, ops[..n], participants, turn, budget, lowest);
      if Apply(cfg, ops[n], Run(cfg, ops[..n], s)).Some? { TokensNeverFall(cfg, Run(cfg, ops[..n], s), ops[n]); }
    }
  }
}
