/** What every run of calls on a conversation keeps (lib/conversation-engine.ts:444-768, lib/hitl.ts:384-429):
    counters, summaries, pausing for good, and the same under concurrency. */
module ConversationSafety {
  import opened Wrappers
  import opened Hitl
  import opened ConversationEngine
  import Tokens
  import Lock = ConversationLock

  // ----- Counters, scores and summaries -----

  function Scores(log: seq<Message>): (r: seq<real>)
    ensures |r| == |log| && forall i :: 0 <= i < |r| ==> r[i] == log[i].injection
  {
    seq(|log|, i requires 0 <= i < |log| => log[i].injection)
  }

  function Total(log: seq<Message>, f: Message -> nat): nat {
    if log == [] then 0 else Total(log[..|log| - 1], f) + f(log[|log| - 1])
  }

  function TokensOf(cfg: EngineConfig): Message -> nat {
    (m: Message) => Tokens.Estimate(cfg.charsPerToken, |m.content|)
  }

  function WarningsOf(): Message -> nat { (m: Message) => m.policyWarnings }

  function ViolationsOf(): Message -> nat { (m: Message) => m.voiceViolations }

  /** The counters are those of the log, and the kept scores are its last fifty. */
  ghost predicate Counted(cfg: EngineConfig, s: Conversation, log: seq<Message>) {
    && s.messageCount == |s.messages| == |log|
    && s.injectionScores == Last(Scores(log), 50)
    && s.tokensUsed == Total(log, TokensOf(cfg))
    && s.policyViolations == Total(log, WarningsOf())
    && s.voiceViolations == Total(log, ViolationsOf())
  }

  /** The summaries cover chunks of equal length that together are a prefix of the log. */
  ghost predicate Chunked(cfg: EngineConfig, s: Conversation, log: seq<Message>) {
    && (forall i :: 0 <= i < |s.summaries| ==> |s.summaries[i].covers| == cfg.chunkSize)
    && |Covered(s.summaries)| <= |log|
    && Covered(s.summaries) == MessageIds(log)[..|Covered(s.summaries)|]
  }

  /** The stored messages are those of the log; only covered ones may have lost their content. */
  ghost predicate Stored(cfg: EngineConfig, s: Conversation, log: seq<Message>) {
    && |s.messages| == |log|
    && forall i :: 0 <= i < |log| ==>
         s.messages[i] == if cfg.discard && i < |Covered(s.summaries)| then log[i].(content := "") else log[i]
  }

  ghost predicate DistinctIds(log: seq<Message>) {
    forall i, j :: 0 <= i < j < |log| ==> log[i].id != log[j].id
  }

  ghost predicate Faithful(cfg: EngineConfig, s: Conversation, log: seq<Message>) {
    Counted(cfg, s, log) && Chunked(cfg, s, log) && Stored(cfg, s, log) && DistinctIds(log)
  }

  lemma LastOfLast<T>(s: seq<T>, n: nat, x: T)
    ensures Last(Last(s, n) + [x], n) == Last(s + [x], n)
  {
  }

  lemma TotalGrows(log: seq<Message>, m: Message, f: Message -> nat)
    ensures Total(log + [m], f) == Total(log, f) + f(m)
  {
    assert (log + [m])[..|log|] == log;
  }

  lemma AppendCounted(cfg: EngineConfig, s: Conversation, log: seq<Message>, m: Message)
    requires Counted(cfg, s, log)
    ensures Counted(cfg, Append(cfg, s, m), log + [m])
  {
    assert Scores(log + [m]) == Scores(log) + [m.injection];
    LastOfLast(Scores(log), SCORES_KEPT, m.injection);
    TotalGrows(log, m, TokensOf(cfg));
    TotalGrows(log, m, WarningsOf());
    TotalGrows(log, m, ViolationsOf());
  }

  lemma AppendFaithful(cfg: EngineConfig, s: Conversation, log: seq<Message>, m: Message)
    requires Faithful(cfg, s, log) && m.id !in MessageIds(log)
    ensures Faithful(cfg, Append(cfg, s, m), log + [m])
  {
    AppendCounted(cfg, s, log, m);
    assert MessageIds(log + [m]) == MessageIds(log) + [m.id];
    forall i | 0 <= i < |log| ensures log[i].id != m.id { assert MessageIds(log)[i] == log[i].id; }
  }

  /** The parts of a conversation that its log determines. */
  ghost predicate SameRecords(s: Conversation, t: Conversation) {
    && s.messages == t.messages && s.messageCount == t.messageCount && s.injectionScores == t.injectionScores
    && s.tokensUsed == t.tokensUsed && s.policyViolations == t.policyViolations
    && s.voiceViolations == t.voiceViolations
    && s.summaries == t.summaries
  }

  /** With distinct ids and a covered prefix, what is not covered is the rest. */
  lemma {:induction false} UncoveredIsRest(messages: seq<Message>, k: nat, n: nat)
    requires DistinctIds(messages) && k <= n <= |messages|
    ensures Uncovered(messages[..n], MessageIds(messages)[..k]) == messages[k..n]
  {
    var covered := MessageIds(messages)[..k];
    if n > 0 {
      assert messages[..n][..n - 1] == messages[..n - 1];
      if k == n {
        EarlierUncovered(messages, k, n);
      } else {
        UncoveredIsRest(messages, k, n - 1);
        assert messages[n - 1].id !in covered;
      }
    }
  }

  lemma {:induction false} EarlierUncovered(messages: seq<Message>, k: nat, n: nat)
    requires n <= k <= |messages|
    ensures Uncovered(messages[..n], MessageIds(messages)[..k]) == []
  {
    if n > 0 {
      assert messages[..n][..n - 1] == messages[..n - 1];
      EarlierUncovered(messages, k, n - 1);
      assert MessageIds(messages)[..k][n - 1] == messages[n - 1].id;
    }
  }

  lemma StoredIds(cfg: EngineConfig, s: Conversation, log: seq<Message>)
    requires Stored(cfg, s, log)
    ensures MessageIds(s.messages) == MessageIds(log)
    ensures DistinctIds(log) ==> DistinctIds(s.messages)
  {
  }

  lemma PendingIds(cfg: EngineConfig, s: Conversation, log: seq<Message>)
    requires Chunked(cfg, s, log) && Stored(cfg, s, log) && DistinctIds(log)
    ensures var k := |Covered(s.summaries)|;
      Uncovered(s.messages, Covered(s.summaries)) == s.messages[k..]
      && forall c :: 0 <= c <= |log| - k ==> MessageIds(s.messages[k..][..c]) == MessageIds(log)[k..k + c]
  {
    var k, n := |Covered(s.summaries)|, |log|;
    StoredIds(cfg, s, log);
    UncoveredIsRest(s.messages, k, n);
    assert s.messages[..n] == s.messages && s.messages[k..n] == s.messages[k..];
    forall c | 0 <= c <= n - k ensures MessageIds(s.messages[k..][..c]) == MessageIds(log)[k..k + c] {
      SliceIds(s.messages, k, c);
    }
  }

  lemma SliceIds(messages: seq<Message>, k: nat, c: nat)
    requires k + c <= |messages|
    ensures MessageIds(messages[k..][..c]) == MessageIds(messages)[k..k + c]
  {
  }

  lemma CoveredAppend(summaries: seq<Summary>, last: Summary)
    ensures Covered(summaries + [last]) == Covered(summaries) + last.covers
  {
    assert (summaries + [last])[..|summaries|] == summaries;
  }

  lemma SummarizedChunked(cfg: EngineConfig, s: Conversation, log: seq<Message>, text: string)
    requires Chunked(cfg, s, log) && Stored(cfg, s, log) && DistinctIds(log) && Summarized(cfg, s, text) != s
    ensures var t, k := Summarized(cfg, s, text), |Covered(s.summaries)|;
      && Chunked(cfg, t, log) && |Covered(t.summaries)| == k + cfg.chunkSize
      && t.summaries[|t.summaries| - 1].covers == MessageIds(log)[k..k + cfg.chunkSize]
  {
    var t, k := Summarized(cfg, s, text), |Covered(s.summaries)|;
    PendingIds(cfg, s, log);
    var ids := MessageIds(log);
    var covers := ids[k..k + cfg.chunkSize];
    assert t.summaries == s.summaries + [Summary(covers, text)];
    CoveredAppend(s.summaries, Summary(covers, text));
    assert ids[..k] + covers == ids[..k + cfg.chunkSize];
  }

  lemma SummarizedFaithful(cfg: EngineConfig, s: Conversation, log: seq<Message>, text: string)
    requires Faithful(cfg, s, log)
    ensures Faithful(cfg, Summarized(cfg, s, text), log)
  {
    var t, k, n := Summarized(cfg, s, text), |Covered(s.summaries)|, |log|;
    if t != s {
      SummarizedChunked(cfg, s, log, text);
      InChunk(log, t.summaries[|t.summaries| - 1].covers, k, k + cfg.chunkSize);
      assert forall i :: 0 <= i < n ==> s.messages[i].id == log[i].id;
      SummarizedStored(cfg, s, log, text);
      SummarizedCounted(cfg, s, log, text);
    }
  }

  lemma InChunk(log: seq<Message>, covers: seq<nat>, lo: nat, hi: nat)
    requires DistinctIds(log) && lo <= hi <= |log| && covers == MessageIds(log)[lo..hi]
    ensures forall i :: 0 <= i < |log| ==> (log[i].id in covers <==> lo <= i < hi)
  {
    forall i | lo <= i < hi ensures log[i].id in covers { assert covers[i - lo] == log[i].id; }
  }

  lemma SummarizedCounted(cfg: EngineConfig, s: Conversation, log: seq<Message>, text: string)
    requires Counted(cfg, s, log)
    ensures Counted(cfg, Summarized(cfg, s, text), log)
  {
  }

  lemma SummarizedStored(cfg: EngineConfig, s: Conversation, log: seq<Message>, text: string)
    requires Stored(cfg, s, log) && Summarized(cfg, s, text) != s
    requires var t, k := Summarized(cfg, s, text), |Covered(s.summaries)|;
      |Covered(t.summaries)| == k + cfg.chunkSize
      && forall i :: 0 <= i < |log| ==>
           (s.messages[i].id in t.summaries[|t.summaries| - 1].covers <==> k <= i < k + cfg.chunkSize)
    ensures Stored(cfg, Summarized(cfg, s, text), log)
  {
  }

  lemma SameRecordsFaithful(cfg: EngineConfig, s: Conversation, t: Conversation, log: seq<Message>)
    requires Faithful(cfg, s, log) && SameRecords(s, t)
    ensures Faithful(cfg, t, log)
  {
  }

  lemma ApplyFaithful(cfg: EngineConfig, op: Operation, s: Conversation, log: seq<Message>)
    requires Faithful(cfg, s, log) && (op.Send? ==> op.x.messageId !in MessageIds(log))
    ensures var saved := Apply(cfg, op, s);
      if saved.Some? then Faithful(cfg, saved.value, log + Logs(cfg, op, s)) else Logs(cfg, op, s) == []
  {
    if op.Send? {
      SendFaithful(cfg, op, s, log);
    } else {
      assert log + [] == log;
      SameRecordsFaithful(cfg, s, Apply(cfg, op, s).value, log);
    }
  }

  lemma SendFaithful(cfg: EngineConfig, op: Operation, s: Conversation, log: seq<Message>)
    requires Faithful(cfg, s, log) && op.Send? && op.x.messageId !in MessageIds(log)
    ensures var saved := Sent(cfg, s, op.r, op.x);
      if saved.Some? then Faithful(cfg, saved.value, log + Logs(cfg, op, s)) else Logs(cfg, op, s) == []
  {
    var v := Ruling(cfg, s, op.r, op.x);
    RulingId(cfg, s, op.r, op.x);
    if v.Audited? || v.Checked? { VerdictFaithful(cfg, s, log, op.r, op.x, v); }
  }

  lemma RulingId(cfg: EngineConfig, s: Conversation, r: Request, x: Answers)
    ensures var v := Ruling(cfg, s, r, x);
            v.Audited? || v.Checked? ==> v.m.id == x.messageId && Logs(cfg, Send(r, x), s) == [v.m]
  {
  }

  lemma VerdictFaithful(cfg: EngineConfig, s: Conversation, log: seq<Message>, r: Request, x: Answers, v: Verdict)
    requires Faithful(cfg, s, log) && (v.Audited? || v.Checked?) && v.m.id !in MessageIds(log)
    ensures v.Audited? ==> Faithful(cfg, Append(cfg, s, v.m), log + [v.m])
    ensures v.Checked? ==>
              Faithful(cfg, Summarized(cfg, Accounted(cfg, s, r, x, v.m, v.action), x.summary), log + [v.m])
  {
    if v.Audited? { AppendFaithful(cfg, s, log, v.m); } else { CheckedFaithful(cfg, s, log, r, x, v.m, v.action); }
  }

  lemma AccountedFaithful(cfg: EngineConfig, s: Conversation, log: seq<Message>, r: Request, x: Answers, m: Message,
                          action: Action)
    requires Faithful(cfg, s, log) && m.id !in MessageIds(log)
    ensures Faithful(cfg, Accounted(cfg, s, r, x, m, action), log + [m])
  {
    var t := s.(status := StatusAfter(s, action));
    SameRecordsFaithful(cfg, s, t, log);
    AppendFaithful(cfg, t, log, m);
    AccountKeepsRecords(Append(cfg, t, m), r, m, x.lowestAffinity);
    SameRecordsFaithful(cfg, Append(cfg, t, m), Accounted(cfg, s, r, x, m, action), log + [m]);
  }

  lemma AccountKeepsRecords(s: Conversation, r: Request, m: Message, lowest: real)
    ensures SameRecords(s, Account(s, r, m).(lowestAffinity := lowest))
  {
  }

  lemma CheckedFaithful(cfg: EngineConfig, s: Conversation, log: seq<Message>, r: Request, x: Answers, m: Message,
                        action: Action)
    requires Faithful(cfg, s, log) && m.id !in MessageIds(log)
    ensures Faithful(cfg, Summarized(cfg, Accounted(cfg, s, r, x, m, action), x.summary), log + [m])
  {
    AccountedFaithful(cfg, s, log, r, x, m, action);
    SummarizedFaithful(cfg, Accounted(cfg, s, r, x, m, action), log + [m], x.summary);
  }

  /** Every new message gets an id no logged message has. */
  ghost predicate FreshIds(cfg: EngineConfig, ops: seq<Operation>, s: Conversation) {
    forall k :: 0 <= k < |ops| ==> FreshAt(cfg, ops, s, k)
  }

  ghost predicate FreshAt(cfg: EngineConfig, ops: seq<Operation>, s: Conversation, k: nat) {
    k < |ops| && (ops[k].Send? ==> ops[k].x.messageId !in MessageIds(Log(cfg, ops[..k], s)))
  }

  /** In every run of a conversation the counters, scores, summaries and stored messages are those of
      its log: summaries cover disjoint chunks that form a prefix, and nothing else is lost. */
  lemma {:induction false} RunFaithful(cfg: EngineConfig, ops: seq<Operation>, s: Conversation)
    requires Faithful(cfg, s, []) && FreshIds(cfg, ops, s)
    ensures Faithful(cfg, Run(cfg, ops, s), Log(cfg, ops, s))
  {
    if ops != [] {
      var n := |ops| - 1;
      var earlier := ops[..n];
      forall k | 0 <= k < n ensures FreshAt(cfg, earlier, s, k) {
        assert FreshAt(cfg, ops, s, k) && earlier[..k] == ops[..k];
      }
      RunFaithful(cfg, earlier, s);
      assert FreshAt(cfg, ops, s, n);
      ApplyFaithful(cfg, ops[n], Run(cfg, earlier, s), Log(cfg, earlier, s));
      assert Log(cfg, earlier, s) + [] == Log(cfg, earlier, s);
    }
  }

  /** So it is for every conversation from its start. */
  lemma StartedRunFaithful(cfg: EngineConfig, ops: seq<Operation>, participants: seq<Party>, turn: Party, budget: int,
                           lowest: real)
    requires FreshIds(cfg, ops, Started(participants, turn, budget, lowest))
    ensures var s := Started(participants, turn, budget, lowest);
      Faithful(cfg, Run(cfg, ops, s), Log(cfg, ops, s)) && Decided(Run(cfg, ops, s), Deliveries(cfg, ops, s), turn)
  {
    var s := Started(participants, turn, budget, lowest);
    assert Faithful(cfg, s, []);
    RunFaithful(cfg, ops, s);
    DeliveriesDecide(cfg, ops, s);
  }

  lemma {:induction false} CoversAt(summaries: seq<Summary>, i: nat, k: nat)
    requires i < |summaries| && k < |summaries[i].covers|
    ensures var at := |Covered(summaries[..i])| + k;
      at < |Covered(summaries[..i + 1])| <= |Covered(summaries)| && Covered(summaries)[at] == summaries[i].covers[k]
  {
    var n := |summaries| - 1;
    if i == n {
      assert summaries[..i + 1] == summaries;
    } else {
      CoversAt(summaries[..n], i, k);
      assert summaries[..n][..i] == summaries[..i] && summaries[..n][..i + 1] == summaries[..i + 1];
    }
  }

  lemma {:induction false} CoveredGrows(summaries: seq<Summary>, i: nat, j: nat)
    requires i <= j <= |summaries|
    ensures |Covered(summaries[..i])| <= |Covered(summaries[..j])|
  {
    if i < j {
      CoveredGrows(summaries, i, j - 1);
      assert summaries[..j][..j - 1] == summaries[..j - 1];
    }
  }

  /** No message is covered twice. */
  lemma SummariesDisjoint(cfg: EngineConfig, s: Conversation, log: seq<Message>, i: nat, j: nat)
    requires Faithful(cfg, s, log) && i < j < |s.summaries|
    ensures forall id :: id in s.summaries[i].covers ==> id !in s.summaries[j].covers
  {
    forall a, b | 0 <= a < |s.summaries[i].covers| && 0 <= b < |s.summaries[j].covers|
      ensures s.summaries[i].covers[a] != s.summaries[j].covers[b]
    {
      CoversAt(s.summaries, i, a);
      CoversAt(s.summaries, j, b);
      CoveredGrows(s.summaries, i + 1, j);
      var p, q := |Covered(s.summaries[..i])| + a, |Covered(s.summaries[..j])| + b;
      assert MessageIds(log)[p] != MessageIds(log)[q];
    }
  }

  // ----- Pausing -----

  function Limit(cfg: EngineConfig): int { if cfg.hitl.challengeLimit > 0 then cfg.hitl.challengeLimit else 0 }

  lemma {:induction false} ChallengesBounded(cfg: EngineConfig, ops: seq<Operation>, s: Conversation)
    requires GuardsExhaustion(cfg.triggers) && s.consecutiveChallenges <= Limit(cfg)
    ensures Run(cfg, ops, s).consecutiveChallenges <= Limit(cfg)
  {
    if ops != [] {
      var n := |ops| - 1;
      var before := Run(cfg, ops[..n], s);
      ChallengesBounded(cfg, ops[..n], s);
      if Apply(cfg, ops[n], before).Some? { ChallengeStep(cfg, before, ops[n]); }
    }
  }

  lemma ChallengeStep(cfg: EngineConfig, s: Conversation, op: Operation)
    requires GuardsExhaustion(cfg.triggers) && s.consecutiveChallenges <= Limit(cfg) && Apply(cfg, op, s).Some?
    ensures Apply(cfg, op, s).value.consecutiveChallenges <= Limit(cfg)
  {
    if op.Send? {
      if Logs(cfg, op, s) == [] || Logs(cfg, op, s)[0].status != Delivered {
        NothingCounted(cfg, op, s);
      } else {
        DeliveryCounted(cfg, op, s);
        if Exhausted(cfg.hitl, SignalsOf(s)) {
          ExhaustedStops(cfg, s, op.r, op.x);
          assert false;
        }
      }
    }
  }

  /** On an exhausted conversation no message is delivered, whoever sends it. */
  lemma ExhaustedStops(cfg: EngineConfig, s: Conversation, r: Request, x: Answers)
    requires GuardsExhaustion(cfg.triggers) && Exhausted(cfg.hitl, SignalsOf(s))
    ensures Outcome(Ruling(cfg, s, r, x)) != Some(Delivered)
    ensures forall m :: m in Logs(cfg, Send(r, x), s) ==> m.status != Delivered
  {
    ExhaustedAction(cfg, s, x);
    var v := Judge(cfg, s, r, x);
    assert v.Checked? ==> v.m.status == Blocked;
  }

  lemma ExhaustedAction(cfg: EngineConfig, s: Conversation, x: Answers)
    requires GuardsExhaustion(cfg.triggers) && Exhausted(cfg.hitl, SignalsOf(s))
    ensures Stops(ActionOn(cfg, s, x))
  {
    ExhaustionPauses(cfg.hitl, cfg.triggers, SignalsOf(s),
                     MessageSignals(x.injection, 0, x.policyWarnings, x.blockingVoiceViolations, !x.rateAllowed));
  }

  lemma RatioGrows(a: int, b: int, n: int)
    requires a <= b && n > 0
    ensures a as real / n as real <= b as real / n as real
  {
    assert b as real / n as real == a as real / n as real + (b - a) as real / n as real;
  }

  lemma ExhaustedAfter(cfg: EngineConfig, s: Conversation, op: Operation)
    requires GuardsExhaustion(cfg.triggers) && Exhausted(cfg.hitl, SignalsOf(s)) && Apply(cfg, op, s).Some?
    ensures Exhausted(cfg.hitl, SignalsOf(Apply(cfg, op, s).value))
  {
    if op.Send? {
      ExhaustedStops(cfg, s, op.r, op.x);
      NothingCounted(cfg, op, s);
    }
    TokensNeverFall(cfg, s, op);
    StillExhausted(cfg.hitl, SignalsOf(s), SignalsOf(Apply(cfg, op, s).value));
  }

  lemma TokensNeverFall(cfg: EngineConfig, s: Conversation, op: Operation)
    requires Apply(cfg, op, s).Some?
    ensures var t := Apply(cfg, op, s).value; t.tokenBudget == s.tokenBudget && t.tokensUsed >= s.tokensUsed
  {
    if op.Send? {
      var v := Ruling(cfg, s, op.r, op.x);
      match v
      case Audited(m) =>
      case Checked(m, action) =>
        RestKeepsTokens(cfg, Append(cfg, s.(status := StatusAfter(s, action)), m), op.r, m, op.x);
    }
  }

  lemma RestKeepsTokens(cfg: EngineConfig, s: Conversation, r: Request, m: Message, x: Answers)
    ensures var t := Summarized(cfg, Account(s, r, m).(lowestAffinity := x.lowestAffinity), x.summary);
      t.tokensUsed == s.tokensUsed && t.tokenBudget == s.tokenBudget
  {
  }

  lemma StillExhausted(cfg: Hitl.Config, a: Signals, b: Signals)
    requires Exhausted(cfg, a) && b.consecutiveChallenges >= a.consecutiveChallenges
    requires b.tokenBudget == a.tokenBudget && b.tokensUsed >= a.tokensUsed
    ensures Exhausted(cfg, b)
  {
    if a.tokenBudget > 0 { RatioGrows(a.tokensUsed, b.tokensUsed, a.tokenBudget); }
  }

  /** Once the challenge limit or the pausing share of the budget is reached, no later message of the
      conversation is ever delivered, whatever happens: also after setStatus, by anyone. */
  lemma {:induction false} ExhaustedForGood(cfg: EngineConfig, ops: seq<Operation>, s: Conversation)
    requires GuardsExhaustion(cfg.triggers) && Exhausted(cfg.hitl, SignalsOf(s))
    ensures Exhausted(cfg.hitl, SignalsOf(Run(cfg, ops, s)))
    ensures forall m :: m in Log(cfg, ops, s) ==> m.status != Delivered
  {
    if ops != [] {
      var n := |ops| - 1;
      var before := Run(cfg, ops[..n], s);
      ExhaustedForGood(cfg, ops[..n], s);
      if ops[n].Send? { ExhaustedStops(cfg, before, ops[n].r, ops[n].x); }
      if Apply(cfg, ops[n], before).Some? { ExhaustedAfter(cfg, before, ops[n]); }
    }
  }

  /** An operation that a conversation of this status does not hear. */
  predicate IsUnheard(op: Operation, status: Status) {
    status != Active && !op.SetStatus? && (op.Send? && status != Closed ==> op.r.sender != Operator)
  }

  lemma SilentStep(cfg: EngineConfig, op: Operation, s: Conversation)
    requires IsUnheard(op, s.status)
    ensures Logs(cfg, op, s) == [] && (Apply(cfg, op, s).Some? ==> Apply(cfg, op, s).value.status == s.status)
  {
  }

  lemma SilentOneMore(cfg: EngineConfig, ops: seq<Operation>, n: nat, next: nat, s: Conversation, status: Status)
    requires n < |ops| && next == n + 1 && Run(cfg, ops[..n], s).status == status && IsUnheard(ops[n], status)
    ensures Run(cfg, ops[..next], s).status == status && Log(cfg, ops[..next], s) == Log(cfg, ops[..n], s)
  {
    assert ops[..next][..n] == ops[..n];
    SilentStep(cfg, ops[n], Run(cfg, ops[..n], s));
  }

  lemma {:induction false} StatusUntilReopened(cfg: EngineConfig, ops: seq<Operation>, k: nat, n: nat, status: Status,
                                               s: Conversation)
    requires k <= n <= |ops| && Run(cfg, ops[..k], s).status == status
    requires forall i :: k <= i < n ==> IsUnheard(ops[i], status)
    ensures Run(cfg, ops[..n], s).status == status
  {
    if k < n {
      StatusUntilReopened(cfg, ops, k, n - 1, status, s);
      SilentOneMore(cfg, ops, n - 1, n, s, status);
    }
  }

  /** Once it is paused a conversation hears only the operator, and once closed nobody, until its status
      is set: nothing more is logged. */
  lemma {:induction false} SilentUntilReopened(cfg: EngineConfig, ops: seq<Operation>, k: nat, n: nat, status: Status,
                                               s: Conversation)
    requires k <= n <= |ops| && Run(cfg, ops[..k], s).status == status
    requires forall i :: k <= i < n ==> IsUnheard(ops[i], status)
    ensures Run(cfg, ops[..n], s).status == status && Log(cfg, ops[..n], s) == Log(cfg, ops[..k], s)
  {
    StatusUntilReopened(cfg, ops, k, n, status, s);
    if k < n {
      SilentUntilReopened(cfg, ops, k, n - 1, status, s);
      SilentOneMore(cfg, ops, n - 1, n, s, status);
    }
  }

  /** What a delivery leaves behind: whether it was a challenge, and who is next to speak, if anyone. */
  datatype Delivery = Delivery(challenge: bool, next: Option<Party>)

  /** The delivery an operation makes, as a list of at most one. */
  function DeliveredBy(cfg: EngineConfig, op: Operation, s: Conversation): seq<Delivery> {
    var logged := Logs(cfg, op, s);
    if logged == [] || logged[0].status != Delivered then []
    else [Delivery(op.r.isChallenge && logged[0].deliveredTo != [], FirstIn(logged[0].deliveredTo, s.participants))]
  }

  /** The deliveries of a run, in order. */
  function Deliveries(cfg: EngineConfig, ops: seq<Operation>, s: Conversation): seq<Delivery> {
    if ops == [] then [] else
      var earlier := ops[..|ops| - 1];
      Deliveries(cfg, earlier, s) + DeliveredBy(cfg, ops[|ops| - 1], Run(cfg, earlier, s))
  }

  function Challenges(ds: seq<Delivery>): nat {
    if ds == [] then 0 else Challenges(ds[..|ds| - 1]) + if ds[|ds| - 1].challenge then 1 else 0
  }

  /** The number of challenges at the end of the deliveries. */
  function Streak(ds: seq<Delivery>): nat {
    if ds == [] || !ds[|ds| - 1].challenge then 0 else Streak(ds[..|ds| - 1]) + 1
  }

  function LastNext(ds: seq<Delivery>, start: Party): Party {
    if ds == [] then start else
      var d := ds[|ds| - 1];
      if d.next.Some? then d.next.value else LastNext(ds[..|ds| - 1], start)
  }

  ghost predicate Decided(t: Conversation, ds: seq<Delivery>, start: Party) {
    t.challengeCount == Challenges(ds) && t.consecutiveChallenges == Streak(ds) && t.currentTurn == LastNext(ds, start)
  }

  /** Only deliveries move the challenge counters and the turn: challenges are counted, the consecutive
      ones are those since the last other delivery, and the turn is with the first participant the last
      delivery that reached one went to. */
  lemma {:induction false} DeliveriesDecide(cfg: EngineConfig, ops: seq<Operation>, s: Conversation)
    requires s.challengeCount == 0 && s.consecutiveChallenges == 0
    ensures Decided(Run(cfg, ops, s), Deliveries(cfg, ops, s), s.currentTurn)
  {
    if ops != [] {
      var earlier := ops[..|ops| - 1];
      DeliveriesDecide(cfg, earlier, s);
      DeliveryDecides(cfg, ops[|ops| - 1], Run(cfg, earlier, s), Deliveries(cfg, earlier, s), s.currentTurn);
    }
  }

  lemma DeliveryDecides(cfg: EngineConfig, op: Operation, s: Conversation, ds: seq<Delivery>, start: Party)
    requires Decided(s, ds, start)
    ensures var saved := Apply(cfg, op, s);
      Decided(if saved.Some? then saved.value else s, ds + DeliveredBy(cfg, op, s), start)
  {
    if DeliveredBy(cfg, op, s) != [] {
      DeliveryCounted(cfg, op, s);
      DeliveryAppended(ds, DeliveredBy(cfg, op, s)[0], start);
    } else {
      assert ds + [] == ds;
      if op.Send? { NothingCounted(cfg, op, s); }
    }
  }

  lemma DeliveryAppended(ds: seq<Delivery>, d: Delivery, start: Party)
    ensures Challenges(ds + [d]) == Challenges(ds) + if d.challenge then 1 else 0
    ensures Streak(ds + [d]) == if d.challenge then Streak(ds) + 1 else 0
    ensures LastNext(ds + [d], start) == if d.next.Some? then d.next.value else LastNext(ds, start)
  {
    assert (ds + [d])[..|ds|] == ds;
  }

  lemma DeliveryCounted(cfg: EngineConfig, op: Operation, s: Conversation)
    requires op.Send? && Logs(cfg, op, s) != [] && Logs(cfg, op, s)[0].status == Delivered
    ensures var m, saved := Logs(cfg, op, s)[0], Apply(cfg, op, s);
      var challenge, next := op.r.isChallenge && m.deliveredTo != [], FirstIn(m.deliveredTo, s.participants);
      && saved.Some?
      && saved.value.challengeCount == s.challengeCount + (if challenge then 1 else 0)
      && saved.value.consecutiveChallenges == (if challenge then s.consecutiveChallenges + 1 else 0)
      && saved.value.currentTurn == (if next.Some? then next.value else s.currentTurn)
  {
    assert Ruling(cfg, s, op.r, op.x).Checked?;
  }

  lemma NothingCounted(cfg: EngineConfig, op: Operation, s: Conversation)
    requires op.Send? && (Logs(cfg, op, s) == [] || Logs(cfg, op, s)[0].status != Delivered)
    ensures var saved := Apply(cfg, op, s);
      saved.Some? ==>
        saved.value.challengeCount == s.challengeCount && saved.value.consecutiveChallenges == s.consecutiveChallenges
                      && saved.value.currentTurn == s.currentTurn
  {
  }

  lemma StopWaits(cfg: EngineConfig, s: Conversation, r: Request, x: Answers)
    requires Ruling(cfg, s, r, x).Checked? && Stops(Ruling(cfg, s, r, x).action)
    ensures var saved, m := Sent(cfg, s, r, x), Ruling(cfg, s, r, x).m;
      saved.Some? && saved.value.status != Active && saved.value.status != Closed && m.status == Blocked
        && Logs(cfg, Send(r, x), s) == [m]
  {
    var u := Accounted(cfg, s, r, x, Ruling(cfg, s, r, x).m, Ruling(cfg, s, r, x).action);
    assert Summarized(cfg, u, x.summary).status == u.status;
  }

  /** From the message that the escalation check stops, everyone but the operator is met with silence,
      in the log too, until the status is set. */
  lemma StopSilences(cfg: EngineConfig, ops: seq<Operation>, k: nat, n: nat, s: Conversation)
    requires k < n <= |ops| && ops[k].Send?
    requires var v := Ruling(cfg, Run(cfg, ops[..k], s), ops[k].r, ops[k].x); v.Checked? && Stops(v.action)
    requires forall i :: k < i < n ==> IsUnheard(ops[i], Paused)
    ensures var m := Ruling(cfg, Run(cfg, ops[..k], s), ops[k].r, ops[k].x).m;
      m.status == Blocked && Log(cfg, ops[..n], s) == Log(cfg, ops[..k], s) + [m]
  {
    StopWaits(cfg, Run(cfg, ops[..k], s), ops[k].r, ops[k].x);
    assert ops[..k + 1][..k] == ops[..k];
    var status := Run(cfg, ops[..k + 1], s).status;
    forall i | k < i < n ensures IsUnheard(ops[i], status) { assert IsUnheard(ops[i], Paused); }
    SilentUntilReopened(cfg, ops, k + 1, n, status, s);
  }

  // ----- What the rate limiter is told -----

  function RunRecords(cfg: EngineConfig, id: string, ops: seq<Operation>, s: Conversation): seq<Record> {
    if ops == [] then [] else
      var earlier, op := ops[..|ops| - 1], ops[|ops| - 1];
      RunRecords(cfg, id, earlier, s) + if op.Send? then RecordsOf(cfg, id, Run(cfg, earlier, s), op.r, op.x) else []
  }

  function MessageRecords(records: seq<Record>): nat {
    if records == [] then 0 else
      MessageRecords(records[..|records| - 1]) + if records[|records| - 1].MessageRecord? then 1 else 0
  }

  /** A message is recorded as sent, but its summary fails, and it is never logged. */
  predicate IsLost(cfg: EngineConfig, op: Operation, s: Conversation) {
    op.Send? && Ruling(cfg, s, op.r, op.x).Raised? && Judge(cfg, s, op.r, op.x).Checked?
      && Judge(cfg, s, op.r, op.x).m.status == Delivered
  }

  function LostIn(cfg: EngineConfig, ops: seq<Operation>, s: Conversation): nat {
    if ops == [] then 0 else
      var earlier := ops[..|ops| - 1];
      LostIn(cfg, earlier, s) + if IsLost(cfg, ops[|ops| - 1], Run(cfg, earlier, s)) then 1 else 0
  }

  lemma {:induction false} MessageRecordsAppend(a: seq<Record>, b: seq<Record>)
    ensures MessageRecords(a + b) == MessageRecords(a) + MessageRecords(b)
  {
    if b == [] {
      assert a + b == a;
    } else {
      assert (a + b)[..|a + b| - 1] == a + b[..|b| - 1];
      MessageRecordsAppend(a, b[..|b| - 1]);
    }
  }

  lemma RecordsCount(cfg: EngineConfig, id: string, s: Conversation, r: Request, x: Answers)
    ensures var v := Judge(cfg, s, r, x);
      MessageRecords(RecordsOf(cfg, id, s, r, x)) == if v.Checked? && v.m.status == Delivered then 1 else 0
  {
    var records := RecordsOf(cfg, id, s, r, x);
    var first := [MessageRecord(r.sender, id)];
    MessageRecordsAppend([], first);
    assert [] + first == first && MessageRecords(first) == 1;
    if records != [] {
      assert records == first + records[1..];
      MessageRecordsAppend(first, records[1..]);
    }
  }

  lemma DeliveredCount(cfg: EngineConfig, op: Operation, s: Conversation)
    requires op.Send?
    ensures var v := Judge(cfg, s, op.r, op.x);
      |DeliveredBy(cfg, op, s)| + (if IsLost(cfg, op, s) then 1 else 0)
      == if v.Checked? && v.m.status == Delivered then 1 else 0
  {
    AuditedIsBlocked(cfg, s, op.r, op.x);
  }

  lemma AuditedIsBlocked(cfg: EngineConfig, s: Conversation, r: Request, x: Answers)
    ensures var v := Judge(cfg, s, r, x); v.Audited? ==> v.m.status == Blocked
  {
  }

  /** Over every run the limiter is told of exactly the deliveries and the messages lost to a summarizer
      that throws; so it charges no one for nothing exactly when none is lost. */
  lemma {:induction false} RecordsAreDeliveries(cfg: EngineConfig, id: string, ops: seq<Operation>, s: Conversation)
    ensures MessageRecords(RunRecords(cfg, id, ops, s)) == |Deliveries(cfg, ops, s)| + LostIn(cfg, ops, s)
  {
    if ops != [] {
      var earlier, op := ops[..|ops| - 1], ops[|ops| - 1];
      var before := Run(cfg, earlier, s);
      RecordsAreDeliveries(cfg, id, earlier, s);
      MessageRecordsAppend(RunRecords(cfg, id, earlier, s),
                           if op.Send? then RecordsOf(cfg, id, before, op.r, op.x) else []);
      if op.Send? {
        RecordsCount(cfg, id, before, op.r, op.x);
        DeliveredCount(cfg, op, before);
      }
    }
  }

  const LISTENER := Agent("synth")
  const SPEAKER := Agent("oracle")

  /** An engine that summarizes every message, and turns of a conversation of two agents. */
  const EAGER := EngineConfig(true, 4, 1, 1, false, 0.5, Agent("echo"), Hitl.DEFAULT_CONFIG, BUILTIN_TRIGGERS)
  const TALK := Started([SPEAKER, LISTENER], SPEAKER, 10_000, 1.0)
  const REQUEST := Request(SPEAKER, Some([LISTENER]), "hi", false, false)

  /** Nothing is wrong with the message, but the summarizer throws. */
  function NoSummary(): Answers {
    Answers(None, p => 1.0, false, true, "hi", 0.0, 0, 0, 0, true, p => true, 1, 1.0, "", true)
  }

  lemma NothingMatches()
    ensures ActionOn(EAGER, TALK, NoSummary()) == Continue
  {
    assert MaxScore([]) == 0.0;
    assert !BudgetSpent(EAGER.hitl, SignalsOf(TALK));
    assert MatchedTriggers(EAGER.hitl, EAGER.triggers, SignalsOf(TALK), MessageSignals(0.0, 0, 0, 0, false)) == [];
  }

  lemma SpeakerIsHeard()
    ensures var v := Judge(EAGER, TALK, REQUEST, NoSummary());
      v.Checked? && v.action == Continue && v.m.status == Delivered && v.m.deliveredTo == [LISTENER] && v.m.id == 1
  {
    NothingMatches();
    assert Agents([LISTENER]) == [LISTENER] by { assert [LISTENER][..0] == []; }
  }

  lemma SummaryIsDue()
    ensures var v := Judge(EAGER, TALK, REQUEST, NoSummary());
      v.Checked? && IsSummaryDue(EAGER, Accounted(EAGER, TALK, REQUEST, NoSummary(), v.m, v.action))
  {
    SpeakerIsHeard();
    var m := Judge(EAGER, TALK, REQUEST, NoSummary()).m;
    assert [m][..0] == [] && Uncovered([m], []) == [m];
  }

  /** A message is delivered and recorded, its summary fails, and it is gone from the log: the limiter
      charges the speaker for nothing. */
  lemma ChargedForNothing(id: string)
    ensures var ops := [Send(REQUEST, NoSummary())];
      && RunRecords(EAGER, id, ops, TALK) == [MessageRecord(SPEAKER, id)] && LostIn(EAGER, ops, TALK) == 1
      && Deliveries(EAGER, ops, TALK) == [] && Log(EAGER, ops, TALK) == [] && Run(EAGER, ops, TALK) == TALK
  {
    SpeakerIsHeard();
    SummaryIsDue();
    var ops := [Send(REQUEST, NoSummary())];
    assert ops[..0] == [];
    assert Ruling(EAGER, TALK, REQUEST, NoSummary()) == Raised;
  }

  /** A delivered message from an agent goes to the mediator alone, or to agents that all have a valid
      hand-off and no affinity below the threshold (or include the mediator). */
  lemma DeliveredIsMediated(cfg: EngineConfig, s: Conversation, r: Request, x: Answers, m: Message)
    requires m in Logs(cfg, Send(r, x), s) && m.status == Delivered && Speaks(r.sender)
    ensures m.deliveredTo == [cfg.mediator]
            || forall p :: p in m.deliveredTo && !External(p) ==>
                 x.handoffValid(p) && (x.affinity(p) >= cfg.mediationThreshold || cfg.mediator in m.deliveredTo)
    ensures cfg.enforceTurns && !r.overrideTurn ==> r.sender == s.currentTurn
    ensures s.status == Active && x.rateAllowed && x.structureValid && !Stops(ActionOn(cfg, s, x))
  {
    var to := (if r.to.Some? then r.to else x.route).value;
    if !NeedsMediation(cfg, r, to, x.affinity) {
      assert m.deliveredTo == to;
      forall p | p in to && !External(p)
        ensures x.handoffValid(p) && (x.affinity(p) >= cfg.mediationThreshold || cfg.mediator in to)
      {
        assert p in Agents(to);
      }
    }
  }

  // ----- Concurrent calls -----

  /** The operations of one conversation, in call order. */
  function OpsOf(calls: seq<Lock.Call<Conversation>>, ops: seq<Operation>, id: string): seq<Operation>
    requires |ops| == |calls|
  {
    if calls == [] then [] else
      var n := |calls| - 1;
      OpsOf(calls[..n], ops[..n], id) + if calls[n].conversation == id then [ops[n]] else []
  }

  /** Call `i` of the lock runs operation `i`. */
  ghost predicate Runs(cfg: EngineConfig, calls: seq<Lock.Call<Conversation>>, ops: seq<Operation>) {
    |ops| == |calls| && forall i :: 0 <= i < |ops| ==> RunsAt(cfg, calls[i], ops[i])
  }

  ghost predicate RunsAt(cfg: EngineConfig, call: Lock.Call<Conversation>, op: Operation) {
    forall s :: call.body(s) == Apply(cfg, op, s)
  }

  lemma {:induction false} SerialIsRun(cfg: EngineConfig, calls: seq<Lock.Call<Conversation>>, ops: seq<Operation>,
                                       id: string, s: Conversation)
    requires Runs(cfg, calls, ops)
    ensures Lock.Serial(calls, id, s) == Run(cfg, OpsOf(calls, ops, id), s)
  {
    if calls != [] {
      var n := |calls| - 1;
      forall i | 0 <= i < n ensures RunsAt(cfg, calls[..n][i], ops[..n][i]) { assert RunsAt(cfg, calls[i], ops[i]); }
      SerialIsRun(cfg, calls[..n], ops[..n], id, s);
      var before, earlier := Lock.Serial(calls[..n], id, s), OpsOf(calls[..n], ops[..n], id);
      assert RunsAt(cfg, calls[n], ops[n]);
      if calls[n].conversation == id {
        assert (earlier + [ops[n]])[..|earlier|] == earlier;
        assert calls[n].body(before) == Apply(cfg, ops[n], before);
      } else {
        assert earlier + [] == earlier;
      }
    }
  }

  /** Concurrent calls under the lock, in any interleaving, leave every conversation as if its calls
      had run one by one in call order; so all that holds of runs holds of them. */
  lemma ConcurrentCallsAreARun(cfg: EngineConfig, start: map<string, Conversation>, steps: seq<Lock.Step<Conversation>>,
                               sys: Lock.System<Conversation>, ops: seq<Operation>, id: string)
    requires Lock.RunSteps(start, steps) == Some(sys) && id in start && Runs(cfg, sys.calls, ops)
    requires forall i :: 0 <= i < |sys.calls| ==> sys.calls[i].pc.Over?
    ensures id in sys.store && sys.store[id] == Run(cfg, OpsOf(sys.calls, ops, id), start[id])
    ensures GuardsExhaustion(cfg.triggers) && start[id].consecutiveChallenges <= Limit(cfg) ==>
              sys.store[id].consecutiveChallenges <= Limit(cfg)
    ensures Faithful(cfg, start[id], []) && FreshIds(cfg, OpsOf(sys.calls, ops, id), start[id]) ==>
              Faithful(cfg, sys.store[id], Log(cfg, OpsOf(sys.calls, ops, id), start[id]))
  {
    var mine := OpsOf(sys.calls, ops, id);
    Lock.Serializable(start, steps, sys, id);
    SerialIsRun(cfg, sys.calls, ops, id, start[id]);
    if GuardsExhaustion(cfg.triggers) && start[id].consecutiveChallenges <= Limit(cfg) {
      ChallengesBounded(cfg, mine, start[id]);
    }
    if Faithful(cfg, start[id], []) && FreshIds(cfg, mine, start[id]) { RunFaithful(cfg, mine, start[id]); }
  }
}
