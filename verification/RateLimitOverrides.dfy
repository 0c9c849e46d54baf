/** The limits as they stand in the configuration (lib/rate-limiter.ts:105-109, 253-385): which override counts for
    a pair, and how many messages a burst allows. */
module RateLimitOverrides {
  import opened Wrappers
  import opened RateLimiter
  import opened RateLimitHistory
  import opened RateLimitRetry

  /** The override at `i` is the first one of the pair. */
  predicate IsFirst(cfg: Config, i: nat, pair: set<string>) {
    && i < |cfg.overrides| && cfg.overrides[i].pair == pair
    && forall j :: 0 <= j < i ==> cfg.overrides[j].pair != pair
  }

  predicate HasNone(cfg: Config, pair: set<string>) {
    forall i :: 0 <= i < |cfg.overrides| ==> cfg.overrides[i].pair != pair
  }

  lemma {:induction false} FirstIsFound(os: seq<Override>, i: nat, pair: set<string>)
    requires i < |os| && os[i].pair == pair && forall j :: 0 <= j < i ==> os[j].pair != pair
    ensures FindOverride(os, pair) == Some(os[i])
  {
    if i > 0 { FirstIsFound(os[1..], i - 1, pair); }
  }

  lemma {:induction false} NoneIsFound(os: seq<Override>, pair: set<string>)
    requires forall i :: 0 <= i < |os| ==> os[i].pair != pair
    ensures FindOverride(os, pair) == None
  {
    if os != [] { NoneIsFound(os[1..], pair); }
  }

  /** Over every run, each closed hour holds at most the challenges the first override of the pair allows, or
      the general limit where the pair has none. */
  lemma OverridesBound(cfg: Config, calls: seq<Call>, pair: set<string>)
    requires ClockMoves(calls)
    ensures forall i: nat :: IsFirst(cfg, i, pair) ==>
              Bounded(ChallengeTimes(RunHistory(cfg, calls), pair), HOUR, cfg.overrides[i].maxPerHour)
    ensures HasNone(cfg, pair) ==> Bounded(ChallengeTimes(RunHistory(cfg, calls), pair), HOUR, cfg.challengePerHour)
  {
    ChallengesAreBounded(cfg, calls, pair);
    forall i: nat | IsFirst(cfg, i, pair)
      ensures Bounded(ChallengeTimes(RunHistory(cfg, calls), pair), HOUR, cfg.overrides[i].maxPerHour)
    {
      FirstIsFound(cfg.overrides, i, pair);
    }
    if HasNone(cfg, pair) { NoneIsFound(cfg.overrides, pair); }
  }

  /** The last challenge of the pair was recorded less than `cooldownMs` ago. */
  predicate IsCooling(ts: seq<int>, cooldownMs: int, now: int) {
    ts != [] && ts[|ts| - 1] != 0 && now - ts[|ts| - 1] < cooldownMs
  }

  /** An ideal challenge passes exactly when the message does and the pair's own limits allow it. */
  lemma IdealChallengeIff(cfg: Config, h: History, few: nat, many: nat, c: Call, pair: set<string>)
    requires !c.Prune? && PairOf(c.agent, c.target) == Some(pair)
    ensures var ts := ChallengeTimes(h, pair);
      IdealVerdict(cfg, h, few, c).Allowed?
      <==> && IdealVerdict(cfg, h, many, c.(target := None)).Allowed?
           && !IsCooling(ts, Cooldown(cfg, pair), c.at) && CountIn(ts, HOUR, c.at) < MaxChallenges(cfg, pair)
  {
    assert pair == {c.agent, c.target.value};
    SameAgent(cfg, AgentTimes(h, c.agent), few, many, c.at);
  }

  lemma SameAgent(cfg: Config, ts: seq<int>, few: nat, many: nat, now: int)
    ensures AgentVerdict(cfg, ts, few, now).Allowed? == AgentVerdict(cfg, ts, many, now).Allowed?
  {
  }

  lemma CoolingIsRejected(cfg: Config, calls: seq<Call>, c: Call, pair: set<string>)
    requires ClockBy(calls, c.at) && InTurn(calls) && !c.Prune? && PairOf(c.agent, c.target) == Some(pair)
    requires Cooldown(cfg, pair) <= HOUR + 1
    requires IsCooling(ChallengeTimes(RunHistory(cfg, calls), pair), Cooldown(cfg, pair), c.at)
    ensures VerdictOn(cfg, RunLogs(cfg, calls), c).Rejected?
  {
    assert pair == {c.agent, c.target.value};
    VerdictIsIdeal(cfg, calls, c);
    IdealChallengeIff(cfg, RunHistory(cfg, calls), Rejections(RunLogs(cfg, calls), c.agent), 0, c, pair);
  }

  /** Over every run in turn, a challenge is rejected within the cooldown of the pair's first override, or within
      the general one where the pair has none; a cooldown longer than an hour and a millisecond can be cut short
      by a prune. */
  lemma OverridesCool(cfg: Config, calls: seq<Call>, c: Call, pair: set<string>)
    requires ClockBy(calls, c.at) && InTurn(calls) && !c.Prune? && PairOf(c.agent, c.target) == Some(pair)
    ensures forall i: nat :: IsFirst(cfg, i, pair) && cfg.overrides[i].cooldownMs <= HOUR + 1
                             && IsCooling(ChallengeTimes(RunHistory(cfg, calls), pair), cfg.overrides[i].cooldownMs,
                                          c.at)
                             ==> VerdictOn(cfg, RunLogs(cfg, calls), c).Rejected?
    ensures HasNone(cfg, pair) && cfg.challengeCooldownMs <= HOUR + 1
            && IsCooling(ChallengeTimes(RunHistory(cfg, calls), pair), cfg.challengeCooldownMs, c.at)
            ==> VerdictOn(cfg, RunLogs(cfg, calls), c).Rejected?
  {
    forall i: nat | IsFirst(cfg, i, pair) && cfg.overrides[i].cooldownMs <= HOUR + 1
                    && IsCooling(ChallengeTimes(RunHistory(cfg, calls), pair), cfg.overrides[i].cooldownMs, c.at)
      ensures VerdictOn(cfg, RunLogs(cfg, calls), c).Rejected?
    {
      FirstIsFound(cfg.overrides, i, pair);
      CoolingIsRejected(cfg, calls, c, pair);
    }
    if HasNone(cfg, pair) && cfg.challengeCooldownMs <= HOUR + 1
       && IsCooling(ChallengeTimes(RunHistory(cfg, calls), pair), cfg.challengeCooldownMs, c.at) {
      NoneIsFound(cfg.overrides, pair);
      CoolingIsRejected(cfg, calls, c, pair);
    }
  }

  // ----- When a check passes -----

  /** One more message a minute is within the limit, or within the burst where bursts are allowed. */
  predicate HasMinuteLeft(cfg: Config, sent: nat) {
    if cfg.burstAllowance then (sent + 1) as real <= cfg.agentPerMinute as real * cfg.burstMultiplier
    else sent < cfg.agentPerMinute
  }

  lemma MinuteLeftIff(cfg: Config, sent: nat)
    ensures sent < AgentMinuteLimit(cfg) <==> HasMinuteLeft(cfg, sent)
  {
  }

  function SentSince(ts: seq<int>, start: int): nat { |set i | 0 <= i < |ts| && ts[i] >= start| }

  lemma {:induction false} SentIs(ts: seq<int>, start: int)
    ensures SentSince(ts, start) == |From(ts, start)|
  {
    if ts != [] {
      var n := |ts| - 1;
      SentIs(ts[..n], start);
      var before, now := set i | 0 <= i < n && ts[..n][i] >= start, set i | 0 <= i < |ts| && ts[i] >= start;
      assert now == before + if ts[n] >= start then {n} else {};
    }
  }

  lemma IdealPassesIff(cfg: Config, h: History, rejections: nat, c: Call)
    requires !c.Prune? && c.target.None?
    ensures var a, k := AgentTimes(h, c.agent), ConversationTimes(h, c.conversation);
      IdealVerdict(cfg, h, rejections, c).Allowed?
      <==> && CountIn(a, MINUTE, c.at) < AgentMinuteLimit(cfg) && CountIn(a, HOUR, c.at) < cfg.agentPerHour
           && CountIn(k, MINUTE, c.at) < cfg.conversationPerMinute && CountIn(k, HOUR, c.at) < cfg.conversationPerHour
  {
  }

  /** What the configuration's own numbers say of a message. */
  ghost predicate HasRoomLeft(cfg: Config, a: seq<int>, k: seq<int>, now: int) {
    && HasMinuteLeft(cfg, SentSince(a, now - 60_000)) && SentSince(a, now - 3_600_000) < cfg.agentPerHour
    && SentSince(k, now - 60_000) < cfg.conversationPerMinute && SentSince(k, now - 3_600_000) < cfg.conversationPerHour
  }

  lemma RoomLeftIff(cfg: Config, a: seq<int>, k: seq<int>, now: int)
    ensures HasRoomLeft(cfg, a, k, now)
            <==> && CountIn(a, MINUTE, now) < AgentMinuteLimit(cfg) && CountIn(a, HOUR, now) < cfg.agentPerHour
                 && CountIn(k, MINUTE, now) < cfg.conversationPerMinute
                 && CountIn(k, HOUR, now) < cfg.conversationPerHour
  {
    SentIs(a, now - 60_000);
    SentIs(a, now - 3_600_000);
    SentIs(k, now - 60_000);
    SentIs(k, now - 3_600_000);
    MinuteLeftIff(cfg, SentSince(a, now - 60_000));
  }

  /** A message passes its check exactly when the agent and the conversation have sent too little in the last
      minute and in the last hour, by the numbers in the configuration. */
  lemma PassesIff(cfg: Config, calls: seq<Call>, c: Call)
    requires ClockBy(calls, c.at) && !c.Prune? && c.target.None?
    ensures var h := RunHistory(cfg, calls);
      VerdictOn(cfg, RunLogs(cfg, calls), c).Allowed?
      <==> HasRoomLeft(cfg, AgentTimes(h, c.agent), ConversationTimes(h, c.conversation), c.at)
  {
    var h := RunHistory(cfg, calls);
    VerdictIsIdeal(cfg, calls, c);
    IdealPassesIff(cfg, h, Rejections(RunLogs(cfg, calls), c.agent), c);
    RoomLeftIff(cfg, AgentTimes(h, c.agent), ConversationTimes(h, c.conversation), c.at);
  }

  /** A challenge passes its check exactly when the message does, its pair is not cooling, and the pair has had
      too few challenges in the last hour, by the pair's first override or the general numbers. */
  lemma ChallengePassesIff(cfg: Config, calls: seq<Call>, c: Call, pair: set<string>, most: int, cooldownMs: int)
    requires ClockBy(calls, c.at) && InTurn(calls) && !c.Prune? && PairOf(c.agent, c.target) == Some(pair)
    requires cooldownMs <= HOUR + 1
    requires (exists i: nat :: IsFirst(cfg, i, pair) && most == cfg.overrides[i].maxPerHour
                               && cooldownMs == cfg.overrides[i].cooldownMs)
             || (HasNone(cfg, pair) && most == cfg.challengePerHour && cooldownMs == cfg.challengeCooldownMs)
    ensures var h := RunHistory(cfg, calls);
      VerdictOn(cfg, RunLogs(cfg, calls), c).Allowed?
      <==> && HasRoomLeft(cfg, AgentTimes(h, c.agent), ConversationTimes(h, c.conversation), c.at)
           && !IsCooling(ChallengeTimes(h, pair), cooldownMs, c.at)
           && SentSince(ChallengeTimes(h, pair), c.at - 3_600_000) < most
  {
    var h, rejections := RunHistory(cfg, calls), Rejections(RunLogs(cfg, calls), c.agent);
    NumbersOf(cfg, pair, most, cooldownMs);
    VerdictIsIdeal(cfg, calls, c) by { assert pair == {c.agent, c.target.value}; }
    ChallengeRoomIff(cfg, h, rejections, c, pair);
  }

  lemma ChallengeRoomIff(cfg: Config, h: History, rejections: nat, c: Call, pair: set<string>)
    requires !c.Prune? && PairOf(c.agent, c.target) == Some(pair)
    ensures IdealVerdict(cfg, h, rejections, c).Allowed?
            <==> && HasRoomLeft(cfg, AgentTimes(h, c.agent), ConversationTimes(h, c.conversation), c.at)
                 && !IsCooling(ChallengeTimes(h, pair), Cooldown(cfg, pair), c.at)
                 && SentSince(ChallengeTimes(h, pair), c.at - 3_600_000) < MaxChallenges(cfg, pair)
  {
    IdealChallengeIff(cfg, h, rejections, 0, c, pair);
    IdealPassesIff(cfg, h, 0, c.(target := None));
    RoomLeftIff(cfg, AgentTimes(h, c.agent), ConversationTimes(h, c.conversation), c.at);
    SentIs(ChallengeTimes(h, pair), c.at - 3_600_000);
  }

  lemma NumbersOf(cfg: Config, pair: set<string>, most: int, cooldownMs: int)
    requires (exists i: nat :: IsFirst(cfg, i, pair) && most == cfg.overrides[i].maxPerHour
                               && cooldownMs == cfg.overrides[i].cooldownMs)
             || (HasNone(cfg, pair) && most == cfg.challengePerHour && cooldownMs == cfg.challengeCooldownMs)
    ensures MaxChallenges(cfg, pair) == most && Cooldown(cfg, pair) == cooldownMs
  {
    if HasNone(cfg, pair) {
      NoneIsFound(cfg.overrides, pair);
    } else {
      var i: nat :| IsFirst(cfg, i, pair) && most == cfg.overrides[i].maxPerHour
                    && cooldownMs == cfg.overrides[i].cooldownMs;
      FirstIsFound(cfg.overrides, i, pair);
    }
  }

  // ----- What a check reports -----

  /** What has been sent by the agent, to the conversation and within the pair, at the time of a check. */
  datatype Sent = Sent(agentMinute: nat, agentHour: nat, conversationMinute: nat, conversationHour: nat,
                       challengeHour: nat)

  function SentBy(h: History, c: Call): Sent
    requires !c.Prune?
  {
    var a, k := AgentTimes(h, c.agent), ConversationTimes(h, c.conversation);
    Sent(SentSince(a, c.at - 60_000), SentSince(a, c.at - 3_600_000),
         SentSince(k, c.at - 60_000), SentSince(k, c.at - 3_600_000),
         if c.target.None? then 0 else SentSince(ChallengeTimes(h, {c.agent, c.target.value}), c.at - 3_600_000))
  }

  /** The usage counts that go with a verdict: the agent's own only where the agent is over its limit, the pair's
      only where the challenge is, and the conversation's in every other case. */
  function UsageFor(v: Verdict, sent: Sent): Usage {
    if v.Rejected? && v.limit in {AgentPerMinute, AgentPerHour} then
      Usage(sent.agentMinute, sent.agentHour, None, None, None)
    else
      Usage(0, 0, Some(sent.conversationMinute), Some(sent.conversationHour),
            if v.Rejected? && v.limit in {ChallengePerHour, ChallengeCooldown} then Some(sent.challengeHour) else None)
  }

  /** The first limit that is reached: minute before hour, agent before conversation before challenge, and the
      cooldown before the pair's hour. */
  predicate IsFirstReached(cfg: Config, limit: LimitType, sent: Sent, cooling: bool, most: int) {
    var agentOver := !HasMinuteLeft(cfg, sent.agentMinute) || sent.agentHour >= cfg.agentPerHour;
    var conversationOver := sent.conversationMinute >= cfg.conversationPerMinute
                            || sent.conversationHour >= cfg.conversationPerHour;
    match limit
    case AgentPerMinute => !HasMinuteLeft(cfg, sent.agentMinute)
    case AgentPerHour => HasMinuteLeft(cfg, sent.agentMinute) && sent.agentHour >= cfg.agentPerHour
    case ConversationPerMinute => !agentOver && sent.conversationMinute >= cfg.conversationPerMinute
    case ConversationPerHour =>
      !agentOver && sent.conversationMinute < cfg.conversationPerMinute
      && sent.conversationHour >= cfg.conversationPerHour
    case ChallengeCooldown => !agentOver && !conversationOver && cooling
    case ChallengePerHour => !agentOver && !conversationOver && !cooling && sent.challengeHour >= most
  }

  lemma AgentReports(cfg: Config, a: seq<int>, rejections: nat, now: int)
    ensures var v, minute, hour := AgentVerdict(cfg, a, rejections, now), SentSince(a, now - 60_000),
                                   SentSince(a, now - 3_600_000);
      && v.usage == Usage(minute, hour, None, None, None)
      && (v.Rejected? <==> !HasMinuteLeft(cfg, minute) || hour >= cfg.agentPerHour)
      && (v.Rejected? ==> v.limit == if !HasMinuteLeft(cfg, minute) then AgentPerMinute else AgentPerHour)
  {
    SentIs(a, now - 60_000);
    SentIs(a, now - 3_600_000);
    MinuteLeftIff(cfg, SentSince(a, now - 60_000));
  }

  lemma ConversationReports(cfg: Config, k: seq<int>, now: int)
    ensures var v, minute, hour := ConversationVerdict(cfg, k, now), SentSince(k, now - 60_000),
                                   SentSince(k, now - 3_600_000);
      && v.usage == Usage(0, 0, Some(minute), Some(hour), None)
      && (v.Rejected? <==> minute >= cfg.conversationPerMinute || hour >= cfg.conversationPerHour)
      && (v.Rejected? ==>
            v.limit == if minute >= cfg.conversationPerMinute then ConversationPerMinute else ConversationPerHour)
  {
    SentIs(k, now - 60_000);
    SentIs(k, now - 3_600_000);
  }

  lemma ChallengeReports(ts: seq<int>, most: int, cooldownMs: int, now: int)
    ensures var v, hour := ChallengeVerdict(ts, most, cooldownMs, now), SentSince(ts, now - 3_600_000);
      && v.usage.challengeHour == Some(hour)
      && (v.Rejected? <==> IsCooling(ts, cooldownMs, now) || hour >= most)
      && (v.Rejected? ==> v.limit == if IsCooling(ts, cooldownMs, now) then ChallengeCooldown else ChallengePerHour)
  {
    SentIs(ts, now - 3_600_000);
  }

  lemma IdealReports(cfg: Config, h: History, rejections: nat, c: Call, pair: set<string>)
    requires !c.Prune? && (c.target.Some? ==> pair == {c.agent, c.target.value})
    ensures var v, sent := IdealVerdict(cfg, h, rejections, c), SentBy(h, c);
      && v.usage == UsageFor(v, sent)
      && (v.Rejected? && v.limit in {ChallengeCooldown, ChallengePerHour} ==> c.target.Some?)
      && (v.Rejected? ==> IsFirstReached(cfg, v.limit, sent,
                                         IsCooling(ChallengeTimes(h, pair), Cooldown(cfg, pair), c.at),
                                         MaxChallenges(cfg, pair)))
  {
    AgentReports(cfg, AgentTimes(h, c.agent), rejections, c.at);
    ConversationReports(cfg, ConversationTimes(h, c.conversation), c.at);
    if c.target.Some? {
      ChallengeReports(ChallengeTimes(h, pair), MaxChallenges(cfg, pair), Cooldown(cfg, pair), c.at);
    }
  }

  /** A rejection names the first limit that is reached, and every verdict comes with the counts that belong to it. */
  lemma ReportsIdeal(cfg: Config, calls: seq<Call>, c: Call, pair: set<string>, most: int, cooldownMs: int)
    requires ClockBy(calls, c.at) && InTurn(calls) && !c.Prune?
    requires (c.target.Some? ==> pair == {c.agent, c.target.value})
    requires cooldownMs <= HOUR + 1
    requires (exists i: nat :: IsFirst(cfg, i, pair) && most == cfg.overrides[i].maxPerHour
                               && cooldownMs == cfg.overrides[i].cooldownMs)
             || (HasNone(cfg, pair) && most == cfg.challengePerHour && cooldownMs == cfg.challengeCooldownMs)
    ensures var v, h := VerdictOn(cfg, RunLogs(cfg, calls), c), RunHistory(cfg, calls);
      && v.usage == UsageFor(v, SentBy(h, c))
      && (v.Rejected? ==> IsFirstReached(cfg, v.limit, SentBy(h, c),
                                         IsCooling(ChallengeTimes(h, pair), cooldownMs, c.at), most))
  {
    NumbersOf(cfg, pair, most, cooldownMs);
    VerdictIsIdeal(cfg, calls, c);
    IdealReports(cfg, RunHistory(cfg, calls), Rejections(RunLogs(cfg, calls), c.agent), c, pair);
  }

  // ----- How long the advised wait is -----

  /** The wait starts at the base delay; with each rejection in a row it stays, grows by the base, or doubles up
      to five minutes. */
  lemma BackoffSteps(cfg: Config, rejections: nat, base: nat)
    ensures cfg.backoff == Fixed ==> BackoffDelay(cfg, rejections, base) == base
    ensures cfg.backoff == Linear ==>
              BackoffDelay(cfg, 0, base) == base
              && BackoffDelay(cfg, rejections + 1, base) == BackoffDelay(cfg, rejections, base) + base
    ensures cfg.backoff == Exponential ==>
              BackoffDelay(cfg, 0, base) == Least(base, 300_000)
              && BackoffDelay(cfg, rejections + 1, base) == Least(2 * BackoffDelay(cfg, rejections, base), 300_000)
  {
    assert base * Pow2(rejections + 1) == 2 * (base * Pow2(rejections));
    assert base * (1 + (rejections + 1)) == base * (1 + rejections) + base;
    assert base * Pow2(0) == base && base * (1 + 0) == base;
  }

  function Least(a: int, b: int): int { if a < b then a else b }

  /** The agent's rejections in a row at the end of a run: those by its own limits, since the last check of
      the agent they let through. */
  function Streak(cfg: Config, calls: seq<Call>, agent: string): nat {
    if calls == [] then 0 else
      var before, c := calls[..|calls| - 1], calls[|calls| - 1];
      if c.Prune? || c.agent != agent then Streak(cfg, before, agent)
      else if IsAgentLimit(VerdictOn(cfg, RunLogs(cfg, before), c)) then Streak(cfg, before, agent) + 1
      else 0
  }

  lemma {:induction false} RejectionsAreStreak(cfg: Config, calls: seq<Call>, agent: string)
    ensures Rejections(RunLogs(cfg, calls), agent) == Streak(cfg, calls, agent)
  {
    if calls != [] {
      var before, c := calls[..|calls| - 1], calls[|calls| - 1];
      RejectionsAreStreak(cfg, before, agent);
      if !c.Prune? { RejectionsAfter(cfg, RunLogs(cfg, before), c); }
    }
  }
}
