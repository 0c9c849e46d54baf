/** Whether a retry after the advised wait meets the same limit again. */
module RateLimitRetry {
  import opened Wrappers
  import opened RateLimiter
  import opened RateLimitHistory

  // ----- When a full window stops being full -----

  lemma {:induction false} SameFromOldest(ts: seq<int>, cutoff: int, oldest: int)
    requires Sorted(ts) && |From(ts, cutoff)| > 0 && From(ts, cutoff)[0] == oldest
    ensures From(ts, oldest) == From(ts, cutoff)
  {
    var init, last := ts[..|ts| - 1], ts[|ts| - 1];
    assert From(ts, cutoff) == From(init, cutoff) + (if last >= cutoff then [last] else []);
    if From(init, cutoff) == [] {
      assert oldest == last;
      FromIn(ts, cutoff, oldest);
      FromShrinks(init, cutoff, oldest);
    } else {
      SameFromOldest(init, cutoff, oldest);
      FromIn(init, cutoff, oldest);
      assert oldest in init && last >= oldest;
    }
  }

  lemma {:induction false} FromIn(ts: seq<int>, cutoff: int, t: int)
    ensures t in From(ts, cutoff) <==> t in ts && t >= cutoff
  {
    if ts != [] {
      FromIn(ts[..|ts| - 1], cutoff, t);
      assert ts == ts[..|ts| - 1] + [ts[|ts| - 1]];
    }
  }

  lemma {:induction false} FirstLeaves(ts: seq<int>, cutoff: int)
    requires ts != [] && ts[0] < cutoff
    ensures |From(ts, cutoff)| < |ts|
  {
    if |ts| > 1 { FirstLeaves(ts[..|ts| - 1], cutoff); }
  }

  /** A window with no new entries stays as full exactly until its oldest entry leaves. */
  lemma StaysFullIff(ts: seq<int>, windowMs: int, now: int, wait: nat)
    requires Sorted(ts) && CountIn(ts, windowMs, now) > 0
    ensures CountIn(ts, windowMs, now + wait) <= CountIn(ts, windowMs, now)
    ensures CountIn(ts, windowMs, now + wait) == CountIn(ts, windowMs, now)
            <==> wait <= OldestIn(ts, windowMs, now).value + windowMs - now
  {
    var cutoff, later := now - windowMs, now + wait - windowMs;
    var oldest := From(ts, cutoff)[0];
    FromShrinks(ts, cutoff, later);
    if later <= oldest {
      SameFromOldest(ts, cutoff, oldest);
      FromShrinks(ts, later, oldest);
    } else {
      FromFrom(ts, cutoff, later);
      FirstLeaves(From(ts, cutoff), later);
    }
  }

  /** The limits on the speed of messages, with the window, the bound, the least advised wait and the
      backoff of each. */
  predicate IsSpeedLimit(l: LimitType) { !l.ChallengePerHour? && !l.ChallengeCooldown? }

  function WindowOf(l: LimitType): int { if l.AgentPerMinute? || l.ConversationPerMinute? then MINUTE else HOUR }

  function LimitOf(cfg: Config, l: LimitType): int {
    match l
    case AgentPerMinute => AgentMinuteLimit(cfg)
    case AgentPerHour => cfg.agentPerHour
    case ConversationPerMinute => cfg.conversationPerMinute
    case _ => cfg.conversationPerHour
  }

  function LeastWait(l: LimitType): int { if WindowOf(l) == MINUTE then 1_000 else 5_000 }

  function BackoffOf(cfg: Config, l: LimitType): Backoff {
    if l.AgentPerMinute? || l.AgentPerHour? then cfg.backoff else Fixed
  }

  function TimesOf(h: History, c: Call, l: LimitType): seq<int>
    requires !c.Prune?
  {
    if l.AgentPerMinute? || l.AgentPerHour? then AgentTimes(h, c.agent) else ConversationTimes(h, c.conversation)
  }

  predicate IsOver(v: Verdict, l: LimitType) { v.Rejected? && v.limit == l }

  predicate IsFull(cfg: Config, h: History, c: Call, l: LimitType)
    requires !c.Prune?
  {
    CountIn(TimesOf(h, c, l), WindowOf(l), c.at) >= LimitOf(cfg, l)
  }

  /** The limits are looked at in the order minute before hour, agent before conversation. */
  predicate IsFirstFull(cfg: Config, h: History, c: Call, l: LimitType)
    requires !c.Prune?
  {
    IsFull(cfg, h, c, l)
    && match l
       case AgentPerMinute => true
       case AgentPerHour => !IsFull(cfg, h, c, AgentPerMinute)
       case ConversationPerMinute => !IsFull(cfg, h, c, AgentPerMinute) && !IsFull(cfg, h, c, AgentPerHour)
       case _ =>
         !IsFull(cfg, h, c, AgentPerMinute) && !IsFull(cfg, h, c, AgentPerHour)
           && !IsFull(cfg, h, c, ConversationPerMinute)
  }

  /** A check answers with the agent's rejection, or else the conversation's. */
  lemma FirstVerdict(cfg: Config, s: Logs, c: Call)
    requires !c.Prune?
    ensures var v, a := VerdictOn(cfg, s, c), AgentVerdict(cfg, Get(s.agents, c.agent), Rejections(s, c.agent), c.at);
            var k := ConversationVerdict(cfg, Get(s.conversations, c.conversation), c.at);
      if a.Rejected? then v == a else if k.Rejected? then v == k else v.Allowed? || !IsSpeedLimit(v.limit)
  {
  }

  lemma AgentOverIff(cfg: Config, h: History, rejections: nat, c: Call, l: LimitType)
    requires !c.Prune?
    ensures var v := AgentVerdict(cfg, AgentTimes(h, c.agent), rejections, c.at);
      if l.AgentPerMinute? || l.AgentPerHour? then IsOver(v, l) <==> IsFirstFull(cfg, h, c, l)
      else !IsOver(v, l) && (IsFirstFull(cfg, h, c, l) ==> v.Allowed?)
  {
  }

  lemma ConversationOverIff(cfg: Config, h: History, rejections: nat, c: Call, l: LimitType)
    requires !c.Prune? && (l.ConversationPerMinute? || l.ConversationPerHour?)
    ensures var a, v := AgentVerdict(cfg, AgentTimes(h, c.agent), rejections, c.at),
                        ConversationVerdict(cfg, ConversationTimes(h, c.conversation), c.at);
      a.Allowed? && IsOver(v, l) <==> IsFirstFull(cfg, h, c, l)
  {
  }

  lemma OverIff(cfg: Config, calls: seq<Call>, c: Call, l: LimitType)
    requires ClockBy(calls, c.at) && !c.Prune? && IsSpeedLimit(l)
    ensures IsOver(VerdictOn(cfg, RunLogs(cfg, calls), c), l) <==> IsFirstFull(cfg, RunHistory(cfg, calls), c, l)
  {
    var s, h := RunLogs(cfg, calls), RunHistory(cfg, calls);
    IdealAgent(cfg, calls, c.agent, Rejections(s, c.agent), c.at);
    IdealConversation(cfg, calls, c.conversation, c.at);
    FirstVerdict(cfg, s, c);
    AgentOverIff(cfg, h, Rejections(s, c.agent), c, l);
    if l.ConversationPerMinute? || l.ConversationPerHour? { ConversationOverIff(cfg, h, Rejections(s, c.agent), c, l); }
  }

  /** With no new entries, a limit that was not full does not fill. */
  lemma NoneFill(cfg: Config, h: History, c: Call, l: LimitType, wait: nat)
    requires !c.Prune?
    ensures IsFull(cfg, h, Later(c, wait), l) ==> IsFull(cfg, h, c, l)
  {
    FromShrinks(TimesOf(h, c, l), c.at - WindowOf(l), c.at + wait - WindowOf(l));
  }

  lemma NoneFills(cfg: Config, h: History, c: Call, l: LimitType, wait: nat)
    requires !c.Prune? && IsFirstFull(cfg, h, c, l)
    ensures IsFirstFull(cfg, h, Later(c, wait), l) <==> IsFull(cfg, h, Later(c, wait), l)
  {
    NoneFill(cfg, h, c, AgentPerMinute, wait);
    NoneFill(cfg, h, c, AgentPerHour, wait);
    NoneFill(cfg, h, c, ConversationPerMinute, wait);
  }

  /** The wait where the oldest entry is absent, or stamped 0. */
  function Fallback(l: LimitType): int { if WindowOf(l) == MINUTE then 5_000 else 60_000 }

  /** The wait until the oldest entry leaves the window, at least the least wait, times the backoff. */
  function AdvisedWait(cfg: Config, h: History, rejections: nat, c: Call, l: LimitType): int
    requires !c.Prune?
  {
    var base := BaseDelay(OldestOf(h, c, l), WindowOf(l), c.at, Fallback(l));
    BackoffDelay(cfg.(backoff := BackoffOf(cfg, l)), rejections + 1, Max(base, LeastWait(l)))
  }

  lemma AgentWait(cfg: Config, h: History, rejections: nat, c: Call, l: LimitType)
    requires !c.Prune? && IsOver(AgentVerdict(cfg, AgentTimes(h, c.agent), rejections, c.at), l)
    ensures AgentVerdict(cfg, AgentTimes(h, c.agent), rejections, c.at).retryAfterMs
            == AdvisedWait(cfg, h, rejections, c, l)
  {
  }

  lemma ConversationWait(cfg: Config, h: History, rejections: nat, c: Call, l: LimitType)
    requires !c.Prune? && IsOver(ConversationVerdict(cfg, ConversationTimes(h, c.conversation), c.at), l)
    ensures ConversationVerdict(cfg, ConversationTimes(h, c.conversation), c.at).retryAfterMs
            == AdvisedWait(cfg, h, rejections, c, l)
  {
  }

  lemma WaitIsAdvised(cfg: Config, calls: seq<Call>, c: Call, l: LimitType)
    requires ClockBy(calls, c.at) && !c.Prune? && IsSpeedLimit(l) && IsOver(VerdictOn(cfg, RunLogs(cfg, calls), c), l)
    ensures var s := RunLogs(cfg, calls);
      VerdictOn(cfg, s, c).retryAfterMs == AdvisedWait(cfg, RunHistory(cfg, calls), Rejections(s, c.agent), c, l)
  {
    var s, h := RunLogs(cfg, calls), RunHistory(cfg, calls);
    IdealAgent(cfg, calls, c.agent, Rejections(s, c.agent), c.at);
    IdealConversation(cfg, calls, c.conversation, c.at);
    FirstVerdict(cfg, s, c);
    if AgentVerdict(cfg, Get(s.agents, c.agent), Rejections(s, c.agent), c.at).Rejected? {
      AgentWait(cfg, h, Rejections(s, c.agent), c, l);
    } else {
      ConversationWait(cfg, h, Rejections(s, c.agent), c, l);
    }
  }

  lemma WaitIsPositive(cfg: Config, rejections: nat, base: int)
    requires base > 0
    ensures BackoffDelay(cfg, rejections, base) > 0
  {
    PowersGrow(0, rejections);
    Scaled(base, 1, Pow2(rejections));
    Scaled(base, 1, 1 + rejections);
  }

  /** A window within its bound is no fuller than its limit. */
  lemma NeverOverfull(ts: seq<int>, windowMs: int, limit: int, now: int)
    requires Bounded(ts, windowMs, limit) && UpTo(ts, now) && limit > 0
    ensures CountIn(ts, windowMs, now) <= limit
  {
    FromIsWithin(ts, now - windowMs, now);
    assert |Within(ts, now - windowMs, now)| <= limit;
  }

  lemma {:induction false} FromIsWithin(ts: seq<int>, lo: int, hi: int)
    requires UpTo(ts, hi)
    ensures From(ts, lo) == Within(ts, lo, hi)
  {
    if ts != [] {
      assert ts[|ts| - 1] <= hi;
      FromIsWithin(ts[..|ts| - 1], lo, hi);
    }
  }

  function Later(c: Call, wait: int): Call
    requires !c.Prune?
  {
    c.(at := c.at + wait)
  }

  function OldestOf(h: History, c: Call, l: LimitType): Option<int>
    requires !c.Prune?
  {
    OldestIn(TimesOf(h, c, l), WindowOf(l), c.at)
  }

  /** How long after a check the oldest entry stays in the window. */
  function RestOf(h: History, c: Call, l: LimitType): int
    requires !c.Prune?
  {
    if OldestOf(h, c, l).None? then 0 else OldestOf(h, c, l).value + WindowOf(l) - c.at
  }

  lemma StaysOverIff(ts: seq<int>, windowMs: int, limit: int, now: int, wait: nat)
    requires Sorted(ts) && UpTo(ts, now) && Bounded(ts, windowMs, limit) && CountIn(ts, windowMs, now) >= limit > 0
    ensures OldestIn(ts, windowMs, now).Some? && OldestIn(ts, windowMs, now).value <= now
    ensures CountIn(ts, windowMs, now + wait) >= limit <==> wait <= OldestIn(ts, windowMs, now).value + windowMs - now
  {
    NeverOverfull(ts, windowMs, limit, now);
    StaysFullIff(ts, windowMs, now, wait);
    FromIn(ts, now - windowMs, OldestIn(ts, windowMs, now).value);
  }

  lemma TimesInOrder(cfg: Config, calls: seq<Call>, c: Call, l: LimitType)
    requires ClockBy(calls, c.at) && InTurn(calls) && AllBefore(calls, c) && !c.Prune? && IsSpeedLimit(l)
    ensures var ts := TimesOf(RunHistory(cfg, calls), c, l);
      Sorted(ts) && UpTo(ts, c.at) && Bounded(ts, WindowOf(l), LimitOf(cfg, l))
  {
    TimesSorted(cfg, calls);
    TimesUpTo(cfg, calls, c);
    RunIsBounded(cfg, calls, c.agent, c.conversation);
  }

  lemma StaysFirstIff(cfg: Config, h: History, c: Call, l: LimitType, wait: nat)
    requires !c.Prune? && IsFirstFull(cfg, h, c, l)
    requires var ts := TimesOf(h, c, l); Sorted(ts) && UpTo(ts, c.at) && Bounded(ts, WindowOf(l), LimitOf(cfg, l))
    ensures LimitOf(cfg, l) > 0 ==> OldestOf(h, c, l).Some? && RestOf(h, c, l) <= WindowOf(l)
    ensures IsFirstFull(cfg, h, Later(c, wait), l) <==> LimitOf(cfg, l) <= 0 || wait <= RestOf(h, c, l)
  {
    NoneFills(cfg, h, c, l, wait);
    if LimitOf(cfg, l) > 0 { StaysOverIff(TimesOf(h, c, l), WindowOf(l), LimitOf(cfg, l), c.at, wait); }
  }

  /** With no call in between, a retry meets the same limit exactly when its wait was no longer than the
      oldest entry stays in the window. */
  lemma RetryIff(cfg: Config, calls: seq<Call>, c: Call, l: LimitType, wait: nat)
    requires ClockMoves(calls + [c]) && InTurn(calls + [c]) && !c.Prune? && IsSpeedLimit(l)
    requires IsOver(VerdictOn(cfg, RunLogs(cfg, calls), c), l)
    ensures LimitOf(cfg, l) > 0 ==>
              OldestOf(RunHistory(cfg, calls), c, l).Some? && RestOf(RunHistory(cfg, calls), c, l) <= WindowOf(l)
    ensures IsOver(VerdictOn(cfg, RunLogs(cfg, calls + [c]), Later(c, wait)), l)
            <==> LimitOf(cfg, l) <= 0 || wait <= RestOf(RunHistory(cfg, calls), c, l)
  {
    assert (calls + [c])[..|calls|] == calls;
    RejectedLeavesHistory(cfg, calls, c);
    OverIff(cfg, calls, c, l);
    OverIff(cfg, calls + [c], Later(c, wait), l);
    TimesInOrder(cfg, calls, c, l);
    StaysFirstIff(cfg, RunHistory(cfg, calls), c, l, wait);
  }

  lemma RejectedLeavesHistory(cfg: Config, calls: seq<Call>, c: Call)
    requires !c.Prune? && VerdictOn(cfg, RunLogs(cfg, calls), c).Rejected?
    ensures RunHistory(cfg, calls + [c]) == RunHistory(cfg, calls)
  {
    LastMessage(cfg, calls, c);
  }

  /** Whether the advised wait ends while the oldest entry, with `rest` to go, is still in the window. */
  predicate IsShort(backoff: Backoff, rest: int, least: int) {
    match backoff
    case Fixed => rest >= least
    case Linear => false
    case Exponential => rest >= BACKOFF_CAP
  }

  lemma AdviceIsShort(cfg: Config, rejections: nat, rest: int, least: int)
    requires least > 0
    ensures BackoffDelay(cfg, rejections + 1, Max(rest, least)) <= rest <==> IsShort(cfg.backoff, rest, least)
  {
    var base := Max(rest, least);
    PowersGrow(1, rejections + 1);
    Scaled(base, 2, Pow2(rejections + 1));
    Scaled(base, 2, 2 + rejections);
  }

  /** The advice is at fault: the fallback for an oldest entry stamped 0, or else the entry's own rest. */
  predicate IsAdviceShort(cfg: Config, h: History, rejections: nat, c: Call, l: LimitType)
    requires !c.Prune?
  {
    var rest := RestOf(h, c, l);
    if OldestOf(h, c, l) == Some(0)
    then BackoffDelay(cfg.(backoff := BackoffOf(cfg, l)), rejections + 1, Fallback(l)) <= rest
    else IsShort(BackoffOf(cfg, l), rest, LeastWait(l))
  }

  lemma AdviceOf(cfg: Config, h: History, rejections: nat, c: Call, l: LimitType)
    requires !c.Prune?
    ensures AdvisedWait(cfg, h, rejections, c, l) > 0
    ensures OldestOf(h, c, l).Some? ==>
              (AdvisedWait(cfg, h, rejections, c, l) <= RestOf(h, c, l) <==> IsAdviceShort(cfg, h, rejections, c, l))
  {
    var same := cfg.(backoff := BackoffOf(cfg, l));
    var base := BaseDelay(OldestOf(h, c, l), WindowOf(l), c.at, Fallback(l));
    WaitIsPositive(same, rejections + 1, Max(base, LeastWait(l)));
    AdviceIsShort(same, rejections, RestOf(h, c, l), LeastWait(l));
  }

  /** Waiting exactly the advised time: the retry meets the same limit if and only if the advice was short,
      or the limit is not positive. The advice is short with fixed backoff, and for a conversation, when it
      was at least the least wait; never with linear backoff; and with exponential backoff when it was cut to
      the cap, so never within a minute. For an oldest entry stamped 0 it is the fallback that counts. */
  lemma RetryOnAdviceIff(cfg: Config, calls: seq<Call>, c: Call, l: LimitType)
    requires ClockMoves(calls + [c]) && InTurn(calls + [c]) && !c.Prune? && IsSpeedLimit(l)
    requires IsOver(VerdictOn(cfg, RunLogs(cfg, calls), c), l)
    ensures var s, h := RunLogs(cfg, calls), RunHistory(cfg, calls);
            var retry := Later(c, VerdictOn(cfg, s, c).retryAfterMs);
      IsOver(VerdictOn(cfg, RunLogs(cfg, calls + [c]), retry), l)
      <==> LimitOf(cfg, l) <= 0 || IsAdviceShort(cfg, h, Rejections(s, c.agent), c, l)
  {
    assert (calls + [c])[..|calls|] == calls;
    RetryIff(cfg, calls, c, l, 0);
    WaitIsAdvised(cfg, calls, c, l);
    AdviceOf(cfg, RunHistory(cfg, calls), Rejections(RunLogs(cfg, calls), c.agent), c, l);
    RetryIff(cfg, calls, c, l, VerdictOn(cfg, RunLogs(cfg, calls), c).retryAfterMs);
  }

  // ----- Retrying a challenge -----

  /** What a challenge's check answers once no speed limit rejects it, from the stored window of its pair. */
  function PairVerdict(cfg: Config, stored: seq<int>, pair: set<string>, now: int): Verdict {
    ChallengeVerdict(stored, MaxChallenges(cfg, pair), Cooldown(cfg, pair), now)
  }

  function StoredOf(cfg: Config, calls: seq<Call>, pair: set<string>): seq<int> {
    Get(RunLogs(cfg, calls).challenges, pair)
  }

  predicate Challenges(c: Call, pair: set<string>) { !c.Prune? && PairOf(c.agent, c.target) == Some(pair) }

  predicate IsNoneFull(cfg: Config, h: History, c: Call)
    requires !c.Prune?
  {
    !IsFull(cfg, h, c, AgentPerMinute) && !IsFull(cfg, h, c, AgentPerHour)
    && !IsFull(cfg, h, c, ConversationPerMinute) && !IsFull(cfg, h, c, ConversationPerHour)
  }

  lemma SpeedPassedIff(cfg: Config, h: History, rejections: nat, c: Call)
    requires !c.Prune?
    ensures IsNoneFull(cfg, h, c) <==> AgentVerdict(cfg, AgentTimes(h, c.agent), rejections, c.at).Allowed?
                                       && ConversationVerdict(cfg, ConversationTimes(h, c.conversation), c.at).Allowed?
  {
  }

  lemma PairAnswers(cfg: Config, s: Logs, c: Call, pair: set<string>, l: LimitType)
    requires Challenges(c, pair) && !IsSpeedLimit(l)
    ensures var v, p := VerdictOn(cfg, s, c), PairVerdict(cfg, Get(s.challenges, pair), pair, c.at);
      && (IsOver(v, l) <==> AgentVerdict(cfg, Get(s.agents, c.agent), Rejections(s, c.agent), c.at).Allowed?
                            && ConversationVerdict(cfg, Get(s.conversations, c.conversation), c.at).Allowed?
                            && IsOver(p, l))
      && (IsOver(v, l) ==> v.retryAfterMs == p.retryAfterMs)
  {
    assert pair == {c.agent, c.target.value};
  }

  /** The stored windows of the caller answer as its whole history does. */
  predicate IsIdealFor(cfg: Config, s: Logs, h: History, c: Call)
    requires !c.Prune?
  {
    && AgentVerdict(cfg, Get(s.agents, c.agent), Rejections(s, c.agent), c.at)
       == AgentVerdict(cfg, AgentTimes(h, c.agent), Rejections(s, c.agent), c.at)
    && ConversationVerdict(cfg, Get(s.conversations, c.conversation), c.at)
       == ConversationVerdict(cfg, ConversationTimes(h, c.conversation), c.at)
  }

  lemma RunIsIdealFor(cfg: Config, calls: seq<Call>, c: Call)
    requires ClockBy(calls, c.at) && !c.Prune?
    ensures IsIdealFor(cfg, RunLogs(cfg, calls), RunHistory(cfg, calls), c)
  {
    IdealAgent(cfg, calls, c.agent, Rejections(RunLogs(cfg, calls), c.agent), c.at);
    IdealConversation(cfg, calls, c.conversation, c.at);
  }

  lemma PairOverIff(cfg: Config, s: Logs, h: History, c: Call, pair: set<string>, l: LimitType)
    requires Challenges(c, pair) && !IsSpeedLimit(l) && IsIdealFor(cfg, s, h, c)
    ensures var v, p := VerdictOn(cfg, s, c), PairVerdict(cfg, Get(s.challenges, pair), pair, c.at);
      && (IsOver(v, l) <==> IsNoneFull(cfg, h, c) && IsOver(p, l))
      && (IsOver(v, l) ==> v.retryAfterMs == p.retryAfterMs)
  {
    PairAnswers(cfg, s, c, pair, l);
    SpeedPassedIff(cfg, h, Rejections(s, c.agent), c);
  }

  lemma NoneFullLater(cfg: Config, h: History, c: Call, wait: nat)
    requires !c.Prune? && IsNoneFull(cfg, h, c)
    ensures IsNoneFull(cfg, h, Later(c, wait))
  {
    NoneFill(cfg, h, c, AgentPerMinute, wait);
    NoneFill(cfg, h, c, AgentPerHour, wait);
    NoneFill(cfg, h, c, ConversationPerMinute, wait);
    NoneFill(cfg, h, c, ConversationPerHour, wait);
  }

  /** No speed limit rejects a retry that none rejected before, and the pair's window is the same. */
  lemma RetriedOn(cfg: Config, s: Logs, t: Logs, h: History, c: Call, pair: set<string>, l: LimitType, wait: nat)
    requires Challenges(c, pair) && !IsSpeedLimit(l) && IsIdealFor(cfg, s, h, c)
    requires IsIdealFor(cfg, t, h, Later(c, wait))
    requires Get(t.challenges, pair) == Get(s.challenges, pair) && IsOver(VerdictOn(cfg, s, c), l)
    ensures IsOver(VerdictOn(cfg, t, Later(c, wait)), l)
            <==> IsOver(PairVerdict(cfg, Get(s.challenges, pair), pair, c.at + wait), l)
  {
    PairOverIff(cfg, s, h, c, pair, l);
    PairOverIff(cfg, t, h, Later(c, wait), pair, l);
    NoneFullLater(cfg, h, c, wait);
  }

  lemma CooldownPasses(cfg: Config, stored: seq<int>, pair: set<string>, now: int)
    requires IsOver(PairVerdict(cfg, stored, pair, now), ChallengeCooldown)
    ensures var wait := PairVerdict(cfg, stored, pair, now).retryAfterMs;
      wait > 0 && !IsOver(PairVerdict(cfg, stored, pair, now + wait), ChallengeCooldown)
  {
  }

  /** How long the advice for a pair's hourly limit has to fall short of: for an oldest challenge stamped 0
      it is a minute, else a second. */
  function ShortOf(oldest: int): int { if oldest == 0 then 60_000 else 1_000 }

  /** The hourly limit of a pair still holds after the advised wait. */
  predicate IsHourKept(cfg: Config, stored: seq<int>, pair: set<string>, now: int) {
    MaxChallenges(cfg, pair) <= 0
    || (OldestIn(stored, HOUR, now).Some?
        && var oldest := OldestIn(stored, HOUR, now).value; oldest + HOUR - now >= ShortOf(oldest))
  }

  /** The hourly limit of a pair, on what prunes have left of its times. */
  lemma HourPassesIff(cfg: Config, stored: seq<int>, ts: seq<int>, pair: set<string>, now: int)
    requires IsOver(PairVerdict(cfg, stored, pair, now), ChallengePerHour)
    requires Sorted(ts) && UpTo(ts, now) && Bounded(ts, HOUR, MaxChallenges(cfg, pair))
    requires forall later :: later >= now ==> SameIn(stored, ts, later)
    ensures var wait := PairVerdict(cfg, stored, pair, now).retryAfterMs;
      wait > 0
        && (IsOver(PairVerdict(cfg, stored, pair, now + wait), ChallengePerHour)
            <==> IsHourKept(cfg, stored, pair, now))
  {
    var wait, max := PairVerdict(cfg, stored, pair, now).retryAfterMs, MaxChallenges(cfg, pair);
    assert SameIn(stored, ts, now) && SameIn(stored, ts, now + wait);
    assert CountIn(stored, HOUR, now) >= max;
    if max > 0 { StaysOverIff(ts, HOUR, max, now, wait); }
  }

  /** The last hour looks the same in both. */
  predicate SameIn(stored: seq<int>, ts: seq<int>, now: int) {
    CountIn(stored, HOUR, now) == CountIn(ts, HOUR, now) && OldestIn(stored, HOUR, now) == OldestIn(ts, HOUR, now)
  }

  lemma SameHourIn(cfg: Config, calls: seq<Call>, pair: set<string>, now: int)
    requires ClockBy(calls, now)
    ensures SameIn(StoredOf(cfg, calls, pair), ChallengeTimes(RunHistory(cfg, calls), pair), now)
  {
    SameHour(cfg, calls, pair, now);
  }

  lemma PairInOrder(cfg: Config, calls: seq<Call>, c: Call, pair: set<string>)
    requires ClockBy(calls, c.at) && InTurn(calls) && AllBefore(calls, c) && Challenges(c, pair)
    ensures var ts := ChallengeTimes(RunHistory(cfg, calls), pair);
      Sorted(ts) && UpTo(ts, c.at) && Bounded(ts, HOUR, MaxChallenges(cfg, pair))
  {
    TimesSorted(cfg, calls);
    TimesUpTo(cfg, calls, c);
    ChallengesAreBounded(cfg, calls, pair);
  }

  lemma RunHourPassesIff(cfg: Config, calls: seq<Call>, c: Call, pair: set<string>)
    requires ClockBy(calls, c.at) && InTurn(calls) && AllBefore(calls, c) && Challenges(c, pair)
    requires IsOver(PairVerdict(cfg, StoredOf(cfg, calls, pair), pair, c.at), ChallengePerHour)
    ensures var stored := StoredOf(cfg, calls, pair);
            var wait := PairVerdict(cfg, stored, pair, c.at).retryAfterMs;
      wait > 0
      && (IsOver(PairVerdict(cfg, stored, pair, c.at + wait), ChallengePerHour)
          <==> IsHourKept(cfg, stored, pair, c.at))
  {
    forall later | later >= c.at
      ensures SameIn(StoredOf(cfg, calls, pair), ChallengeTimes(RunHistory(cfg, calls), pair), later)
    {
      SameHourIn(cfg, calls, pair, later);
    }
    PairInOrder(cfg, calls, c, pair);
    HourPassesIff(cfg, StoredOf(cfg, calls, pair), ChallengeTimes(RunHistory(cfg, calls), pair), pair, c.at);
  }

  lemma RejectedLeavesPair(cfg: Config, s: Logs, c: Call, pair: set<string>)
    requires Challenges(c, pair) && VerdictOn(cfg, s, c).Rejected?
    ensures Get(After(cfg, s, c).challenges, pair) == Get(s.challenges, pair)
  {
  }

  lemma RetriedPair(cfg: Config, calls: seq<Call>, c: Call, pair: set<string>, l: LimitType, wait: nat)
    requires ClockMoves(calls + [c]) && Challenges(c, pair) && !IsSpeedLimit(l)
    requires IsOver(VerdictOn(cfg, RunLogs(cfg, calls), c), l)
    ensures IsOver(VerdictOn(cfg, RunLogs(cfg, calls + [c]), Later(c, wait)), l)
            <==> IsOver(PairVerdict(cfg, StoredOf(cfg, calls, pair), pair, c.at + wait), l)
  {
    assert (calls + [c])[..|calls|] == calls;
    RejectedLeavesHistory(cfg, calls, c);
    LastLogs(cfg, calls, c);
    RejectedLeavesPair(cfg, RunLogs(cfg, calls), c, pair);
    RunIsIdealFor(cfg, calls, c);
    RunIsIdealFor(cfg, calls + [c], Later(c, wait));
    RetriedOn(cfg, RunLogs(cfg, calls), RunLogs(cfg, calls + [c]), RunHistory(cfg, calls), c, pair, l, wait);
  }

  lemma RejectedPair(cfg: Config, calls: seq<Call>, c: Call, pair: set<string>, l: LimitType)
    requires ClockBy(calls, c.at) && Challenges(c, pair) && !IsSpeedLimit(l)
    requires IsOver(VerdictOn(cfg, RunLogs(cfg, calls), c), l)
    ensures var p := PairVerdict(cfg, StoredOf(cfg, calls, pair), pair, c.at);
      IsOver(p, l) && VerdictOn(cfg, RunLogs(cfg, calls), c).retryAfterMs == p.retryAfterMs
  {
    RunIsIdealFor(cfg, calls, c);
    PairOverIff(cfg, RunLogs(cfg, calls), RunHistory(cfg, calls), c, pair, l);
  }

  /** Waiting out the advised cooldown is always enough for the cooldown. */
  lemma CooldownAdviceSuffices(cfg: Config, calls: seq<Call>, c: Call, pair: set<string>)
    requires ClockMoves(calls + [c]) && Challenges(c, pair)
    requires IsOver(VerdictOn(cfg, RunLogs(cfg, calls), c), ChallengeCooldown)
    ensures var wait := VerdictOn(cfg, RunLogs(cfg, calls), c).retryAfterMs;
      wait > 0 && !IsOver(VerdictOn(cfg, RunLogs(cfg, calls + [c]), Later(c, wait)), ChallengeCooldown)
  {
    assert (calls + [c])[..|calls|] == calls;
    RejectedPair(cfg, calls, c, pair, ChallengeCooldown);
    CooldownPasses(cfg, StoredOf(cfg, calls, pair), pair, c.at);
    RetriedPair(cfg, calls, c, pair, ChallengeCooldown,
                PairVerdict(cfg, StoredOf(cfg, calls, pair), pair, c.at).retryAfterMs);
  }

  /** Waiting the advised time for the hourly limit of a pair: the retry meets it again exactly when the
      oldest challenge of the hour had a second or more to go (a minute, if it is stamped 0), or the limit
      is not positive. */
  lemma ChallengeRetryOnAdviceIff(cfg: Config, calls: seq<Call>, c: Call, pair: set<string>)
    requires ClockMoves(calls + [c]) && InTurn(calls + [c]) && Challenges(c, pair)
    requires IsOver(VerdictOn(cfg, RunLogs(cfg, calls), c), ChallengePerHour)
    ensures var retry := Later(c, VerdictOn(cfg, RunLogs(cfg, calls), c).retryAfterMs);
      IsOver(VerdictOn(cfg, RunLogs(cfg, calls + [c]), retry), ChallengePerHour)
      <==> IsHourKept(cfg, StoredOf(cfg, calls, pair), pair, c.at)
  {
    assert (calls + [c])[..|calls|] == calls;
    RejectedPair(cfg, calls, c, pair, ChallengePerHour);
    RunHourPassesIff(cfg, calls, c, pair);
    RetriedPair(cfg, calls, c, pair, ChallengePerHour,
                PairVerdict(cfg, StoredOf(cfg, calls, pair), pair, c.at).retryAfterMs);
  }
}
