/** Sliding-window rate limiting (lib/rate-limiter.ts): the limiter as a class over shared windows, its
    behaviour as functions on logs, and what follows for every history of calls. */
module RateLimiter {
  import opened Wrappers

  const MINUTE := 60_000
  const HOUR := 3_600_000
  const BACKOFF_CAP := 300_000

  // ----- Windows as sequences of timestamps -----

  /** The timestamps at or after `cutoff`, in order. */
  function From(ts: seq<int>, cutoff: int): (r: seq<int>)
    ensures |r| <= |ts|
  {
    if ts == [] then [] else
      var last, rest := ts[|ts| - 1], From(ts[..|ts| - 1], cutoff);
      if last >= cutoff then rest + [last] else rest
  }

  function CountIn(ts: seq<int>, windowMs: int, now: int): nat { |From(ts, now - windowMs)| }

  function OldestIn(ts: seq<int>, windowMs: int, now: int): Option<int> {
    var inWindow := From(ts, now - windowMs);
    if |inWindow| > 0 then Some(inWindow[0]) else None
  }

  function Latest(ts: seq<int>): Option<int> {
    if |ts| > 0 then Some(ts[|ts| - 1]) else None
  }

  /** What stays is selected by position: exactly the entries at or after the cutoff, in their order. */
  lemma {:induction false} FromSelects(ts: seq<int>, cutoff: int) returns (kept: seq<nat>)
    ensures |kept| == |From(ts, cutoff)|
    ensures forall k :: 0 <= k < |kept| ==> kept[k] < |ts| && From(ts, cutoff)[k] == ts[kept[k]]
    ensures forall j, k :: 0 <= j < k < |kept| ==> kept[j] < kept[k]
    ensures forall i :: 0 <= i < |ts| ==> (ts[i] >= cutoff <==> i in kept)
  {
    if ts == [] {
      kept := [];
    } else {
      var n := |ts| - 1;
      kept := FromSelects(ts[..n], cutoff);
      if ts[n] >= cutoff { kept := kept + [n]; }
    }
  }

  lemma FromAppend(ts: seq<int>, t: int, cutoff: int)
    ensures From(ts + [t], cutoff) == From(ts, cutoff) + (if t >= cutoff then [t] else [])
  {
    assert (ts + [t])[..|ts|] == ts;
  }

  lemma {:induction false} FromFrom(ts: seq<int>, c: int, d: int)
    requires c <= d
    ensures From(From(ts, c), d) == From(ts, d)
  {
    if ts != [] {
      var init, last := ts[..|ts| - 1], ts[|ts| - 1];
      FromFrom(init, c, d);
      if last >= c { FromAppend(From(init, c), last, d); }
    }
  }

  lemma {:induction false} FromShrinks(ts: seq<int>, c: int, d: int)
    requires c <= d
    ensures |From(ts, d)| <= |From(ts, c)|
  {
    if ts != [] { FromShrinks(ts[..|ts| - 1], c, d); }
  }

  class SlidingWindow {
    var timestamps: seq<int>

    constructor ()
      ensures timestamps == []
    {
      timestamps := [];
    }

    method Record(ts: int)
      modifies this
      ensures timestamps == old(timestamps) + [ts]
    {
      timestamps := timestamps + [ts];
    }

    method Prune(olderThan: int)
      modifies this
      ensures timestamps == From(old(timestamps), olderThan)
    {
      timestamps := From(timestamps, olderThan);
    }
  }

  // ----- Configuration and verdicts -----

  datatype Backoff = Fixed | Linear | Exponential

  datatype Override = Override(pair: set<string>, maxPerHour: int, cooldownMs: int)

  datatype Config = Config(agentPerMinute: int, agentPerHour: int, conversationPerMinute: int, conversationPerHour: int,
                           challengePerHour: int, challengeCooldownMs: int, backoff: Backoff,
                           burstAllowance: bool, burstMultiplier: real, overrides: seq<Override>)

  const DEFAULT_CONFIG := Config(10, 120, 30, 300, 5, 600_000, Exponential, true, 1.5,
    [Override({"oracle", "synth"}, 5, 600_000), Override({"sentinel", "atlas"}, 3, 900_000),
     Override({"verifier", "synth"}, 4, 720_000)])

  datatype LimitType = AgentPerMinute | AgentPerHour | ConversationPerMinute | ConversationPerHour
                     | ChallengePerHour | ChallengeCooldown

  datatype Usage = Usage(agentMinute: nat, agentHour: nat, conversationMinute: Option<nat>,
                         conversationHour: Option<nat>,
                         challengeHour: Option<nat>)

  datatype Verdict = Allowed(usage: Usage) | Rejected(limit: LimitType, retryAfterMs: int, usage: Usage)

  function AgentMinuteLimit(cfg: Config): int {
    if cfg.burstAllowance then (cfg.agentPerMinute as real * cfg.burstMultiplier).Floor else cfg.agentPerMinute
  }

  function Max(a: int, b: int): int { if a < b then b else a }

  function Pow2(n: nat): nat { if n == 0 then 1 else 2 * Pow2(n - 1) }

  function BackoffDelay(cfg: Config, rejections: nat, base: int): int {
    match cfg.backoff
    case Fixed => base
    case Linear => base * (1 + rejections)
    case Exponential => if base * Pow2(rejections) < BACKOFF_CAP then base * Pow2(rejections) else BACKOFF_CAP
  }

  lemma {:induction false} PowersGrow(m: nat, n: nat)
    requires m <= n
    ensures 1 <= Pow2(m) <= Pow2(n)
  {
    if m < n { PowersGrow(m, n - 1); } else if m > 0 { PowersGrow(m - 1, n - 1); }
  }

  /** The advised wait never shrinks with more rejections, nor below the base delay unless that is over
      the cap of exponential backoff, which bounds it. */
  lemma BackoffGrows(cfg: Config, few: nat, many: nat, base: nat)
    requires few <= many
    ensures BackoffDelay(cfg, few, base) <= BackoffDelay(cfg, many, base)
    ensures cfg.backoff == Exponential ==> BackoffDelay(cfg, many, base) <= BACKOFF_CAP
    ensures (cfg.backoff == Exponential && base > BACKOFF_CAP) || base <= BackoffDelay(cfg, few, base)
  {
    PowersGrow(few, many);
    PowersGrow(0, few);
    Scaled(base, 1, Pow2(few));
    Scaled(base, Pow2(few), Pow2(many));
    Scaled(base, 1, 1 + few);
    Scaled(base, 1 + few, 1 + many);
  }

  lemma Scaled(base: nat, a: nat, b: nat)
    requires a <= b
    ensures base * a <= base * b
  {
  }

  /** The wait until the oldest entry leaves the window; a timestamp of 0 counts as absent. */
  function BaseDelay(oldest: Option<int>, windowMs: int, now: int, fallback: int): int {
    if oldest.Some? && oldest.value != 0 then oldest.value + windowMs - now else fallback
  }

  /** Everything the limiter remembers. */
  datatype Logs = Logs(agents: map<string, seq<int>>, conversations: map<string, seq<int>>,
                       challenges: map<set<string>, seq<int>>, rejections: map<string, nat>)

  function Get<K>(m: map<K, seq<int>>, k: K): seq<int> { if k in m then m[k] else [] }

  function Touch<K>(m: map<K, seq<int>>, k: K): map<K, seq<int>> { m[k := Get(m, k)] }

  function Rejections(s: Logs, agent: string): nat { if agent in s.rejections then s.rejections[agent] else 0 }

  function AgentVerdict(cfg: Config, ts: seq<int>, rejections: nat, now: int): Verdict {
    var minute, hour := CountIn(ts, MINUTE, now), CountIn(ts, HOUR, now);
    var usage := Usage(minute, hour, None, None, None);
    if minute >= AgentMinuteLimit(cfg) then
      Rejected(AgentPerMinute,
               BackoffDelay(cfg, rejections + 1, Max(BaseDelay(OldestIn(ts, MINUTE, now), MINUTE, now, 5_000), 1_000)),
               usage)
    else if hour >= cfg.agentPerHour then
      Rejected(AgentPerHour,
               BackoffDelay(cfg, rejections + 1, Max(BaseDelay(OldestIn(ts, HOUR, now), HOUR, now, 60_000), 5_000)),
               usage)
    else Allowed(usage)
  }

  function ConversationVerdict(cfg: Config, ts: seq<int>, now: int): Verdict {
    var minute, hour := CountIn(ts, MINUTE, now), CountIn(ts, HOUR, now);
    var usage := Usage(0, 0, Some(minute), Some(hour), None);
    if minute >= cfg.conversationPerMinute then
      Rejected(ConversationPerMinute, Max(BaseDelay(OldestIn(ts, MINUTE, now), MINUTE, now, 5_000), 1_000), usage)
    else if hour >= cfg.conversationPerHour then
      Rejected(ConversationPerHour, Max(BaseDelay(OldestIn(ts, HOUR, now), HOUR, now, 60_000), 5_000), usage)
    else Allowed(usage)
  }

  function FindOverride(os: seq<Override>, pair: set<string>): Option<Override> {
    if os == [] then None else if os[0].pair == pair then Some(os[0]) else FindOverride(os[1..], pair)
  }

  function MaxChallenges(cfg: Config, pair: set<string>): int {
    var o := FindOverride(cfg.overrides, pair);
    if o.Some? then o.value.maxPerHour else cfg.challengePerHour
  }

  function Cooldown(cfg: Config, pair: set<string>): int {
    var o := FindOverride(cfg.overrides, pair);
    if o.Some? then o.value.cooldownMs else cfg.challengeCooldownMs
  }

  function ChallengeVerdict(ts: seq<int>, maxPerHour: int, cooldownMs: int, now: int): Verdict {
    var latest, hour := Latest(ts), CountIn(ts, HOUR, now);
    var usage := Usage(0, 0, None, None, Some(hour));
    if latest.Some? && latest.value != 0 && now - latest.value < cooldownMs then
      Rejected(ChallengeCooldown, cooldownMs - (now - latest.value), usage)
    else if hour >= maxPerHour then
      Rejected(ChallengePerHour, Max(BaseDelay(OldestIn(ts, HOUR, now), HOUR, now, 60_000), 1_000), usage)
    else Allowed(usage)
  }

  /** checkAll merges the reports left to right, so the conversation's zero agent counts win. */
  function WithChallenge(u: Usage, hour: Option<nat>): Usage { u.(challengeHour := hour) }

  /** The verdict of checkAll from the three windows it looks at; `pair` is the challenged pair, if any. */
  function MessageVerdict(cfg: Config, agentTs: seq<int>, rejections: nat, conversationTs: seq<int>,
                          challengeTs: seq<int>,
                          pair: Option<set<string>>, now: int): Verdict
  {
    var a := AgentVerdict(cfg, agentTs, rejections, now);
    if a.Rejected? then a else
      var c := ConversationVerdict(cfg, conversationTs, now);
      if c.Rejected? then c else
        if pair.None? then Allowed(c.usage) else
          var h := ChallengeVerdict(challengeTs, MaxChallenges(cfg, pair.value), Cooldown(cfg, pair.value), now);
          if h.Rejected? then Rejected(h.limit, h.retryAfterMs, WithChallenge(c.usage, h.usage.challengeHour))
          else Allowed(c.usage)
  }

  /** The unordered pair a challenge is counted under. */
  function PairOf(agent: string, target: Option<string>): Option<set<string>> {
    if target.None? then None else Some({agent, target.value})
  }

  function CheckVerdict(cfg: Config, s: Logs, agent: string, conversation: string, target: Option<string>,
                        now: int): Verdict {
    MessageVerdict(cfg, Get(s.agents, agent), Rejections(s, agent), Get(s.conversations, conversation),
                   if target.None? then [] else Get(s.challenges, {agent, target.value}), PairOf(agent, target), now)
  }

  function Checked(cfg: Config, s: Logs, agent: string, conversation: string, target: Option<string>, now: int): Logs {
    var a := AgentVerdict(cfg, Get(s.agents, agent), Rejections(s, agent), now);
    var s1 := s.(agents := Touch(s.agents, agent),
                 rejections := if a.Rejected? then s.rejections[agent := Rejections(s, agent) + 1]
                               else s.rejections - {agent});
    if a.Rejected? then s1 else
      var s2 := s1.(conversations := Touch(s.conversations, conversation));
      if ConversationVerdict(cfg, Get(s.conversations, conversation), now).Rejected? || target.None? then s2
      else s2.(challenges := Touch(s.challenges, {agent, target.value}))
  }

  function Recorded(s: Logs, agent: string, conversation: string, now: int): Logs {
    s.(agents := s.agents[agent := Get(s.agents, agent) + [now]],
       conversations := s.conversations[conversation := Get(s.conversations, conversation) + [now]])
  }

  function ChallengeRecorded(s: Logs, pair: set<string>, now: int): Logs {
    s.(challenges := s.challenges[pair := Get(s.challenges, pair) + [now]])
  }

  function PruneAll<K>(m: map<K, seq<int>>, cutoff: int): map<K, seq<int>> {
    map k | k in m :: From(m[k], cutoff)
  }

  function Pruned(s: Logs, now: int): Logs {
    s.(agents := PruneAll(s.agents, now - HOUR), conversations := PruneAll(s.conversations, now - HOUR),
       challenges := PruneAll(s.challenges, now - HOUR))
  }

  // ----- The limiter -----

  ghost predicate Distinct<K(!new)>(m: map<K, SlidingWindow>) {
    forall j, k :: j in m && k in m && j != k ==> m[j] != m[k]
  }

  ghost function Contents<K>(m: map<K, SlidingWindow>): map<K, seq<int>>
    reads m.Values
  {
    map k | k in m :: m[k].timestamps
  }

  method PruneWindows<K(==, !new)>(m: map<K, SlidingWindow>, cutoff: int)
    requires Distinct(m)
    modifies m.Values
    ensures Contents(m) == PruneAll(old(Contents(m)), cutoff)
  {
    var keys := m.Keys;
    while keys != {}
      invariant keys <= m.Keys
      invariant forall k ::
                  k in m ==>
                    m[k].timestamps == if k in keys then old(m[k].timestamps) else From(old(m[k].timestamps), cutoff)
      decreases keys
    {
      var k :| k in keys;
      m[k].Prune(cutoff);
      keys := keys - {k};
    }
  }

  /** The window kept for `k`, created on first use. */
  method WindowFor<K(==, !new)>(m0: map<K, SlidingWindow>, k: K) returns (m: map<K, SlidingWindow>, w: SlidingWindow)
    requires Distinct(m0)
    ensures Distinct(m) && k in m && w == m[k] && m.Keys == m0.Keys + {k}
    ensures forall j :: j in m0 ==> m[j] == m0[j]
    ensures k !in m0 ==> fresh(w)
    ensures Contents(m) == Touch(old(Contents(m0)), k)
  {
    if k in m0 {
      m, w := m0, m0[k];
    } else {
      w := new SlidingWindow();
      m := m0[k := w];
    }
  }

  method RecordIn<K(==, !new)>(m: map<K, SlidingWindow>, k: K, now: int)
    requires Distinct(m) && k in m
    modifies m[k]
    ensures Contents(m) == old(Contents(m))[k := old(Contents(m))[k] + [now]]
  {
    m[k].Record(now);
  }

  class RateLimiter {
    const cfg: Config
    var agentWindows: map<string, SlidingWindow>
    var conversationWindows: map<string, SlidingWindow>
    var challengeWindows: map<set<string>, SlidingWindow>
    var rejectionCounts: map<string, nat>

    ghost predicate Valid()
      reads this
    {
      && Distinct(agentWindows) && Distinct(conversationWindows) && Distinct(challengeWindows)
      && agentWindows.Values !! conversationWindows.Values
      && agentWindows.Values !! challengeWindows.Values
      && conversationWindows.Values !! challengeWindows.Values
    }

    ghost function View(): Logs
      reads this, agentWindows.Values, conversationWindows.Values, challengeWindows.Values
    {
      Logs(Contents(agentWindows), Contents(conversationWindows), Contents(challengeWindows), rejectionCounts)
    }

    constructor (cfg: Config)
      ensures Valid() && this.cfg == cfg && View() == Logs(map[], map[], map[], map[])
    {
      this.cfg := cfg;
      agentWindows, conversationWindows, challengeWindows, rejectionCounts := map[], map[], map[], map[];
    }

    method GetAgentWindow(agent: string) returns (w: SlidingWindow)
      requires Valid()
      modifies this`agentWindows
      ensures Valid() && agent in agentWindows && w == agentWindows[agent]
      ensures w in old(agentWindows.Values) || fresh(w)
      ensures w.timestamps == Get(old(View()).agents, agent)
      ensures View() == old(View()).(agents := Touch(old(View()).agents, agent))
    {
      agentWindows, w := WindowFor(agentWindows, agent);
      assert Contents(agentWindows)[agent] == w.timestamps;
    }

    method GetConversationWindow(conversation: string) returns (w: SlidingWindow)
      requires Valid()
      modifies this`conversationWindows
      ensures Valid() && conversation in conversationWindows && w == conversationWindows[conversation]
      ensures w in old(conversationWindows.Values) || fresh(w)
      ensures w.timestamps == Get(old(View()).conversations, conversation)
      ensures View() == old(View()).(conversations := Touch(old(View()).conversations, conversation))
    {
      conversationWindows, w := WindowFor(conversationWindows, conversation);
      assert Contents(conversationWindows)[conversation] == w.timestamps;
    }

    method GetChallengeWindow(pair: set<string>) returns (w: SlidingWindow)
      requires Valid()
      modifies this`challengeWindows
      ensures Valid() && pair in challengeWindows && w == challengeWindows[pair]
      ensures w in old(challengeWindows.Values) || fresh(w)
      ensures w.timestamps == Get(old(View()).challenges, pair)
      ensures View() == old(View()).(challenges := Touch(old(View()).challenges, pair))
    {
      challengeWindows, w := WindowFor(challengeWindows, pair);
      assert Contents(challengeWindows)[pair] == w.timestamps;
    }

    method CheckAgentLimit(agent: string, now: int) returns (v: Verdict)
      requires Valid()
      modifies this`agentWindows, this`rejectionCounts
      ensures Valid()
      ensures v == AgentVerdict(cfg, Get(old(View()).agents, agent), Rejections(old(View()), agent), now)
      ensures View() == old(View()).(agents := Touch(old(View()).agents, agent),
                rejections := if v.Rejected? then old(View()).rejections[agent := Rejections(old(View()), agent) + 1]
                              else old(View()).rejections - {agent})
    {
      var w := GetAgentWindow(agent);
      var rejections := if agent in rejectionCounts then rejectionCounts[agent] else 0;
      v := AgentVerdict(cfg, w.timestamps, rejections, now);
      CountRejection(agent, v.Rejected?);
    }

    method CountRejection(agent: string, rejected: bool)
      requires Valid()
      modifies this`rejectionCounts
      ensures Valid()
      ensures View() == old(View()).(rejections :=
                if rejected then old(View()).rejections[agent := Rejections(old(View()), agent) + 1]
                else old(View()).rejections - {agent})
    {
      if rejected {
        rejectionCounts := rejectionCounts[agent := (if agent in rejectionCounts then rejectionCounts[agent] else 0)
                                           + 1];
      } else {
        rejectionCounts := rejectionCounts - {agent};
      }
    }

    method CheckConversationLimit(conversation: string, now: int) returns (v: Verdict)
      requires Valid()
      modifies this`conversationWindows
      ensures Valid()
      ensures v == ConversationVerdict(cfg, Get(old(View()).conversations, conversation), now)
      ensures View() == old(View()).(conversations := Touch(old(View()).conversations, conversation))
    {
      var w := GetConversationWindow(conversation);
      v := ConversationVerdict(cfg, w.timestamps, now);
    }

    method CheckChallengeLimit(pair: set<string>, now: int) returns (v: Verdict)
      requires Valid()
      modifies this`challengeWindows
      ensures Valid()
      ensures v
              == ChallengeVerdict(Get(old(View()).challenges, pair), MaxChallenges(cfg, pair), Cooldown(cfg, pair), now)
      ensures View() == old(View()).(challenges := Touch(old(View()).challenges, pair))
    {
      var w := GetChallengeWindow(pair);
      v := ChallengeVerdict(w.timestamps, MaxChallenges(cfg, pair), Cooldown(cfg, pair), now);
    }

    method CheckAll(agent: string, conversation: string, target: Option<string>, now: int) returns (v: Verdict)
      requires Valid()
      modifies this
      ensures Valid()
      ensures v == CheckVerdict(cfg, old(View()), agent, conversation, target, now)
      ensures View() == Checked(cfg, old(View()), agent, conversation, target, now)
    {
      v := CheckAgentLimit(agent, now);
      if v.Rejected? { return; }
      v := CheckConversationLimit(conversation, now);
      if v.Rejected? { return; }
      if target.Some? {
        var h := CheckChallengeLimit({agent, target.value}, now);
        if h.Rejected? { v := Rejected(h.limit, h.retryAfterMs, WithChallenge(v.usage, h.usage.challengeHour)); }
      }
    }

    method RecordForAgent(agent: string, now: int)
      requires Valid()
      modifies this`agentWindows, agentWindows.Values
      ensures Valid()
      ensures View() == old(View()).(agents := old(View()).agents[agent := Get(old(View()).agents, agent) + [now]])
    {
      var w := GetAgentWindow(agent);
      RecordIn(agentWindows, agent, now);
    }

    method RecordForConversation(conversation: string, now: int)
      requires Valid()
      modifies this`conversationWindows, conversationWindows.Values
      ensures Valid()
      ensures View() == old(View()).(conversations :=
                old(View()).conversations[conversation := Get(old(View()).conversations, conversation) + [now]])
    {
      var w := GetConversationWindow(conversation);
      RecordIn(conversationWindows, conversation, now);
    }

    method RecordMessage(agent: string, conversation: string, now: int)
      requires Valid()
      modifies this`agentWindows, this`conversationWindows, agentWindows.Values, conversationWindows.Values
      ensures Valid() && View() == Recorded(old(View()), agent, conversation, now)
    {
      RecordForAgent(agent, now);
      RecordForConversation(conversation, now);
    }

    method RecordChallenge(pair: set<string>, now: int)
      requires Valid()
      modifies this`challengeWindows, challengeWindows.Values
      ensures Valid()
      ensures View() == ChallengeRecorded(old(View()), pair, now)
    {
      var w := GetChallengeWindow(pair);
      RecordIn(challengeWindows, pair, now);
    }

    method Prune(now: int)
      requires Valid()
      modifies this, agentWindows.Values, conversationWindows.Values, challengeWindows.Values
      ensures Valid() && View() == Pruned(old(View()), now)
    {
      PruneAgents(now - HOUR);
      PruneConversations(now - HOUR);
      PruneChallenges(now - HOUR);
    }

    method PruneAgents(cutoff: int)
      requires Valid()
      modifies agentWindows.Values
      ensures Valid() && View() == old(View()).(agents := PruneAll(old(View()).agents, cutoff))
    {
      PruneWindows(agentWindows, cutoff);
    }

    method PruneConversations(cutoff: int)
      requires Valid()
      modifies conversationWindows.Values
      ensures Valid() && View() == old(View()).(conversations := PruneAll(old(View()).conversations, cutoff))
    {
      PruneWindows(conversationWindows, cutoff);
    }

    method PruneChallenges(cutoff: int)
      requires Valid()
      modifies challengeWindows.Values
      ensures Valid() && View() == old(View()).(challenges := PruneAll(old(View()).challenges, cutoff))
    {
      PruneWindows(challengeWindows, cutoff);
    }
  }
}
