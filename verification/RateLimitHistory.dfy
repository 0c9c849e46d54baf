/** What the rate limiter guarantees over whole histories of calls whose checks come in the order of the
    clock; each message is recorded some time after the check that allowed it. */
module RateLimitHistory {
  import opened Wrappers
  import opened RateLimiter

  /** A recorded message; `at` is when it was recorded, `challengedAt` when its challenge was, if it was one. */
  datatype Message = Message(agent: string, conversation: string, target: Option<string>, at: int, challengedAt: int)

  type History = seq<Message>

  function AgentTimes(h: History, agent: string): seq<int> {
    if h == [] then [] else
      var m, rest := h[|h| - 1], AgentTimes(h[..|h| - 1], agent);
      if m.agent == agent then rest + [m.at] else rest
  }

  function ConversationTimes(h: History, conversation: string): seq<int> {
    if h == [] then [] else
      var m, rest := h[|h| - 1], ConversationTimes(h[..|h| - 1], conversation);
      if m.conversation == conversation then rest + [m.at] else rest
  }

  function ChallengeTimes(h: History, pair: set<string>): seq<int> {
    if h == [] then [] else
      var m, rest := h[|h| - 1], ChallengeTimes(h[..|h| - 1], pair);
      if PairOf(m.agent, m.target) == Some(pair) then rest + [m.challengedAt] else rest
  }

  lemma TimesAppend(h: History, m: Message, agent: string, conversation: string, pair: set<string>)
    ensures AgentTimes(h + [m], agent) == AgentTimes(h, agent) + (if m.agent == agent then [m.at] else [])
    ensures ConversationTimes(h + [m], conversation)
         == ConversationTimes(h, conversation) + (if m.conversation == conversation then [m.at] else [])
    ensures ChallengeTimes(h + [m], pair)
         == ChallengeTimes(h, pair) + (if PairOf(m.agent, m.target) == Some(pair) then [m.challengedAt] else [])
  {
    assert (h + [m])[..|h|] == h;
  }

  // ----- The windowed bound -----

  /** Entries of the closed interval [lo, hi]. */
  function Within(ts: seq<int>, lo: int, hi: int): seq<int> {
    if ts == [] then [] else
      var last, rest := ts[|ts| - 1], Within(ts[..|ts| - 1], lo, hi);
      if lo <= last <= hi then rest + [last] else rest
  }

  /** No closed interval of length `windowMs` holds more than `limit` entries. */
  ghost predicate Bounded(ts: seq<int>, windowMs: int, limit: int) {
    forall lo, hi :: hi <= lo + windowMs ==> |Within(ts, lo, hi)| <= if limit < 0 then 0 else limit
  }

  lemma {:induction false} WithinIsFrom(ts: seq<int>, lo: int, hi: int)
    ensures |Within(ts, lo, hi)| <= |From(ts, lo)|
  {
    if ts != [] { WithinIsFrom(ts[..|ts| - 1], lo, hi); }
  }

  /** Appending an entry checked at `t`, and recorded at `at` or later, keeps every interval bounded. */
  lemma AppendBounded(ts: seq<int>, t: int, at: int, windowMs: int, limit: int)
    requires Bounded(ts, windowMs, limit) && CountIn(ts, windowMs, t) < limit && t <= at
    ensures Bounded(ts + [at], windowMs, limit)
  {
    forall lo, hi | hi <= lo + windowMs ensures |Within(ts + [at], lo, hi)| <= if limit < 0 then 0 else limit {
      assert (ts + [at])[..|ts|] == ts && (ts + [at])[|ts|] == at;
      assert Within(ts + [at], lo, hi) == if lo <= at <= hi then Within(ts, lo, hi) + [at] else Within(ts, lo, hi);
      if lo <= at <= hi {
        WithinIsFrom(ts, lo, hi);
        FromShrinks(ts, t - windowMs, lo);
      }
    }
  }

  // ----- Runs of the limiter -----

  /** Send is a check at `at` followed, if allowed, by a record, and for a challenge by a second record.
      No call on the same windows comes in between; calls on other windows may. */
  datatype Call = Send(agent: string, conversation: string, target: Option<string>, at: int, recordedAt: int,
                       challengedAt: int)
                | Check(agent: string, conversation: string, target: Option<string>, at: int)
                | Prune(at: int)

  function VerdictOn(cfg: Config, s: Logs, c: Call): Verdict
    requires !c.Prune?
  {
    CheckVerdict(cfg, s, c.agent, c.conversation, c.target, c.at)
  }

  /** The logs with the message recorded, and its challenge. */
  function Sent(s: Logs, m: Message): Logs {
    var t := Recorded(s, m.agent, m.conversation, m.at);
    if m.target.None? then t else ChallengeRecorded(t, {m.agent, m.target.value}, m.challengedAt)
  }

  function MessageOf(c: Call): Message
    requires c.Send?
  {
    Message(c.agent, c.conversation, c.target, c.recordedAt, c.challengedAt)
  }

  function After(cfg: Config, s: Logs, c: Call): Logs {
    if c.Prune? then Pruned(s, c.at) else
      var t := Checked(cfg, s, c.agent, c.conversation, c.target, c.at);
      if c.Send? && VerdictOn(cfg, s, c).Allowed? then Sent(t, MessageOf(c)) else t
  }

  function HistoryAfter(cfg: Config, s: Logs, h: History, c: Call): History {
    if c.Send? && VerdictOn(cfg, s, c).Allowed? then h + [MessageOf(c)] else h
  }

  /** The logs after a run, and the messages it admitted. */
  function RunState(cfg: Config, calls: seq<Call>): (Logs, History) {
    if calls == [] then (Logs(map[], map[], map[], map[]), []) else
      var before, c := RunState(cfg, calls[..|calls| - 1]), calls[|calls| - 1];
      (After(cfg, before.0, c), HistoryAfter(cfg, before.0, before.1, c))
  }

  function RunLogs(cfg: Config, calls: seq<Call>): Logs { RunState(cfg, calls).0 }

  function RunHistory(cfg: Config, calls: seq<Call>): History { RunState(cfg, calls).1 }

  /** The verdicts of all checks of a run, in order. */
  function RunVerdicts(cfg: Config, calls: seq<Call>): seq<Verdict> {
    if calls == [] then [] else
      var before, c := calls[..|calls| - 1], calls[|calls| - 1];
      RunVerdicts(cfg, before) + if c.Prune? then [] else [VerdictOn(cfg, RunLogs(cfg, before), c)]
  }

  /** The clock does not go back from check to check, nor from a check to its records. */
  predicate ClockMoves(calls: seq<Call>)
    decreases |calls|, 0
  {
    calls == []
    || var c := calls[|calls| - 1];
       ClockBy(calls[..|calls| - 1], c.at) && (c.Send? ==> c.at <= c.recordedAt <= c.challengedAt)
  }

  /** It never goes back, and the last check is not after `now`. */
  predicate ClockBy(calls: seq<Call>, now: int)
    decreases |calls|, 1
  {
    ClockMoves(calls) && (calls == [] || calls[|calls| - 1].at <= now)
  }

  // ----- The logs are the history, pruned -----

  /** What the last prune of a run left out. */
  function Cutoff(calls: seq<Call>): Option<int> {
    if calls == [] then None
    else if calls[|calls| - 1].Prune? then Some(calls[|calls| - 1].at - HOUR)
    else Cutoff(calls[..|calls| - 1])
  }

  function Kept(ts: seq<int>, cutoff: Option<int>): seq<int> {
    if cutoff.None? then ts else From(ts, cutoff.value)
  }

  /** Windows that hold the given times, less what a prune cut off. */
  ghost predicate AreKept<K(!new)>(m: map<K, seq<int>>, times: K -> seq<int>, cutoff: Option<int>) {
    forall k :: Get(m, k) == Kept(times(k), cutoff)
  }

  function ByAgent(h: History): string -> seq<int> { a => AgentTimes(h, a) }

  function ByConversation(h: History): string -> seq<int> { k => ConversationTimes(h, k) }

  function ByPair(h: History): set<string> -> seq<int> { p => ChallengeTimes(h, p) }

  ghost predicate IsPrunedHistory(s: Logs, h: History, cutoff: Option<int>) {
    AreKept(s.agents, ByAgent(h), cutoff) && AreKept(s.conversations, ByConversation(h), cutoff)
    && AreKept(s.challenges, ByPair(h), cutoff)
  }

  lemma {:induction false} CutoffInPast(calls: seq<Call>, now: int)
    requires ClockBy(calls, now)
    ensures Cutoff(calls).Some? ==> Cutoff(calls).value <= now - HOUR
  {
    if calls != [] && !calls[|calls| - 1].Prune? { CutoffInPast(calls[..|calls| - 1], calls[|calls| - 1].at); }
  }

  lemma PruneKeeps<K(!new)>(m: map<K, seq<int>>, times: K -> seq<int>, cutoff: Option<int>, at: int)
    requires AreKept(m, times, cutoff) && (cutoff.Some? ==> cutoff.value <= at)
    ensures AreKept(PruneAll(m, at), times, Some(at))
  {
    forall k ensures Get(PruneAll(m, at), k) == From(times(k), at) {
      assert Get(m, k) == Kept(times(k), cutoff);
      if cutoff.Some? { FromFrom(times(k), cutoff.value, at); }
    }
  }

  lemma TouchKeeps<K(!new)>(m: map<K, seq<int>>, times: K -> seq<int>, cutoff: Option<int>, key: K)
    requires AreKept(m, times, cutoff)
    ensures AreKept(Touch(m, key), times, cutoff)
  {
    forall k ensures Get(Touch(m, key), k) == Kept(times(k), cutoff) {
      assert Get(m, k) == Kept(times(k), cutoff);
    }
  }

  lemma RecordKeeps<K(!new)>(m: map<K, seq<int>>, times: K -> seq<int>, more: K -> seq<int>, cutoff: Option<int>,
                             key: K, t: int)
    requires AreKept(m, times, cutoff) && (cutoff.Some? ==> cutoff.value <= t)
    requires forall k :: more(k) == times(k) + if k == key then [t] else []
    ensures AreKept(m[key := Get(m, key) + [t]], more, cutoff)
  {
    forall k ensures Get(m[key := Get(m, key) + [t]], k) == Kept(more(k), cutoff) {
      assert Get(m, k) == Kept(times(k), cutoff);
      assert more(k) == times(k) + if k == key then [t] else [];
      if k == key {
        if cutoff.Some? { FromAppend(times(k), t, cutoff.value); }
      } else {
        assert times(k) + [] == times(k);
      }
    }
  }

  lemma CheckKeepsHistory(cfg: Config, s: Logs, h: History, cutoff: Option<int>, c: Call)
    requires IsPrunedHistory(s, h, cutoff) && !c.Prune?
    ensures IsPrunedHistory(Checked(cfg, s, c.agent, c.conversation, c.target, c.at), h, cutoff)
  {
    var t := Checked(cfg, s, c.agent, c.conversation, c.target, c.at);
    assert t.agents == Touch(s.agents, c.agent);
    TouchKeeps(s.agents, ByAgent(h), cutoff, c.agent);
    if t.conversations != s.conversations {
      TouchKeeps(s.conversations, ByConversation(h), cutoff, c.conversation);
    }
    if t.challenges != s.challenges {
      TouchKeeps(s.challenges, ByPair(h), cutoff, {c.agent, c.target.value});
    }
  }

  lemma RecordKeepsHistory(s: Logs, h: History, cutoff: Option<int>, m: Message)
    requires IsPrunedHistory(s, h, cutoff) && (cutoff.Some? ==> cutoff.value <= m.at)
    ensures var t := Recorded(s, m.agent, m.conversation, m.at);
      AreKept(t.agents, ByAgent(h + [m]), cutoff) && AreKept(t.conversations, ByConversation(h + [m]), cutoff)
  {
    forall k: string { TimesAppend(h, m, k, k, {}); }
    RecordKeeps(s.agents, ByAgent(h), ByAgent(h + [m]), cutoff, m.agent, m.at);
    RecordKeeps(s.conversations, ByConversation(h), ByConversation(h + [m]), cutoff, m.conversation, m.at);
  }

  lemma ChallengeKeepsHistory(challenges: map<set<string>, seq<int>>, h: History, cutoff: Option<int>, m: Message)
    requires AreKept(challenges, ByPair(h), cutoff) && (cutoff.Some? ==> cutoff.value <= m.challengedAt)
    ensures m.target.None? ==> AreKept(challenges, ByPair(h + [m]), cutoff)
    ensures m.target.Some? ==> var p := {m.agent, m.target.value};
      AreKept(challenges[p := Get(challenges, p) + [m.challengedAt]], ByPair(h + [m]), cutoff)
  {
    forall p: set<string> { TimesAppend(h, m, m.agent, m.conversation, p); }
    if m.target.Some? {
      RecordKeeps(challenges, ByPair(h), ByPair(h + [m]), cutoff, {m.agent, m.target.value}, m.challengedAt);
    } else {
      forall p ensures Get(challenges, p) == Kept(ByPair(h + [m])(p), cutoff) {
        assert Get(challenges, p) == Kept(ByPair(h)(p), cutoff);
        assert ChallengeTimes(h, p) + [] == ChallengeTimes(h, p);
      }
    }
  }

  lemma SendKeepsHistory(s: Logs, h: History, cutoff: Option<int>, m: Message)
    requires IsPrunedHistory(s, h, cutoff) && m.at <= m.challengedAt && (cutoff.Some? ==> cutoff.value <= m.at)
    ensures IsPrunedHistory(Sent(s, m), h + [m], cutoff)
  {
    RecordKeepsHistory(s, h, cutoff, m);
    ChallengeKeepsHistory(s.challenges, h, cutoff, m);
  }

  lemma StepKeepsHistory(cfg: Config, s: Logs, h: History, cutoff: Option<int>, c: Call)
    requires IsPrunedHistory(s, h, cutoff) && (cutoff.Some? ==> cutoff.value <= c.at - HOUR)
    requires c.Send? ==> c.at <= c.recordedAt <= c.challengedAt
    ensures IsPrunedHistory(After(cfg, s, c), HistoryAfter(cfg, s, h, c),
                            if c.Prune? then Some(c.at - HOUR) else cutoff)
  {
    if c.Prune? {
      PruneKeeps(s.agents, ByAgent(h), cutoff, c.at - HOUR);
      PruneKeeps(s.conversations, ByConversation(h), cutoff, c.at - HOUR);
      PruneKeeps(s.challenges, ByPair(h), cutoff, c.at - HOUR);
    } else {
      CheckKeepsHistory(cfg, s, h, cutoff, c);
      if c.Send? && VerdictOn(cfg, s, c).Allowed? {
        SendKeepsHistory(Checked(cfg, s, c.agent, c.conversation, c.target, c.at), h, cutoff, MessageOf(c));
      }
    }
  }

  lemma LastLogs(cfg: Config, calls: seq<Call>, c: Call)
    ensures RunLogs(cfg, calls + [c]) == After(cfg, RunLogs(cfg, calls), c)
  {
    assert (calls + [c])[..|calls|] == calls;
  }

  lemma LastVerdict(cfg: Config, calls: seq<Call>, c: Call)
    ensures RunVerdicts(cfg, calls + [c]) == RunVerdicts(cfg, calls)
            + if c.Prune? then [] else [VerdictOn(cfg, RunLogs(cfg, calls), c)]
  {
    assert (calls + [c])[..|calls|] == calls;
  }

  lemma LastMessage(cfg: Config, calls: seq<Call>, c: Call)
    ensures RunHistory(cfg, calls + [c]) == HistoryAfter(cfg, RunLogs(cfg, calls), RunHistory(cfg, calls), c)
  {
    assert (calls + [c])[..|calls|] == calls;
  }

  /** The logs of a run are its history, pruned. */
  ghost predicate RunIsPruned(cfg: Config, calls: seq<Call>) {
    IsPrunedHistory(RunLogs(cfg, calls), RunHistory(cfg, calls), Cutoff(calls))
  }

  lemma CallKeepsHistory(cfg: Config, calls: seq<Call>, c: Call)
    requires RunIsPruned(cfg, calls) && (Cutoff(calls).Some? ==> Cutoff(calls).value <= c.at - HOUR)
    requires c.Send? ==> c.at <= c.recordedAt <= c.challengedAt
    ensures RunIsPruned(cfg, calls + [c])
  {
    var s, h, cutoff := RunLogs(cfg, calls), RunHistory(cfg, calls), Cutoff(calls);
    StepKeepsHistory(cfg, s, h, cutoff, c);
    LastLogs(cfg, calls, c);
    LastMessage(cfg, calls, c);
    LastCutoff(calls, c);
  }

  lemma LastCutoff(calls: seq<Call>, c: Call)
    ensures Cutoff(calls + [c]) == if c.Prune? then Some(c.at - HOUR) else Cutoff(calls)
  {
    assert (calls + [c])[..|calls|] == calls;
  }

  lemma {:induction false} RunKeepsHistory(cfg: Config, calls: seq<Call>)
    requires ClockMoves(calls)
    ensures RunIsPruned(cfg, calls)
  {
    if calls != [] {
      var before, c := calls[..|calls| - 1], calls[|calls| - 1];
      assert calls == before + [c];
      RunKeepsHistory(cfg, before);
      CutoffInPast(before, c.at);
      CallKeepsHistory(cfg, before, c);
    }
  }

  // ----- Verdicts are those on the whole history -----

  lemma AgentVerdictKept(cfg: Config, ts: seq<int>, cutoff: Option<int>, rejections: nat, now: int)
    requires cutoff.Some? ==> cutoff.value <= now - HOUR
    ensures AgentVerdict(cfg, Kept(ts, cutoff), rejections, now) == AgentVerdict(cfg, ts, rejections, now)
  {
    if cutoff.Some? {
      FromFrom(ts, cutoff.value, now - MINUTE);
      FromFrom(ts, cutoff.value, now - HOUR);
    }
  }

  lemma ConversationVerdictKept(cfg: Config, ts: seq<int>, cutoff: Option<int>, now: int)
    requires cutoff.Some? ==> cutoff.value <= now - HOUR
    ensures ConversationVerdict(cfg, Kept(ts, cutoff), now) == ConversationVerdict(cfg, ts, now)
  {
    if cutoff.Some? {
      FromFrom(ts, cutoff.value, now - MINUTE);
      FromFrom(ts, cutoff.value, now - HOUR);
    }
  }

  predicate Sorted(ts: seq<int>) {
    forall i, j :: 0 <= i < j < |ts| ==> ts[i] <= ts[j]
  }

  lemma {:induction false} NoneFrom(ts: seq<int>, cutoff: int)
    requires forall i :: 0 <= i < |ts| ==> ts[i] < cutoff
    ensures From(ts, cutoff) == []
  {
    if ts != [] { NoneFrom(ts[..|ts| - 1], cutoff); }
  }

  /** A prune cannot be told by a challenge check whose cooldown the pruned hour covers. */
  lemma ChallengeVerdictKept(ts: seq<int>, cutoff: Option<int>, maxPerHour: int, cooldownMs: int, now: int)
    requires Sorted(ts) && cooldownMs <= HOUR + 1 && (cutoff.Some? ==> cutoff.value <= now - HOUR)
    ensures ChallengeVerdict(Kept(ts, cutoff), maxPerHour, cooldownMs, now)
            == ChallengeVerdict(ts, maxPerHour, cooldownMs, now)
  {
    if cutoff.Some? {
      FromFrom(ts, cutoff.value, now - HOUR);
      if ts != [] {
        var init, last := ts[..|ts| - 1], ts[|ts| - 1];
        assert From(ts, cutoff.value) == From(init, cutoff.value) + (if last >= cutoff.value then [last] else []);
        if last < cutoff.value { NoneFrom(ts, cutoff.value); }
      }
    }
  }

  /** Calls on the same agent, conversation or pair do not overlap. */
  predicate InTurn(calls: seq<Call>) {
    calls == [] || (InTurn(calls[..|calls| - 1]) && AllBefore(calls[..|calls| - 1], calls[|calls| - 1]))
  }

  predicate AllBefore(calls: seq<Call>, c: Call) {
    calls == [] || (AllBefore(calls[..|calls| - 1], c) && IsBefore(calls[|calls| - 1], c))
  }

  predicate IsBefore(b: Call, c: Call) {
    b.Send? && !c.Prune? && Shares(b, c) ==> b.recordedAt <= c.at && (b.target.Some? ==> b.challengedAt <= c.at)
  }

  predicate Shares(b: Call, c: Call)
    requires !b.Prune? && !c.Prune?
  {
    b.agent == c.agent || b.conversation == c.conversation
    || (b.target.Some? && PairOf(b.agent, b.target) == PairOf(c.agent, c.target))
  }

  predicate UpTo(ts: seq<int>, now: int) {
    forall i :: 0 <= i < |ts| ==> ts[i] <= now
  }

  /** Everything on the windows a call looks at was recorded before it. */
  predicate AllUpTo(h: History, c: Call)
    requires !c.Prune?
  {
    UpTo(AgentTimes(h, c.agent), c.at) && UpTo(ConversationTimes(h, c.conversation), c.at)
    && (c.target.Some? ==> UpTo(ChallengeTimes(h, {c.agent, c.target.value}), c.at))
  }

  lemma AppendUpTo(ts: seq<int>, more: seq<int>, now: int)
    requires UpTo(ts, now) && UpTo(more, now)
    ensures UpTo(ts + more, now)
  {
  }

  lemma MessageUpTo(h: History, b: Call, c: Call)
    requires b.Send? && !c.Prune? && IsBefore(b, c) && AllUpTo(h, c)
    ensures AllUpTo(h + [MessageOf(b)], c)
  {
    TimesAppend(h, MessageOf(b), c.agent, c.conversation, if c.target.Some? then {c.agent, c.target.value} else {});
    AppendUpTo(AgentTimes(h, c.agent), if b.agent == c.agent then [b.recordedAt] else [], c.at);
    AppendUpTo(ConversationTimes(h, c.conversation),
               if b.conversation == c.conversation then [b.recordedAt] else [], c.at);
    if c.target.Some? {
      var pair := {c.agent, c.target.value};
      AppendUpTo(ChallengeTimes(h, pair),
                 if PairOf(b.agent, b.target) == Some(pair) then [b.challengedAt] else [], c.at);
    }
  }

  lemma {:induction false} TimesUpTo(cfg: Config, calls: seq<Call>, c: Call)
    requires AllBefore(calls, c) && !c.Prune?
    ensures AllUpTo(RunHistory(cfg, calls), c)
  {
    if calls != [] {
      var before, b := calls[..|calls| - 1], calls[|calls| - 1];
      TimesUpTo(cfg, before, c);
      if b.Send? { MessageUpTo(RunHistory(cfg, before), b, c); }
    }
  }

  ghost predicate AllSorted(h: History) {
    (forall a :: Sorted(AgentTimes(h, a))) && (forall k :: Sorted(ConversationTimes(h, k)))
    && (forall p :: Sorted(ChallengeTimes(h, p)))
  }

  lemma SortedAppend(ts: seq<int>, t: int)
    requires Sorted(ts) && UpTo(ts, t)
    ensures Sorted(ts + [t])
  {
  }

  lemma MessageSorted(h: History, c: Call)
    requires c.Send? && c.at <= c.recordedAt <= c.challengedAt && AllSorted(h) && AllUpTo(h, c)
    ensures AllSorted(h + [MessageOf(c)])
  {
    var k := h + [MessageOf(c)];
    forall a ensures Sorted(AgentTimes(k, a)) {
      TimesAppend(h, MessageOf(c), a, c.conversation, {});
      if a == c.agent { SortedAppend(AgentTimes(h, a), c.recordedAt); }
    }
    forall a ensures Sorted(ConversationTimes(k, a)) {
      TimesAppend(h, MessageOf(c), c.agent, a, {});
      if a == c.conversation { SortedAppend(ConversationTimes(h, a), c.recordedAt); }
    }
    forall p ensures Sorted(ChallengeTimes(k, p)) {
      TimesAppend(h, MessageOf(c), c.agent, c.conversation, p);
      if PairOf(c.agent, c.target) == Some(p) { SortedAppend(ChallengeTimes(h, p), c.challengedAt); }
    }
  }

  /** The windows of a run whose calls come in turn are in order. */
  lemma {:induction false} TimesSorted(cfg: Config, calls: seq<Call>)
    requires ClockMoves(calls) && InTurn(calls)
    ensures AllSorted(RunHistory(cfg, calls))
  {
    if calls != [] {
      var before, c := calls[..|calls| - 1], calls[|calls| - 1];
      TimesSorted(cfg, before);
      if c.Send? {
        TimesUpTo(cfg, before, c);
        MessageSorted(RunHistory(cfg, before), c);
      }
    }
  }

  /** A challenge check is sure to see what it needs when its cooldown is within the hour a prune keeps
      and the calls before it came in turn. */
  predicate IsCovered(cfg: Config, before: seq<Call>, c: Call) {
    !c.Prune? && c.target.Some? ==> InTurn(before) && Cooldown(cfg, {c.agent, c.target.value}) <= HOUR + 1
  }

  predicate AllCovered(cfg: Config, calls: seq<Call>) {
    calls == [] || (AllCovered(cfg, calls[..|calls| - 1]) && IsCovered(cfg, calls[..|calls| - 1], calls[|calls| - 1]))
  }

  /** The verdict a limiter that never forgets would give. */
  function IdealVerdict(cfg: Config, h: History, rejections: nat, c: Call): Verdict
    requires !c.Prune?
  {
    MessageVerdict(cfg, AgentTimes(h, c.agent), rejections, ConversationTimes(h, c.conversation),
                   if c.target.None? then []
                   else ChallengeTimes(h, {c.agent, c.target.value}), PairOf(c.agent, c.target), c.at)
  }

  lemma IdealAgent(cfg: Config, calls: seq<Call>, agent: string, rejections: nat, now: int)
    requires ClockBy(calls, now)
    ensures AgentVerdict(cfg, Get(RunLogs(cfg, calls).agents, agent), rejections, now)
         == AgentVerdict(cfg, AgentTimes(RunHistory(cfg, calls), agent), rejections, now)
  {
    RunKeepsHistory(cfg, calls);
    CutoffInPast(calls, now);
    var h := RunHistory(cfg, calls);
    assert Get(RunLogs(cfg, calls).agents, agent) == Kept(ByAgent(h)(agent), Cutoff(calls));
    AgentVerdictKept(cfg, AgentTimes(h, agent), Cutoff(calls), rejections, now);
  }

  lemma IdealConversation(cfg: Config, calls: seq<Call>, conversation: string, now: int)
    requires ClockBy(calls, now)
    ensures ConversationVerdict(cfg, Get(RunLogs(cfg, calls).conversations, conversation), now)
         == ConversationVerdict(cfg, ConversationTimes(RunHistory(cfg, calls), conversation), now)
  {
    RunKeepsHistory(cfg, calls);
    CutoffInPast(calls, now);
    var h := RunHistory(cfg, calls);
    assert Get(RunLogs(cfg, calls).conversations, conversation) == Kept(ByConversation(h)(conversation), Cutoff(calls));
    ConversationVerdictKept(cfg, ConversationTimes(h, conversation), Cutoff(calls), now);
  }

  lemma IdealChallenge(cfg: Config, calls: seq<Call>, pair: set<string>, now: int)
    requires ClockBy(calls, now) && InTurn(calls) && Cooldown(cfg, pair) <= HOUR + 1
    ensures ChallengeVerdict(Get(RunLogs(cfg, calls).challenges, pair), MaxChallenges(cfg, pair), Cooldown(cfg, pair),
                             now)
         == ChallengeVerdict(ChallengeTimes(RunHistory(cfg, calls), pair), MaxChallenges(cfg, pair),
                             Cooldown(cfg, pair), now)
  {
    RunKeepsHistory(cfg, calls);
    CutoffInPast(calls, now);
    TimesSorted(cfg, calls);
    var h := RunHistory(cfg, calls);
    assert Get(RunLogs(cfg, calls).challenges, pair) == Kept(ByPair(h)(pair), Cutoff(calls));
    ChallengeVerdictKept(ChallengeTimes(h, pair), Cutoff(calls), MaxChallenges(cfg, pair), Cooldown(cfg, pair), now);
  }

  /** Every verdict of a run is the one a limiter that never forgets would give. */
  lemma VerdictIsIdeal(cfg: Config, calls: seq<Call>, c: Call)
    requires ClockBy(calls, c.at) && !c.Prune? && IsCovered(cfg, calls, c)
    ensures VerdictOn(cfg, RunLogs(cfg, calls), c)
         == IdealVerdict(cfg, RunHistory(cfg, calls), Rejections(RunLogs(cfg, calls), c.agent), c)
  {
    IdealAgent(cfg, calls, c.agent, Rejections(RunLogs(cfg, calls), c.agent), c.at);
    IdealConversation(cfg, calls, c.conversation, c.at);
    if c.target.Some? { IdealChallenge(cfg, calls, {c.agent, c.target.value}, c.at); }
  }

  // ----- The bound over runs -----

  ghost predicate WithinLimits(cfg: Config, h: History, agent: string, conversation: string) {
    && Bounded(AgentTimes(h, agent), MINUTE, AgentMinuteLimit(cfg))
    && Bounded(AgentTimes(h, agent), HOUR, cfg.agentPerHour)
    && Bounded(ConversationTimes(h, conversation), MINUTE, cfg.conversationPerMinute)
    && Bounded(ConversationTimes(h, conversation), HOUR, cfg.conversationPerHour)
  }

  /** Over every run, each closed minute and hour holds at most the limit, per agent and conversation,
      whatever is challenged and however late messages are recorded. */
  lemma {:induction false} RunIsBounded(cfg: Config, calls: seq<Call>, agent: string, conversation: string)
    requires ClockMoves(calls)
    ensures WithinLimits(cfg, RunHistory(cfg, calls), agent, conversation)
  {
    if calls != [] {
      var before, c := calls[..|calls| - 1], calls[|calls| - 1];
      RunIsBounded(cfg, before, agent, conversation);
      if c.Send? && VerdictOn(cfg, RunLogs(cfg, before), c).Allowed? {
        var rejections := Rejections(RunLogs(cfg, before), c.agent);
        IdealAgent(cfg, before, c.agent, rejections, c.at);
        IdealConversation(cfg, before, c.conversation, c.at);
        SendIsBounded(cfg, RunHistory(cfg, before), c, rejections, agent, conversation);
      }
    }
  }

  lemma SendIsBounded(cfg: Config, h: History, c: Call, rejections: nat, agent: string, conversation: string)
    requires c.Send? && c.at <= c.recordedAt && WithinLimits(cfg, h, agent, conversation)
    requires AgentVerdict(cfg, AgentTimes(h, c.agent), rejections, c.at).Allowed?
    requires ConversationVerdict(cfg, ConversationTimes(h, c.conversation), c.at).Allowed?
    ensures WithinLimits(cfg, h + [MessageOf(c)], agent, conversation)
  {
    TimesAppend(h, MessageOf(c), agent, conversation, {});
    if c.agent == agent {
      AppendBounded(AgentTimes(h, agent), c.at, c.recordedAt, MINUTE, AgentMinuteLimit(cfg));
      AppendBounded(AgentTimes(h, agent), c.at, c.recordedAt, HOUR, cfg.agentPerHour);
    } else {
      assert AgentTimes(h, agent) + [] == AgentTimes(h, agent);
    }
    if c.conversation == conversation {
      AppendBounded(ConversationTimes(h, conversation), c.at, c.recordedAt, MINUTE, cfg.conversationPerMinute);
      AppendBounded(ConversationTimes(h, conversation), c.at, c.recordedAt, HOUR, cfg.conversationPerHour);
    } else {
      assert ConversationTimes(h, conversation) + [] == ConversationTimes(h, conversation);
    }
  }

  /** A prune cannot be told by what a challenge check sees of the last hour. */
  lemma SameHour(cfg: Config, calls: seq<Call>, pair: set<string>, now: int)
    requires ClockBy(calls, now)
    ensures From(Get(RunLogs(cfg, calls).challenges, pair), now - HOUR)
            == From(ChallengeTimes(RunHistory(cfg, calls), pair), now - HOUR)
  {
    RunKeepsHistory(cfg, calls);
    CutoffInPast(calls, now);
    var h := RunHistory(cfg, calls);
    assert Get(RunLogs(cfg, calls).challenges, pair) == Kept(ByPair(h)(pair), Cutoff(calls));
    if Cutoff(calls).Some? { FromFrom(ChallengeTimes(h, pair), Cutoff(calls).value, now - HOUR); }
  }

  lemma AllowedChallenge(cfg: Config, s: Logs, c: Call)
    requires c.Send? && c.target.Some? && VerdictOn(cfg, s, c).Allowed?
    ensures var pair := {c.agent, c.target.value};
            CountIn(Get(s.challenges, pair), HOUR, c.at) < MaxChallenges(cfg, pair)
  {
  }

  lemma HasRoomForChallenge(cfg: Config, before: seq<Call>, c: Call)
    requires ClockBy(before, c.at) && c.Send? && c.target.Some? && VerdictOn(cfg, RunLogs(cfg, before), c).Allowed?
    ensures var pair := {c.agent, c.target.value};
      CountIn(ChallengeTimes(RunHistory(cfg, before), pair), HOUR, c.at) < MaxChallenges(cfg, pair)
  {
    AllowedChallenge(cfg, RunLogs(cfg, before), c);
    SameHour(cfg, before, {c.agent, c.target.value}, c.at);
  }

  /** Over every run, each closed hour holds at most the limit of challenges, per pair. */
  lemma {:induction false} ChallengesAreBounded(cfg: Config, calls: seq<Call>, pair: set<string>)
    requires ClockMoves(calls)
    ensures Bounded(ChallengeTimes(RunHistory(cfg, calls), pair), HOUR, MaxChallenges(cfg, pair))
  {
    if calls != [] {
      var before, c := calls[..|calls| - 1], calls[|calls| - 1];
      ChallengesAreBounded(cfg, before, pair);
      if c.Send? && VerdictOn(cfg, RunLogs(cfg, before), c).Allowed? { ChallengeIsBounded(cfg, before, c, pair); }
    }
  }

  lemma ChallengeIsBounded(cfg: Config, before: seq<Call>, c: Call, pair: set<string>)
    requires ClockBy(before, c.at) && c.Send? && c.at <= c.recordedAt <= c.challengedAt
    requires VerdictOn(cfg, RunLogs(cfg, before), c).Allowed?
    requires Bounded(ChallengeTimes(RunHistory(cfg, before), pair), HOUR, MaxChallenges(cfg, pair))
    ensures Bounded(ChallengeTimes(RunHistory(cfg, before) + [MessageOf(c)], pair), HOUR, MaxChallenges(cfg, pair))
  {
    if PairOf(c.agent, c.target) == Some(pair) { HasRoomForChallenge(cfg, before, c); }
    OneMoreChallenge(cfg, RunHistory(cfg, before), c, pair);
  }

  lemma OneMoreChallenge(cfg: Config, h: History, c: Call, pair: set<string>)
    requires c.Send? && c.at <= c.challengedAt && Bounded(ChallengeTimes(h, pair), HOUR, MaxChallenges(cfg, pair))
    requires PairOf(c.agent, c.target) == Some(pair) ==>
               CountIn(ChallengeTimes(h, pair), HOUR, c.at) < MaxChallenges(cfg, pair)
    ensures Bounded(ChallengeTimes(h + [MessageOf(c)], pair), HOUR, MaxChallenges(cfg, pair))
  {
    TimesAppend(h, MessageOf(c), c.agent, c.conversation, pair);
    if PairOf(c.agent, c.target) == Some(pair) {
      AppendBounded(ChallengeTimes(h, pair), c.at, c.challengedAt, HOUR, MaxChallenges(cfg, pair));
    } else {
      assert ChallengeTimes(h, pair) + [] == ChallengeTimes(h, pair);
    }
  }

  // ----- Pruning is invisible -----

  function WithoutPrunes(calls: seq<Call>): seq<Call> {
    if calls == [] then [] else
      WithoutPrunes(calls[..|calls| - 1]) + if calls[|calls| - 1].Prune? then [] else [calls[|calls| - 1]]
  }

  lemma LastKept(calls: seq<Call>)
    requires calls != []
    ensures var c, bare := calls[|calls| - 1], WithoutPrunes(calls[..|calls| - 1]);
      if c.Prune? then WithoutPrunes(calls) == bare
      else WithoutPrunes(calls) == bare + [c] && WithoutPrunes(calls)[..|bare|] == bare
  {
    var c, bare := calls[|calls| - 1], WithoutPrunes(calls[..|calls| - 1]);
    assert bare + [] == bare && (bare + [c])[..|bare|] == bare;
  }

  lemma {:induction false} WithoutPrunesClock(calls: seq<Call>, now: int)
    requires ClockBy(calls, now)
    ensures ClockBy(WithoutPrunes(calls), now)
  {
    if calls != [] {
      WithoutPrunesClock(calls[..|calls| - 1], calls[|calls| - 1].at);
      LastKept(calls);
    }
  }

  lemma {:induction false} WithoutPrunesBefore(calls: seq<Call>, c: Call)
    requires AllBefore(calls, c)
    ensures AllBefore(WithoutPrunes(calls), c)
  {
    if calls != [] {
      WithoutPrunesBefore(calls[..|calls| - 1], c);
      LastKept(calls);
    }
  }

  lemma {:induction false} WithoutPrunesInTurn(calls: seq<Call>)
    requires InTurn(calls)
    ensures InTurn(WithoutPrunes(calls))
  {
    if calls != [] {
      WithoutPrunesInTurn(calls[..|calls| - 1]);
      WithoutPrunesBefore(calls[..|calls| - 1], calls[|calls| - 1]);
      LastKept(calls);
    }
  }

  predicate IsAgentLimit(v: Verdict) { v.Rejected? && (v.limit.AgentPerMinute? || v.limit.AgentPerHour?) }

  /** The verdict alone tells how the rejection counts change. */
  lemma RejectionsAfter(cfg: Config, s: Logs, c: Call)
    requires !c.Prune?
    ensures After(cfg, s, c).rejections ==
              if IsAgentLimit(VerdictOn(cfg, s, c)) then s.rejections[c.agent := Rejections(s, c.agent) + 1]
                                           else s.rejections - {c.agent}
  {
    var v := AgentVerdict(cfg, Get(s.agents, c.agent), Rejections(s, c.agent), c.at);
    assert v.Rejected? <==> IsAgentLimit(VerdictOn(cfg, s, c));
  }

  lemma SameStep(cfg: Config, s: Logs, t: Logs, h: History, c: Call)
    requires !c.Prune? && s.rejections == t.rejections && VerdictOn(cfg, s, c) == VerdictOn(cfg, t, c)
    ensures After(cfg, s, c).rejections == After(cfg, t, c).rejections
    ensures HistoryAfter(cfg, s, h, c) == HistoryAfter(cfg, t, h, c)
  {
    RejectionsAfter(cfg, s, c);
    RejectionsAfter(cfg, t, c);
  }

  lemma SameVerdict(cfg: Config, before: seq<Call>, c: Call)
    requires ClockBy(before, c.at) && !c.Prune? && IsCovered(cfg, before, c)
    requires RunHistory(cfg, WithoutPrunes(before)) == RunHistory(cfg, before)
    requires RunLogs(cfg, WithoutPrunes(before)).rejections == RunLogs(cfg, before).rejections
    ensures VerdictOn(cfg, RunLogs(cfg, WithoutPrunes(before)), c) == VerdictOn(cfg, RunLogs(cfg, before), c)
  {
    WithoutPrunesClock(before, c.at);
    if c.target.Some? { WithoutPrunesInTurn(before); }
    VerdictIsIdeal(cfg, before, c);
    VerdictIsIdeal(cfg, WithoutPrunes(before), c);
  }

  /** Dropping every prune from a run changes no verdict, usage count or advised wait, and no message. */
  lemma {:induction false} PruneIsInvisible(cfg: Config, calls: seq<Call>)
    requires ClockMoves(calls) && AllCovered(cfg, calls)
    ensures RunVerdicts(cfg, WithoutPrunes(calls)) == RunVerdicts(cfg, calls)
    ensures RunHistory(cfg, WithoutPrunes(calls)) == RunHistory(cfg, calls)
    ensures RunLogs(cfg, WithoutPrunes(calls)).rejections == RunLogs(cfg, calls).rejections
  {
    if calls != [] {
      var before, c := calls[..|calls| - 1], calls[|calls| - 1];
      PruneIsInvisible(cfg, before);
      LastKept(calls);
      if !c.Prune? {
        var bare := WithoutPrunes(before);
        SameVerdict(cfg, before, c);
        LastLogs(cfg, bare, c);
        LastVerdict(cfg, bare, c);
        LastMessage(cfg, bare, c);
        SameStep(cfg, RunLogs(cfg, bare), RunLogs(cfg, before), RunHistory(cfg, before), c);
      }
    }
  }

  predicate PruneHidden(ts: seq<int>, maxPerHour: int, cooldownMs: int, prunedAt: int, now: int) {
    ChallengeVerdict(From(ts, prunedAt - HOUR), maxPerHour, cooldownMs, now)
      == ChallengeVerdict(ts, maxPerHour, cooldownMs, now)
  }

  /** A challenge check can never tell that a prune happened exactly when the cooldown exceeds the hour
      a prune keeps by at most one millisecond. */
  lemma PruneHiddenIff(maxPerHour: int, cooldownMs: int)
    ensures (forall ts, prunedAt, now ::
              Sorted(ts) && prunedAt <= now ==> PruneHidden(ts, maxPerHour, cooldownMs, prunedAt, now))
            <==> cooldownMs <= HOUR + 1
  {
    if cooldownMs <= HOUR + 1 {
      forall ts, prunedAt, now | Sorted(ts) && prunedAt <= now
        ensures PruneHidden(ts, maxPerHour, cooldownMs, prunedAt, now)
      {
        ChallengeVerdictKept(ts, Some(prunedAt - HOUR), maxPerHour, cooldownMs, now);
      }
    } else {
      var now := HOUR + 2;
      assert From([1], now - HOUR) == [];
      assert Sorted([1]) && !PruneHidden([1], maxPerHour, cooldownMs, now, now);
    }
  }

  // ----- Windows filled instant by instant -----

  function Copies(t: int, n: nat): (ts: seq<int>)
    ensures |ts| == n && forall i :: 0 <= i < n ==> ts[i] == t
  {
    seq(n, i => t)
  }

  lemma {:induction false} FromAll(ts: seq<int>, cutoff: int)
    requires forall i :: 0 <= i < |ts| ==> ts[i] >= cutoff
    ensures From(ts, cutoff) == ts
  {
    if ts != [] { FromAll(ts[..|ts| - 1], cutoff); }
  }

  lemma {:induction false} WithinAll(ts: seq<int>, lo: int, hi: int)
    requires forall i :: 0 <= i < |ts| ==> lo <= ts[i] <= hi
    ensures Within(ts, lo, hi) == ts
  {
    if ts != [] { WithinAll(ts[..|ts| - 1], lo, hi); }
  }

  lemma {:induction false} FromConcat(a: seq<int>, b: seq<int>, cutoff: int)
    ensures From(a + b, cutoff) == From(a, cutoff) + From(b, cutoff)
  {
    if b == [] {
      assert a + b == a;
    } else {
      assert (a + b)[..|a + b| - 1] == a + b[..|b| - 1];
      FromConcat(a, b[..|b| - 1], cutoff);
    }
  }

  /** In the first hour, with nothing in the last minute but `n` messages of this instant. */
  ghost predicate IsAt(ts: seq<int>, past: seq<int>, t: int, n: nat) {
    && ts == past + Copies(t, n) && 0 <= t <= HOUR
    && forall i :: 0 <= i < |past| ==> 0 <= past[i] < t - MINUTE
  }

  lemma MinuteAt(ts: seq<int>, past: seq<int>, t: int, n: nat)
    requires IsAt(ts, past, t, n)
    ensures CountIn(ts, MINUTE, t) == n
  {
    FromConcat(past, Copies(t, n), t - MINUTE);
    NoneFrom(past, t - MINUTE);
    FromAll(Copies(t, n), t - MINUTE);
    assert [] + Copies(t, n) == Copies(t, n);
  }

  lemma HourAt(ts: seq<int>, past: seq<int>, t: int, n: nat)
    requires IsAt(ts, past, t, n)
    ensures CountIn(ts, HOUR, t) == |past| + n
  {
    FromConcat(past, Copies(t, n), t - HOUR);
    FromAll(past, t - HOUR);
    FromAll(Copies(t, n), t - HOUR);
  }

  /** The length of `q` instants of `per` entries each. */
  function Filled(q: nat, per: nat): nat { if q == 0 then 0 else Filled(q - 1, per) + per }

  lemma {:induction false} FilledIs(q: nat, per: nat)
    ensures Filled(q, per) == q * per
  {
    if q > 0 {
      FilledIs(q - 1, per);
      assert q * per == (q - 1) * per + per;
    }
  }
}
