/** Runs under the default configuration whose retries on advice are rejected. */
module RateLimitDefaults {
  import opened Wrappers
  import opened RateLimiter
  import opened RateLimitHistory
  import opened RateLimitRetry

  /** An agent "oracle" that speaks in one conversation, at most `t` so far; `ts` is all it has sent, each
      message a challenge of the target, if there is one. */
  ghost predicate HasSent(cfg: Config, calls: seq<Call>, target: Option<string>, t: int, ts: seq<int>) {
    && ClockBy(calls, t) && InTurn(calls) && AllDone(calls, t)
    && var h := RunHistory(cfg, calls);
       && AgentTimes(h, "oracle") == ts && ConversationTimes(h, "talk") == ts
       && (target.Some? ==> ChallengeTimes(h, {"oracle", target.value}) == ts)
  }

  /** Every call, and what it records, is over by `t`. */
  predicate AllDone(calls: seq<Call>, t: int) {
    calls == []
    || var b := calls[|calls| - 1];
       AllDone(calls[..|calls| - 1], t) && (b.Send? ==> b.recordedAt <= t && b.challengedAt <= t)
  }

  lemma {:induction false} DoneIsBefore(calls: seq<Call>, t: int, c: Call)
    requires AllDone(calls, t) && t <= c.at
    ensures AllBefore(calls, c)
  {
    if calls != [] { DoneIsBefore(calls[..|calls| - 1], t, c); }
  }

  lemma {:induction false} DoneLater(calls: seq<Call>, t: int, later: int)
    requires AllDone(calls, t) && t <= later
    ensures AllDone(calls, later)
  {
    if calls != [] { DoneLater(calls[..|calls| - 1], t, later); }
  }

  function SendAt(target: Option<string>, t: int): Call { Send("oracle", "talk", target, t, t, t) }

  /** The limits leave room for one more message, and for one more challenge if it is one. */
  ghost predicate HasRoom(cfg: Config, target: Option<string>, past: seq<int>, t: int, n: nat) {
    && n < AgentMinuteLimit(cfg) && n < cfg.conversationPerMinute
    && |past| + n < cfg.agentPerHour && |past| + n < cfg.conversationPerHour
    && (target.Some? ==>
          var pair := {"oracle", target.value};
          n == 0 && |past| < MaxChallenges(cfg, pair) && Cooldown(cfg, pair) <= HOUR
          && (past != [] ==> t - past[|past| - 1] >= Cooldown(cfg, pair)))
  }

  lemma RoomIsAllowed(cfg: Config, ts: seq<int>, target: Option<string>, past: seq<int>, t: int, n: nat,
                      rejections: nat)
    requires IsAt(ts, past, t, n) && HasRoom(cfg, target, past, t, n)
    ensures AgentVerdict(cfg, ts, rejections, t).Allowed? && ConversationVerdict(cfg, ts, t).Allowed?
    ensures target.Some? ==>
              ChallengeVerdict(ts, MaxChallenges(cfg, {"oracle", target.value}),
                               Cooldown(cfg, {"oracle", target.value}), t).Allowed?
  {
    MinuteAt(ts, past, t, n);
    HourAt(ts, past, t, n);
    if target.Some? { assert ts == past; }
  }

  lemma SendIsAllowed(cfg: Config, calls: seq<Call>, target: Option<string>, past: seq<int>, t: int, n: nat)
    requires HasSent(cfg, calls, target, t, past + Copies(t, n)) && IsAt(past + Copies(t, n), past, t, n)
    requires HasRoom(cfg, target, past, t, n)
    ensures VerdictOn(cfg, RunLogs(cfg, calls), SendAt(target, t)).Allowed?
  {
    VerdictIsIdeal(cfg, calls, SendAt(target, t));
    RoomIsAllowed(cfg, past + Copies(t, n), target, past, t, n, Rejections(RunLogs(cfg, calls), "oracle"));
  }

  lemma SendOneMore(cfg: Config, calls: seq<Call>, target: Option<string>, past: seq<int>, t: int, n: nat)
    requires HasSent(cfg, calls, target, t, past + Copies(t, n)) && IsAt(past + Copies(t, n), past, t, n)
    requires HasRoom(cfg, target, past, t, n)
    ensures HasSent(cfg, calls + [SendAt(target, t)], target, t, past + Copies(t, n + 1))
  {
    var c := SendAt(target, t);
    SendIsAllowed(cfg, calls, target, past, t, n);
    LastMessage(cfg, calls, c);
    DoneIsBefore(calls, t, c);
    assert (calls + [c])[..|calls|] == calls;
    assert past + Copies(t, n) + [t] == past + Copies(t, n + 1);
    TimesAppend(RunHistory(cfg, calls), MessageOf(c), "oracle", "talk",
                if target.Some? then {"oracle", target.value} else {});
  }

  lemma {:induction false} SendMany(cfg: Config, before: seq<Call>, target: Option<string>, past: seq<int>, t: int,
                                    n: nat)
    returns (calls: seq<Call>)
    requires HasSent(cfg, before, target, t, past) && IsAt(past, past, t, 0)
    requires n > 0 ==> HasRoom(cfg, target, past, t, n - 1) && (target.Some? ==> n == 1)
    ensures HasSent(cfg, calls, target, t, past + Copies(t, n))
  {
    if n == 0 {
      calls := before;
      assert past + Copies(t, 0) == past;
    } else {
      calls := SendMany(cfg, before, target, past, t, n - 1);
      SendOneMore(cfg, calls, target, past, t, n - 1);
      calls := calls + [SendAt(target, t)];
    }
  }

  /** The time of the burst after `q` others, `gap` apart, the first at 1. */
  function TimeOf(gap: nat, q: nat): (t: nat)
    ensures t >= 1
  {
    if q == 0 then 1 else TimeOf(gap, q - 1) + gap
  }

  lemma {:induction false} TimeIs(gap: nat, q: nat)
    ensures TimeOf(gap, q) == 1 + gap * q
  {
    if q > 0 {
      TimeIs(gap, q - 1);
      assert gap * q == gap * (q - 1) + gap;
    }
  }

  /** The times of `q` bursts of `per` messages. */
  function Bursts(gap: nat, q: nat, per: nat): seq<int> {
    if q == 0 then [] else Bursts(gap, q - 1, per) + Copies(TimeOf(gap, q - 1), per)
  }

  lemma {:induction false} BurstsAre(gap: nat, q: nat, per: nat)
    requires per > 0
    ensures var ts := Bursts(gap, q, per);
      |ts| == Filled(q, per) && (forall i :: 0 <= i < |ts| ==> 1 <= ts[i] <= TimeOf(gap, q) - gap)
      && (q > 0 ==> ts != [] && ts[0] == 1 && ts[|ts| - 1] == TimeOf(gap, q - 1))
  {
    if q > 0 { BurstsAre(gap, q - 1, per); }
  }

  lemma {:induction false} FilledAtMost(q: nat, most: nat, per: nat)
    requires q <= most
    ensures Filled(q, per) <= Filled(most, per)
  {
    if q < most { FilledAtMost(q, most - 1, per); }
  }

  lemma SentLater(cfg: Config, calls: seq<Call>, target: Option<string>, t: int, later: int, ts: seq<int>)
    requires HasSent(cfg, calls, target, t, ts) && t <= later
    ensures HasSent(cfg, calls, target, later, ts)
  {
    DoneLater(calls, t, later);
  }

  lemma NothingSent(cfg: Config, target: Option<string>)
    ensures HasSent(cfg, [], target, 1, [])
  {
  }

  lemma DefaultLimits()
    ensures AgentMinuteLimit(DEFAULT_CONFIG) == 15 && Filled(8, 15) == 120 && Filled(5, 1) == 5
    ensures MaxChallenges(DEFAULT_CONFIG, {"oracle", "synth"}) == 5
    ensures Cooldown(DEFAULT_CONFIG, {"oracle", "synth"}) == 600_000
  {
    FilledIs(8, 15);
    FilledIs(5, 1);
  }

  /** The limits leave room for the burst after `q` others, within the first hour. */
  ghost predicate HasRoomAt(cfg: Config, target: Option<string>, gap: nat, q: nat, per: nat) {
    && per > 0 && gap > MINUTE && TimeOf(gap, q) <= HOUR && (target.Some? ==> per == 1)
    && HasRoom(cfg, target, Bursts(gap, q, per), TimeOf(gap, q), per - 1)
  }

  lemma BurstOn(cfg: Config, before: seq<Call>, target: Option<string>, gap: nat, q: nat, per: nat)
    returns (calls: seq<Call>)
    requires HasRoomAt(cfg, target, gap, q, per)
    requires HasSent(cfg, before, target, TimeOf(gap, q), Bursts(gap, q, per))
    ensures HasSent(cfg, calls, target, TimeOf(gap, q + 1), Bursts(gap, q + 1, per))
  {
    var t, past := TimeOf(gap, q), Bursts(gap, q, per);
    BurstsAre(gap, q, per);
    assert past + Copies(t, 0) == past;
    calls := SendMany(cfg, before, target, past, t, per);
    SentLater(cfg, calls, target, t, TimeOf(gap, q + 1), past + Copies(t, per));
  }

  lemma {:induction false} SendBursts(cfg: Config, target: Option<string>, gap: nat, q: nat, per: nat)
    returns (calls: seq<Call>)
    requires forall j :: 0 <= j < q ==> HasRoomAt(cfg, target, gap, j, per)
    ensures HasSent(cfg, calls, target, TimeOf(gap, q), Bursts(gap, q, per))
  {
    if q == 0 {
      calls := [];
      NothingSent(cfg, target);
    } else {
      calls := SendBursts(cfg, target, gap, q - 1, per);
      calls := BurstOn(cfg, calls, target, gap, q - 1, per);
    }
  }

  lemma RoomToTalk(q: nat)
    requires q < 8
    ensures HasRoomAt(DEFAULT_CONFIG, None, 60_001, q, 15)
  {
    DefaultLimits();
    BurstsAre(60_001, q, 15);
    FilledAtMost(q, 7, 15);
    FilledIs(7, 15);
    TimeIs(60_001, q);
  }

  lemma RoomToQuarrel(q: nat)
    requires q < 5
    ensures HasRoomAt(DEFAULT_CONFIG, Some("synth"), 600_000, q, 1)
  {
    DefaultLimits();
    BurstsAre(600_000, q, 1);
    FilledIs(q, 1);
    TimeIs(600_000, q);
  }

  /** Fifteen messages a minute, the most the default allows, for eight minutes. */
  lemma Talk() returns (calls: seq<Call>)
    ensures HasSent(DEFAULT_CONFIG, calls, None, TimeOf(60_001, 8), Bursts(60_001, 8, 15))
  {
    forall j | 0 <= j < 8 ensures HasRoomAt(DEFAULT_CONFIG, None, 60_001, j, 15) { RoomToTalk(j); }
    calls := SendBursts(DEFAULT_CONFIG, None, 60_001, 8, 15);
  }

  /** A challenge every ten minutes, the shortest the default allows between oracle and synth, five times. */
  lemma Quarrel() returns (calls: seq<Call>)
    ensures HasSent(DEFAULT_CONFIG, calls, Some("synth"), TimeOf(600_000, 5), Bursts(600_000, 5, 1))
  {
    forall j | 0 <= j < 5 ensures HasRoomAt(DEFAULT_CONFIG, Some("synth"), 600_000, j, 1) { RoomToQuarrel(j); }
    calls := SendBursts(DEFAULT_CONFIG, Some("synth"), 600_000, 5, 1);
  }

  lemma HourOfBursts(gap: nat, q: nat, per: nat, now: int)
    requires per > 0 && q > 0 && now <= HOUR + 1
    ensures CountIn(Bursts(gap, q, per), HOUR, now) == Filled(q, per)
    ensures OldestIn(Bursts(gap, q, per), HOUR, now) == Some(1)
  {
    BurstsAre(gap, q, per);
    FromAll(Bursts(gap, q, per), now - HOUR);
  }

  lemma MinuteOfBursts(gap: nat, q: nat, per: nat, now: int)
    requires per > 0 && now >= TimeOf(gap, q) && gap > MINUTE
    ensures CountIn(Bursts(gap, q, per), MINUTE, now) == 0
  {
    BurstsAre(gap, q, per);
    NoneFrom(Bursts(gap, q, per), now - MINUTE);
  }

  lemma TalkIsFull(h: History, c: Call)
    requires c == Check("oracle", "talk", None, TimeOf(60_001, 8)) && AgentTimes(h, "oracle") == Bursts(60_001, 8, 15)
    ensures IsFirstFull(DEFAULT_CONFIG, h, c, AgentPerHour)
    ensures OldestOf(h, c, AgentPerHour) == Some(1) && RestOf(h, c, AgentPerHour) >= BACKOFF_CAP
  {
    DefaultLimits();
    TimeIs(60_001, 8);
    HourOfBursts(60_001, 8, 15, c.at);
    MinuteOfBursts(60_001, 8, 15, c.at);
  }

  lemma TalkIsOver(calls: seq<Call>, c: Call)
    requires c == Check("oracle", "talk", None, TimeOf(60_001, 8))
    requires HasSent(DEFAULT_CONFIG, calls, None, c.at, Bursts(60_001, 8, 15))
    ensures IsOver(VerdictOn(DEFAULT_CONFIG, RunLogs(DEFAULT_CONFIG, calls), c), AgentPerHour)
    ensures forall rejections: nat ::
              IsAdviceShort(DEFAULT_CONFIG, RunHistory(DEFAULT_CONFIG, calls), rejections, c, AgentPerHour)
  {
    TalkIsFull(RunHistory(DEFAULT_CONFIG, calls), c);
    OverIff(DEFAULT_CONFIG, calls, c, AgentPerHour);
  }

  /** Eight minutes of talk use up the hour. The advice is five minutes, the cap of the exponential backoff,
      while the hour lasts for fifty more: the retry on advice is rejected again. */
  lemma AdviceFallsShort() returns (calls: seq<Call>, c: Call)
    ensures c.Check? && ClockMoves(calls + [c]) && InTurn(calls + [c])
    ensures IsOver(VerdictOn(DEFAULT_CONFIG, RunLogs(DEFAULT_CONFIG, calls), c), AgentPerHour)
    ensures var retry := Later(c, VerdictOn(DEFAULT_CONFIG, RunLogs(DEFAULT_CONFIG, calls), c).retryAfterMs);
      IsOver(VerdictOn(DEFAULT_CONFIG, RunLogs(DEFAULT_CONFIG, calls + [c]), retry), AgentPerHour)
  {
    calls := Talk();
    c := Check("oracle", "talk", None, TimeOf(60_001, 8));
    assert (calls + [c])[..|calls|] == calls;
    DoneIsBefore(calls, c.at, c);
    TalkIsOver(calls, c);
    RetryOnAdviceIff(DEFAULT_CONFIG, calls, c, AgentPerHour);
  }

  lemma PairIsOver(calls: seq<Call>, c: Call)
    requires c == Check("oracle", "talk", Some("synth"), TimeOf(600_000, 5))
    requires HasSent(DEFAULT_CONFIG, calls, Some("synth"), c.at, Bursts(600_000, 5, 1))
    ensures IsOver(PairVerdict(DEFAULT_CONFIG, Bursts(600_000, 5, 1), {"oracle", "synth"}, c.at), ChallengePerHour)
    ensures IsNoneFull(DEFAULT_CONFIG, RunHistory(DEFAULT_CONFIG, calls), c)
  {
    DefaultLimits();
    TimeIs(600_000, 5);
    BurstsAre(600_000, 5, 1);
    HourOfBursts(600_000, 5, 1, c.at);
    MinuteOfBursts(600_000, 5, 1, c.at);
  }

  lemma QuarrelIsOver(calls: seq<Call>, c: Call)
    requires c == Check("oracle", "talk", Some("synth"), TimeOf(600_000, 5))
    requires HasSent(DEFAULT_CONFIG, calls, Some("synth"), c.at, Bursts(600_000, 5, 1))
    ensures IsOver(VerdictOn(DEFAULT_CONFIG, RunLogs(DEFAULT_CONFIG, calls), c), ChallengePerHour)
    ensures IsHourKept(DEFAULT_CONFIG, StoredOf(DEFAULT_CONFIG, calls, {"oracle", "synth"}), {"oracle", "synth"}, c.at)
  {
    var pair := {"oracle", "synth"};
    PairIsOver(calls, c);
    DefaultLimits();
    RunIsIdealFor(DEFAULT_CONFIG, calls, c);
    IdealChallenge(DEFAULT_CONFIG, calls, pair, c.at);
    PairOverIff(DEFAULT_CONFIG, RunLogs(DEFAULT_CONFIG, calls), RunHistory(DEFAULT_CONFIG, calls), c, pair,
                ChallengePerHour);
    SameHourIn(DEFAULT_CONFIG, calls, pair, c.at);
    TimeIs(600_000, 5);
    HourOfBursts(600_000, 5, 1, c.at);
  }

  /** Five challenges of a pair, ten minutes apart, and the sixth meets the hourly limit: the retry on
      advice comes when the first is exactly an hour old, and is rejected again. */
  lemma ChallengeAdviceFallsShort() returns (calls: seq<Call>, c: Call)
    ensures c.Check? && c.target == Some("synth") && ClockMoves(calls + [c]) && InTurn(calls + [c])
    ensures IsOver(VerdictOn(DEFAULT_CONFIG, RunLogs(DEFAULT_CONFIG, calls), c), ChallengePerHour)
    ensures var retry := Later(c, VerdictOn(DEFAULT_CONFIG, RunLogs(DEFAULT_CONFIG, calls), c).retryAfterMs);
      IsOver(VerdictOn(DEFAULT_CONFIG, RunLogs(DEFAULT_CONFIG, calls + [c]), retry), ChallengePerHour)
  {
    calls := Quarrel();
    c := Check("oracle", "talk", Some("synth"), TimeOf(600_000, 5));
    assert (calls + [c])[..|calls|] == calls;
    DoneIsBefore(calls, c.at, c);
    QuarrelIsOver(calls, c);
    ChallengeRetryOnAdviceIff(DEFAULT_CONFIG, calls, c, {"oracle", "synth"});
  }
}
