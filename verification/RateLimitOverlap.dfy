/** Overlapping calls of one agent. The lock is kept per conversation, so an agent that speaks in several
    conversations has several messages checked before any of them is recorded. */
module RateLimitOverlap {
  import opened Wrappers
  import opened RateLimiter
  import opened RateLimitHistory

  /** What happens to an agent's window: a message is checked, an allowed one is recorded or given up, and
      old entries are pruned. */
  datatype Event = Ask(at: int) | Log(at: int) | GiveUp(at: int) | Cut(at: int)

  /** The window and the rejection count, everything ever recorded, and how many allowed messages are
      under way. */
  datatype Flight = Flight(stored: seq<int>, rejections: nat, all: seq<int>, pending: nat, cutoff: Option<int>)

  const Idle := Flight([], 0, [], 0, None)

  function Next(cfg: Config, s: Flight, e: Event): Flight {
    match e
    case Ask(at) =>
      if AgentVerdict(cfg, s.stored, s.rejections, at).Allowed? then s.(pending := s.pending + 1, rejections := 0)
      else s.(rejections := s.rejections + 1)
    case Log(at) =>
      if s.pending == 0 then s else s.(stored := s.stored + [at], all := s.all + [at], pending := s.pending - 1)
    case GiveUp(at) => if s.pending == 0 then s else s.(pending := s.pending - 1)
    case Cut(at) => s.(stored := From(s.stored, at - HOUR), cutoff := Some(at - HOUR))
  }

  /** An allowed message finds both windows short of their limits, so the minute short of the smaller one. */
  lemma AllowedIff(cfg: Config, ts: seq<int>, rejections: nat, now: int)
    ensures AgentVerdict(cfg, ts, rejections, now).Allowed? <==>
              CountIn(ts, MINUTE, now) < AgentMinuteLimit(cfg) && CountIn(ts, HOUR, now) < cfg.agentPerHour
    ensures AgentVerdict(cfg, ts, rejections, now).Allowed? ==> CountIn(ts, MINUTE, now) < cfg.agentPerHour
  {
    FromShrinks(ts, now - HOUR, now - MINUTE);
  }

  function Run(cfg: Config, events: seq<Event>): Flight {
    if events == [] then Idle else Next(cfg, Run(cfg, events[..|events| - 1]), events[|events| - 1])
  }

  /** The clock does not go back, and never more than `most` messages are under way. */
  predicate Overlaps(cfg: Config, events: seq<Event>, most: nat) {
    events == []
    || var before := events[..|events| - 1];
       Overlaps(cfg, before, most) && Run(cfg, events).pending <= most
       && (before != [] ==> before[|before| - 1].at <= events[|events| - 1].at)
  }

  ghost predicate RoomFor(all: seq<int>, pending: nat, windowMs: int, total: int, now: int) {
    forall lo :: lo >= now - windowMs ==> |From(all, lo)| + pending <= total
  }

  /** Messages recorded or under way never exceed the limit and the overlap, less one. */
  ghost predicate Keeps(s: Flight, windowMs: int, total: int, now: int) {
    && RoomFor(s.all, s.pending, windowMs, total, now)
    && Bounded(s.all, windowMs, total)
    && s.stored == Kept(s.all, s.cutoff) && (s.cutoff.Some? ==> s.cutoff.value <= now - HOUR)
  }

  lemma AskKeeps(s: Flight, windowMs: int, limit: int, most: nat, now: int)
    requires 0 < windowMs <= HOUR && s.stored == Kept(s.all, s.cutoff)
    requires (s.cutoff.Some? ==> s.cutoff.value <= now - HOUR)
    requires CountIn(s.stored, windowMs, now) < limit && s.pending < most
    ensures RoomFor(s.all, s.pending + 1, windowMs, limit + most - 1, now)
  {
    if s.cutoff.Some? { FromFrom(s.all, s.cutoff.value, now - windowMs); }
    forall lo | lo >= now - windowMs ensures |From(s.all, lo)| + s.pending + 1 <= limit + most - 1 {
      FromShrinks(s.all, now - windowMs, lo);
    }
  }

  lemma LogKeeps(all: seq<int>, pending: nat, windowMs: int, total: nat, now: int)
    requires RoomFor(all, pending + 1, windowMs, total, now) && Bounded(all, windowMs, total)
    ensures RoomFor(all + [now], pending, windowMs, total, now) && Bounded(all + [now], windowMs, total)
  {
    forall lo | lo >= now - windowMs ensures |From(all + [now], lo)| + pending <= total {
      FromAppend(all, now, lo);
    }
    forall lo, hi | hi <= lo + windowMs ensures |Within(all + [now], lo, hi)| <= total {
      assert (all + [now])[..|all|] == all;
      assert Within(all + [now], lo, hi) ==
        if lo <= now <= hi then Within(all, lo, hi) + [now] else Within(all, lo, hi);
      if lo <= now <= hi { WithinIsFrom(all, lo, hi); }
    }
  }

  /** The limits that hold of a window of this length: the hour's holds of the minute too. */
  function LimitFor(cfg: Config, windowMs: int): int {
    if windowMs == MINUTE && AgentMinuteLimit(cfg) < cfg.agentPerHour then AgentMinuteLimit(cfg) else cfg.agentPerHour
  }

  predicate IsWindow(windowMs: int) { windowMs == MINUTE || windowMs == HOUR }

  lemma NextKeeps(cfg: Config, s: Flight, e: Event, windowMs: int, most: nat)
    requires IsWindow(windowMs) && most > 0 && 0 < LimitFor(cfg, windowMs)
    requires Keeps(s, windowMs, LimitFor(cfg, windowMs) + most - 1, e.at)
    requires Next(cfg, s, e).pending <= most
    ensures Keeps(Next(cfg, s, e), windowMs, LimitFor(cfg, windowMs) + most - 1, e.at)
  {
    var total := LimitFor(cfg, windowMs) + most - 1;
    match e
    case Ask(at) =>
      AllowedIff(cfg, s.stored, s.rejections, at);
      if AgentVerdict(cfg, s.stored, s.rejections, at).Allowed? {
        AskKeeps(s, windowMs, LimitFor(cfg, windowMs), most, at);
      }
    case Log(at) =>
      if s.pending > 0 {
        LogKeeps(s.all, s.pending - 1, windowMs, total, at);
        if s.cutoff.Some? { FromAppend(s.all, at, s.cutoff.value); }
      }
    case GiveUp(at) =>
      if s.pending > 0 { LessRoom(s.all, s.pending, windowMs, total, at); }
    case Cut(at) =>
      if s.cutoff.Some? { FromFrom(s.all, s.cutoff.value, at - HOUR); }
  }

  lemma LessRoom(all: seq<int>, pending: nat, windowMs: int, total: int, now: int)
    requires RoomFor(all, pending, windowMs, total, now) && pending > 0
    ensures RoomFor(all, pending - 1, windowMs, total, now)
  {
    forall lo | lo >= now - windowMs ensures |From(all, lo)| + (pending - 1) <= total {
      assert |From(all, lo)| + pending <= total;
    }
  }

  lemma LaterKeeps(s: Flight, windowMs: int, total: int, now: int, later: int)
    requires Keeps(s, windowMs, total, now) && now <= later
    ensures Keeps(s, windowMs, total, later)
  {
    forall lo | lo >= later - windowMs ensures |From(s.all, lo)| + s.pending <= total {
      assert lo >= now - windowMs;
    }
  }

  lemma {:induction false} RunKeeps(cfg: Config, events: seq<Event>, windowMs: int, most: nat)
    requires IsWindow(windowMs) && most > 0 && 0 < LimitFor(cfg, windowMs) && events != []
    requires Overlaps(cfg, events, most)
    ensures Keeps(Run(cfg, events), windowMs, LimitFor(cfg, windowMs) + most - 1, events[|events| - 1].at)
  {
    var before, e := events[..|events| - 1], events[|events| - 1];
    if before != [] {
      RunKeeps(cfg, before, windowMs, most);
      LaterKeeps(Run(cfg, before), windowMs, LimitFor(cfg, windowMs) + most - 1, before[|before| - 1].at, e.at);
    }
    NextKeeps(cfg, Run(cfg, before), e, windowMs, most);
  }

  /** Where a limit is not positive, nothing is ever allowed. */
  lemma {:induction false} NothingAllowed(cfg: Config, events: seq<Event>)
    requires AgentMinuteLimit(cfg) <= 0 || cfg.agentPerHour <= 0
    ensures Run(cfg, events).all == [] && Run(cfg, events).pending == 0
  {
    if events != [] {
      var s, e := Run(cfg, events[..|events| - 1]), events[|events| - 1];
      NothingAllowed(cfg, events[..|events| - 1]);
      if e.Ask? { AllowedIff(cfg, s.stored, s.rejections, e.at); }
    }
  }

  // ----- How much the windows can hold -----

  function Min(a: int, b: int): int { if a < b then a else b }

  /** With up to `most` messages under way at once, a closed minute can hold `most - 1` more than the
      smaller limit. */
  function MinuteBound(cfg: Config, most: nat): int {
    if AgentMinuteLimit(cfg) <= 0 || cfg.agentPerHour <= 0 then 0
    else Min(AgentMinuteLimit(cfg), cfg.agentPerHour) + most - 1
  }

  /** And a closed hour `most - 1` more than its limit, or what its sixty minutes can hold. */
  function HourBound(cfg: Config, most: nat): int {
    if AgentMinuteLimit(cfg) <= 0 || cfg.agentPerHour <= 0 then 0
    else Min(cfg.agentPerHour + most - 1, 60 * (AgentMinuteLimit(cfg) + most - 1))
  }

  lemma {:induction false} WithinSplits(ts: seq<int>, lo: int, mid: int, hi: int)
    requires lo <= mid <= hi
    ensures |Within(ts, lo, hi)| <= |Within(ts, lo, mid)| + |Within(ts, mid + 1, hi)|
  {
    if ts != [] { WithinSplits(ts[..|ts| - 1], lo, mid, hi); }
  }

  lemma {:induction false} WithinNarrows(ts: seq<int>, lo: int, hi: int, later: int)
    requires hi <= later
    ensures |Within(ts, lo, hi)| <= |Within(ts, lo, later)|
  {
    if ts != [] { WithinNarrows(ts[..|ts| - 1], lo, hi, later); }
  }

  /** Milliseconds are whole, so `n` closed minutes side by side last `60_001 * n`. */
  lemma {:induction false} MinutesAddUp(ts: seq<int>, lo: int, n: nat, total: nat)
    requires Bounded(ts, MINUTE, total) && n > 0
    ensures |Within(ts, lo, lo + 60_001 * n - 1)| <= n * total
  {
    assert |Within(ts, lo + 60_001 * (n - 1), lo + 60_001 * n - 1)| <= total;
    if n > 1 {
      MinutesAddUp(ts, lo, n - 1, total);
      WithinSplits(ts, lo, lo + 60_001 * (n - 1) - 1, lo + 60_001 * n - 1);
    }
  }

  lemma HourOfMinutes(ts: seq<int>, total: nat)
    requires Bounded(ts, MINUTE, total)
    ensures Bounded(ts, HOUR, 60 * total)
  {
    forall lo, hi | hi <= lo + HOUR ensures |Within(ts, lo, hi)| <= 60 * total {
      MinutesAddUp(ts, lo, 60, total);
      WithinNarrows(ts, lo, hi, lo + 60_001 * 60 - 1);
    }
  }

  lemma BoundedWithMore(ts: seq<int>, windowMs: int, few: nat, many: nat)
    requires Bounded(ts, windowMs, few) && few <= many
    ensures Bounded(ts, windowMs, many)
  {
  }

  lemma NothingIsBounded(windowMs: int)
    ensures Bounded([], windowMs, 0)
  {
  }

  /** Over every run with at most `most` messages of an agent under way at once, however they overlap,
      each closed minute and hour keeps these bounds. */
  lemma OverlapIsBounded(cfg: Config, events: seq<Event>, most: nat)
    requires most > 0 && Overlaps(cfg, events, most)
    ensures Bounded(Run(cfg, events).all, MINUTE, MinuteBound(cfg, most))
    ensures Bounded(Run(cfg, events).all, HOUR, HourBound(cfg, most))
  {
    NothingIsBounded(MINUTE);
    NothingIsBounded(HOUR);
    var ts := Run(cfg, events).all;
    if AgentMinuteLimit(cfg) <= 0 || cfg.agentPerHour <= 0 {
      NothingAllowed(cfg, events);
    } else if events == [] {
      BoundedWithMore([], MINUTE, 0, MinuteBound(cfg, most));
      BoundedWithMore([], HOUR, 0, HourBound(cfg, most));
    } else {
      RunKeeps(cfg, events, MINUTE, most);
      RunKeeps(cfg, events, HOUR, most);
      BoundedWithMore(ts, MINUTE, MinuteBound(cfg, most), AgentMinuteLimit(cfg) + most - 1);
      HourOfMinutes(ts, AgentMinuteLimit(cfg) + most - 1);
    }
  }

  // ----- The bounds are reached -----

  /** The events of a run that only asks and records, none of them after `t`. */
  ghost predicate IsFilled(cfg: Config, events: seq<Event>, most: nat, t: int, ts: seq<int>, pending: nat) {
    && Overlaps(cfg, events, most) && (events != [] ==> events[|events| - 1].at <= t)
    && Run(cfg, events) == Flight(ts, 0, ts, pending, None)
  }

  lemma RunAppend(cfg: Config, events: seq<Event>, e: Event, most: nat)
    requires Overlaps(cfg, events, most) && (events == [] || events[|events| - 1].at <= e.at)
    ensures Run(cfg, events + [e]) == Next(cfg, Run(cfg, events), e)
    ensures Next(cfg, Run(cfg, events), e).pending <= most ==> Overlaps(cfg, events + [e], most)
  {
    assert (events + [e])[..|events|] == events;
  }

  lemma AskOneMore(cfg: Config, events: seq<Event>, most: nat, past: seq<int>, t: int, n: nat, k: nat)
    requires IsFilled(cfg, events, most, t, past + Copies(t, n), k) && IsAt(past + Copies(t, n), past, t, n)
    requires k < most && n < AgentMinuteLimit(cfg) && |past| + n < cfg.agentPerHour
    ensures IsFilled(cfg, events + [Ask(t)], most, t, past + Copies(t, n), k + 1)
  {
    MinuteAt(past + Copies(t, n), past, t, n);
    HourAt(past + Copies(t, n), past, t, n);
    AllowedIff(cfg, past + Copies(t, n), 0, t);
    RunAppend(cfg, events, Ask(t), most);
  }

  lemma LogOneMore(cfg: Config, events: seq<Event>, most: nat, past: seq<int>, t: int, n: nat, k: nat)
    requires IsFilled(cfg, events, most, t, past + Copies(t, n), k + 1) && k < most
    ensures IsFilled(cfg, events + [Log(t)], most, t, past + Copies(t, n + 1), k)
  {
    assert past + Copies(t, n) + [t] == past + Copies(t, n + 1);
    RunAppend(cfg, events, Log(t), most);
  }

  /** `n` messages, each recorded before the next is checked. */
  lemma {:induction false} OneByOne(cfg: Config, before: seq<Event>, most: nat, past: seq<int>, t: int, n: nat)
    returns (events: seq<Event>)
    requires most > 0 && IsFilled(cfg, before, most, t, past, 0) && IsAt(past, past, t, 0)
    requires n <= AgentMinuteLimit(cfg) && |past| + n <= cfg.agentPerHour
    ensures IsFilled(cfg, events, most, t, past + Copies(t, n), 0)
  {
    if n == 0 {
      events := before;
      assert past + Copies(t, 0) == past;
    } else {
      events := OneByOne(cfg, before, most, past, t, n - 1);
      AskOneMore(cfg, events, most, past, t, n - 1, 0);
      LogOneMore(cfg, events + [Ask(t)], most, past, t, n - 1, 0);
      events := events + [Ask(t)] + [Log(t)];
    }
  }

  /** `k` more messages, all checked before any of them is recorded. */
  lemma {:induction false} AskedAtOnce(cfg: Config, before: seq<Event>, most: nat, past: seq<int>, t: int, n: nat,
                                       k: nat)
    returns (events: seq<Event>)
    requires k <= most && IsFilled(cfg, before, most, t, past + Copies(t, n), 0)
    requires IsAt(past + Copies(t, n), past, t, n)
    requires n < AgentMinuteLimit(cfg) && |past| + n < cfg.agentPerHour
    ensures IsFilled(cfg, events, most, t, past + Copies(t, n), k)
  {
    if k == 0 {
      events := before;
    } else {
      events := AskedAtOnce(cfg, before, most, past, t, n, k - 1);
      AskOneMore(cfg, events, most, past, t, n, k - 1);
      events := events + [Ask(t)];
    }
  }

  lemma {:induction false} LoggedAtOnce(cfg: Config, asked: seq<Event>, most: nat, past: seq<int>, t: int, n: nat,
                                        k: nat)
    returns (events: seq<Event>)
    requires k <= most && IsFilled(cfg, asked, most, t, past + Copies(t, n), k)
    ensures IsFilled(cfg, events, most, t, past + Copies(t, n + k), 0)
    decreases k
  {
    if k == 0 {
      events := asked;
    } else {
      LogOneMore(cfg, asked, most, past, t, n, k - 1);
      events := LoggedAtOnce(cfg, asked + [Log(t)], most, past, t, n + 1, k - 1);
      assert n + 1 + (k - 1) == n + k;
    }
  }

  /** At one instant `n` messages one by one and `k` more at once. */
  lemma Burst(cfg: Config, before: seq<Event>, most: nat, past: seq<int>, t: int, n: nat, k: nat)
    returns (events: seq<Event>)
    requires 0 < most && k <= most && IsFilled(cfg, before, most, t, past, 0) && IsAt(past, past, t, 0)
    requires n <= AgentMinuteLimit(cfg) && |past| + n <= cfg.agentPerHour
    requires k > 0 ==> n < AgentMinuteLimit(cfg) && |past| + n < cfg.agentPerHour
    ensures IsFilled(cfg, events, most, t, past + Copies(t, n + k), 0)
  {
    events := OneByOne(cfg, before, most, past, t, n);
    if k > 0 {
      events := AskedAtOnce(cfg, events, most, past, t, n, k);
      events := LoggedAtOnce(cfg, events, most, past, t, n, k);
    } else {
      assert n + k == n;
    }
  }

  /** `ts` fits before the q-th minute of the hour. */
  ghost predicate IsInMinutes(ts: seq<int>, q: nat) {
    forall i :: 0 <= i < |ts| ==> 0 <= ts[i] <= 60_001 * q - 60_001
  }

  /** One more minute, short of the hour's limit. */
  lemma ReachOn(cfg: Config, most: nat, before: seq<Event>, past: seq<int>, q: nat, more: nat)
    returns (events: seq<Event>, ts: seq<int>)
    requires most > 0 && q < 59 && 0 < AgentMinuteLimit(cfg) && more <= AgentMinuteLimit(cfg) + most - 1
    requires |past| + more < cfg.agentPerHour
    requires IsInMinutes(past, q) && IsFilled(cfg, before, most, 60_001 * q, past, 0)
    ensures |ts| == |past| + more && IsInMinutes(ts, q + 1) && IsFilled(cfg, events, most, 60_001 * (q + 1), ts, 0)
  {
    var n := if more < AgentMinuteLimit(cfg) then more else AgentMinuteLimit(cfg) - 1;
    var t := 60_001 * q;
    assert past + Copies(t, 0) == past;
    events := Burst(cfg, before, most, past, t, n, more - n);
    assert n + (more - n) == more;
    ts := past + Copies(t, more);
  }

  /** Any number of messages short of the hour's limit, within the first `q` minutes. */
  lemma {:induction false} Reach(cfg: Config, most: nat, q: nat, goal: nat) returns (events: seq<Event>, ts: seq<int>)
    requires most > 0 && q <= 59 && 0 < AgentMinuteLimit(cfg)
    requires goal <= Filled(q, AgentMinuteLimit(cfg) + most - 1) && goal < cfg.agentPerHour
    ensures |ts| == goal && IsInMinutes(ts, q) && IsFilled(cfg, events, most, 60_001 * q, ts, 0)
  {
    if q == 0 {
      events, ts := [], [];
    } else {
      var before := Filled(q - 1, AgentMinuteLimit(cfg) + most - 1);
      var fewer := if goal <= before then goal else before;
      events, ts := Reach(cfg, most, q - 1, fewer);
      events, ts := ReachOn(cfg, most, events, ts, q - 1, goal - fewer);
    }
  }

  ghost predicate Holds(cfg: Config, most: nat, windowMs: int, total: nat) {
    forall events :: Overlaps(cfg, events, most) ==> Bounded(Run(cfg, events).all, windowMs, total)
  }

  lemma Exceeds(cfg: Config, most: nat, windowMs: int, total: nat, events: seq<Event>, t: int, ts: seq<int>)
    requires IsFilled(cfg, events, most, t, ts, 0) && total < |ts|
    requires forall i :: 0 <= i < |ts| ==> 0 <= ts[i] <= windowMs
    ensures !Holds(cfg, most, windowMs, total)
  {
    WithinAll(ts, 0, windowMs);
    assert |Within(Run(cfg, events).all, 0, windowMs)| > total;
    assert !Bounded(Run(cfg, events).all, windowMs, total);
  }

  lemma ReachMinute(cfg: Config, most: nat) returns (events: seq<Event>, ts: seq<int>)
    requires most > 0 && 0 < AgentMinuteLimit(cfg) && 0 < cfg.agentPerHour
    ensures IsFilled(cfg, events, most, 0, ts, 0) && |ts| == MinuteBound(cfg, most)
    ensures forall i :: 0 <= i < |ts| ==> ts[i] == 0
  {
    var n := Min(AgentMinuteLimit(cfg), cfg.agentPerHour) - 1;
    assert [] + Copies(0, 0) == [];
    events := Burst(cfg, [], most, [], 0, n, most);
    ts := [] + Copies(0, n + most);
  }

  lemma ReachHour(cfg: Config, most: nat) returns (events: seq<Event>, ts: seq<int>)
    requires most > 0 && 0 < AgentMinuteLimit(cfg) && 0 < cfg.agentPerHour
    ensures IsFilled(cfg, events, most, 60_001 * 59, ts, 0) && |ts| == HourBound(cfg, most)
    ensures forall i :: 0 <= i < |ts| ==> 0 <= ts[i] <= HOUR
  {
    var per, limit := AgentMinuteLimit(cfg) + most - 1, cfg.agentPerHour;
    var goal, t := Min(limit - 1, 59 * per), 60_001 * 59;
    FilledIs(59, per);
    events, ts := Reach(cfg, most, 59, goal);
    var n := Min(limit - 1 - goal, AgentMinuteLimit(cfg) - 1);
    assert ts + Copies(t, 0) == ts;
    events := Burst(cfg, events, most, ts, t, n, most);
    ts := ts + Copies(t, n + most);
  }

  /** These are the least bounds that hold over every run, whatever the limits. So an agent's own limits
      hold exactly when its messages never overlap, and the hour's also when sixty minutes cannot hold more. */
  lemma OverlapBoundIff(cfg: Config, most: nat, total: nat)
    requires most > 0
    ensures Holds(cfg, most, MINUTE, total) <==> total >= MinuteBound(cfg, most)
    ensures Holds(cfg, most, HOUR, total) <==> total >= HourBound(cfg, most)
  {
    forall events | Overlaps(cfg, events, most)
      ensures total >= MinuteBound(cfg, most) ==> Bounded(Run(cfg, events).all, MINUTE, total)
      ensures total >= HourBound(cfg, most) ==> Bounded(Run(cfg, events).all, HOUR, total)
    {
      OverlapIsBounded(cfg, events, most);
    }
    if total < MinuteBound(cfg, most) {
      var events, ts := ReachMinute(cfg, most);
      Exceeds(cfg, most, MINUTE, total, events, 0, ts);
    }
    if total < HourBound(cfg, most) {
      var events, ts := ReachHour(cfg, most);
      Exceeds(cfg, most, HOUR, total, events, 60_001 * 59, ts);
    }
  }
}
