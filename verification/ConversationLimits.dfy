/** The engine with its rate limiter (lib/conversation-engine.ts:444-637, lib/conversation-security.ts:57-75):
    what the limits bound is the messages the engine delivers. */
module ConversationLimits {
  import opened Wrappers
  import opened ConversationEngine
  import Safety = ConversationSafety
  import Limiter = RateLimiter
  import opened RateLimitHistory

  /** The name the limiter knows a party by. */
  function NameOf(p: Party): string {
    match p
    case User => "user"
    case Operator => "system"
    case Broadcast => "broadcast"
    case Agent(name) => name
  }

  /** An operation of the engine on one of its conversations, with the times of the check and the records it
      makes, or a prune of the limiter. `asked` tells of a call that throws whether it throws after the check. */
  datatype Event = Ask(id: string, op: Operation, at: int, recordedAt: int, challengedAt: int, asked: bool)
                 | Cut(at: int)

  function RouteOf(r: Request, x: Answers): Option<seq<Party>> { if r.to.Some? then r.to else x.route }

  /** A challenge is one of the first recipient. */
  function TargetOf(cfg: EngineConfig, r: Request, x: Answers): Option<string>
    requires RouteOf(r, x).Some?
  {
    var deliveredTo := Recipients(cfg, r, RouteOf(r, x).value, x.affinity);
    if r.isChallenge && deliveredTo != [] then Some(NameOf(deliveredTo[0])) else None
  }

  /** The check passes the gates and knows its recipients before it asks the limiter. */
  predicate AsksLimiter(cfg: EngineConfig, s: Conversation, e: Event) {
    e.Ask? && e.op.Send? && Gate(cfg, s, e.op.r).None? && RouteOf(e.op.r, e.op.x).Some? && (e.op.x.raises ==> e.asked)
  }

  predicate Delivers(cfg: EngineConfig, s: Conversation, e: Event) {
    e.Ask? && e.op.Send? && var v := Judge(cfg, s, e.op.r, e.op.x); v.Checked? && v.m.status == Delivered
  }

  /** What the limiter hears of an event: a check, and records if the message is delivered. */
  function CallOf(cfg: EngineConfig, s: Conversation, e: Event): Call
    requires AsksLimiter(cfg, s, e)
  {
    var agent, target := NameOf(e.op.r.sender), TargetOf(cfg, e.op.r, e.op.x);
    if Delivers(cfg, s, e) then RateLimitHistory.Send(agent, e.id, target, e.at, e.recordedAt, e.challengedAt)
    else Check(agent, e.id, target, e.at)
  }

  function CallsOf(cfg: EngineConfig, store: map<string, Conversation>, e: Event): seq<Call> {
    if e.Cut? then [Prune(e.at)]
    else if e.id in store && AsksLimiter(cfg, store[e.id], e) then [CallOf(cfg, store[e.id], e)]
    else []
  }

  function StoreAfter(cfg: EngineConfig, store: map<string, Conversation>, e: Event): map<string, Conversation> {
    if e.Cut? || e.id !in store || Apply(cfg, e.op, store[e.id]).None? then store
    else store[e.id := Apply(cfg, e.op, store[e.id]).value]
  }

  /** The conversations after a run, and the calls the limiter got. */
  function After(cfg: EngineConfig, events: seq<Event>, start: map<string, Conversation>)
    : (map<string, Conversation>, seq<Call>)
  {
    if events == [] then (start, []) else
      var before, e := After(cfg, events[..|events| - 1], start), events[|events| - 1];
      (StoreAfter(cfg, before.0, e), before.1 + CallsOf(cfg, before.0, e))
  }

  /** The answer each check got is the limiter's. */
  predicate IsAnswered(lim: Limiter.Config, e: Event, calls: seq<Call>, more: seq<Call>) {
    e.Ask? && e.op.Send? && |more| == 1 && !more[0].Prune? ==>
      e.op.x.rateAllowed == VerdictOn(lim, RunLogs(lim, calls), more[0]).Allowed?
  }

  predicate IsCoupled(cfg: EngineConfig, lim: Limiter.Config, events: seq<Event>, start: map<string, Conversation>) {
    events == []
    || var before, e := After(cfg, events[..|events| - 1], start), events[|events| - 1];
       IsCoupled(cfg, lim, events[..|events| - 1], start) && IsAnswered(lim, e, before.1, CallsOf(cfg, before.0, e))
  }

  // ----- What is bounded -----

  datatype Scope = OfAgent(agent: string) | OfConversation(id: string) | OfPair(pair: set<string>)

  function TimesIn(h: History, scope: Scope): seq<int> {
    match scope
    case OfAgent(agent) => AgentTimes(h, agent)
    case OfConversation(id) => ConversationTimes(h, id)
    case OfPair(pair) => ChallengeTimes(h, pair)
  }

  function Mark(c: Call, scope: Scope): seq<int>
    requires c.Send?
  {
    match scope
    case OfAgent(agent) => if c.agent == agent then [c.recordedAt] else []
    case OfConversation(id) => if c.conversation == id then [c.recordedAt] else []
    case OfPair(pair) => if Limiter.PairOf(c.agent, c.target) == Some(pair) then [c.challengedAt] else []
  }

  /** An event whose message is delivered, and stays in the log. */
  predicate IsLogged(cfg: EngineConfig, store: map<string, Conversation>, e: Event) {
    e.Ask? && e.id in store && e.op.Send? && Safety.DeliveredBy(cfg, e.op, store[e.id]) != []
  }

  lemma LoggedIsDelivered(cfg: EngineConfig, store: map<string, Conversation>, e: Event)
    requires IsLogged(cfg, store, e)
    ensures var s := store[e.id];
      Delivers(cfg, s, e) && AsksLimiter(cfg, s, e) && e.op.x.rateAllowed
        && CallsOf(cfg, store, e) == [CallOf(cfg, s, e)]
  {
    var s := store[e.id];
    assert Ruling(cfg, s, e.op.r, e.op.x).Checked?;
    assert Judge(cfg, s, e.op.r, e.op.x).Checked?;
  }

  /** The times of the logged deliveries of an agent, to a conversation, or of a pair's challenges. */
  function Logged(cfg: EngineConfig, events: seq<Event>, start: map<string, Conversation>, scope: Scope): seq<int> {
    if events == [] then [] else
      var before, e := After(cfg, events[..|events| - 1], start).0, events[|events| - 1];
      Logged(cfg, events[..|events| - 1], start, scope)
      + if !IsLogged(cfg, before, e) then [] else
          LoggedIsDelivered(cfg, before, e);
          Mark(CallOf(cfg, before[e.id], e), scope)
  }

  lemma {:induction false} WithinConcat(a: seq<int>, b: seq<int>, lo: int, hi: int)
    ensures Within(a + b, lo, hi) == Within(a, lo, hi) + Within(b, lo, hi)
  {
    if b == [] {
      assert a + b == a;
    } else {
      assert (a + b)[..|a + b| - 1] == a + b[..|b| - 1];
      WithinConcat(a, b[..|b| - 1], lo, hi);
    }
  }

  /** One call more: the limiter's history grows by what it allows a message to record. */
  lemma TimesAfter(lim: Limiter.Config, calls: seq<Call>, c: Call, scope: Scope)
    ensures var more := if c.Send? && VerdictOn(lim, RunLogs(lim, calls), c).Allowed? then Mark(c, scope) else [];
      TimesIn(RunHistory(lim, calls + [c]), scope) == TimesIn(RunHistory(lim, calls), scope) + more
  {
    var h := RunHistory(lim, calls);
    LastMessage(lim, calls, c);
    if c.Send? && VerdictOn(lim, RunLogs(lim, calls), c).Allowed? {
      match scope
      case OfAgent(agent) => TimesAppend(h, MessageOf(c), agent, "", {});
      case OfConversation(id) => TimesAppend(h, MessageOf(c), "", id, {});
      case OfPair(pair) => TimesAppend(h, MessageOf(c), "", "", pair);
    } else {
      assert TimesIn(h, scope) + [] == TimesIn(h, scope);
    }
  }

  ghost predicate IsFewer(few: seq<int>, many: seq<int>) {
    forall lo, hi :: |Within(few, lo, hi)| <= |Within(many, lo, hi)|
  }

  lemma FewerGrows(few: seq<int>, many: seq<int>, a: seq<int>, b: seq<int>)
    requires IsFewer(few, many) && (a == [] || a == b)
    ensures IsFewer(few + a, many + b)
  {
    forall lo, hi ensures |Within(few + a, lo, hi)| <= |Within(many + b, lo, hi)| {
      WithinConcat(few, a, lo, hi);
      WithinConcat(many, b, lo, hi);
    }
  }

  lemma EventFewer(cfg: EngineConfig, lim: Limiter.Config, store: map<string, Conversation>, calls: seq<Call>, e: Event,
                   few: seq<int>, scope: Scope)
    requires IsAnswered(lim, e, calls, CallsOf(cfg, store, e)) && IsFewer(few, TimesIn(RunHistory(lim, calls), scope))
    ensures IsLogged(cfg, store, e) ==> AsksLimiter(cfg, store[e.id], e) && CallOf(cfg, store[e.id], e).Send?
    ensures IsFewer(few + if IsLogged(cfg, store, e) then Mark(CallOf(cfg, store[e.id], e), scope) else [],
                    TimesIn(RunHistory(lim, calls + CallsOf(cfg, store, e)), scope))
  {
    var more := CallsOf(cfg, store, e);
    var times := TimesIn(RunHistory(lim, calls), scope);
    if IsLogged(cfg, store, e) { LoggedIsDelivered(cfg, store, e); }
    if more == [] {
      assert calls + more == calls && times + [] == times;
      FewerGrows(few, times, [], []);
    } else {
      var c := more[0];
      assert more == [c];
      TimesAfter(lim, calls, c, scope);
      FewerGrows(few, times, if IsLogged(cfg, store, e) then Mark(c, scope) else [],
                 if c.Send? && VerdictOn(lim, RunLogs(lim, calls), c).Allowed? then Mark(c, scope) else []);
    }
  }

  /** Every delivery the engine logs is one the limiter has recorded. */
  lemma {:induction false} LoggedAreRecorded(cfg: EngineConfig, lim: Limiter.Config, events: seq<Event>,
                                             start: map<string, Conversation>, scope: Scope)
    requires IsCoupled(cfg, lim, events, start)
    ensures IsFewer(Logged(cfg, events, start, scope), TimesIn(RunHistory(lim, After(cfg, events, start).1), scope))
  {
    if events != [] {
      var earlier, e := events[..|events| - 1], events[|events| - 1];
      LoggedAreRecorded(cfg, lim, earlier, start, scope);
      var before := After(cfg, earlier, start);
      EventFewer(cfg, lim, before.0, before.1, e, Logged(cfg, earlier, start, scope), scope);
    }
  }

  lemma FewerIsBounded(few: seq<int>, many: seq<int>, windowMs: int, limit: int)
    requires IsFewer(few, many) && Bounded(many, windowMs, limit)
    ensures Bounded(few, windowMs, limit)
  {
  }

  /** Over every run of the engine with its limiter, in any closed minute and hour no more messages of an agent,
      and no more messages to a conversation, are delivered than the limits allow, nor more challenges of a pair. */
  lemma DeliveriesAreBounded(cfg: EngineConfig, lim: Limiter.Config, events: seq<Event>,
                             start: map<string, Conversation>,
                             agent: string, id: string, pair: set<string>)
    requires IsCoupled(cfg, lim, events, start) && ClockMoves(After(cfg, events, start).1)
    ensures Bounded(Logged(cfg, events, start, OfAgent(agent)), Limiter.MINUTE, Limiter.AgentMinuteLimit(lim))
    ensures Bounded(Logged(cfg, events, start, OfAgent(agent)), Limiter.HOUR, lim.agentPerHour)
    ensures Bounded(Logged(cfg, events, start, OfConversation(id)), Limiter.MINUTE, lim.conversationPerMinute)
    ensures Bounded(Logged(cfg, events, start, OfConversation(id)), Limiter.HOUR, lim.conversationPerHour)
    ensures Bounded(Logged(cfg, events, start, OfPair(pair)), Limiter.HOUR, Limiter.MaxChallenges(lim, pair))
  {
    var calls := After(cfg, events, start).1;
    RunIsBounded(lim, calls, agent, id);
    ChallengesAreBounded(lim, calls, pair);
    LoggedAreRecorded(cfg, lim, events, start, OfAgent(agent));
    LoggedAreRecorded(cfg, lim, events, start, OfConversation(id));
    LoggedAreRecorded(cfg, lim, events, start, OfPair(pair));
    var h := RunHistory(lim, calls);
    FewerIsBounded(Logged(cfg, events, start, OfAgent(agent)), AgentTimes(h, agent), Limiter.MINUTE,
                   Limiter.AgentMinuteLimit(lim));
    FewerIsBounded(Logged(cfg, events, start, OfAgent(agent)), AgentTimes(h, agent), Limiter.HOUR, lim.agentPerHour);
    FewerIsBounded(Logged(cfg, events, start, OfConversation(id)), ConversationTimes(h, id), Limiter.MINUTE,
                   lim.conversationPerMinute);
    FewerIsBounded(Logged(cfg, events, start, OfConversation(id)), ConversationTimes(h, id), Limiter.HOUR,
                   lim.conversationPerHour);
    FewerIsBounded(Logged(cfg, events, start, OfPair(pair)), ChallengeTimes(h, pair), Limiter.HOUR,
                   Limiter.MaxChallenges(lim, pair));
  }
}
