/** Sending messages in a conversation (lib/conversation-engine.ts:418-768): gating, routing, mediation,
    security and hand-off checks, human-in-the-loop pausing, counters and rolling summaries. */
module ConversationEngine {
  import opened Wrappers
  import opened Hitl
  import Tokens

  datatype Party = User | Operator | Broadcast | Agent(name: string)

  datatype Status = Active | Paused | AwaitingApproval | Closed

  datatype MessageStatus = Delivered | Blocked | Rejected

  /** A logged message, with the parts of its security summary that the counters add up. */
  datatype Message = Message(id: nat, sender: Party, to: seq<Party>, deliveredTo: seq<Party>, content: string,
                             status: MessageStatus, injection: real, policyWarnings: nat, voiceViolations: nat)

  datatype Summary = Summary(covers: seq<nat>, content: string)

  datatype Conversation = Conversation(
    status: Status, participants: seq<Party>, currentTurn: Party, tokenBudget: int, tokensUsed: int, messageCount: nat,
    challengeCount: nat, consecutiveChallenges: nat, injectionScores: seq<real>, policyViolations: nat,
    voiceViolations: nat, lowestAffinity: real, summaries: seq<Summary>, messages: seq<Message>)

  datatype EngineConfig = EngineConfig(
    enforceTurns: bool, charsPerToken: int, summaryTrigger: int, chunkSize: nat, discard: bool,
    mediationThreshold: real, mediator: Party, hitl: Hitl.Config, triggers: seq<Trigger>)

  datatype Request = Request(sender: Party, to: Option<seq<Party>>, content: string, isChallenge: bool,
                             overrideTurn: bool)

  /** What one call learns from outside: the role-card route, affinities of the sender, the security
      pipeline, hand-off contracts, a new message id, refreshed affinity, the text of a summary.
      `raises` stands for any of them throwing before the message is appended, `summaryRaises` for the
      summarizer throwing after that. */
  datatype Answers = Answers(
    route: Option<seq<Party>>, affinity: Party -> real, raises: bool,
    structureValid: bool, sanitized: string, injection: real, policyWarnings: nat, voiceViolations: nat,
    blockingVoiceViolations: nat, rateAllowed: bool, handoffValid: Party -> bool,
    messageId: nat, lowestAffinity: real, summary: string, summaryRaises: bool)

  // ----- Sending: the verdict -----

  /** What becomes of a request: dropped without a trace, logged as blocked, or carried through the
      escalation check with this action. */
  datatype Verdict = Raised | Dropped(status: MessageStatus) | Audited(m: Message) | Checked(m: Message, action: Action)

  /** The status of the message returned to the caller; None where the call throws. */
  function Outcome(v: Verdict): Option<MessageStatus> {
    match v
    case Raised => None
    case Dropped(status) => Some(status)
    case Audited(m) => Some(m.status)
    case Checked(m, _) => Some(m.status)
  }

  predicate Speaks(p: Party) { p != User && p != Operator }

  predicate External(p: Party) { p == User || p == Operator || p == Broadcast }

  function Gate(cfg: EngineConfig, s: Conversation, r: Request): Option<MessageStatus> {
    if s.status == Closed then Some(Blocked)
    else if (s.status == Paused || s.status == AwaitingApproval) && r.sender != Operator then Some(Blocked)
    else if cfg.enforceTurns && !r.overrideTurn && Speaks(r.sender) && r.sender != s.currentTurn then Some(Rejected)
    else None
  }

  function Agents(to: seq<Party>): (r: seq<Party>)
    ensures forall p :: p in r <==> p in to && !External(p)
  {
    if to == [] then [] else Agents(to[..|to| - 1]) + if External(to[|to| - 1]) then [] else [to[|to| - 1]]
  }

  /** An agent-to-agent message goes through the mediator when an affinity is below the threshold. */
  predicate NeedsMediation(cfg: EngineConfig, r: Request, to: seq<Party>, affinity: Party -> real) {
    && Speaks(r.sender) && Agents(to) != [] && cfg.mediator !in Agents(to)
    && (1.0 < cfg.mediationThreshold || exists p :: p in Agents(to) && affinity(p) < cfg.mediationThreshold)
  }

  function Recipients(cfg: EngineConfig, r: Request, to: seq<Party>, affinity: Party -> real): seq<Party> {
    if NeedsMediation(cfg, r, to, affinity) then [cfg.mediator] else to
  }

  predicate HandoffFails(cfg: EngineConfig, r: Request, to: seq<Party>, x: Answers) {
    && !NeedsMediation(cfg, r, to, x.affinity) && Speaks(r.sender)
    && exists p :: p in Agents(to) && !x.handoffValid(p)
  }

  function SignalsOf(s: Conversation): Signals {
    Signals(s.consecutiveChallenges, s.challengeCount, s.lowestAffinity, s.tokenBudget, s.tokensUsed, s.injectionScores)
  }

  function ActionOn(cfg: EngineConfig, s: Conversation, x: Answers): Action {
    MessageAction(cfg.hitl, cfg.triggers, SignalsOf(s),
                  MessageSignals(x.injection, 0, x.policyWarnings, x.blockingVoiceViolations, !x.rateAllowed))
  }

  predicate Stops(a: Action) { a == Pause || a == RequireApproval }

  function Judge(cfg: EngineConfig, s: Conversation, r: Request, x: Answers): Verdict {
    var gate := Gate(cfg, s, r);
    if gate.Some? then Dropped(gate.value) else
      var route := if r.to.Some? then r.to else x.route;
      if route.None? || x.raises then Raised else
        var to := route.value;
        var deliveredTo := Recipients(cfg, r, to, x.affinity);
        var action := ActionOn(cfg, s, x);
        var m := Message(x.messageId, r.sender, to, deliveredTo, r.content, Blocked,
                         x.injection, x.policyWarnings, x.voiceViolations);
        if !x.structureValid then Dropped(Blocked)
        else if !x.rateAllowed || HandoffFails(cfg, r, to, x) then Audited(m)
        else Checked(m.(content := x.sanitized, status := if Stops(action) then Blocked else Delivered), action)
  }

  // ----- Sending: the new state -----

  /** The last `n` elements. */
  function Last<T>(s: seq<T>, n: nat): seq<T> { if |s| > n then s[|s| - n..] else s }

  const SCORES_KEPT := 50

  function Append(cfg: EngineConfig, s: Conversation, m: Message): Conversation {
    s.(messages := s.messages + [m], messageCount := s.messageCount + 1,
       injectionScores := Last(s.injectionScores + [m.injection], SCORES_KEPT),
       policyViolations := s.policyViolations + m.policyWarnings,
       voiceViolations := s.voiceViolations + m.voiceViolations,
       tokensUsed := s.tokensUsed + Tokens.Estimate(cfg.charsPerToken, |m.content|))
  }

  function FirstIn(to: seq<Party>, participants: seq<Party>): (r: Option<Party>)
    ensures r.None? ==> forall p :: p in to ==> p !in participants
    ensures r.Some? ==> r.value in participants
    ensures r.Some? ==>
              exists i :: 0 <= i < |to| && to[i] == r.value && forall j :: 0 <= j < i ==> to[j] !in participants
  {
    if to == [] then None else if to[0] in participants then Some(to[0]) else FirstIn(to[1..], participants)
  }

  function Account(s: Conversation, r: Request, m: Message): Conversation {
    if m.status != Delivered then s else
      var next := FirstIn(m.deliveredTo, s.participants);
      var t := if r.isChallenge && m.deliveredTo != [] then
                 s.(challengeCount := s.challengeCount + 1, consecutiveChallenges := s.consecutiveChallenges + 1)
               else s.(consecutiveChallenges := 0);
      if next.Some? then t.(currentTurn := next.value) else t
  }

  function Covered(summaries: seq<Summary>): seq<nat> {
    if summaries == [] then [] else Covered(summaries[..|summaries| - 1]) + summaries[|summaries| - 1].covers
  }

  /** The messages whose id is not in `covered`, in order. */
  function Uncovered(messages: seq<Message>, covered: seq<nat>): seq<Message> {
    if messages == [] then [] else
      var m, rest := messages[|messages| - 1], Uncovered(messages[..|messages| - 1], covered);
      if m.id in covered then rest else rest + [m]
  }

  function MessageIds(messages: seq<Message>): (ids: seq<nat>)
    ensures |ids| == |messages| && forall i :: 0 <= i < |ids| ==> ids[i] == messages[i].id
  {
    seq(|messages|, i requires 0 <= i < |messages| => messages[i].id)
  }

  function Discard(messages: seq<Message>, ids: seq<nat>): (r: seq<Message>)
    ensures |r| == |messages|
    ensures forall i ::
              0 <= i < |r| ==> r[i] == if messages[i].id in ids then messages[i].(content := "") else messages[i]
  {
    seq(|messages|, i requires 0 <= i < |messages| =>
      if messages[i].id in ids then messages[i].(content := "") else messages[i])
  }

  /** There are enough messages, and enough of them not yet covered. */
  predicate IsSummaryDue(cfg: EngineConfig, s: Conversation) {
    |s.messages| >= cfg.summaryTrigger && |Uncovered(s.messages, Covered(s.summaries))| >= cfg.chunkSize
  }

  /** At most one summary per call: it covers the oldest `chunkSize` messages not yet covered. */
  function Summarized(cfg: EngineConfig, s: Conversation, text: string): Conversation {
    var pending := Uncovered(s.messages, Covered(s.summaries));
    if !IsSummaryDue(cfg, s) then s else
      var covers := MessageIds(pending[..cfg.chunkSize]);
      s.(summaries := s.summaries + [Summary(covers, text)],
         messages := if cfg.discard then Discard(s.messages, covers) else s.messages)
  }

  function StatusAfter(s: Conversation, action: Action): Status {
    if action == Pause then Paused else if action == RequireApproval then AwaitingApproval else s.status
  }

  /** The state of a checked message before summaries are looked at. */
  function Accounted(cfg: EngineConfig, s: Conversation, r: Request, x: Answers, m: Message,
                     action: Action): Conversation {
    Account(Append(cfg, s.(status := StatusAfter(s, action)), m), r, m).(lowestAffinity := x.lowestAffinity)
  }

  /** The verdict in the end: a summarizer that throws takes the whole call with it. */
  function Ruling(cfg: EngineConfig, s: Conversation, r: Request, x: Answers): Verdict {
    var v := Judge(cfg, s, r, x);
    if v.Checked? && x.summaryRaises && IsSummaryDue(cfg, Accounted(cfg, s, r, x, v.m, v.action)) then Raised else v
  }

  /** The state a send saves, if it saves one. */
  function Sent(cfg: EngineConfig, s: Conversation, r: Request, x: Answers): Option<Conversation> {
    match Ruling(cfg, s, r, x)
    case Raised => None
    case Dropped(_) => None
    case Audited(m) => Some(Append(cfg, s, m))
    case Checked(m, action) => Some(Summarized(cfg, Accounted(cfg, s, r, x, m, action), x.summary))
  }

  /** What the rate limiter is told of a call. */
  datatype Record = MessageRecord(sender: Party, conversation: string) | ChallengeRecord(sender: Party, target: Party)

  /** A delivery is recorded before summaries are looked at, so also when the summarizer then throws. */
  function RecordsOf(cfg: EngineConfig, id: string, s: Conversation, r: Request, x: Answers): seq<Record> {
    var v := Judge(cfg, s, r, x);
    if !v.Checked? || v.m.status != Delivered then [] else
      [MessageRecord(r.sender, id)]
      + if r.isChallenge && v.m.deliveredTo != [] then [ChallengeRecord(r.sender, v.m.deliveredTo[0])] else []
  }

  // ----- Operations and runs -----

  datatype Operation = Send(r: Request, x: Answers) | AddParticipant(p: Party, lowest: real) | SetStatus(status: Status)

  /** The state an operation saves, if it saves one. */
  function Apply(cfg: EngineConfig, op: Operation, s: Conversation): Option<Conversation> {
    match op
    case Send(r, x) => Sent(cfg, s, r, x)
    case AddParticipant(p, lowest) =>
      var participants := if p in s.participants then s.participants else s.participants + [p];
      Some(s.(participants := participants, lowestAffinity := lowest))
    case SetStatus(status) => Some(s.(status := status))
  }

  /** The message an operation logs, as it was logged, as a list of at most one. */
  function Logs(cfg: EngineConfig, op: Operation, s: Conversation): seq<Message> {
    if !op.Send? then [] else
      match Ruling(cfg, s, op.r, op.x)
      case Raised => []
      case Dropped(_) => []
      case Audited(m) => [m]
      case Checked(m, _) => [m]
  }

  function Run(cfg: EngineConfig, ops: seq<Operation>, s: Conversation): Conversation {
    if ops == [] then s else
      var before := Run(cfg, ops[..|ops| - 1], s);
      var saved := Apply(cfg, ops[|ops| - 1], before);
      if saved.Some? then saved.value else before
  }

  /** Every message logged by a run, in order and with its original content. */
  function Log(cfg: EngineConfig, ops: seq<Operation>, s: Conversation): seq<Message> {
    if ops == [] then [] else
      var earlier := ops[..|ops| - 1];
      Log(cfg, earlier, s) + Logs(cfg, ops[|ops| - 1], Run(cfg, earlier, s))
  }

  /** startConversation. */
  function Started(participants: seq<Party>, currentTurn: Party, tokenBudget: int, lowest: real): Conversation {
    Conversation(Active, participants, currentTurn, tokenBudget, 0, 0, 0, 0, [], 0, 0, lowest, [], [])
  }

  // ----- The engine -----

  method Lowest(agents: seq<Party>, affinity: Party -> real) returns (lowest: real)
    ensures forall p :: p in agents ==> lowest <= affinity(p)
    ensures lowest == 1.0 || exists p :: p in agents && affinity(p) == lowest
    ensures lowest <= 1.0
  {
    lowest := 1.0;
    for i := 0 to |agents|
      invariant forall j :: 0 <= j < i ==> lowest <= affinity(agents[j])
      invariant lowest == 1.0 || exists p :: p in agents && affinity(p) == lowest
      invariant lowest <= 1.0
    {
      if affinity(agents[i]) < lowest { lowest := affinity(agents[i]); }
    }
  }

  method Mediate(cfg: EngineConfig, r: Request, to: seq<Party>, affinity: Party -> real)
    returns (required: bool, deliveredTo: seq<Party>)
    ensures required == NeedsMediation(cfg, r, to, affinity) && deliveredTo == Recipients(cfg, r, to, affinity)
  {
    required, deliveredTo := false, to;
    var agents := Agents(to);
    if Speaks(r.sender) && |agents| > 0 {
      var lowest := Lowest(agents, affinity);
      if lowest < cfg.mediationThreshold && cfg.mediator !in agents {
        required, deliveredTo := true, [cfg.mediator];
      }
    }
  }

  method ValidateHandoffs(agents: seq<Party>, valid: Party -> bool) returns (failed: bool)
    ensures failed <==> exists p :: p in agents && !valid(p)
  {
    failed := false;
    for i := 0 to |agents|
      invariant failed <==> exists j :: 0 <= j < i && !valid(agents[j])
    {
      if !valid(agents[i]) { failed := true; }
    }
  }

  method CoveredIds(summaries: seq<Summary>) returns (covered: set<nat>)
    ensures forall id :: id in covered <==> id in Covered(summaries)
  {
    covered := {};
    for i := 0 to |summaries|
      invariant forall id :: id in covered <==> id in Covered(summaries[..i])
    {
      assert summaries[..i + 1][..i] == summaries[..i];
      for j := 0 to |summaries[i].covers|
        invariant forall id :: id in covered <==> id in Covered(summaries[..i]) || id in summaries[i].covers[..j]
      {
        covered := covered + {summaries[i].covers[j]};
      }
      assert summaries[i].covers[..|summaries[i].covers|] == summaries[i].covers;
    }
    assert summaries[..|summaries|] == summaries;
  }

  method Unsummarized(messages: seq<Message>, covered: set<nat>, ghost ids: seq<nat>) returns (pending: seq<Message>)
    requires forall id :: id in covered <==> id in ids
    ensures pending == Uncovered(messages, ids)
  {
    pending := [];
    for i := 0 to |messages|
      invariant pending == Uncovered(messages[..i], ids)
    {
      assert messages[..i + 1][..i] == messages[..i];
      if messages[i].id !in covered { pending := pending + [messages[i]]; }
    }
    assert messages[..|messages|] == messages;
  }

  /** None where the summarizer throws. */
  method MaybeSummarize(cfg: EngineConfig, s: Conversation, text: string, raises: bool)
    returns (saved: Option<Conversation>)
    ensures saved == if raises && IsSummaryDue(cfg, s) then None else Some(Summarized(cfg, s, text))
  {
    if |s.messages| < cfg.summaryTrigger { return Some(s); }
    var covered := CoveredIds(s.summaries);
    var pending := Unsummarized(s.messages, covered, Covered(s.summaries));
    if |pending| < cfg.chunkSize { return Some(s); }
    if raises { return None; }
    var covers := MessageIds(pending[..cfg.chunkSize]);
    var t := s.(summaries := s.summaries + [Summary(covers, text)]);
    if cfg.discard {
      var messages := DiscardContents(s.messages, covers);
      t := t.(messages := messages);
    }
    saved := Some(t);
  }

  method DiscardContents(messages0: seq<Message>, covers: seq<nat>) returns (messages: seq<Message>)
    ensures messages == Discard(messages0, covers)
  {
    messages := messages0;
    for i := 0 to |messages|
      invariant |messages| == |messages0|
      invariant forall j :: i <= j < |messages| ==> messages[j] == messages0[j]
      invariant forall j :: 0 <= j < i ==> messages[j] == Discard(messages0, covers)[j]
    {
      if messages[i].id in covers { messages := messages[i := messages[i].(content := "")]; }
    }
  }

  method CheckGate(cfg: EngineConfig, s: Conversation, r: Request) returns (gate: Option<MessageStatus>)
    ensures gate == Gate(cfg, s, r)
  {
    if s.status == Closed { return Some(Blocked); }
    if (s.status == Paused || s.status == AwaitingApproval) && r.sender != Operator { return Some(Blocked); }
    if cfg.enforceTurns && !r.overrideTurn && Speaks(r.sender) {
      if r.sender != s.currentTurn { return Some(Rejected); }
    }
    gate := None;
  }

  method CheckHandoffs(cfg: EngineConfig, r: Request, to: seq<Party>, deliveredTo: seq<Party>, required: bool,
                       x: Answers)
    returns (failed: bool)
    requires required == NeedsMediation(cfg, r, to, x.affinity) && deliveredTo == Recipients(cfg, r, to, x.affinity)
    ensures failed == HandoffFails(cfg, r, to, x)
  {
    failed := false;
    if !required && Speaks(r.sender) { failed := ValidateHandoffs(Agents(deliveredTo), x.handoffValid); }
  }

  /** The part of sendMessage before anything is written. */
  method Check(cfg: EngineConfig, s: Conversation, r: Request, x: Answers) returns (v: Verdict)
    ensures v == Judge(cfg, s, r, x)
  {
    var gate := CheckGate(cfg, s, r);
    if gate.Some? { return Dropped(gate.value); }
    var route := if r.to.Some? then r.to else x.route;
    if route.None? || x.raises { return Raised; }
    var required, deliveredTo := Mediate(cfg, r, route.value, x.affinity);
    var action := ActionOn(cfg, s, x);
    if !x.structureValid { return Dropped(Blocked); }
    var m := Message(x.messageId, r.sender, route.value, deliveredTo, r.content, Blocked,
                     x.injection, x.policyWarnings, x.voiceViolations);
    if !x.rateAllowed { return Audited(m); }
    var failed := CheckHandoffs(cfg, r, route.value, deliveredTo, required, x);
    if failed { return Audited(m); }
    v := Checked(m.(content := x.sanitized, status := if Stops(action) then Blocked else Delivered), action);
  }

  /** The bookkeeping of a message that was delivered: challenge counters and the turn. */
  method Count(s0: Conversation, r: Request, m: Message) returns (s: Conversation)
    ensures s == Account(s0, r, m)
  {
    s := s0;
    if m.status == Delivered {
      var next := FirstIn(m.deliveredTo, s.participants);
      if r.isChallenge && |m.deliveredTo| > 0 {
        s := s.(challengeCount := s.challengeCount + 1, consecutiveChallenges := s.consecutiveChallenges + 1);
      } else {
        s := s.(consecutiveChallenges := 0);
      }
      if next.Some? { s := s.(currentTurn := next.value); }
    }
  }

  /** sendMessage between loading the state and saving it. */
  method Process(cfg: EngineConfig, id: string, s: Conversation, r: Request, x: Answers)
    returns (result: Option<MessageStatus>, saved: Option<Conversation>, records: seq<Record>)
    ensures result == Outcome(Ruling(cfg, s, r, x)) && saved == Sent(cfg, s, r, x)
    ensures records == RecordsOf(cfg, id, s, r, x)
  {
    var v := Check(cfg, s, r, x);
    result, saved, records := Outcome(v), None, [];
    match v
    case Raised =>
    case Dropped(_) =>
    case Audited(m) => saved := Some(Append(cfg, s, m));
    case Checked(m, action) =>
      var state := s.(status := StatusAfter(s, action));
      state := Append(cfg, state, m);
      if m.status == Delivered {
        records := [MessageRecord(r.sender, id)];
        if r.isChallenge && m.deliveredTo != [] { records := records + [ChallengeRecord(r.sender, m.deliveredTo[0])]; }
      }
      state := Count(state, r, m);
      state := state.(lowestAffinity := x.lowestAffinity);
      saved := MaybeSummarize(cfg, state, x.summary, x.summaryRaises);
      if saved.None? { result := None; }
  }

  /** The conversations on disk; every method is one call under the lock of its conversation. The
      result is the status of the message, or None where the call throws. */
  class ConversationEngine {
    const cfg: EngineConfig
    var store: map<string, Conversation>
    var recorded: seq<Record>

    constructor (cfg: EngineConfig)
      ensures this.cfg == cfg && store == map[] && recorded == []
    {
      this.cfg, store, recorded := cfg, map[], [];
    }

    function After(before: map<string, Conversation>, id: string, op: Operation): map<string, Conversation> {
      if id !in before || Apply(cfg, op, before[id]).None? then before
      else before[id := Apply(cfg, op, before[id]).value]
    }

    method AddMember(id: string, p: Party, lowest: real) returns (ok: bool)
      modifies this
      ensures ok == (id in old(store)) && store == After(old(store), id, AddParticipant(p, lowest))
      ensures recorded == old(recorded)
    {
      ok := id in store;
      if ok {
        var state := store[id];
        if p !in state.participants { state := state.(participants := state.participants + [p]); }
        state := state.(lowestAffinity := lowest);
        store := store[id := state];
      }
    }

    method ChangeStatus(id: string, status: Status) returns (ok: bool)
      modifies this
      ensures ok == (id in old(store)) && store == After(old(store), id, SetStatus(status)) && recorded == old(recorded)
    {
      ok := id in store;
      if ok {
        var state := store[id];
        state := state.(status := status);
        store := store[id := state];
      }
    }

    method SendMessage(id: string, r: Request, x: Answers) returns (result: Option<MessageStatus>)
      modifies this
      ensures store == After(old(store), id, Send(r, x))
      ensures result == if id !in old(store) then None else Outcome(Ruling(cfg, old(store)[id], r, x))
      ensures recorded == old(recorded) + if id !in old(store) then [] else RecordsOf(cfg, id, old(store)[id], r, x)
    {
      if id !in store { return None; }
      var saved, records;
      result, saved, records := Process(cfg, id, store[id], r, x);
      recorded := recorded + records;
      if saved.Some? { store := store[id := saved.value]; }
    }
  }
}
