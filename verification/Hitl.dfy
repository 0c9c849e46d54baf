/** Human-in-the-loop escalation (lib/hitl.ts): which triggers fire on a conversation, and the most
    severe action among them. Alerts and their delivery are left out. */
module Hitl {

  datatype Action = Continue | Notify | Pause | RequireApproval

  datatype Urgency = Low | Medium | High | Critical

  /** The ids of the built-in triggers; anything else a caller registers is a custom one. */
  datatype TriggerId =
    | InjectionNotify | InjectionBlock | LowAffinityChallenge | ConsecutiveChallenges | RateLimitExhaustion
    | TokenBudgetWarning | TokenBudgetExhaustion | PolicyViolationBlock | PolicyViolationWarn | VoiceRuleViolation
    | MultiAgentAnomaly | Custom(name: string)

  datatype Trigger = Trigger(id: TriggerId, action: Action, urgency: Urgency, enabled: bool)

  datatype Config = Config(injectionNotify: real, injectionApproval: real, lowAffinity: real, challengeLimit: int,
                           budgetWarningRatio: real, budgetPauseRatio: real)

  const DEFAULT_CONFIG := Config(0.3, 0.7, 0.3, 3, 0.8, 0.95)

  const BUILTIN_TRIGGERS: seq<Trigger> := [
    Trigger(InjectionNotify, Notify, Medium, true),
    Trigger(InjectionBlock, RequireApproval, Critical, true),
    Trigger(LowAffinityChallenge, Notify, Medium, true),
    Trigger(ConsecutiveChallenges, Pause, High, true),
    Trigger(RateLimitExhaustion, Notify, Medium, true),
    Trigger(TokenBudgetWarning, Notify, Low, true),
    Trigger(TokenBudgetExhaustion, Pause, High, true),
    Trigger(PolicyViolationBlock, RequireApproval, Critical, true),
    Trigger(PolicyViolationWarn, Notify, Medium, true),
    Trigger(VoiceRuleViolation, Notify, Low, true),
    Trigger(MultiAgentAnomaly, Pause, High, true)]

  function Severity(a: Action): nat {
    match a case Continue => 0 case Notify => 1 case Pause => 2 case RequireApproval => 3
  }

  function UrgencyRank(u: Urgency): nat {
    match u case Low => 0 case Medium => 1 case High => 2 case Critical => 3
  }

  /** The first enabled trigger with this id, as a list of at most one. */
  function Find(triggers: seq<Trigger>, id: TriggerId): (r: seq<Trigger>)
    ensures |r| <= 1 && forall t :: t in r ==> t in triggers && t.id == id && t.enabled
    ensures r == [] <==> forall t :: t in triggers ==> t.id != id || !t.enabled
  {
    if triggers == [] then []
    else if triggers[0].id == id && triggers[0].enabled then [triggers[0]]
    else Find(triggers[1..], id)
  }

  /** What the checks read of a conversation. */
  datatype Signals = Signals(consecutiveChallenges: int, challengeCount: int, lowestAffinity: real,
                             tokenBudget: int, tokensUsed: int, injectionScores: seq<real>)

  function MaxScore(scores: seq<real>): real {
    if scores == [] then 0.0 else
      var rest := MaxScore(scores[1..]);
      if scores[0] > rest then scores[0] else rest
  }

  function CheckInjection(cfg: Config, triggers: seq<Trigger>, score: real): seq<Trigger> {
    if score >= cfg.injectionApproval then Find(triggers, InjectionBlock)
    else if score >= cfg.injectionNotify then Find(triggers, InjectionNotify)
    else []
  }

  predicate BudgetSpent(cfg: Config, s: Signals) {
    s.tokenBudget > 0 && s.tokensUsed as real / s.tokenBudget as real >= cfg.budgetPauseRatio
  }

  function CheckBudget(cfg: Config, triggers: seq<Trigger>, s: Signals): seq<Trigger> {
    if s.tokenBudget <= 0 then []
    else if BudgetSpent(cfg, s) then Find(triggers, TokenBudgetExhaustion)
    else if s.tokensUsed as real / s.tokenBudget as real >= cfg.budgetWarningRatio then
      Find(triggers, TokenBudgetWarning)
    else []
  }

  function CheckConversationState(cfg: Config, triggers: seq<Trigger>, s: Signals): seq<Trigger> {
    (if s.consecutiveChallenges >= cfg.challengeLimit then Find(triggers, ConsecutiveChallenges) else [])
    + (if s.lowestAffinity < cfg.lowAffinity && s.challengeCount > 0 then Find(triggers, LowAffinityChallenge) else [])
    + CheckBudget(cfg, triggers, s)
    + (if MaxScore(s.injectionScores) >= cfg.injectionApproval then Find(triggers, InjectionBlock) else [])
  }

  /** Everything the message brings to the check besides the conversation. */
  datatype MessageSignals = MessageSignals(injection: real, infrastructureViolations: nat, heuristicViolations: nat,
                                           blockingVoiceViolations: nat, rateLimited: bool)

  function MatchedTriggers(cfg: Config, triggers: seq<Trigger>, s: Signals, m: MessageSignals): seq<Trigger> {
    CheckInjection(cfg, triggers, m.injection)
    + CheckConversationState(cfg, triggers, s)
    + (if m.infrastructureViolations > 0 then Find(triggers, PolicyViolationBlock) else [])
    + (if m.heuristicViolations > 0 then Find(triggers, PolicyViolationWarn) else [])
    + (if m.blockingVoiceViolations > 0 then Find(triggers, VoiceRuleViolation) else [])
    + (if m.rateLimited then Find(triggers, RateLimitExhaustion) else [])
  }

  function WorstAction(matched: seq<Trigger>): Action {
    if matched == [] then Continue else
      var rest := WorstAction(matched[..|matched| - 1]);
      if Severity(matched[|matched| - 1].action) > Severity(rest) then matched[|matched| - 1].action else rest
  }

  function WorstUrgency(matched: seq<Trigger>): Urgency {
    if matched == [] then Low else
      var rest := WorstUrgency(matched[..|matched| - 1]);
      if UrgencyRank(matched[|matched| - 1].urgency) > UrgencyRank(rest) then matched[|matched| - 1].urgency else rest
  }

  method BuildResult(matched: seq<Trigger>) returns (action: Action, urgency: Urgency)
    ensures action == WorstAction(matched) && urgency == WorstUrgency(matched)
  {
    action, urgency := Continue, Low;
    for i := 0 to |matched|
      invariant action == WorstAction(matched[..i]) && urgency == WorstUrgency(matched[..i])
    {
      assert matched[..i + 1][..i] == matched[..i];
      if Severity(matched[i].action) > Severity(action) { action := matched[i].action; }
      if UrgencyRank(matched[i].urgency) > UrgencyRank(urgency) { urgency := matched[i].urgency; }
    }
    assert matched[..|matched|] == matched;
  }

  /** The result is the action of some matched trigger (or continue) and the urgency of some matched trigger
      (or low), and no matched trigger is worse in either. */
  lemma {:induction false} WorstIsWorst(matched: seq<Trigger>)
    ensures forall t :: t in matched ==> Severity(t.action) <= Severity(WorstAction(matched))
    ensures WorstAction(matched) == Continue || exists t :: t in matched && t.action == WorstAction(matched)
    ensures forall t :: t in matched ==> UrgencyRank(t.urgency) <= UrgencyRank(WorstUrgency(matched))
    ensures WorstUrgency(matched) == Low || exists t :: t in matched && t.urgency == WorstUrgency(matched)
  {
    if matched != [] {
      WorstIsWorst(matched[..|matched| - 1]);
      assert matched == matched[..|matched| - 1] + [matched[|matched| - 1]];
    }
  }

  function MessageAction(cfg: Config, triggers: seq<Trigger>, s: Signals, m: MessageSignals): Action {
    WorstAction(MatchedTriggers(cfg, triggers, s, m))
  }

  /** The conversation has used up its challenges or its token budget. */
  predicate Exhausted(cfg: Config, s: Signals) {
    s.consecutiveChallenges >= cfg.challengeLimit || BudgetSpent(cfg, s)
  }

  /** An enabled trigger has this id, and every such trigger at least pauses. */
  predicate Guards(triggers: seq<Trigger>, id: TriggerId) {
    && (exists i :: 0 <= i < |triggers| && triggers[i].id == id && triggers[i].enabled)
    && forall i :: 0 <= i < |triggers| && triggers[i].id == id && triggers[i].enabled ==>
         Severity(triggers[i].action) >= Severity(Pause)
  }

  /** The two triggers guarding exhaustion are enabled and at least pause. */
  predicate GuardsExhaustion(triggers: seq<Trigger>) {
    Guards(triggers, ConsecutiveChallenges) && Guards(triggers, TokenBudgetExhaustion)
  }

  lemma BuiltinsGuardExhaustion()
    ensures GuardsExhaustion(BUILTIN_TRIGGERS)
  {
    assert BUILTIN_TRIGGERS[3].id == ConsecutiveChallenges;
    assert BUILTIN_TRIGGERS[6].id == TokenBudgetExhaustion;
  }

  /** An exhausted conversation is at least paused, whatever the message. */
  lemma ExhaustionPauses(cfg: Config, triggers: seq<Trigger>, s: Signals, m: MessageSignals)
    requires GuardsExhaustion(triggers) && Exhausted(cfg, s)
    ensures Severity(MessageAction(cfg, triggers, s, m)) >= Severity(Pause)
  {
    var matched := MatchedTriggers(cfg, triggers, s, m);
    WorstIsWorst(matched);
    var id := if s.consecutiveChallenges >= cfg.challengeLimit then ConsecutiveChallenges else TokenBudgetExhaustion;
    var found := Find(triggers, id);
    assert found[0] in found;
    assert found[0] in CheckConversationState(cfg, triggers, s);
    assert found[0] in matched;
  }

  // ----- The engine -----

  /** A registered trigger. Engines built on the built-in table copy the list but share its triggers. */
  class TriggerCell {
    const id: TriggerId
    const action: Action
    const urgency: Urgency
    var enabled: bool

    constructor (t: Trigger)
      ensures Value() == t
    {
      id, action, urgency, enabled := t.id, t.action, t.urgency, t.enabled;
    }

    function Value(): Trigger
      reads this
    {
      Trigger(id, action, urgency, enabled)
    }
  }

  function Values(cells: seq<TriggerCell>): (r: seq<Trigger>)
    reads cells
    ensures |r| == |cells| && forall i :: 0 <= i < |r| ==> r[i] == cells[i].Value()
  {
    if cells == [] then [] else [cells[0].Value()] + Values(cells[1..])
  }

  /** The first cell with this id. */
  function FirstWith(cells: seq<TriggerCell>, id: TriggerId): (i: nat)
    ensures i <= |cells| && (i < |cells| ==> cells[i].id == id) && forall j :: 0 <= j < i ==> cells[j].id != id
  {
    if cells == [] || cells[0].id == id then 0 else 1 + FirstWith(cells[1..], id)
  }

  class HitlEngine {
    const cfg: Config
    var cells: seq<TriggerCell>

    constructor (cfg: Config, table: seq<TriggerCell>)
      ensures this.cfg == cfg && cells == table
    {
      this.cfg, cells := cfg, table;
    }

    /** Replaces any trigger with the same id, in this engine only. */
    method AddTrigger(trigger: TriggerCell)
      modifies this
      ensures cells == Without(old(cells), trigger.id) + [trigger]
    {
      cells := Without(cells, trigger.id) + [trigger];
    }

    /** Switches one trigger, for every engine that shares it. */
    method SetTriggerEnabled(id: TriggerId, enabled: bool)
      modifies cells
      ensures var i := FirstWith(cells, id);
        forall c :: c in cells ==> c.enabled == if i < |cells| && c == cells[i] then enabled else old(c.enabled)
    {
      var i := 0;
      while i < |cells| && cells[i].id != id
        invariant i <= |cells| && forall j :: 0 <= j < i ==> cells[j].id != id
      {
        i := i + 1;
      }
      if i < |cells| { cells[i].enabled := enabled; }
    }

    method CheckMessage(s: Signals, m: MessageSignals) returns (action: Action, urgency: Urgency)
      ensures action == MessageAction(cfg, Values(cells), s, m)
      ensures urgency == WorstUrgency(MatchedTriggers(cfg, Values(cells), s, m))
    {
      action, urgency := BuildResult(MatchedTriggers(cfg, Values(cells), s, m));
    }
  }

  /** `now` is `was` with every trigger of this id disabled. */
  ghost predicate IsSwitchedOff(was: seq<Trigger>, now: seq<Trigger>, id: TriggerId) {
    |now| == |was|
    && forall i :: 0 <= i < |now| ==> now[i] == if was[i].id == id then was[i].(enabled := false) else was[i]
  }

  lemma SwitchedOffGuards(was: seq<Trigger>, now: seq<Trigger>, id: TriggerId, other: TriggerId)
    requires IsSwitchedOff(was, now, id)
    ensures Find(now, id) == [] && (Guards(now, other) <==> other != id && Guards(was, other))
  {
    if Guards(was, other) && other != id {
      var i :| 0 <= i < |was| && was[i].id == other && was[i].enabled;
      assert now[i].id == other && now[i].enabled;
    }
    if Guards(now, other) {
      var i :| 0 <= i < |now| && now[i].id == other && now[i].enabled;
      assert was[i].id == other && was[i].enabled;
      forall j | 0 <= j < |was| && was[j].id == other && was[j].enabled
        ensures Severity(was[j].action) >= Severity(Pause)
      {
        assert now[j].id == other && now[j].enabled;
      }
    }
  }

  ghost predicate HasUniqueIds(cells: seq<TriggerCell>) {
    forall i, j :: 0 <= i < j < |cells| ==> cells[i].id != cells[j].id
  }

  lemma FirstIsOnly(cells: seq<TriggerCell>, id: TriggerId)
    requires HasUniqueIds(cells)
    ensures forall i :: 0 <= i < |cells| ==> (cells[i].id == id <==> i == FirstWith(cells, id))
    ensures forall i, j :: 0 <= i < |cells| && 0 <= j < |cells| && cells[i] == cells[j] ==> i == j
  {
  }

  /** Disabling a guard in one engine takes it from every other engine on the same table. */
  method DisableInOne(a: HitlEngine, b: HitlEngine, id: TriggerId)
    requires a.cells == b.cells && HasUniqueIds(a.cells)
    modifies a.cells
    ensures a.cells == old(a.cells) && b.cells == old(b.cells)
    ensures IsSwitchedOff(old(Values(b.cells)), Values(b.cells), id)
  {
    FirstIsOnly(a.cells, id);
    a.SetTriggerEnabled(id, false);
    forall i | 0 <= i < |b.cells|
      ensures b.cells[i].enabled == if b.cells[i].id == id then false else old(b.cells[i].enabled)
    {
      assert b.cells[i] in a.cells;
    }
  }

  function Without(cells: seq<TriggerCell>, id: TriggerId): (r: seq<TriggerCell>)
    ensures forall i :: 0 <= i < |r| ==> r[i] in cells && r[i].id != id
    ensures forall j :: 0 <= j < |cells| && cells[j].id != id ==> cells[j] in r
  {
    if cells == [] then [] else
      (if cells[0].id == id then [] else [cells[0]]) + Without(cells[1..], id)
  }
}
