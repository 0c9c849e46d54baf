/** When each trigger fires (lib/hitl.ts:335-560), and what that makes of a message under the built-in triggers. */
module HitlDecisions {
  import opened Hitl

  /** The conversation has used this share of its budget. */
  predicate HasUsed(s: Signals, share: real) {
    s.tokenBudget > 0 && s.tokensUsed as real >= share * s.tokenBudget as real
  }

  /** A score of the conversation is at least this much; without any, the highest is zero. */
  predicate HasScored(s: Signals, least: real) {
    least <= 0.0 || exists i :: 0 <= i < |s.injectionScores| && s.injectionScores[i] >= least
  }

  /** The condition of each built-in trigger; nothing fires a trigger of another name. */
  predicate Fires(cfg: Config, s: Signals, m: MessageSignals, id: TriggerId) {
    match id
    case InjectionNotify => cfg.injectionNotify <= m.injection < cfg.injectionApproval
    case InjectionBlock => m.injection >= cfg.injectionApproval || HasScored(s, cfg.injectionApproval)
    case LowAffinityChallenge => s.challengeCount > 0 && s.lowestAffinity < cfg.lowAffinity
    case ConsecutiveChallenges => s.consecutiveChallenges >= cfg.challengeLimit
    case RateLimitExhaustion => m.rateLimited
    case TokenBudgetWarning => HasUsed(s, cfg.budgetWarningRatio) && !HasUsed(s, cfg.budgetPauseRatio)
    case TokenBudgetExhaustion => HasUsed(s, cfg.budgetPauseRatio)
    case PolicyViolationBlock => m.infrastructureViolations > 0
    case PolicyViolationWarn => m.heuristicViolations > 0
    case VoiceRuleViolation => m.blockingVoiceViolations > 0
    case MultiAgentAnomaly => false
    case Custom(_) => false
  }

  /** The trigger is the first enabled one of its name. */
  predicate IsInForce(triggers: seq<Trigger>, t: Trigger) {
    exists i :: 0 <= i < |triggers| && IsInForceAt(triggers, i) && triggers[i] == t
  }

  predicate IsInForceAt(triggers: seq<Trigger>, i: nat)
    requires i < |triggers|
  {
    triggers[i].enabled && forall j :: 0 <= j < i ==> triggers[j].id != triggers[i].id || !triggers[j].enabled
  }

  lemma {:induction false} FoundAt(triggers: seq<Trigger>, i: nat)
    requires i < |triggers| && IsInForceAt(triggers, i)
    ensures Find(triggers, triggers[i].id) == [triggers[i]]
  {
    if i > 0 {
      assert triggers[0].id != triggers[i].id || !triggers[0].enabled;
      FoundAt(triggers[1..], i - 1);
    }
  }

  lemma {:induction false} FoundIsInForce(triggers: seq<Trigger>, id: TriggerId) returns (i: nat)
    requires Find(triggers, id) != []
    ensures i < |triggers| && IsInForceAt(triggers, i) && Find(triggers, id) == [triggers[i]]
  {
    if triggers[0].id == id && triggers[0].enabled {
      i := 0;
    } else {
      var k := FoundIsInForce(triggers[1..], id);
      i := k + 1;
    }
  }

  lemma FindIff(triggers: seq<Trigger>, id: TriggerId, t: Trigger)
    ensures t in Find(triggers, id) <==> t.id == id && IsInForce(triggers, t)
  {
    if t in Find(triggers, id) {
      var i := FoundIsInForce(triggers, id);
      assert IsInForceAt(triggers, i) && triggers[i] == t;
    }
    if t.id == id && IsInForce(triggers, t) {
      var i :| 0 <= i < |triggers| && IsInForceAt(triggers, i) && triggers[i] == t;
      FoundAt(triggers, i);
    }
  }

  lemma {:induction false} MaxScoreIff(scores: seq<real>, least: real)
    ensures MaxScore(scores) >= least <==> least <= 0.0 || exists i :: 0 <= i < |scores| && scores[i] >= least
  {
    if scores != [] {
      MaxScoreIff(scores[1..], least);
      if scores[0] >= least { assert scores[0] >= least; }
      forall i | 0 <= i < |scores[1..]| && scores[1..][i] >= least ensures scores[i + 1] >= least {}
      forall i | 0 <= i < |scores| && scores[i] >= least ensures i == 0 || scores[1..][i - 1] >= least {}
    }
  }

  lemma UsedIff(s: Signals, share: real)
    requires s.tokenBudget > 0
    ensures s.tokensUsed as real / s.tokenBudget as real >= share <==> HasUsed(s, share)
  {
    var used, budget := s.tokensUsed as real, s.tokenBudget as real;
    var ratio := used / budget;
    assert used == ratio * budget;
    if ratio >= share {
      assert (ratio - share) * budget >= 0.0;
    } else {
      assert (share - ratio) * budget > 0.0;
    }
  }

  /** The conditions on the conversation alone. */
  predicate FiresAnyway(cfg: Config, s: Signals, id: TriggerId) {
    match id
    case ConsecutiveChallenges => s.consecutiveChallenges >= cfg.challengeLimit
    case LowAffinityChallenge => s.challengeCount > 0 && s.lowestAffinity < cfg.lowAffinity
    case TokenBudgetExhaustion => HasUsed(s, cfg.budgetPauseRatio)
    case TokenBudgetWarning => HasUsed(s, cfg.budgetWarningRatio) && !HasUsed(s, cfg.budgetPauseRatio)
    case InjectionBlock => HasScored(s, cfg.injectionApproval)
    case _ => false
  }

  lemma StateIff(cfg: Config, triggers: seq<Trigger>, s: Signals, t: Trigger)
    ensures t in CheckConversationState(cfg, triggers, s) <==> IsInForce(triggers, t) && FiresAnyway(cfg, s, t.id)
  {
    FindIff(triggers, ConsecutiveChallenges, t);
    FindIff(triggers, LowAffinityChallenge, t);
    FindIff(triggers, TokenBudgetExhaustion, t);
    FindIff(triggers, TokenBudgetWarning, t);
    FindIff(triggers, InjectionBlock, t);
    MaxScoreIff(s.injectionScores, cfg.injectionApproval);
    if s.tokenBudget > 0 {
      UsedIff(s, cfg.budgetPauseRatio);
      UsedIff(s, cfg.budgetWarningRatio);
    }
  }

  lemma InjectionIff(cfg: Config, triggers: seq<Trigger>, score: real, t: Trigger)
    ensures t in CheckInjection(cfg, triggers, score)
            <==> IsInForce(triggers, t)
                 && if t.id == InjectionBlock then score >= cfg.injectionApproval
                    else t.id == InjectionNotify && cfg.injectionNotify <= score < cfg.injectionApproval
  {
    FindIff(triggers, InjectionBlock, t);
    FindIff(triggers, InjectionNotify, t);
  }

  lemma MatchedParts(cfg: Config, triggers: seq<Trigger>, s: Signals, m: MessageSignals, t: Trigger)
    ensures t in MatchedTriggers(cfg, triggers, s, m)
            <==> || t in CheckInjection(cfg, triggers, m.injection) || t in CheckConversationState(cfg, triggers, s)
                 || (m.infrastructureViolations > 0 && t in Find(triggers, PolicyViolationBlock))
                 || (m.heuristicViolations > 0 && t in Find(triggers, PolicyViolationWarn))
                 || (m.blockingVoiceViolations > 0 && t in Find(triggers, VoiceRuleViolation))
                 || (m.rateLimited && t in Find(triggers, RateLimitExhaustion))
  {
  }

  /** The conditions the message itself brings. */
  predicate FiresOnMessage(cfg: Config, m: MessageSignals, id: TriggerId) {
    match id
    case InjectionBlock => m.injection >= cfg.injectionApproval
    case InjectionNotify => cfg.injectionNotify <= m.injection < cfg.injectionApproval
    case PolicyViolationBlock => m.infrastructureViolations > 0
    case PolicyViolationWarn => m.heuristicViolations > 0
    case VoiceRuleViolation => m.blockingVoiceViolations > 0
    case RateLimitExhaustion => m.rateLimited
    case _ => false
  }

  lemma FiresIff(cfg: Config, s: Signals, m: MessageSignals, id: TriggerId)
    ensures Fires(cfg, s, m, id) <==> FiresAnyway(cfg, s, id) || FiresOnMessage(cfg, m, id)
  {
  }

  lemma MessageIff(cfg: Config, triggers: seq<Trigger>, m: MessageSignals, t: Trigger)
    ensures || t in CheckInjection(cfg, triggers, m.injection)
            || (m.infrastructureViolations > 0 && t in Find(triggers, PolicyViolationBlock))
            || (m.heuristicViolations > 0 && t in Find(triggers, PolicyViolationWarn))
            || (m.blockingVoiceViolations > 0 && t in Find(triggers, VoiceRuleViolation))
            || (m.rateLimited && t in Find(triggers, RateLimitExhaustion))
            <==> IsInForce(triggers, t) && FiresOnMessage(cfg, m, t.id)
  {
    InjectionIff(cfg, triggers, m.injection, t);
    FindIff(triggers, PolicyViolationBlock, t);
    FindIff(triggers, PolicyViolationWarn, t);
    FindIff(triggers, VoiceRuleViolation, t);
    FindIff(triggers, RateLimitExhaustion, t);
  }

  /** The triggers a message matches are exactly those that fire and are the first enabled ones of their name. */
  lemma MatchedIff(cfg: Config, triggers: seq<Trigger>, s: Signals, m: MessageSignals, t: Trigger)
    ensures t in MatchedTriggers(cfg, triggers, s, m) <==> IsInForce(triggers, t) && Fires(cfg, s, m, t.id)
  {
    MatchedParts(cfg, triggers, s, m, t);
    MessageIff(cfg, triggers, m, t);
    StateIff(cfg, triggers, s, t);
    FiresIff(cfg, s, m, t.id);
  }

  /** A trigger of this action fires. */
  ghost predicate Asks(cfg: Config, triggers: seq<Trigger>, s: Signals, m: MessageSignals, action: Action) {
    exists i :: 0 <= i < |triggers| && IsInForceAt(triggers, i) && triggers[i].action == action
                && Fires(cfg, s, m, triggers[i].id)
  }

  lemma AsksIff(cfg: Config, triggers: seq<Trigger>, s: Signals, m: MessageSignals, action: Action)
    ensures Asks(cfg, triggers, s, m, action)
            <==> exists t :: t in MatchedTriggers(cfg, triggers, s, m) && t.action == action
  {
    if Asks(cfg, triggers, s, m, action) {
      var i :| 0 <= i < |triggers| && IsInForceAt(triggers, i) && triggers[i].action == action
               && Fires(cfg, s, m, triggers[i].id);
      MatchedIff(cfg, triggers, s, m, triggers[i]);
    }
    if t :| t in MatchedTriggers(cfg, triggers, s, m) && t.action == action {
      MatchedIff(cfg, triggers, s, m, t);
    }
  }

  function Severest(approval: bool, pause: bool, notice: bool): Action {
    if approval then RequireApproval else if pause then Pause else if notice then Notify else Continue
  }

  /** The action of a message, over any table of triggers: approval if some firing trigger asks for it, else a
      pause, else a notice, in this order. */
  lemma ActionIs(cfg: Config, triggers: seq<Trigger>, s: Signals, m: MessageSignals)
    ensures MessageAction(cfg, triggers, s, m)
            == Severest(Asks(cfg, triggers, s, m, RequireApproval), Asks(cfg, triggers, s, m, Pause),
                        Asks(cfg, triggers, s, m, Notify))
  {
    WorstIsWorst(MatchedTriggers(cfg, triggers, s, m));
    AsksIff(cfg, triggers, s, m, RequireApproval);
    AsksIff(cfg, triggers, s, m, Pause);
    AsksIff(cfg, triggers, s, m, Notify);
  }

  lemma BuiltinsInForce()
    ensures |BUILTIN_TRIGGERS| == 11 && forall i :: 0 <= i < 11 ==> IsInForceAt(BUILTIN_TRIGGERS, i)
  {
  }

  lemma BuiltinAsks(cfg: Config, s: Signals, m: MessageSignals)
    ensures Asks(cfg, BUILTIN_TRIGGERS, s, m, RequireApproval)
            <==> Fires(cfg, s, m, InjectionBlock) || Fires(cfg, s, m, PolicyViolationBlock)
    ensures Asks(cfg, BUILTIN_TRIGGERS, s, m, Pause)
            <==> Fires(cfg, s, m, ConsecutiveChallenges) || Fires(cfg, s, m, TokenBudgetExhaustion)
    ensures Asks(cfg, BUILTIN_TRIGGERS, s, m, Notify)
            <==> || Fires(cfg, s, m, InjectionNotify) || Fires(cfg, s, m, LowAffinityChallenge)
                 || Fires(cfg, s, m, RateLimitExhaustion) || Fires(cfg, s, m, TokenBudgetWarning)
                 || Fires(cfg, s, m, PolicyViolationWarn) || Fires(cfg, s, m, VoiceRuleViolation)
  {
    BuiltinsInForce();
    var b := BUILTIN_TRIGGERS;
    assert b[0].id == InjectionNotify && b[1].id == InjectionBlock && b[2].id == LowAffinityChallenge
           && b[3].id == ConsecutiveChallenges && b[4].id == RateLimitExhaustion && b[5].id == TokenBudgetWarning
           && b[6].id == TokenBudgetExhaustion && b[7].id == PolicyViolationBlock && b[8].id == PolicyViolationWarn
           && b[9].id == VoiceRuleViolation;
  }

  /** The built-in policy in one table: a message waits for approval when its injection score, or one the
      conversation still holds, reaches the approval threshold or it breaks an infrastructure ban; it is paused
      when the consecutive challenges or the budget are used up; lesser signs only raise a notice. */
  function BuiltinAction(cfg: Config, s: Signals, m: MessageSignals): Action {
    if m.injection >= cfg.injectionApproval || HasScored(s, cfg.injectionApproval)
       || m.infrastructureViolations > 0 then RequireApproval
    else if s.consecutiveChallenges >= cfg.challengeLimit || HasUsed(s, cfg.budgetPauseRatio) then Pause
    else if m.injection >= cfg.injectionNotify || (s.challengeCount > 0 && s.lowestAffinity < cfg.lowAffinity)
            || m.rateLimited || HasUsed(s, cfg.budgetWarningRatio) || m.heuristicViolations > 0
            || m.blockingVoiceViolations > 0 then Notify
    else Continue
  }

  lemma TableIs(cfg: Config, s: Signals, m: MessageSignals, approval: bool, pause: bool, notice: bool)
    requires approval <==> Fires(cfg, s, m, InjectionBlock) || Fires(cfg, s, m, PolicyViolationBlock)
    requires pause <==> Fires(cfg, s, m, ConsecutiveChallenges) || Fires(cfg, s, m, TokenBudgetExhaustion)
    requires notice <==> || Fires(cfg, s, m, InjectionNotify) || Fires(cfg, s, m, LowAffinityChallenge)
                         || Fires(cfg, s, m, RateLimitExhaustion) || Fires(cfg, s, m, TokenBudgetWarning)
                         || Fires(cfg, s, m, PolicyViolationWarn) || Fires(cfg, s, m, VoiceRuleViolation)
    ensures BuiltinAction(cfg, s, m) == Severest(approval, pause, notice)
  {
  }

  /** With the built-in triggers, that is the action of every message. */
  lemma BuiltinActionIs(cfg: Config, s: Signals, m: MessageSignals)
    ensures MessageAction(cfg, BUILTIN_TRIGGERS, s, m) == BuiltinAction(cfg, s, m)
  {
    var b := BUILTIN_TRIGGERS;
    ActionIs(cfg, b, s, m);
    BuiltinAsks(cfg, s, m);
    TableIs(cfg, s, m, Asks(cfg, b, s, m, RequireApproval), Asks(cfg, b, s, m, Pause), Asks(cfg, b, s, m, Notify));
  }

  // ----- Urgency -----

  /** A trigger of this urgency fires. */
  ghost predicate Presses(cfg: Config, triggers: seq<Trigger>, s: Signals, m: MessageSignals, urgency: Urgency) {
    exists i :: 0 <= i < |triggers| && IsInForceAt(triggers, i) && triggers[i].urgency == urgency
                && Fires(cfg, s, m, triggers[i].id)
  }

  lemma PressesIff(cfg: Config, triggers: seq<Trigger>, s: Signals, m: MessageSignals, urgency: Urgency)
    ensures Presses(cfg, triggers, s, m, urgency)
            <==> exists t :: t in MatchedTriggers(cfg, triggers, s, m) && t.urgency == urgency
  {
    if Presses(cfg, triggers, s, m, urgency) {
      var i :| 0 <= i < |triggers| && IsInForceAt(triggers, i) && triggers[i].urgency == urgency
               && Fires(cfg, s, m, triggers[i].id);
      MatchedIff(cfg, triggers, s, m, triggers[i]);
    }
    if t :| t in MatchedTriggers(cfg, triggers, s, m) && t.urgency == urgency {
      MatchedIff(cfg, triggers, s, m, t);
    }
  }

  function Direst(critical: bool, high: bool, medium: bool): Urgency {
    if critical then Critical else if high then High else if medium then Medium else Low
  }

  lemma UrgencyIs(cfg: Config, triggers: seq<Trigger>, s: Signals, m: MessageSignals)
    ensures WorstUrgency(MatchedTriggers(cfg, triggers, s, m))
            == Direst(Presses(cfg, triggers, s, m, Critical), Presses(cfg, triggers, s, m, High),
                      Presses(cfg, triggers, s, m, Medium))
  {
    WorstIsWorst(MatchedTriggers(cfg, triggers, s, m));
    PressesIff(cfg, triggers, s, m, Critical);
    PressesIff(cfg, triggers, s, m, High);
    PressesIff(cfg, triggers, s, m, Medium);
  }

  lemma BuiltinPresses(cfg: Config, s: Signals, m: MessageSignals)
    ensures Presses(cfg, BUILTIN_TRIGGERS, s, m, Critical) <==> Asks(cfg, BUILTIN_TRIGGERS, s, m, RequireApproval)
    ensures Presses(cfg, BUILTIN_TRIGGERS, s, m, High) <==> Asks(cfg, BUILTIN_TRIGGERS, s, m, Pause)
    ensures Presses(cfg, BUILTIN_TRIGGERS, s, m, Medium)
            <==> || Fires(cfg, s, m, InjectionNotify) || Fires(cfg, s, m, LowAffinityChallenge)
                 || Fires(cfg, s, m, RateLimitExhaustion) || Fires(cfg, s, m, PolicyViolationWarn)
  {
    BuiltinsInForce();
    var b := BUILTIN_TRIGGERS;
    assert b[0].id == InjectionNotify && b[2].id == LowAffinityChallenge && b[4].id == RateLimitExhaustion
           && b[8].id == PolicyViolationWarn;
  }

  lemma BuiltinPressesMedium(cfg: Config, s: Signals, m: MessageSignals, medium: bool)
    requires medium <==> || Fires(cfg, s, m, InjectionNotify) || Fires(cfg, s, m, LowAffinityChallenge)
                         || Fires(cfg, s, m, RateLimitExhaustion) || Fires(cfg, s, m, PolicyViolationWarn)
    requires BuiltinAction(cfg, s, m) !in {RequireApproval, Pause}
    ensures medium <==> || m.injection >= cfg.injectionNotify || m.rateLimited || m.heuristicViolations > 0
                        || (s.challengeCount > 0 && s.lowestAffinity < cfg.lowAffinity)
  {
  }

  /** With the built-in triggers, what waits for approval is critical and what is paused is high; a notice is
      of medium urgency unless it is only about the budget or the voice rules. */
  lemma BuiltinUrgencyIs(cfg: Config, s: Signals, m: MessageSignals)
    ensures var urgency, action := WorstUrgency(MatchedTriggers(cfg, BUILTIN_TRIGGERS, s, m)), BuiltinAction(cfg, s, m);
      urgency == match action
                 case RequireApproval => Critical
                 case Pause => High
                 case _ => if m.injection >= cfg.injectionNotify || m.rateLimited || m.heuristicViolations > 0
                              || (s.challengeCount > 0 && s.lowestAffinity < cfg.lowAffinity) then Medium else Low
  {
    var b := BUILTIN_TRIGGERS;
    UrgencyIs(cfg, b, s, m);
    ActionIs(cfg, b, s, m);
    BuiltinActionIs(cfg, s, m);
    BuiltinPresses(cfg, s, m);
    if BuiltinAction(cfg, s, m) !in {RequireApproval, Pause} {
      BuiltinPressesMedium(cfg, s, m, Presses(cfg, b, s, m, Medium));
    }
  }
}
