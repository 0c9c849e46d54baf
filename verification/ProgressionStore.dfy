/** The progression ledger (lib/progression-store.ts): XP events, skill unlocks and prestige over the
    tables of one database, every transaction one atomic step. */
module ProgressionStore {
  import opened XpCurve

  type AgentId = string
  type NodeId = string

  datatype Profile = Profile(currentXp: int, lifetimeXp: int, level: int, rank: int)

  datatype SkillNode = SkillNode(cost: int, tier: int, prerequisites: seq<NodeId>)

  datatype XpEvent = XpEvent(agent: AgentId, rawXp: int, effectiveXp: int, category: string)

  datatype PrestigeRecord = PrestigeRecord(agent: AgentId, fromRank: int, toRank: int, xp: int, level: int,
                                           unlocks: nat, lifetimeXp: int)

  datatype UnlockMilestone = UnlockMilestone(agent: AgentId, node: NodeId, cost: int)

  datatype Db = Db(profiles: map<AgentId, Profile>, events: seq<XpEvent>, nodes: map<NodeId, SkillNode>,
                   edges: set<(NodeId, NodeId)>, unlocks: set<(AgentId, NodeId)>,
                   prestiges: seq<PrestigeRecord>, milestones: seq<UnlockMilestone>)

  datatype Result = Ok(db: Db) | Err(reason: string)

  const CATEGORIES: set<string> := {"mission_completion", "code_review", "documentation", "bug_fix", "deployment",
                                    "collaboration", "research", "testing", "observability", "security"}

  // ----- Transactions -----

  function ProfileOf(db: Db, agent: AgentId): Profile {
    if agent in db.profiles then db.profiles[agent] else Profile(0, 0, 1, 0)
  }

  function Categories(events: seq<XpEvent>, agent: AgentId): set<string> {
    set e | e in events && e.agent == agent :: e.category
  }

  /** Grows with the number of distinct categories the agent earned XP in. */
  function Multiplier(unique: nat): real {
    if unique == 0 then 1.0
    else if unique == 1 then 0.5
    else if unique <= 3 then 0.5 + (unique as real / 3.0) * 0.5
    else if unique <= 6 then 1.0 + ((unique - 3) as real / 3.0) * 0.3
    else if 1.3 + ((unique - 6) as real / 4.0) * 0.2 < 1.5 then 1.3 + ((unique - 6) as real / 4.0) * 0.2 else 1.5
  }

  function EffectiveXp(rawXp: int, unique: nat): int {
    var rounded := (rawXp as real * Multiplier(unique) + 0.5).Floor;
    if rounded < 1 then 1 else rounded
  }

  function Ingest(db: Db, agent: AgentId, rawXp: int, category: string): Result {
    if rawXp <= 0 then Err("raw_xp must be positive")
    else if category !in CATEGORIES then Err("invalid source_category")
    else
      var xp := EffectiveXp(rawXp, |Categories(db.events, agent) + {category}|);
      Ok(Credit(db, XpEvent(agent, rawXp, xp, category)))
  }

  function Credit(db: Db, e: XpEvent): Db {
    var p := ProfileOf(db, e.agent);
    var current := p.currentXp + e.effectiveXp;
    db.(events := db.events + [e],
        profiles := db.profiles[e.agent := Profile(current, p.lifetimeXp + e.effectiveXp, LevelFromXp(current),
                                                   p.rank)])
  }

  predicate PrerequisitesMet(db: Db, agent: AgentId, prerequisites: seq<NodeId>) {
    forall p :: p in prerequisites ==> (agent, p) in db.unlocks
  }

  function Unlock(db: Db, agent: AgentId, node: NodeId): Result {
    var p := ProfileOf(db, agent);
    if node !in db.nodes then Err("skill node not found")
    else if (agent, node) in db.unlocks then Err("skill already unlocked")
    else if !PrerequisitesMet(db, agent, db.nodes[node].prerequisites) then Err("prerequisites not met")
    else if p.currentXp < db.nodes[node].cost then Err("insufficient XP")
    else
      Ok(Spend(db, UnlockMilestone(agent, node, db.nodes[node].cost)))
  }

  function Spend(db: Db, m: UnlockMilestone): Db {
    var p := ProfileOf(db, m.agent);
    var left := p.currentXp - m.cost;
    db.(profiles := db.profiles[m.agent := p.(currentXp := left, level := LevelFromXp(left))],
        unlocks := db.unlocks + {(m.agent, m.node)},
        milestones := db.milestones + [m])
  }

  function UnlocksOf(db: Db, agent: AgentId): set<(AgentId, NodeId)> {
    set u | u in db.unlocks && u.0 == agent
  }

  function Prestige(db: Db, agent: AgentId): Result {
    if agent !in db.profiles then Err("profile not found")
    else
      var p := db.profiles[agent];
      if p.rank >= MAX_PRESTIGE_RANK then Err("already at maximum prestige rank")
      else if !IsPrestigeEligible(p.level, p.rank, p.lifetimeXp) then Err("not eligible for prestige")
      else
        var unlocks := |UnlocksOf(db, agent)|;
        var r := PrestigeRecord(agent, p.rank, p.rank + 1, p.currentXp, p.level, unlocks, p.lifetimeXp);
        Ok(db.(prestiges := db.prestiges + [r],
               profiles := db.profiles[agent := Profile(0, p.lifetimeXp, 1, p.rank + 1)],
               unlocks := db.unlocks - UnlocksOf(db, agent)))
  }

  function DeleteNode(db: Db, node: NodeId): Result {
    if exists e :: e in db.edges && e.0 == node then Err("prerequisite of another node")
    else
      Ok(db.(nodes := db.nodes - {node},
             edges := (set e | e in db.edges && e.1 != node),
             unlocks := (set u | u in db.unlocks && u.1 != node)))
  }

  /** The prerequisites before the first one that names no node: inserting that edge breaks its foreign key. */
  function KnownPrefix(nodes: map<NodeId, SkillNode>, prerequisites: seq<NodeId>): seq<NodeId> {
    if prerequisites == [] || prerequisites[0] !in nodes then []
    else [prerequisites[0]] + KnownPrefix(nodes, prerequisites[1..])
  }

  /** Not a transaction: when a prerequisite is unknown, the node and the edges before it stay written. */
  function UpsertNode(db: Db, node: NodeId, n: SkillNode): Db {
    var nodes := db.nodes[node := n];
    var known := KnownPrefix(nodes, n.prerequisites);
    db.(nodes := nodes,
        edges := (set e | e in db.edges && e.1 != node) + EdgesTo(known, node))
  }

  function EdgesTo(prerequisites: seq<NodeId>, node: NodeId): set<(NodeId, NodeId)> {
    set p | p in prerequisites :: (p, node)
  }

  // ----- Conservation of XP -----

  function EarnedXp(events: seq<XpEvent>, agent: AgentId): int {
    if events == [] then 0 else
      var e := events[|events| - 1];
      EarnedXp(events[..|events| - 1], agent) + if e.agent == agent then e.effectiveXp else 0
  }

  function SpentXp(milestones: seq<UnlockMilestone>, agent: AgentId): int {
    if milestones == [] then 0 else
      var m := milestones[|milestones| - 1];
      SpentXp(milestones[..|milestones| - 1], agent) + if m.agent == agent then m.cost else 0
  }

  function RecordsOf(prestiges: seq<PrestigeRecord>, agent: AgentId): seq<PrestigeRecord> {
    if prestiges == [] then [] else
      var r, rest := prestiges[|prestiges| - 1], RecordsOf(prestiges[..|prestiges| - 1], agent);
      if r.agent == agent then rest + [r] else rest
  }

  function ResetXp(records: seq<PrestigeRecord>): int {
    if records == [] then 0 else ResetXp(records[..|records| - 1]) + records[|records| - 1].xp
  }

  /** The records climb 0, 1, 2, ... one rank at a time, each from the XP its rank asks for. */
  predicate IsLadder(records: seq<PrestigeRecord>) {
    forall i :: 0 <= i < |records| ==>
      records[i].fromRank == i && records[i].toRank == i + 1 && records[i].xp >= PrestigeXpRequirement(i)
  }

  /** The books of one agent balance: what was earned is what is held, was reset by prestige or was spent. */
  predicate Balanced(db: Db, agent: AgentId) {
    BooksBalance(ProfileOf(db, agent), EarnedXp(db.events, agent), SpentXp(db.milestones, agent),
                 RecordsOf(db.prestiges, agent))
  }

  predicate BooksBalance(p: Profile, earned: int, spent: int, records: seq<PrestigeRecord>) {
    && p.lifetimeXp == earned
    && p.lifetimeXp == p.currentXp + ResetXp(records) + spent
    && p.currentXp >= 0 && p.level == LevelFromXp(p.currentXp)
    && IsLadder(records) && p.rank == |records| <= MAX_PRESTIGE_RANK
  }

  ghost predicate AllBalanced(db: Db) {
    forall agent :: Balanced(db, agent)
  }

  lemma EarnedAppend(events: seq<XpEvent>, e: XpEvent, agent: AgentId)
    ensures EarnedXp(events + [e], agent) == EarnedXp(events, agent) + if e.agent == agent then e.effectiveXp else 0
  {
    assert (events + [e])[..|events|] == events;
  }

  lemma SpentAppend(milestones: seq<UnlockMilestone>, m: UnlockMilestone, agent: AgentId)
    ensures SpentXp(milestones + [m], agent) == SpentXp(milestones, agent) + if m.agent == agent then m.cost else 0
  {
    assert (milestones + [m])[..|milestones|] == milestones;
  }

  lemma CreditBalanced(db: Db, e: XpEvent, other: AgentId)
    requires Balanced(db, other) && Balanced(db, e.agent) && e.effectiveXp >= 0
    ensures Balanced(Credit(db, e), other)
  {
    EarnedAppend(db.events, e, other);
    CreditedProfile(db, e, other);
  }

  lemma CreditedProfile(db: Db, e: XpEvent, other: AgentId)
    ensures var p, q := ProfileOf(db, other), ProfileOf(Credit(db, e), other);
      if e.agent == other then
        q == Profile(p.currentXp + e.effectiveXp, p.lifetimeXp + e.effectiveXp,
                     LevelFromXp(p.currentXp + e.effectiveXp), p.rank)
      else q == p
  {
  }

  lemma SpendBalanced(db: Db, m: UnlockMilestone, other: AgentId)
    requires Balanced(db, other) && Balanced(db, m.agent) && m.cost <= ProfileOf(db, m.agent).currentXp
    ensures Balanced(Spend(db, m), other)
  {
    SpentAppend(db.milestones, m, other);
    SpentProfile(db, m, other);
  }

  lemma SpentProfile(db: Db, m: UnlockMilestone, other: AgentId)
    ensures var p, q := ProfileOf(db, other), ProfileOf(Spend(db, m), other);
      if m.agent == other then q == p.(currentXp := p.currentXp - m.cost, level := LevelFromXp(p.currentXp - m.cost))
      else q == p
  {
  }

  /** The level half of the prestige test already puts the required XP in the agent's hands. */
  lemma EligibleHoldsRequirement(p: Profile)
    requires p.currentXp >= 0 && p.level == LevelFromXp(p.currentXp) && 0 <= p.rank < MAX_PRESTIGE_RANK
    ensures p.level >= PrestigeLevelRequirement(p.rank) <==> p.currentXp >= PrestigeXpRequirement(p.rank)
  {
    ReachesLevel(p.currentXp, PrestigeLevelRequirement(p.rank));
  }

  lemma RecordsAppend(prestiges: seq<PrestigeRecord>, r: PrestigeRecord, agent: AgentId)
    ensures RecordsOf(prestiges + [r], agent) == RecordsOf(prestiges, agent) + if r.agent == agent then [r] else []
  {
    assert (prestiges + [r])[..|prestiges|] == prestiges;
  }

  /** One more rung: the books balance again at level 1 with nothing held. */
  lemma LadderClimbs(p: Profile, earned: int, spent: int, records: seq<PrestigeRecord>, r: PrestigeRecord)
    requires BooksBalance(p, earned, spent, records) && p.rank < MAX_PRESTIGE_RANK
    requires p.currentXp >= PrestigeXpRequirement(p.rank)
    requires r.fromRank == p.rank && r.toRank == p.rank + 1 && r.xp == p.currentXp
    ensures BooksBalance(Profile(0, p.lifetimeXp, 1, p.rank + 1), earned, spent, records + [r])
  {
    assert (records + [r])[..|records|] == records;
    NewAgentLevel();
  }

  lemma PrestigedDb(db: Db, agent: AgentId, r: PrestigeRecord)
    requires Prestige(db, agent).Ok?
    requires var p := db.profiles[agent];
      r == PrestigeRecord(agent, p.rank, p.rank + 1, p.currentXp, p.level, |UnlocksOf(db, agent)|, p.lifetimeXp)
    ensures var p, after := db.profiles[agent], Prestige(db, agent).db;
      && p.rank < MAX_PRESTIGE_RANK && p.level >= PrestigeLevelRequirement(p.rank)
      && after.events == db.events && after.milestones == db.milestones && after.prestiges == db.prestiges + [r]
      && ProfileOf(after, agent) == Profile(0, p.lifetimeXp, 1, p.rank + 1)
      && forall other :: other != agent ==> ProfileOf(after, other) == ProfileOf(db, other)
  {
  }

  lemma PrestigeBalanced(db: Db, agent: AgentId, other: AgentId)
    requires Balanced(db, other) && Balanced(db, agent) && Prestige(db, agent).Ok?
    ensures Balanced(Prestige(db, agent).db, other)
  {
    var p := db.profiles[agent];
    var r := PrestigeRecord(agent, p.rank, p.rank + 1, p.currentXp, p.level, |UnlocksOf(db, agent)|, p.lifetimeXp);
    PrestigedDb(db, agent, r);
    RecordsAppend(db.prestiges, r, other);
    if other == agent {
      EligibleHoldsRequirement(p);
      LadderClimbs(p, EarnedXp(db.events, agent), SpentXp(db.milestones, agent), RecordsOf(db.prestiges, agent), r);
    } else {
      assert RecordsOf(db.prestiges, other) + [] == RecordsOf(db.prestiges, other);
    }
  }

  lemma NewAgentLevel()
    ensures LevelFromXp(0) == 1
  {
    var one := 1;
    FirstLevels();
    LevelInvertsThreshold(one);
  }

  // ----- Runs -----

  datatype Op = IngestOp(agent: AgentId, rawXp: int, category: string) | UnlockOp(agent: AgentId, node: NodeId)
              | PrestigeOp(agent: AgentId) | DeleteOp(node: NodeId) | UpsertOp(node: NodeId, n: SkillNode)

  function Committed(before: Db, r: Result): Db { if r.Ok? then r.db else before }

  /** A transaction that throws leaves the database as it was. */
  function Apply(db: Db, op: Op): Db {
    match op
    case IngestOp(agent, rawXp, category) => Committed(db, Ingest(db, agent, rawXp, category))
    case UnlockOp(agent, node) => Committed(db, Unlock(db, agent, node))
    case PrestigeOp(agent) => Committed(db, Prestige(db, agent))
    case DeleteOp(node) => Committed(db, DeleteNode(db, node))
    case UpsertOp(node, n) => UpsertNode(db, node, n)
  }

  function Run(db: Db, ops: seq<Op>): Db {
    if ops == [] then db else Apply(Run(db, ops[..|ops| - 1]), ops[|ops| - 1])
  }

  /** A new database holding a skill tree whose edges mirror the prerequisites. */
  function Seeded(nodes: map<NodeId, SkillNode>): Db {
    Db(map[], [], nodes, set n, p | n in nodes && p in nodes[n].prerequisites :: (p, n), {}, [], [])
  }

  lemma SeededBalanced(nodes: map<NodeId, SkillNode>, agent: AgentId)
    ensures Balanced(Seeded(nodes), agent)
  {
    NewAgentLevel();
  }

  lemma IngestBalanced(db: Db, agent: AgentId, rawXp: int, category: string, other: AgentId)
    requires Balanced(db, other) && Balanced(db, agent) && Ingest(db, agent, rawXp, category).Ok?
    ensures Balanced(Ingest(db, agent, rawXp, category).db, other)
  {
    CreditBalanced(db, XpEvent(agent, rawXp, EffectiveXp(rawXp, |Categories(db.events, agent) + {category}|), category),
                   other);
  }

  lemma ApplyBalanced(db: Db, op: Op, other: AgentId)
    requires AllBalanced(db)
    ensures Balanced(Apply(db, op), other)
  {
    assert Balanced(db, other);
    match op
    case IngestOp(agent, rawXp, category) =>
      assert Balanced(db, agent);
      if Ingest(db, agent, rawXp, category).Ok? { IngestBalanced(db, agent, rawXp, category, other); }
    case UnlockOp(agent, node) =>
      assert Balanced(db, agent);
      if Unlock(db, agent, node).Ok? { SpendBalanced(db, UnlockMilestone(agent, node, db.nodes[node].cost), other); }
    case PrestigeOp(agent) =>
      assert Balanced(db, agent);
      if Prestige(db, agent).Ok? { PrestigeBalanced(db, agent, other); }
    case DeleteOp(node) =>
    case UpsertOp(node, n) =>
  }

  /** In every reachable database the books of every agent balance. */
  lemma {:induction false} RunBalanced(nodes: map<NodeId, SkillNode>, ops: seq<Op>)
    ensures AllBalanced(Run(Seeded(nodes), ops))
  {
    forall agent ensures Balanced(Run(Seeded(nodes), ops), agent) {
      if ops == [] {
        SeededBalanced(nodes, agent);
      } else {
        RunBalanced(nodes, ops[..|ops| - 1]);
        ApplyBalanced(Run(Seeded(nodes), ops[..|ops| - 1]), ops[|ops| - 1], agent);
      }
    }
  }

  // ----- Prestige thresholds -----

  /** What the ranks reached so far asked for: the sum of the thresholds of levels 20, 25, ... */
  function RankThresholds(rank: int): nat {
    if rank <= 0 then 0 else RankThresholds(rank - 1) + PrestigeXpRequirement(rank - 1)
  }

  lemma {:induction false} LadderCoversThresholds(records: seq<PrestigeRecord>)
    requires IsLadder(records)
    ensures ResetXp(records) >= RankThresholds(|records|)
  {
    if records != [] { LadderCoversThresholds(records[..|records| - 1]); }
  }

  /** An agent whose unlocks cost nothing negative in total has earned, for life, at least what it
      holds plus the thresholds of all its ranks; so the lifetime half of the prestige test never
      decides anything. */
  lemma LifetimeHalfIsImplied(db: Db, agent: AgentId)
    requires Balanced(db, agent) && SpentXp(db.milestones, agent) >= 0
    ensures var p := ProfileOf(db, agent);
            && p.lifetimeXp >= p.currentXp + RankThresholds(p.rank)
            && (p.rank < MAX_PRESTIGE_RANK ==>
                  (IsPrestigeEligible(p.level, p.rank, p.lifetimeXp) <==> p.level >= PrestigeLevelRequirement(p.rank)))
  {
    var p := ProfileOf(db, agent);
    LadderCoversThresholds(RecordsOf(db.prestiges, agent));
    if p.rank < MAX_PRESTIGE_RANK { EligibleHoldsRequirement(p); }
  }

  lemma {:induction false} CostsAddUp(milestones: seq<UnlockMilestone>, agent: AgentId)
    requires forall m :: m in milestones ==> m.cost >= 0
    ensures SpentXp(milestones, agent) >= 0
  {
    if milestones != [] { CostsAddUp(milestones[..|milestones| - 1], agent); }
  }

  predicate NoNegativeCosts(db: Db) {
    && (forall n :: n in db.nodes ==> db.nodes[n].cost >= 0)
    && (forall m :: m in db.milestones ==> m.cost >= 0)
  }

  lemma ApplyKeepsCosts(db: Db, op: Op)
    requires NoNegativeCosts(db) && (op.UpsertOp? ==> op.n.cost >= 0)
    ensures NoNegativeCosts(Apply(db, op))
  {
  }

  lemma {:induction false} RunKeepsCosts(nodes: map<NodeId, SkillNode>, ops: seq<Op>)
    requires forall n :: n in nodes ==> nodes[n].cost >= 0
    requires forall i :: 0 <= i < |ops| && ops[i].UpsertOp? ==> ops[i].n.cost >= 0
    ensures NoNegativeCosts(Run(Seeded(nodes), ops))
  {
    if ops != [] {
      RunKeepsCosts(nodes, ops[..|ops| - 1]);
      ApplyKeepsCosts(Run(Seeded(nodes), ops[..|ops| - 1]), ops[|ops| - 1]);
    }
  }

  /** With non-negative skill costs, the lifetime half is implied in every reachable database. */
  lemma ReachableLifetimeHalfIsImplied(nodes: map<NodeId, SkillNode>, ops: seq<Op>, agent: AgentId)
    requires forall n :: n in nodes ==> nodes[n].cost >= 0
    requires forall i :: 0 <= i < |ops| && ops[i].UpsertOp? ==> ops[i].n.cost >= 0
    ensures var p := ProfileOf(Run(Seeded(nodes), ops), agent);
            && p.lifetimeXp >= p.currentXp + RankThresholds(p.rank)
            && (p.rank < MAX_PRESTIGE_RANK ==>
                  (IsPrestigeEligible(p.level, p.rank, p.lifetimeXp) <==> p.level >= PrestigeLevelRequirement(p.rank)))
  {
    var db := Run(Seeded(nodes), ops);
    RunBalanced(nodes, ops);
    RunKeepsCosts(nodes, ops);
    CostsAddUp(db.milestones, agent);
    assert Balanced(db, agent);
    LifetimeHalfIsImplied(db, agent);
  }

  /** A node with a negative cost breaks this: unlocking it pays out levels without lifetime XP. */
  lemma NegativeCostPaysLevels(agent: AgentId, node: NodeId)
    ensures var p := ProfileOf(Run(Seeded(map[node := SkillNode(-40_000, 1, [])]), [UnlockOp(agent, node)]), agent);
            p.level >= PrestigeLevelRequirement(p.rank) && !IsPrestigeEligible(p.level, p.rank, p.lifetimeXp)
  {
    var db := Seeded(map[node := SkillNode(-40_000, 1, [])]);
    var ops := [UnlockOp(agent, node)];
    assert ops[..0] == [];
    assert Run(db, ops[..0]) == db;
    var p := ProfileOf(Run(db, ops), agent);
    assert p == Profile(40_000, 0, LevelFromXp(40_000), 0);
    var required := PrestigeLevelRequirement(0);
    RootBound(required - 1, XpForLevel(required));
    ReachesLevel(40_000, required);
    StrictlyIncreasing(1, required);
  }

  // ----- Prerequisites -----

  /** Edges mirror the prerequisites of the nodes, all of which exist. */
  predicate Mirrored(db: Db) {
    && (forall n, p :: n in db.nodes && p in db.nodes[n].prerequisites ==> (p, n) in db.edges)
    && (forall e :: e in db.edges ==> e.1 in db.nodes && e.0 in db.nodes[e.1].prerequisites)
    && (forall u :: u in db.unlocks ==> u.1 in db.nodes)
  }

  /** Whoever unlocked a skill has unlocked its prerequisites. */
  predicate ClosedUnderPrerequisites(db: Db) {
    forall u, p :: u in db.unlocks && u.1 in db.nodes && p in db.nodes[u.1].prerequisites ==> (u.0, p) in db.unlocks
  }

  lemma {:induction false} KnownPrefixAll(nodes: map<NodeId, SkillNode>, prerequisites: seq<NodeId>)
    ensures (forall p :: p in KnownPrefix(nodes, prerequisites) ==> p in prerequisites)
    ensures (forall p :: p in prerequisites ==> p in KnownPrefix(nodes, prerequisites))
            <==> (forall p :: p in prerequisites ==> p in nodes)
  {
    if prerequisites != [] {
      KnownPrefixAll(nodes, prerequisites[1..]);
      assert prerequisites == [prerequisites[0]] + prerequisites[1..];
      assert prerequisites[0] in prerequisites;
      KnownPrefixKnown(nodes, prerequisites);
    }
  }

  lemma {:induction false} KnownPrefixKnown(nodes: map<NodeId, SkillNode>, prerequisites: seq<NodeId>)
    ensures forall p :: p in KnownPrefix(nodes, prerequisites) ==> p in nodes
  {
    if prerequisites != [] && prerequisites[0] in nodes { KnownPrefixKnown(nodes, prerequisites[1..]); }
  }

  /** Saving a node keeps the edges mirrored exactly when its prerequisites all exist, and keeps the
      unlocks closed exactly when every agent that has the node has its new prerequisites. */
  lemma UpsertKeepsIff(db: Db, node: NodeId, n: SkillNode)
    requires Mirrored(db) && ClosedUnderPrerequisites(db)
    ensures Mirrored(UpsertNode(db, node, n)) <==> forall p :: p in n.prerequisites ==> p in db.nodes || p == node
    ensures ClosedUnderPrerequisites(UpsertNode(db, node, n)) <==>
      forall u, p :: u in db.unlocks && u.1 == node && p in n.prerequisites ==> (u.0, p) in db.unlocks
  {
    var after := UpsertNode(db, node, n);
    KnownPrefixAll(after.nodes, n.prerequisites);
    if Mirrored(after) {
      forall p | p in n.prerequisites ensures p in KnownPrefix(after.nodes, n.prerequisites) {
        assert (p, node) in after.edges;
      }
    }
    if ClosedUnderPrerequisites(after) {
      forall u, p | u in db.unlocks && u.1 == node && p in n.prerequisites ensures (u.0, p) in db.unlocks {
        assert p in after.nodes[u.1].prerequisites;
      }
    }
  }

  /** Ingesting, unlocking, prestige and deletion keep edges mirrored and unlocks closed. */
  lemma TransactionsKeepPrerequisites(db: Db, op: Op)
    requires Mirrored(db) && ClosedUnderPrerequisites(db) && !op.UpsertOp?
    ensures Mirrored(Apply(db, op)) && ClosedUnderPrerequisites(Apply(db, op))
  {
    match op
    case IngestOp(agent, rawXp, category) =>
    case UnlockOp(agent, node) =>
    case PrestigeOp(agent) =>
    case DeleteOp(node) =>
      if DeleteNode(db, node).Ok? {
        forall n | n in db.nodes ensures node !in db.nodes[n].prerequisites {
          assert node in db.nodes[n].prerequisites ==> (node, n) in db.edges;
        }
      }
  }

  /** An upsert that names known prerequisites, which every holder of the node already has. */
  predicate SafeUpsert(db: Db, op: Op) {
    op.UpsertOp? ==>
      && (forall p :: p in op.n.prerequisites ==> p in db.nodes || p == op.node)
      && (forall u, p :: u in db.unlocks && u.1 == op.node && p in op.n.prerequisites ==> (u.0, p) in db.unlocks)
  }

  lemma {:induction false} RunKeepsPrerequisites(nodes: map<NodeId, SkillNode>, ops: seq<Op>)
    requires forall n, p :: n in nodes && p in nodes[n].prerequisites ==> p in nodes
    requires forall i :: 0 <= i < |ops| ==> SafeUpsert(Run(Seeded(nodes), ops[..i]), ops[i])
    ensures Mirrored(Run(Seeded(nodes), ops)) && ClosedUnderPrerequisites(Run(Seeded(nodes), ops))
  {
    if ops != [] {
      var init, op := ops[..|ops| - 1], ops[|ops| - 1];
      forall i | 0 <= i < |init| ensures SafeUpsert(Run(Seeded(nodes), init[..i]), init[i]) {
        assert init[..i] == ops[..i];
      }
      RunKeepsPrerequisites(nodes, init);
      if op.UpsertOp? {
        UpsertKeepsIff(Run(Seeded(nodes), init), op.node, op.n);
      } else {
        TransactionsKeepPrerequisites(Run(Seeded(nodes), init), op);
      }
    }
  }

  // ----- Two views of a node's state -----

  datatype NodeState = Locked | Available | Unlocked

  /** getSkillTreeState: a node without prerequisites is always available. */
  function StoreState(id: NodeId, node: SkillNode, unlocked: set<NodeId>): NodeState {
    if id in unlocked then Unlocked
    else if |node.prerequisites| == 0 || forall p :: p in node.prerequisites ==> p in unlocked then Available
    else Locked
  }

  /** getNodeState: without prerequisites only tier 1 is available. */
  function EngineState(id: NodeId, node: SkillNode, unlocked: set<NodeId>): NodeState {
    if id in unlocked then Unlocked
    else if node.tier == 1 && |node.prerequisites| == 0 then Available
    else if |node.prerequisites| > 0 && forall p :: p in node.prerequisites ==> p in unlocked then Available
    else Locked
  }

  /** The two agree on a tree, whatever is unlocked, exactly when its prerequisite-free nodes are all
      of tier 1. */
  lemma StatesAgreeIff(nodes: map<NodeId, SkillNode>)
    ensures (forall id, unlocked ::
              id in nodes ==> StoreState(id, nodes[id], unlocked) == EngineState(id, nodes[id], unlocked))
            <==> forall id :: id in nodes && nodes[id].prerequisites == [] ==> nodes[id].tier == 1
  {
    if id :| id in nodes && nodes[id].prerequisites == [] && nodes[id].tier != 1 {
      assert StoreState(id, nodes[id], {}) != EngineState(id, nodes[id], {});
    }
  }

  // ----- The store -----

  class Store {
    var db: Db

    constructor (nodes: map<NodeId, SkillNode>)
      ensures db == Seeded(nodes)
    {
      db := Seeded(nodes);
    }

    method IngestXpEvent(agent: AgentId, rawXp: int, category: string) returns (r: Result)
      modifies this
      ensures r == Ingest(old(db), agent, rawXp, category) && db == Committed(old(db), r)
    {
      if rawXp <= 0 { return Err("raw_xp must be positive"); }
      if category !in CATEGORIES { return Err("invalid source_category"); }
      var profile := ProfileOf(db, agent);
      var effectiveXp := EffectiveXp(rawXp, |Categories(db.events, agent) + {category}|);
      Post(profile, XpEvent(agent, rawXp, effectiveXp, category));
      r := Ok(db);
    }

    method Post(profile: Profile, e: XpEvent)
      requires profile == ProfileOf(db, e.agent)
      modifies this
      ensures db == Credit(old(db), e)
    {
      db := db.(events := db.events + [e]);
      var current := profile.currentXp + e.effectiveXp;
      var level := ComputeLevel(current);
      db := db.(profiles := db.profiles[e.agent := Profile(current, profile.lifetimeXp + e.effectiveXp, level,
                                                           profile.rank)]);
    }

    method UnlockSkill(agent: AgentId, node: NodeId) returns (r: Result)
      modifies this
      ensures r == Unlock(old(db), agent, node) && db == Committed(old(db), r)
    {
      var profile := ProfileOf(db, agent);
      if node !in db.nodes { return Err("skill node not found"); }
      var n := db.nodes[node];
      if (agent, node) in db.unlocks { return Err("skill already unlocked"); }
      if !PrerequisitesMet(db, agent, n.prerequisites) { return Err("prerequisites not met"); }
      if profile.currentXp < n.cost { return Err("insufficient XP"); }
      var left := profile.currentXp - n.cost;
      var level := ComputeLevel(left);
      db := db.(profiles := db.profiles[agent := profile.(currentXp := left, level := level)]);
      db := db.(unlocks := db.unlocks + {(agent, node)});
      db := db.(milestones := db.milestones + [UnlockMilestone(agent, node, n.cost)]);
      r := Ok(db);
    }

    method PrestigeTransition(agent: AgentId) returns (r: Result)
      modifies this
      ensures r == Prestige(old(db), agent) && db == Committed(old(db), r)
    {
      if agent !in db.profiles { return Err("profile not found"); }
      var p := db.profiles[agent];
      if p.rank >= MAX_PRESTIGE_RANK { return Err("already at maximum prestige rank"); }
      if !IsPrestigeEligible(p.level, p.rank, p.lifetimeXp) { return Err("not eligible for prestige"); }
      var mine := UnlocksOf(db, agent);
      db := db.(prestiges := db.prestiges
                + [PrestigeRecord(agent, p.rank, p.rank + 1, p.currentXp, p.level, |mine|, p.lifetimeXp)]);
      db := db.(profiles := db.profiles[agent := p.(currentXp := 0, level := 1, rank := p.rank + 1)]);
      db := db.(unlocks := db.unlocks - mine);
      r := Ok(db);
    }

    /** `deleted` tells whether there was such a node. */
    method DeleteSkillNode(node: NodeId) returns (r: Result, deleted: bool)
      modifies this
      ensures r == DeleteNode(old(db), node) && db == Committed(old(db), r)
      ensures deleted <==> r.Ok? && node in old(db).nodes
    {
      deleted := false;
      if exists e :: e in db.edges && e.0 == node { return Err("prerequisite of another node"), false; }
      db := db.(edges := set e | e in db.edges && e.1 != node);
      db := db.(unlocks := set u | u in db.unlocks && u.1 != node);
      deleted := node in db.nodes;
      db := db.(nodes := db.nodes - {node});
      r := Ok(db);
    }

    /** Writes the node, drops its old edges and inserts the new ones until a foreign key fails. */
    method UpsertSkillNode(node: NodeId, n: SkillNode) returns (ok: bool)
      modifies this
      ensures db == UpsertNode(old(db), node, n)
      ensures ok <==> forall p :: p in n.prerequisites ==> p in old(db).nodes || p == node
    {
      db := db.(nodes := db.nodes[node := n]);
      db := db.(edges := set e | e in db.edges && e.1 != node);
      ok := InsertEdges(node, n.prerequisites);
    }

    method InsertEdges(node: NodeId, prerequisites: seq<NodeId>) returns (ok: bool)
      modifies this
      ensures db == old(db).(edges := old(db).edges + EdgesTo(KnownPrefix(old(db).nodes, prerequisites), node))
      ensures ok <==> forall p :: p in prerequisites ==> p in old(db).nodes
    {
      ghost var start := db;
      var i := 0;
      while i < |prerequisites| && prerequisites[i] in db.nodes
        invariant i <= |prerequisites| && db == start.(edges := start.edges + EdgesTo(prerequisites[..i], node))
        invariant forall k :: 0 <= k < i ==> prerequisites[k] in start.nodes
      {
        EdgesToAppend(prerequisites, i, node);
        db := db.(edges := db.edges + {(prerequisites[i], node)});
        i := i + 1;
      }
      KnownPrefixIs(start.nodes, prerequisites, i);
      ok := i == |prerequisites|;
    }
  }

  lemma EdgesToAppend(prerequisites: seq<NodeId>, i: nat, node: NodeId)
    requires i < |prerequisites|
    ensures EdgesTo(prerequisites[..i + 1], node) == EdgesTo(prerequisites[..i], node) + {(prerequisites[i], node)}
  {
    assert prerequisites[..i + 1] == prerequisites[..i] + [prerequisites[i]];
  }

  lemma {:induction false} KnownPrefixIs(nodes: map<NodeId, SkillNode>, prerequisites: seq<NodeId>, i: nat)
    requires i <= |prerequisites| && forall k :: 0 <= k < i ==> prerequisites[k] in nodes
    requires i < |prerequisites| ==> prerequisites[i] !in nodes
    ensures KnownPrefix(nodes, prerequisites) == prerequisites[..i]
  {
    if i > 0 { KnownPrefixIs(nodes, prerequisites[1..], i - 1); }
  }
}
