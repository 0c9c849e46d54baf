/** What the database tells of a run (lib/progression-store.ts): unlocks, nodes, ranks and XP, each read off the
    transactions that went through. */
module ProgressionHistory {
  import opened XpCurve
  import opened ProgressionStore

  type Nodes = map<NodeId, SkillNode>

  /** The database as operation `i` finds it. */
  function At(nodes: Nodes, ops: seq<Op>, i: nat): Db
    requires i <= |ops|
  {
    Run(Seeded(nodes), ops[..i])
  }

  /** Operation `i` unlocked the node for the agent. */
  predicate Unlocks(nodes: Nodes, ops: seq<Op>, i: nat, agent: AgentId, node: NodeId) {
    i < |ops| && ops[i] == UnlockOp(agent, node) && Unlock(At(nodes, ops, i), agent, node).Ok?
  }

  predicate Prestiges(nodes: Nodes, ops: seq<Op>, i: nat, agent: AgentId) {
    i < |ops| && ops[i] == PrestigeOp(agent) && Prestige(At(nodes, ops, i), agent).Ok?
  }

  predicate Deletes(nodes: Nodes, ops: seq<Op>, i: nat, node: NodeId) {
    i < |ops| && ops[i] == DeleteOp(node) && DeleteNode(At(nodes, ops, i), node).Ok?
  }

  predicate Clears(nodes: Nodes, ops: seq<Op>, i: nat, agent: AgentId, node: NodeId) {
    Prestiges(nodes, ops, i, agent) || Deletes(nodes, ops, i, node)
  }

  // ----- Unlocks -----

  /** Operation `i` unlocked the node, and since then the agent was not promoted and the node not deleted. */
  ghost predicate LastsSince(nodes: Nodes, ops: seq<Op>, i: nat, agent: AgentId, node: NodeId) {
    Unlocks(nodes, ops, i, agent, node) && forall k: nat :: i < k ==> !Clears(nodes, ops, k, agent, node)
  }

  ghost predicate HasUnlocked(nodes: Nodes, ops: seq<Op>, agent: AgentId, node: NodeId) {
    exists i: nat :: LastsSince(nodes, ops, i, agent, node)
  }

  lemma EarlierOps(nodes: Nodes, ops: seq<Op>, i: nat, agent: AgentId, node: NodeId)
    requires ops != [] && i < |ops| - 1
    ensures var init := ops[..|ops| - 1];
      && At(nodes, init, i) == At(nodes, ops, i)
      && Unlocks(nodes, init, i, agent, node) == Unlocks(nodes, ops, i, agent, node)
      && Clears(nodes, init, i, agent, node) == Clears(nodes, ops, i, agent, node)
      && Prestiges(nodes, init, i, agent) == Prestiges(nodes, ops, i, agent)
      && Deletes(nodes, init, i, node) == Deletes(nodes, ops, i, node)
  {
    assert ops[..|ops| - 1][..i] == ops[..i];
  }

  lemma EarlierClear(nodes: Nodes, ops: seq<Op>, k: nat, agent: AgentId, node: NodeId)
    requires ops != []
    ensures Clears(nodes, ops[..|ops| - 1], k, agent, node) == (k < |ops| - 1 && Clears(nodes, ops, k, agent, node))
  {
    if k < |ops| - 1 { EarlierOps(nodes, ops, k, agent, node); }
  }

  lemma LastedBefore(nodes: Nodes, ops: seq<Op>, i: nat, agent: AgentId, node: NodeId)
    requires ops != [] && i < |ops| - 1 && LastsSince(nodes, ops, i, agent, node)
    ensures LastsSince(nodes, ops[..|ops| - 1], i, agent, node) && !Clears(nodes, ops, |ops| - 1, agent, node)
  {
    var init := ops[..|ops| - 1];
    EarlierOps(nodes, ops, i, agent, node);
    forall k: nat | i < k ensures !Clears(nodes, init, k, agent, node) {
      EarlierClear(nodes, ops, k, agent, node);
    }
  }

  lemma LastsOneMore(nodes: Nodes, ops: seq<Op>, i: nat, agent: AgentId, node: NodeId)
    requires ops != [] && i < |ops| - 1 && LastsSince(nodes, ops[..|ops| - 1], i, agent, node)
    requires !Clears(nodes, ops, |ops| - 1, agent, node)
    ensures LastsSince(nodes, ops, i, agent, node)
  {
    EarlierOps(nodes, ops, i, agent, node);
    forall k: nat | i < k ensures !Clears(nodes, ops, k, agent, node) {
      if k < |ops| - 1 { EarlierClear(nodes, ops, k, agent, node); }
    }
  }

  lemma LastsFromNow(nodes: Nodes, ops: seq<Op>, agent: AgentId, node: NodeId)
    requires ops != []
    ensures LastsSince(nodes, ops, |ops| - 1, agent, node) <==> Unlocks(nodes, ops, |ops| - 1, agent, node)
  {
  }

  lemma HasUnlockedNext(nodes: Nodes, ops: seq<Op>, agent: AgentId, node: NodeId)
    requires ops != []
    ensures var n := |ops| - 1;
      HasUnlocked(nodes, ops, agent, node)
      <==> Unlocks(nodes, ops, n, agent, node)
           || (HasUnlocked(nodes, ops[..n], agent, node) && !Clears(nodes, ops, n, agent, node))
  {
    var n := |ops| - 1;
    LastsFromNow(nodes, ops, agent, node);
    if HasUnlocked(nodes, ops, agent, node) {
      var i: nat :| LastsSince(nodes, ops, i, agent, node);
      if i < n { LastedBefore(nodes, ops, i, agent, node); }
    }
    if HasUnlocked(nodes, ops[..n], agent, node) {
      var i: nat :| LastsSince(nodes, ops[..n], i, agent, node);
      if !Clears(nodes, ops, n, agent, node) { LastsOneMore(nodes, ops, i, agent, node); }
    }
  }

  lemma UnlocksNext(db: Db, op: Op, agent: AgentId, node: NodeId)
    ensures (agent, node) in Apply(db, op).unlocks
            <==> (op == UnlockOp(agent, node) && Unlock(db, agent, node).Ok?)
                 || ((agent, node) in db.unlocks
                     && !(op == PrestigeOp(agent) && Prestige(db, agent).Ok?)
                     && !(op == DeleteOp(node) && DeleteNode(db, node).Ok?))
  {
  }

  /** The table of unlocks, over every run: exactly those unlocked with success and not cleared since by a
      prestige of the agent or by a deletion of the node. */
  lemma {:induction false} UnlockedIff(nodes: Nodes, ops: seq<Op>, agent: AgentId, node: NodeId)
    ensures (agent, node) in Run(Seeded(nodes), ops).unlocks <==> HasUnlocked(nodes, ops, agent, node)
  {
    if ops != [] {
      var n := |ops| - 1;
      UnlockedIff(nodes, ops[..n], agent, node);
      UnlocksNext(At(nodes, ops, n), ops[n], agent, node);
      HasUnlockedNext(nodes, ops, agent, node);
    }
  }

  /** Within one rank, and while the node is not deleted, a second unlock is refused and charges nothing. */
  lemma SecondUnlockRefused(nodes: Nodes, ops: seq<Op>, i: nat, agent: AgentId, node: NodeId)
    requires Unlocks(nodes, ops, i, agent, node)
    requires forall k: nat :: i < k < |ops| ==> !Clears(nodes, ops, k, agent, node)
    ensures Unlock(Run(Seeded(nodes), ops), agent, node).Err?
    ensures Run(Seeded(nodes), ops + [UnlockOp(agent, node)]) == Run(Seeded(nodes), ops)
  {
    assert LastsSince(nodes, ops, i, agent, node);
    UnlockedIff(nodes, ops, agent, node);
    assert (ops + [UnlockOp(agent, node)])[..|ops|] == ops;
  }

  /** An unlock goes through exactly when the node is there, the agent does not have it, has all its
      prerequisites, and holds its cost. */
  lemma UnlockSucceedsIff(nodes: Nodes, ops: seq<Op>, agent: AgentId, node: NodeId)
    ensures var db := Run(Seeded(nodes), ops);
      Unlock(db, agent, node).Ok?
      <==> && node in db.nodes && !HasUnlocked(nodes, ops, agent, node)
           && (forall p :: p in db.nodes[node].prerequisites ==> HasUnlocked(nodes, ops, agent, p))
           && ProfileOf(db, agent).currentXp >= db.nodes[node].cost
  {
    UnlockedIff(nodes, ops, agent, node);
    forall p { UnlockedIff(nodes, ops, agent, p); }
  }

  // ----- Nodes -----

  /** Operation `i` saved the node, or deleted it. */
  predicate Writes(nodes: Nodes, ops: seq<Op>, i: nat, node: NodeId) {
    i < |ops| && ((ops[i].UpsertOp? && ops[i].node == node) || Deletes(nodes, ops, i, node))
  }

  ghost predicate IsLastWrite(nodes: Nodes, ops: seq<Op>, i: nat, node: NodeId) {
    Writes(nodes, ops, i, node) && forall k: nat :: i < k ==> !Writes(nodes, ops, k, node)
  }

  lemma EarlierWrite(nodes: Nodes, ops: seq<Op>, i: nat, node: NodeId)
    requires ops != []
    ensures Writes(nodes, ops[..|ops| - 1], i, node) == (i < |ops| - 1 && Writes(nodes, ops, i, node))
  {
    if i < |ops| - 1 { EarlierOps(nodes, ops, i, "", node); }
  }

  /** A node is as it was last saved, and gone if it was last deleted. */
  lemma {:induction false} NodeIsAsWritten(nodes: Nodes, ops: seq<Op>, i: nat, node: NodeId)
    requires IsLastWrite(nodes, ops, i, node)
    ensures var db := Run(Seeded(nodes), ops);
      (node in db.nodes <==> ops[i].UpsertOp?) && (ops[i].UpsertOp? ==> db.nodes[node] == ops[i].n)
  {
    var n := |ops| - 1;
    NodesNext(At(nodes, ops, n), ops[n], node);
    if i < n {
      EarlierWrite(nodes, ops, i, node);
      assert Writes(nodes, ops[..n], i, node);
      forall k: nat | i < k ensures !Writes(nodes, ops[..n], k, node) { EarlierWrite(nodes, ops, k, node); }
      assert IsLastWrite(nodes, ops[..n], i, node);
      NodeIsAsWritten(nodes, ops[..n], i, node);
      assert !Writes(nodes, ops, n, node);
    }
  }

  /** A node that was never saved nor deleted is as in the first tree. */
  lemma {:induction false} NodeIsAsSeeded(nodes: Nodes, ops: seq<Op>, node: NodeId)
    requires forall k: nat :: !Writes(nodes, ops, k, node)
    ensures var db := Run(Seeded(nodes), ops);
      (node in db.nodes <==> node in nodes) && (node in nodes ==> db.nodes[node] == nodes[node])
  {
    if ops != [] {
      var n := |ops| - 1;
      forall k: nat ensures !Writes(nodes, ops[..n], k, node) { EarlierWrite(nodes, ops, k, node); }
      NodeIsAsSeeded(nodes, ops[..n], node);
      NodesNext(At(nodes, ops, n), ops[n], node);
      assert !Writes(nodes, ops, n, node);
    }
  }

  lemma NodesNext(db: Db, op: Op, node: NodeId)
    ensures var after := Apply(db, op);
      if op.UpsertOp? && op.node == node then node in after.nodes && after.nodes[node] == op.n
      else if op == DeleteOp(node) && DeleteNode(db, node).Ok? then node !in after.nodes
      else (node in after.nodes <==> node in db.nodes) && (node in db.nodes ==> after.nodes[node] == db.nodes[node])
  {
  }

  /** While edges and prerequisites agree, a deletion goes through exactly when no node asks for this one. */
  lemma DeleteSucceedsIff(nodes: Nodes, ops: seq<Op>, node: NodeId)
    requires Mirrored(Run(Seeded(nodes), ops))
    ensures var db := Run(Seeded(nodes), ops);
      DeleteNode(db, node).Ok? <==> forall n :: n in db.nodes ==> node !in db.nodes[n].prerequisites
  {
    var db := Run(Seeded(nodes), ops);
    if n :| n in db.nodes && node in db.nodes[n].prerequisites {
      assert (node, n) in db.edges;
    }
  }

  // ----- Earned XP -----

  /** An event of positive XP in a category there is. */
  predicate IsEarning(op: Op, agent: AgentId) {
    op.IngestOp? && op.agent == agent && op.rawXp > 0 && op.category in CATEGORIES
  }

  /** The categories the agent has earned XP in. */
  function Earnt(ops: seq<Op>, agent: AgentId): set<string> {
    set i | 0 <= i < |ops| && IsEarning(ops[i], agent) :: ops[i].category
  }

  /** The XP of every event, by how many categories the agent had earned XP in by then. */
  function EarnedIn(ops: seq<Op>, agent: AgentId): int {
    if ops == [] then 0 else
      var n := |ops| - 1;
      EarnedIn(ops[..n], agent)
      + if IsEarning(ops[n], agent) then EffectiveXp(ops[n].rawXp, |Earnt(ops, agent)|) else 0
  }

  lemma EarntNext(ops: seq<Op>, agent: AgentId)
    requires ops != []
    ensures var n := |ops| - 1;
      Earnt(ops, agent) == Earnt(ops[..n], agent) + if IsEarning(ops[n], agent) then {ops[n].category} else {}
  {
    var n := |ops| - 1;
    forall c | c in Earnt(ops, agent)
      ensures c in Earnt(ops[..n], agent) + if IsEarning(ops[n], agent) then {ops[n].category} else {}
    {
      var i :| 0 <= i < |ops| && IsEarning(ops[i], agent) && ops[i].category == c;
      assert i < n ==> ops[..n][i] == ops[i];
    }
    forall c | c in Earnt(ops[..n], agent) ensures c in Earnt(ops, agent) {
      var i :| 0 <= i < n && IsEarning(ops[..n][i], agent) && ops[..n][i].category == c;
      assert ops[i] == ops[..n][i];
    }
  }

  lemma CategoriesAppend(events: seq<XpEvent>, e: XpEvent, agent: AgentId)
    ensures Categories(events + [e], agent)
            == Categories(events, agent) + if e.agent == agent then {e.category} else {}
  {
    forall x | x in events + [e] ensures x in events || x == e {}
  }

  lemma EventsNext(db: Db, op: Op, agent: AgentId)
    ensures var after := Apply(db, op);
      if op.IngestOp? && IsEarning(op, op.agent) then
        after.events == db.events + [XpEvent(op.agent, op.rawXp,
                                             EffectiveXp(op.rawXp, |Categories(db.events, op.agent) + {op.category}|),
                                             op.category)]
      else after.events == db.events
  {
  }

  lemma {:induction false} EarningsAre(nodes: Nodes, ops: seq<Op>, agent: AgentId)
    ensures var db := Run(Seeded(nodes), ops);
      Categories(db.events, agent) == Earnt(ops, agent) && EarnedXp(db.events, agent) == EarnedIn(ops, agent)
  {
    if ops != [] {
      var n := |ops| - 1;
      var db, op := At(nodes, ops, n), ops[n];
      EarningsAre(nodes, ops[..n], agent);
      EarntNext(ops, agent);
      EventsNext(db, op, agent);
      if op.IngestOp? && IsEarning(op, op.agent) {
        var e := XpEvent(op.agent, op.rawXp,
                         EffectiveXp(op.rawXp, |Categories(db.events, op.agent) + {op.category}|), op.category);
        CategoriesAppend(db.events, e, agent);
        EarnedAppend(db.events, e, agent);
      }
    }
  }

  // ----- Spent and reset XP, and ranks -----

  /** The costs of the nodes the agent unlocked, each as it was then. */
  function SpentIn(nodes: Nodes, ops: seq<Op>, agent: AgentId): int {
    if ops == [] then 0 else
      var n, op := |ops| - 1, ops[|ops| - 1];
      SpentIn(nodes, ops[..n], agent)
      + if op.UnlockOp? && Unlocks(nodes, ops, n, agent, op.node) then At(nodes, ops, n).nodes[op.node].cost else 0
  }

  /** The XP the agent held at each prestige. */
  function ResetIn(nodes: Nodes, ops: seq<Op>, agent: AgentId): int {
    if ops == [] then 0 else
      var n := |ops| - 1;
      ResetIn(nodes, ops[..n], agent)
      + if Prestiges(nodes, ops, n, agent) then ProfileOf(At(nodes, ops, n), agent).currentXp else 0
  }

  /** The prestiges of the agent. */
  function RanksIn(nodes: Nodes, ops: seq<Op>, agent: AgentId): set<nat> {
    set i: nat | i < |ops| && Prestiges(nodes, ops, i, agent)
  }

  lemma RanksNext(nodes: Nodes, ops: seq<Op>, agent: AgentId)
    requires ops != []
    ensures var n := |ops| - 1;
      |RanksIn(nodes, ops, agent)| == |RanksIn(nodes, ops[..n], agent)|
        + if Prestiges(nodes, ops, n, agent) then 1 else 0
  {
    var n := |ops| - 1;
    forall i: nat | i < n { EarlierOps(nodes, ops, i, agent, ""); }
    var before := RanksIn(nodes, ops[..n], agent);
    assert RanksIn(nodes, ops, agent) == before + if Prestiges(nodes, ops, n, agent) then {n} else {};
  }

  lemma BooksNext(db: Db, op: Op, agent: AgentId)
    ensures var after := Apply(db, op);
      && SpentXp(after.milestones, agent) == SpentXp(db.milestones, agent)
         + (if op.UnlockOp? && op.agent == agent && Unlock(db, agent, op.node).Ok? then db.nodes[op.node].cost else 0)
      && RecordsOf(after.prestiges, agent) == RecordsOf(db.prestiges, agent)
         + if op == PrestigeOp(agent) && Prestige(db, agent).Ok? then [RecordAt(db, agent)] else []
  {
    match op
    case UnlockOp(other, node) =>
      if Unlock(db, other, node).Ok? {
        SpentAppend(db.milestones, UnlockMilestone(other, node, db.nodes[node].cost), agent);
      }
    case PrestigeOp(other) =>
      if Prestige(db, other).Ok? {
        RecordTells(db, other);
        RecordsAppend(db.prestiges, RecordAt(db, other), agent);
      }
    case _ =>
  }

  /** What a prestige puts on record: the ranks, and what the agent held, had reached, had unlocked and had earned. */
  function RecordAt(db: Db, agent: AgentId): PrestigeRecord {
    var p := ProfileOf(db, agent);
    PrestigeRecord(agent, p.rank, p.rank + 1, p.currentXp, p.level, |NodesOf(db, agent)|, p.lifetimeXp)
  }

  function NodesOf(db: Db, agent: AgentId): set<NodeId> { set u | u in db.unlocks && u.0 == agent :: u.1 }

  lemma RecordTells(db: Db, agent: AgentId)
    requires Prestige(db, agent).Ok?
    ensures Prestige(db, agent).db.prestiges == db.prestiges + [RecordAt(db, agent)]
  {
    PairsAndNodes(UnlocksOf(db, agent), NodesOf(db, agent), agent);
  }

  lemma {:induction false} PairsAndNodes(pairs: set<(AgentId, NodeId)>, ns: set<NodeId>, agent: AgentId)
    requires forall n :: n in ns <==> (agent, n) in pairs
    requires forall u :: u in pairs ==> u.0 == agent
    ensures |pairs| == |ns|
    decreases |pairs|
  {
    if pairs == {} {
      assert ns == {} by {
        if n :| n in ns { assert (agent, n) in pairs; }
      }
    } else {
      var u :| u in pairs;
      assert u == (agent, u.1) && u.1 in ns;
      PairsAndNodes(pairs - {u}, ns - {u.1}, agent);
    }
  }

  lemma {:induction false} BooksAre(nodes: Nodes, ops: seq<Op>, agent: AgentId)
    ensures var db := Run(Seeded(nodes), ops);
      && SpentXp(db.milestones, agent) == SpentIn(nodes, ops, agent)
      && ResetXp(RecordsOf(db.prestiges, agent)) == ResetIn(nodes, ops, agent)
      && |RecordsOf(db.prestiges, agent)| == |RanksIn(nodes, ops, agent)|
  {
    if ops != [] {
      var n := |ops| - 1;
      var db := At(nodes, ops, n);
      BooksAre(nodes, ops[..n], agent);
      BooksNext(db, ops[n], agent);
      RanksNext(nodes, ops, agent);
      ResetAppend(RecordsOf(db.prestiges, agent), RecordAt(db, agent));
    }
  }

  lemma ResetAppend(records: seq<PrestigeRecord>, r: PrestigeRecord)
    ensures ResetXp(records + [r]) == ResetXp(records) + r.xp
    ensures records + [] == records
  {
    assert (records + [r])[..|records|] == records;
  }

  /** The profile of every agent, over every run: its lifetime XP is what its accepted events earned, its rank
      counts its prestiges, and it holds what neither an unlock nor a prestige took. */
  lemma ProfileIs(nodes: Nodes, ops: seq<Op>, agent: AgentId)
    ensures var p := ProfileOf(Run(Seeded(nodes), ops), agent);
      && p.lifetimeXp == EarnedIn(ops, agent) && p.rank == |RanksIn(nodes, ops, agent)|
      && p.currentXp == EarnedIn(ops, agent) - SpentIn(nodes, ops, agent) - ResetIn(nodes, ops, agent)
  {
    RunBalanced(nodes, ops);
    assert Balanced(Run(Seeded(nodes), ops), agent);
    EarningsAre(nodes, ops, agent);
    BooksAre(nodes, ops, agent);
  }

  /** Each prestige is on record with what the agent had then, its unlocked nodes counted. */
  lemma PrestigeIsRecorded(nodes: Nodes, ops: seq<Op>, i: nat, agent: AgentId)
    requires Prestiges(nodes, ops, i, agent)
    ensures RecordsOf(At(nodes, ops, i + 1).prestiges, agent)
            == RecordsOf(At(nodes, ops, i).prestiges, agent) + [RecordAt(At(nodes, ops, i), agent)]
    ensures forall n :: n in NodesOf(At(nodes, ops, i), agent) <==> HasUnlocked(nodes, ops[..i], agent, n)
  {
    assert ops[..i + 1][..i] == ops[..i];
    BooksNext(At(nodes, ops, i), ops[i], agent);
    forall n ensures n in NodesOf(At(nodes, ops, i), agent) <==> HasUnlocked(nodes, ops[..i], agent, n) {
      UnlockedIff(nodes, ops[..i], agent, n);
      assert (agent, n) in At(nodes, ops, i).unlocks ==> (agent, n).1 in NodesOf(At(nodes, ops, i), agent);
    }
  }

  lemma EligibleIff(p: Profile, rank: nat, required: nat)
    requires 0 <= p.currentXp && p.level == LevelFromXp(p.currentXp) && p.rank == rank && required == 20 + 5 * rank
    requires rank < MAX_PRESTIGE_RANK ==>
               (IsPrestigeEligible(p.level, p.rank, p.lifetimeXp) <==> p.level >= PrestigeLevelRequirement(p.rank))
    ensures rank < MAX_PRESTIGE_RANK && IsPrestigeEligible(p.level, p.rank, p.lifetimeXp)
            <==> rank < 10 && p.currentXp >= XpForLevel(required)
  {
    if rank < 10 { ReachesLevel(p.currentXp, required); }
  }

  lemma NewAgentHoldsTooLittle(required: nat)
    requires required > 1
    ensures 0 < XpForLevel(required)
  {
    StrictlyIncreasing(1, required);
  }

  /** A prestige goes through exactly when the agent has fewer than ten and holds the XP of the level its rank
      asks for, as long as no node has a negative cost. */
  lemma PrestigeSucceedsIff(nodes: Nodes, ops: seq<Op>, agent: AgentId, required: nat)
    requires forall n :: n in nodes ==> nodes[n].cost >= 0
    requires forall i :: 0 <= i < |ops| && ops[i].UpsertOp? ==> ops[i].n.cost >= 0
    requires required == 20 + 5 * |RanksIn(nodes, ops, agent)|
    ensures var db := Run(Seeded(nodes), ops);
      Prestige(db, agent).Ok?
      <==> |RanksIn(nodes, ops, agent)| < 10 && ProfileOf(db, agent).currentXp >= XpForLevel(required)
  {
    ProfileIs(nodes, ops, agent);
    RunBalanced(nodes, ops);
    assert Balanced(Run(Seeded(nodes), ops), agent);
    ReachableLifetimeHalfIsImplied(nodes, ops, agent);
    NewAgentHoldsTooLittle(required);
    PrestigeOkIff(Run(Seeded(nodes), ops), agent, |RanksIn(nodes, ops, agent)|, required);
  }

  lemma PrestigeOkIff(db: Db, agent: AgentId, rank: nat, required: nat)
    requires var p := ProfileOf(db, agent);
      && 0 <= p.currentXp && p.level == LevelFromXp(p.currentXp) && p.rank == rank && required == 20 + 5 * rank
      && (rank < MAX_PRESTIGE_RANK ==>
            (IsPrestigeEligible(p.level, p.rank, p.lifetimeXp) <==> p.level >= PrestigeLevelRequirement(p.rank)))
    requires XpForLevel(required) > 0
    ensures Prestige(db, agent).Ok? <==> rank < 10 && ProfileOf(db, agent).currentXp >= XpForLevel(required)
  {
    EligibleIff(ProfileOf(db, agent), rank, required);
  }

  // ----- The diversification multiplier -----

  /** Half for one category, in full for three, and half as much again from ten on. */
  lemma MultiplierIs(unique: nat)
    ensures Multiplier(0) == 1.0 && Multiplier(1) == 0.5 && Multiplier(3) == 1.0 && Multiplier(6) == 1.3
    ensures 6.0 * Multiplier(2) == 5.0 && Multiplier(4) == 1.1 && Multiplier(5) == 1.2
    ensures Multiplier(7) == 1.35 && Multiplier(8) == 1.4 && Multiplier(9) == 1.45
    ensures |CATEGORIES| == 10 && (unique >= 10 ==> Multiplier(unique) == 1.5)
  {
    assert unique >= 10 ==> (unique - 6) as real / 4.0 >= 1.0;
  }

  /** The XP granted is the nearest whole number, the higher one of two, and never less than one. */
  lemma EffectiveIsNearest(rawXp: int, unique: nat)
    requires rawXp > 0
    ensures var exact, xp := rawXp as real * Multiplier(unique), EffectiveXp(rawXp, unique) as real;
      exact - 0.5 < xp <= exact + 0.5 && xp >= 1.0
  {
    MultiplierBounds(unique);
    assert rawXp as real * Multiplier(unique) >= 0.5;
  }

  lemma MultiplierBounds(unique: nat)
    ensures 0.5 <= Multiplier(unique) <= 1.5
  {
  }

  /** More categories never earn less. */
  lemma MoreCategoriesEarnMore(rawXp: int, few: nat, many: nat)
    requires rawXp > 0 && 1 <= few <= many
    ensures EffectiveXp(rawXp, few) <= EffectiveXp(rawXp, many)
  {
    MultiplierGrows(few, many);
    Scale(rawXp as real, Multiplier(few), Multiplier(many));
  }

  lemma Scale(x: real, a: real, b: real)
    requires x >= 0.0 && a <= b
    ensures x * a <= x * b
  {
  }

  lemma MultiplierGrows(few: nat, many: nat)
    requires 1 <= few <= many
    ensures Multiplier(few) <= Multiplier(many)
  {
    MultiplierIs(few);
    MultiplierIs(many);
  }
}
