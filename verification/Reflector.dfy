/** Garbage collection of observations (lib/reflector-agent.ts:273-557): what becomes of the table under
    an arbitrary list of decisions from the model. */
module Reflector {
  import opened Wrappers
  import opened ObservationStore

  /** Missing and empty merge fields are both None. */
  datatype Kind = Keep | Discard | Merge(into: Option<ObservationId>, content: Option<string>)

  datatype Decision = Decision(observationId: ObservationId, kind: Kind)

  datatype Config = Config(minRetained: nat, charsPerToken: int)

  // ----- Reading the decisions -----

  function IdSet(rows: seq<Row>): set<ObservationId> { set r | r in rows :: r.id }

  /** Later decisions on the same observation override earlier ones. */
  function LastDecision(decisions: seq<Decision>, id: ObservationId): Option<Kind> {
    if decisions == [] then None else
      var d := decisions[|decisions| - 1];
      if d.observationId == id then Some(d.kind) else LastDecision(decisions[..|decisions| - 1], id)
  }

  datatype Plan = Kept | Discarded | Merged(target: ObservationId, content: string)

  function PlanOf(known: set<ObservationId>, k: Option<Kind>): Plan {
    match k
    case None => Kept
    case Some(Keep) => Kept
    case Some(Discard) => Discarded
    case Some(Merge(into, content)) =>
      if into.Some? && content.Some? && into.value in known then Merged(into.value, content.value) else Kept
  }

  function PlanFor(all: seq<Row>, decisions: seq<Decision>, r: Row): Plan {
    PlanOf(IdSet(all), LastDecision(decisions, r.id))
  }

  /** The evaluated rows, among `part`, planned for removal. */
  function Removals(all: seq<Row>, decisions: seq<Decision>, part: seq<Row>): (r: seq<Row>)
    ensures |r| <= |part|
  {
    if part == [] then [] else
      var r, rest := part[|part| - 1], Removals(all, decisions, part[..|part| - 1]);
      if PlanFor(all, decisions, r).Kept? then rest else rest + [r]
  }

  datatype MergeOp = MergeOp(target: ObservationId, content: string, source: ObservationId)

  function MergeOps(all: seq<Row>, decisions: seq<Decision>, part: seq<Row>): seq<MergeOp> {
    if part == [] then [] else
      var r, rest := part[|part| - 1], MergeOps(all, decisions, part[..|part| - 1]);
      var plan := PlanFor(all, decisions, r);
      if plan.Merged? then rest + [MergeOp(plan.target, plan.content, r.id)] else rest
  }

  // ----- The retention floor -----

  /** An observation without a priority counts as info. */
  function RescueRank(r: Row): nat { if r.priority == High then 0 else if r.priority == Medium then 1 else 2 }

  function OfRank(rows: seq<Row>, rank: nat): seq<Row> {
    if rows == [] then [] else
      OfRank(rows[..|rows| - 1], rank) + if RescueRank(rows[|rows| - 1]) == rank then [rows[|rows| - 1]] else []
  }

  /** The stable sort of the removals, least important first. */
  function RescueOrder(removals: seq<Row>): seq<Row> {
    OfRank(removals, 2) + OfRank(removals, 1) + OfRank(removals, 0)
  }

  function Rescued(removals: seq<Row>, kept: nat, minRetained: nat): set<ObservationId> {
    IdSet(Take(RescueOrder(removals), if kept < minRetained then minRetained - kept else 0))
  }

  function OpsExcept(ops: seq<MergeOp>, ids: set<ObservationId>): seq<MergeOp> {
    if ops == [] then [] else
      OpsExcept(ops[..|ops| - 1], ids) + if ops[|ops| - 1].source in ids then [] else [ops[|ops| - 1]]
  }

  /** What a pass does: merges applied, rows soft-deleted, and the counts it reports. */
  datatype Effect = Effect(merges: seq<MergeOp>, dropped: seq<Row>, kept: int, merged: int, discarded: int)

  function EffectOf(all: seq<Row>, decisions: seq<Decision>, minRetained: nat): Effect {
    var removals, ops := Removals(all, decisions, all), MergeOps(all, decisions, all);
    var keepCount := |all| - |removals|;
    if keepCount < minRetained then
      var rescued := Rescued(removals, keepCount, minRetained);
      var dropped, merges := Except(removals, rescued), OpsExcept(ops, rescued);
      Effect(merges, dropped, |all| - |dropped| - |merges|, |merges|, |dropped| - |merges|)
    else
      Effect(ops, removals, keepCount, |ops|, |removals| - |ops|)
  }

  function WithMerges(rows: seq<Row>, merges: seq<MergeOp>): (r: seq<Row>)
    ensures |r| == |rows|
  {
    if merges == [] then rows else
      var op := merges[|merges| - 1];
      WithContent(WithMerges(rows, merges[..|merges| - 1]), op.target, op.content)
  }

  function Reflected(rows: seq<Row>, e: Effect): seq<Row> {
    Marked(WithMerges(rows, e.merges), IdSet(e.dropped))
  }

  /** The memory state after a pass: recounted over the active rows it can see. */
  function Recounted(cfg: Config, rows: seq<Row>, memory: map<AgentId, MemoryState>, agent: AgentId): MemoryState {
    var active := ActiveObservations(rows, agent, DEFAULT_LIMIT);
    MemoryState(TokenSum(active, cfg.charsPerToken), StateOf(memory, agent).rawBufferTokens, |active|)
  }

  // ----- Facts about removals -----

  lemma LastDiffers(rows: seq<Row>)
    requires UniqueIds(rows) && rows != []
    ensures UniqueIds(rows[..|rows| - 1]) && forall r :: r in rows[..|rows| - 1] ==> r.id != rows[|rows| - 1].id
  {
    forall r | r in rows[..|rows| - 1] ensures r.id != rows[|rows| - 1].id {
      var i :| 0 <= i < |rows| - 1 && rows[i] == r;
    }
  }

  lemma {:induction false} RemovalsOf(all: seq<Row>, decisions: seq<Decision>, part: seq<Row>)
    ensures forall r :: r in Removals(all, decisions, part) <==> r in part && !PlanFor(all, decisions, r).Kept?
  {
    if part != [] {
      RemovalsOf(all, decisions, part[..|part| - 1]);
      assert part == part[..|part| - 1] + [part[|part| - 1]];
    }
  }

  lemma {:induction false} RemovalsUnique(all: seq<Row>, decisions: seq<Decision>, part: seq<Row>)
    requires UniqueIds(part)
    ensures UniqueIds(Removals(all, decisions, part))
  {
    if part != [] {
      var init, last := part[..|part| - 1], part[|part| - 1];
      RemovalsUnique(all, decisions, init);
      RemovalsOf(all, decisions, init);
      LastDiffers(part);
    }
  }

  /** Each merge standing goes with a row that is dropped. */
  lemma {:induction false} FewerMerges(all: seq<Row>, decisions: seq<Decision>, part: seq<Row>, ids: set<ObservationId>)
    ensures |MergeOps(all, decisions, part)| <= |Removals(all, decisions, part)|
    ensures |OpsExcept(MergeOps(all, decisions, part), ids)| <= |Except(Removals(all, decisions, part), ids)|
  {
    if part != [] {
      var init, r := part[..|part| - 1], part[|part| - 1];
      FewerMerges(all, decisions, init, ids);
      var removals, ops := Removals(all, decisions, init), MergeOps(all, decisions, init);
      assert (removals + [r])[..|removals|] == removals;
      var plan := PlanFor(all, decisions, r);
      if plan.Merged? { assert (ops + [MergeOp(plan.target, plan.content, r.id)])[..|ops|] == ops; }
    }
  }

  lemma {:induction false} MergesAreRemovals(all: seq<Row>, decisions: seq<Decision>, part: seq<Row>)
    ensures forall op :: op in MergeOps(all, decisions, part) ==>
              op.target in IdSet(all) && op.source in IdSet(Removals(all, decisions, part))
  {
    if part != [] {
      var n := |part| - 1;
      MergesAreRemovals(all, decisions, part[..n]);
    }
  }

  lemma {:induction false} OfRankParts(rows: seq<Row>, rank: nat)
    ensures forall r :: r in OfRank(rows, rank) <==> r in rows && RescueRank(r) == rank
  {
    if rows != [] {
      OfRankParts(rows[..|rows| - 1], rank);
      assert rows == rows[..|rows| - 1] + [rows[|rows| - 1]];
    }
  }

  lemma {:induction false} OfRankUnique(rows: seq<Row>, rank: nat)
    requires UniqueIds(rows)
    ensures UniqueIds(OfRank(rows, rank))
  {
    if rows != [] {
      OfRankUnique(rows[..|rows| - 1], rank);
      OfRankParts(rows[..|rows| - 1], rank);
      LastDiffers(rows);
    }
  }

  lemma {:induction false} OfRankLengths(rows: seq<Row>)
    ensures |OfRank(rows, 0)| + |OfRank(rows, 1)| + |OfRank(rows, 2)| == |rows|
  {
    if rows != [] { OfRankLengths(rows[..|rows| - 1]); }
  }

  lemma {:induction false} IdSetSize(rows: seq<Row>)
    requires UniqueIds(rows)
    ensures |IdSet(rows)| == |rows|
  {
    if rows != [] {
      var init, last := rows[..|rows| - 1], rows[|rows| - 1];
      IdSetSize(init);
      LastDiffers(rows);
      assert rows == init + [last];
      assert IdSet(rows) == IdSet(init) + {last.id};
    }
  }

  lemma RescueOrderIsPermutation(removals: seq<Row>)
    requires UniqueIds(removals)
    ensures UniqueIds(RescueOrder(removals)) && |RescueOrder(removals)| == |removals|
    ensures forall r :: r in RescueOrder(removals) <==> r in removals
  {
    OfRankParts(removals, 0);
    OfRankParts(removals, 1);
    OfRankParts(removals, 2);
    OfRankUnique(removals, 0);
    OfRankUnique(removals, 1);
    OfRankUnique(removals, 2);
    OfRankLengths(removals);
    var order := RescueOrder(removals);
    forall i, j | 0 <= i < j < |order| ensures order[i].id != order[j].id {
      SameRow(removals, order[i], order[j]);
    }
  }

  /** Rows of one table with the same id are the same row. */
  lemma SameRow(rows: seq<Row>, a: Row, b: Row)
    requires UniqueIds(rows) && a in rows && b in rows
    ensures a.id == b.id ==> a == b
  {
  }

  lemma {:induction false} ExceptUnique(rows: seq<Row>, ids: set<ObservationId>)
    requires UniqueIds(rows)
    ensures UniqueIds(Except(rows, ids))
  {
    if rows != [] {
      ExceptUnique(rows[..|rows| - 1], ids);
      ExceptOf(rows[..|rows| - 1], ids);
      LastDiffers(rows);
    }
  }

  lemma ExceptSize(rows: seq<Row>, ids: set<ObservationId>)
    requires UniqueIds(rows) && ids <= IdSet(rows)
    ensures |Except(rows, ids)| == |rows| - |ids|
  {
    ExceptOf(rows, ids);
    ExceptUnique(rows, ids);
    IdSetSize(rows);
    IdSetSize(Except(rows, ids));
    assert IdSet(Except(rows, ids)) == IdSet(rows) - ids;
  }

  lemma RescuedSize(removals: seq<Row>, kept: nat, minRetained: nat)
    requires UniqueIds(removals)
    ensures Rescued(removals, kept, minRetained) <= IdSet(removals)
    ensures |Rescued(removals, kept, minRetained)| ==
              if kept >= minRetained then 0
              else if minRetained - kept < |removals| then minRetained - kept
              else |removals|
  {
    var n := if kept < minRetained then minRetained - kept else 0;
    var order := RescueOrder(removals);
    RescueOrderIsPermutation(removals);
    assert UniqueIds(Take(order, n));
    IdSetSize(Take(order, n));
  }

  // ----- What a pass guarantees -----

  function Min(a: int, b: int): int { if a < b then a else b }

  /** Of the evaluated rows, only rows whose last decision discards or validly merges them are dropped;
      at least the floor stays, and exactly the floor when a rescue was needed. */
  lemma FloorHolds(all: seq<Row>, decisions: seq<Decision>, minRetained: nat)
    requires UniqueIds(all)
    ensures var e := EffectOf(all, decisions, minRetained);
      && UniqueIds(e.dropped)
      && (forall r :: r in e.dropped ==> r in all && !PlanFor(all, decisions, r).Kept?)
      && |all| - |e.dropped| >= Min(minRetained, |all|)
      && (|all| - |Removals(all, decisions, all)| < minRetained ==> |all| - |e.dropped| == Min(minRetained, |all|))
      && (|all| - |Removals(all, decisions, all)| >= minRetained ==> e.dropped == Removals(all, decisions, all))
  {
    var removals := Removals(all, decisions, all);
    RemovalsOf(all, decisions, all);
    RemovalsUnique(all, decisions, all);
    var keepCount := |all| - |removals|;
    if keepCount < minRetained { RescueFloor(removals, keepCount, minRetained); }
  }

  lemma RescueFloor(removals: seq<Row>, kept: nat, minRetained: nat)
    requires UniqueIds(removals) && kept < minRetained
    ensures var dropped := Except(removals, Rescued(removals, kept, minRetained));
      && UniqueIds(dropped) && (forall r :: r in dropped ==> r in removals)
      && |dropped| == |removals| - Min(minRetained - kept, |removals|)
  {
    RescuedSize(removals, kept, minRetained);
    ExceptOf(removals, Rescued(removals, kept, minRetained));
    ExceptUnique(removals, Rescued(removals, kept, minRetained));
    ExceptSize(removals, Rescued(removals, kept, minRetained));
  }

  /** Rescues go to the least important removals. */
  lemma RescuesLeastImportant(all: seq<Row>, decisions: seq<Decision>, minRetained: nat, r: Row, q: Row)
    requires UniqueIds(all) && r in Removals(all, decisions, all) && q in EffectOf(all, decisions, minRetained).dropped
    requires r !in EffectOf(all, decisions, minRetained).dropped
    ensures RescueRank(r) >= RescueRank(q)
  {
    var removals := Removals(all, decisions, all);
    var order := RescueOrder(removals);
    RemovalsUnique(all, decisions, all);
    var n := minRetained - (|all| - |removals|);
    var rescued := Rescued(removals, |all| - |removals|, minRetained);
    RescueOrderIsPermutation(removals);
    ExceptOf(removals, rescued);
    var i :| 0 <= i < |order| && order[i] == r;
    var j :| 0 <= j < |order| && order[j] == q;
    Taken(order, n, i);
    Taken(order, n, j);
    RanksFall(removals, i, j);
  }

  lemma Taken(order: seq<Row>, n: nat, j: nat)
    requires UniqueIds(order) && j < |order|
    ensures j < n <==> order[j].id in IdSet(Take(order, n))
  {
    if j < n { assert Take(order, n)[j] == order[j]; }
  }

  lemma RanksFall(removals: seq<Row>, i: nat, j: nat)
    requires i < j < |RescueOrder(removals)|
    ensures RescueRank(RescueOrder(removals)[i]) >= RescueRank(RescueOrder(removals)[j])
  {
    OfRankParts(removals, 0);
    OfRankParts(removals, 1);
    OfRankParts(removals, 2);
    var a, b := |OfRank(removals, 2)|, |OfRank(removals, 2)| + |OfRank(removals, 1)|;
    var order := RescueOrder(removals);
    assert forall k :: 0 <= k < a ==> order[k] in OfRank(removals, 2);
    assert forall k :: a <= k < b ==> order[k] in OfRank(removals, 1);
    assert forall k :: b <= k < |order| ==> order[k] in OfRank(removals, 0);
  }

  /** The reported counts add up to the number evaluated, unless a rescue leaves a merge standing: every
      such merge is then counted twice, and exactly that many kept observations go unreported. */
  lemma CountsAddUpIff(all: seq<Row>, decisions: seq<Decision>, minRetained: nat)
    requires UniqueIds(all)
    ensures var e := EffectOf(all, decisions, minRetained);
      var rescue := |all| - |Removals(all, decisions, all)| < minRetained;
      && (e.kept + e.merged + e.discarded == |all| <==> !(rescue && e.merges != []))
      && e.discarded >= 0 && e.merged == |e.merges| && e.merged + e.discarded == |e.dropped|
      && e.kept == |all| - |e.dropped| - if rescue then e.merged else 0
  {
    var removals := Removals(all, decisions, all);
    var keepCount := |all| - |removals|;
    FewerMerges(all, decisions, all, if keepCount < minRetained then Rescued(removals, keepCount, minRetained) else {});
  }

  lemma {:induction false} WithMergesKeeps(rows: seq<Row>, merges: seq<MergeOp>)
    ensures forall i :: 0 <= i < |rows| ==> WithMerges(rows, merges)[i].(content := "") == rows[i].(content := "")
    ensures forall i :: 0 <= i < |rows| && (forall op :: op in merges ==> op.target != rows[i].id) ==>
              WithMerges(rows, merges)[i] == rows[i]
  {
    if merges != [] {
      var n := |merges| - 1;
      WithMergesKeeps(rows, merges[..n]);
      assert merges[n] in merges;
      forall i | 0 <= i < |rows| ensures WithMerges(rows, merges)[i].(content := "") == rows[i].(content := "") {
        assert WithMerges(rows, merges[..n])[i].(content := "") == rows[i].(content := "");
      }
    }
  }

  function LastMerge(merges: seq<MergeOp>, id: ObservationId): Option<string> {
    if merges == [] then None else
      var op := merges[|merges| - 1];
      if op.target == id then Some(op.content) else LastMerge(merges[..|merges| - 1], id)
  }

  /** A merge target holds the content of the last merge into it; all other content stands. */
  lemma {:induction false} LastMergeWins(rows: seq<Row>, merges: seq<MergeOp>)
    ensures forall i :: 0 <= i < |rows| ==>
      var last := LastMerge(merges, rows[i].id);
      WithMerges(rows, merges)[i].content == if last.Some? then last.value else rows[i].content
  {
    if merges != [] {
      var n := |merges| - 1;
      LastMergeWins(rows, merges[..n]);
      WithMergesKeeps(rows, merges[..n]);
      forall i | 0 <= i < |rows|
        ensures var last := LastMerge(merges, rows[i].id);
          WithMerges(rows, merges)[i].content == if last.Some? then last.value else rows[i].content
      {
        assert WithMerges(rows, merges[..n])[i].(content := "") == rows[i].(content := "");
      }
    }
  }

  lemma {:induction false} OpsExceptOf(ops: seq<MergeOp>, ids: set<ObservationId>)
    ensures forall op :: op in OpsExcept(ops, ids) ==> op in ops && op.source !in ids
  {
    if ops != [] { OpsExceptOf(ops[..|ops| - 1], ids); }
  }

  lemma MergesHitEvaluated(all: seq<Row>, decisions: seq<Decision>, minRetained: nat)
    ensures forall op :: op in EffectOf(all, decisions, minRetained).merges ==> op.target in IdSet(all)
  {
    var removals, ops := Removals(all, decisions, all), MergeOps(all, decisions, all);
    MergesAreRemovals(all, decisions, all);
    if |all| - |removals| < minRetained { OpsExceptOf(ops, Rescued(removals, |all| - |removals|, minRetained)); }
  }

  lemma {:induction false} ActiveIsUnique(rows: seq<Row>, agent: AgentId)
    requires UniqueIds(rows)
    ensures UniqueIds(Active(rows, agent))
  {
    if rows != [] {
      var init, last := rows[..|rows| - 1], rows[|rows| - 1];
      ActiveIsUnique(init, agent);
      ActiveMembers(init, agent);
      LastDiffers(rows);
    }
  }

  /** On the table: the pass touches evaluated rows only, soft-deletes exactly the dropped ones, and
      lowers the number of active rows of the agent by exactly their number. */
  lemma ReflectedTable(rows: seq<Row>, agent: AgentId, all: seq<Row>, decisions: seq<Decision>, minRetained: nat)
    requires UniqueIds(rows) && UniqueIds(all) && IdSet(all) <= IdSet(Active(rows, agent))
    ensures var e := EffectOf(all, decisions, minRetained);
      var after := Reflected(rows, e);
      && |after| == |rows| && UniqueIds(after)
      && (forall i ::
        0 <= i < |rows| ==> (after[i].reflected && !rows[i].reflected <==> rows[i].id in IdSet(e.dropped)))
      && (forall i :: 0 <= i < |rows| && rows[i].id !in IdSet(all) ==> after[i] == rows[i])
      && |Active(after, agent)| == |Active(rows, agent)| - |e.dropped|
  {
    var e := EffectOf(all, decisions, minRetained);
    var after := Reflected(rows, e);
    FloorHolds(all, decisions, minRetained);
    MergesHitEvaluated(all, decisions, minRetained);
    WithMergesKeeps(rows, e.merges);
    assert IdSet(e.dropped) <= IdSet(all);
    DroppedWereActive(rows, agent, e);
    ActiveIdsAfter(rows, agent, e);
    ActiveIsUnique(rows, agent);
    ActiveIsUnique(after, agent);
    IdSetSize(Active(rows, agent));
    IdSetSize(Active(after, agent));
    IdSetSize(e.dropped);
  }

  /** Merged content lives on exactly when the observation it went into does: a target is dropped with
      its content unless its own last decision keeps it or the retention floor rescues it. */
  lemma TargetSurvivesIff(all: seq<Row>, decisions: seq<Decision>, minRetained: nat, op: MergeOp)
    requires op in EffectOf(all, decisions, minRetained).merges
    ensures var removals := Removals(all, decisions, all);
      op.target in IdSet(all)
      && (op.target !in IdSet(EffectOf(all, decisions, minRetained).dropped)
          <==> PlanOf(IdSet(all), LastDecision(decisions, op.target)).Kept?
               || op.target in Rescued(removals, |all| - |removals|, minRetained))
  {
    MergesHitEvaluated(all, decisions, minRetained);
    DroppedIds(all, decisions, minRetained, op.target);
    PlannedIds(all, decisions, op.target);
  }

  lemma DroppedIds(all: seq<Row>, decisions: seq<Decision>, minRetained: nat, id: ObservationId)
    ensures var removals := Removals(all, decisions, all);
      id in IdSet(EffectOf(all, decisions, minRetained).dropped)
      <==> id in IdSet(removals) && id !in Rescued(removals, |all| - |removals|, minRetained)
  {
    var removals := Removals(all, decisions, all);
    var rescued := Rescued(removals, |all| - |removals|, minRetained);
    ExceptOf(removals, rescued);
    if |all| - |removals| >= minRetained { assert Take(RescueOrder(removals), 0) == []; }
  }

  lemma PlannedIds(all: seq<Row>, decisions: seq<Decision>, id: ObservationId)
    requires id in IdSet(all)
    ensures id in IdSet(Removals(all, decisions, all)) <==> !PlanOf(IdSet(all), LastDecision(decisions, id)).Kept?
  {
    RemovalsOf(all, decisions, all);
    var r :| r in all && r.id == id;
    assert r in Removals(all, decisions, all) <==> !PlanFor(all, decisions, r).Kept?;
  }

  /** The same on the table, with the content that is kept or lost. */
  lemma MergedContentIff(rows: seq<Row>, agent: AgentId, all: seq<Row>, decisions: seq<Decision>, minRetained: nat,
                         op: MergeOp, i: nat)
    requires UniqueIds(rows) && IdSet(all) <= IdSet(Active(rows, agent)) && i < |rows|
    requires op in EffectOf(all, decisions, minRetained).merges && op.target == rows[i].id
    ensures var e, removals := EffectOf(all, decisions, minRetained), Removals(all, decisions, all);
      var after := Reflected(rows, e);
      && |after| == |rows| && LastMerge(e.merges, op.target).Some?
      && after[i].content == LastMerge(e.merges, op.target).value
      && (IsActive(after[i], agent)
          <==> PlanOf(IdSet(all), LastDecision(decisions, op.target)).Kept?
               || op.target in Rescued(removals, |all| - |removals|, minRetained))
  {
    var e := EffectOf(all, decisions, minRetained);
    TargetSurvivesIff(all, decisions, minRetained, op);
    LastMergeWins(rows, e.merges);
    LastMergeOf(e.merges, op);
    WithMergesKeeps(rows, e.merges);
    ActiveMembers(rows, agent);
    var r :| r in Active(rows, agent) && r.id == op.target;
    SameRow(rows, r, rows[i]);
    assert WithMerges(rows, e.merges)[i].(content := "") == rows[i].(content := "");
  }

  lemma {:induction false} LastMergeOf(merges: seq<MergeOp>, op: MergeOp)
    requires op in merges
    ensures LastMerge(merges, op.target).Some?
  {
    var n := |merges| - 1;
    if merges[n] != op { LastMergeOf(merges[..n], op); }
  }

  function Mutual(a: ObservationId, b: ObservationId, x: string, y: string): seq<Decision> {
    [Decision(a, Merge(Some(b), Some(x))), Decision(b, Merge(Some(a), Some(y)))]
  }

  lemma MutualPlans(a: Row, b: Row, x: string, y: string)
    requires a.id != b.id
    ensures IdSet([a, b]) == {a.id, b.id}
    ensures PlanFor([a, b], Mutual(a.id, b.id, x, y), a) == Merged(b.id, x)
    ensures PlanFor([a, b], Mutual(a.id, b.id, x, y), b) == Merged(a.id, y)
  {
    var decisions := Mutual(a.id, b.id, x, y);
    assert IdSet([a, b]) == {a.id, b.id} by { assert [a, b][0] == a && [a, b][1] == b; }
    assert decisions[..1] == [decisions[0]];
    assert LastDecision(decisions[..1], a.id) == Some(decisions[0].kind);
  }

  lemma MutualEffect(a: Row, b: Row, x: string, y: string)
    requires a.id != b.id
    ensures var e := EffectOf([a, b], Mutual(a.id, b.id, x, y), 0);
      e.merges == [MergeOp(b.id, x, a.id), MergeOp(a.id, y, b.id)] && e.dropped == [a, b]
  {
    var all, decisions := [a, b], Mutual(a.id, b.id, x, y);
    MutualPlans(a, b, x, y);
    assert all[..1] == [a] && [a][..0] == [];
    assert Removals(all, decisions, [a]) == [a];
    assert MergeOps(all, decisions, [a]) == [MergeOp(b.id, x, a.id)];
  }

  /** Two observations merged into each other: both go, and both merged contents with them. */
  lemma MutualMergeLosesBoth(a: Row, b: Row, agent: AgentId, x: string, y: string)
    requires a.id != b.id && IsActive(a, agent) && IsActive(b, agent)
    ensures var e := EffectOf([a, b], Mutual(a.id, b.id, x, y), 0);
      && e.merges == [MergeOp(b.id, x, a.id), MergeOp(a.id, y, b.id)] && e.dropped == [a, b]
      && Active(Reflected([a, b], e), agent) == []
  {
    var all := [a, b];
    var e := EffectOf(all, Mutual(a.id, b.id, x, y), 0);
    MutualEffect(a, b, x, y);
    ActiveIdsAfter(all, agent, e);
    ActiveMembers(all, agent);
    MutualPlans(a, b, x, y);
    ActiveIsUnique(Reflected(all, e), agent);
    IdSetSize(Active(Reflected(all, e), agent));
  }

  function BothInto(a: ObservationId, b: ObservationId, c: ObservationId, x: string, y: string): seq<Decision> {
    [Decision(a, Merge(Some(c), Some(x))), Decision(b, Merge(Some(c), Some(y)))]
  }

  lemma BothIntoPlans(a: Row, b: Row, c: Row, x: string, y: string)
    requires UniqueIds([a, b, c])
    ensures var all, decisions := [a, b, c], BothInto(a.id, b.id, c.id, x, y);
      Removals(all, decisions, all) == [a, b]
      && MergeOps(all, decisions, all) == [MergeOp(c.id, x, a.id), MergeOp(c.id, y, b.id)]
  {
    var all, decisions := [a, b, c], BothInto(a.id, b.id, c.id, x, y);
    assert UniqueIds(all) && a.id == all[0].id && b.id == all[1].id && c.id == all[2].id;
    assert all[2] in all && c.id in IdSet(all);
    assert decisions[..1] == [decisions[0]] && [decisions[0]][..0] == [];
    assert LastDecision([decisions[0]], a.id) == Some(decisions[0].kind) && LastDecision([decisions[0]], c.id) == None;
    assert LastDecision(decisions, a.id) == Some(decisions[0].kind) && LastDecision(decisions, c.id) == None;
    assert LastDecision(decisions, b.id) == Some(decisions[1].kind);
    assert PlanFor(all, decisions, a) == Merged(c.id, x);
    assert PlanFor(all, decisions, b) == Merged(c.id, y);
    assert PlanFor(all, decisions, c) == Kept;
    assert all[..2] == [a, b] && [a, b][..1] == [a] && [a][..0] == [];
    assert Removals(all, decisions, [a]) == [a] && MergeOps(all, decisions, [a]) == [MergeOp(c.id, x, a.id)];
    assert Removals(all, decisions, [a, b]) == [a, b];
  }

  lemma PairOfRank(a: Row, b: Row, rank: nat)
    requires RescueRank(a) == RescueRank(b)
    ensures OfRank([a, b], rank) == if RescueRank(a) == rank then [a, b] else []
  {
    assert [a, b][..1] == [a] && [a][..0] == [];
    assert OfRank([a], rank) == if RescueRank(a) == rank then [a] else [];
  }

  /** Two observations as important as each other merged into a third, with a floor of two: one of them is
      rescued, and the counts report two observations where three were evaluated. */
  lemma CountsFallShort(a: Row, b: Row, c: Row, x: string, y: string)
    requires UniqueIds([a, b, c]) && RescueRank(a) == RescueRank(b)
    ensures var e := EffectOf([a, b, c], BothInto(a.id, b.id, c.id, x, y), 2);
      e.dropped == [b] && e.kept == 1 && e.merged == 1 && e.discarded == 0
  {
    var all, decisions := [a, b, c], BothInto(a.id, b.id, c.id, x, y);
    assert all[0].id != all[1].id;
    BothIntoPlans(a, b, c, x, y);
    FirstRescued(a, b);
    KeepsSecond(a, b, MergeOp(c.id, x, a.id), MergeOp(c.id, y, b.id));
    assert EffectOf(all, decisions, 2) == Effect([MergeOp(c.id, y, b.id)], [b], 1, 1, 0);
  }

  lemma FirstRescued(a: Row, b: Row)
    requires RescueRank(a) == RescueRank(b)
    ensures Rescued([a, b], 1, 2) == {a.id}
  {
    PairOfRank(a, b, 0);
    PairOfRank(a, b, 1);
    PairOfRank(a, b, 2);
    assert RescueOrder([a, b]) == [a, b] && Take([a, b], 1) == [a];
  }

  lemma KeepsSecond(a: Row, b: Row, p: MergeOp, q: MergeOp)
    requires a.id != b.id && p.source == a.id && q.source == b.id
    ensures Except([a, b], {a.id}) == [b] && OpsExcept([p, q], {a.id}) == [q]
  {
    assert [a, b][..1] == [a] && [a][..0] == [] && Except([a], {a.id}) == [];
    assert [p, q][..1] == [p] && [p][..0] == [] && OpsExcept([p], {a.id}) == [];
  }

  lemma DroppedWereActive(rows: seq<Row>, agent: AgentId, e: Effect)
    requires UniqueIds(rows) && IdSet(e.dropped) <= IdSet(Active(rows, agent))
    ensures forall i :: 0 <= i < |rows| && rows[i].id in IdSet(e.dropped) ==> IsActive(rows[i], agent)
  {
    ActiveMembers(rows, agent);
    forall i | 0 <= i < |rows| && rows[i].id in IdSet(e.dropped) ensures IsActive(rows[i], agent) {
      var r :| r in Active(rows, agent) && r.id == rows[i].id;
      SameRow(rows, r, rows[i]);
    }
  }

  lemma ActiveIdsAfter(rows: seq<Row>, agent: AgentId, e: Effect)
    requires UniqueIds(rows)
    ensures UniqueIds(Reflected(rows, e))
    ensures IdSet(Active(Reflected(rows, e), agent)) == IdSet(Active(rows, agent)) - IdSet(e.dropped)
  {
    var after, gone := Reflected(rows, e), IdSet(e.dropped);
    WithMergesKeeps(rows, e.merges);
    ActiveMembers(rows, agent);
    ActiveMembers(after, agent);
    assert forall i :: 0 <= i < |rows| ==> after[i].id == WithMerges(rows, e.merges)[i].(content := "").id;
    forall i | 0 <= i < |rows|
      ensures after[i].id == rows[i].id
      ensures (IsActive(after[i], agent) <==> IsActive(rows[i], agent) && rows[i].id !in gone)
    {
      assert WithMerges(rows, e.merges)[i].(content := "") == rows[i].(content := "");
    }
    SameIds(rows, after, agent, gone);
  }

  lemma SameIds(rows: seq<Row>, after: seq<Row>, agent: AgentId, gone: set<ObservationId>)
    requires |after| == |rows| && UniqueIds(rows)
    requires forall i :: 0 <= i < |rows| ==>
      after[i].id == rows[i].id && (IsActive(after[i], agent) <==> IsActive(rows[i], agent) && rows[i].id !in gone)
    ensures IdSet(Active(after, agent)) == IdSet(Active(rows, agent)) - gone
  {
    forall id ensures id in IdSet(Active(after, agent)) <==> id in IdSet(Active(rows, agent)) && id !in gone {
      IdsOfActive(rows, agent, id);
      IdsOfActive(after, agent, id);
    }
  }

  lemma IdsOfActive(rows: seq<Row>, agent: AgentId, id: ObservationId)
    ensures id in IdSet(Active(rows, agent))
            <==> exists i :: 0 <= i < |rows| && rows[i].id == id && IsActive(rows[i], agent)
  {
    ActiveMembers(rows, agent);
    if i :| 0 <= i < |rows| && rows[i].id == id && IsActive(rows[i], agent) {
      assert rows[i] in Active(rows, agent);
    }
  }

  // ----- The agent -----

  method DecisionMap(known: set<ObservationId>, decisions: seq<Decision>) returns (m: map<ObservationId, Kind>)
    ensures forall id :: id in known ==> LastDecision(decisions, id) == if id in m then Some(m[id]) else None
  {
    m := map[];
    for i := 0 to |decisions|
      invariant forall id :: id in known ==> LastDecision(decisions[..i], id) == if id in m then Some(m[id]) else None
    {
      assert decisions[..i + 1][..i] == decisions[..i];
      var d := decisions[i];
      if d.observationId in known { m := m[d.observationId := d.kind]; }
    }
    assert decisions[..|decisions|] == decisions;
  }

  method PlanRemovals(all: seq<Row>, decisions: seq<Decision>)
    returns (keepCount: nat, mergeCount: nat, discardCount: nat, toDiscard: seq<Row>, ops: seq<MergeOp>)
    ensures toDiscard == Removals(all, decisions, all) && ops == MergeOps(all, decisions, all)
    ensures keepCount == |all| - |toDiscard| && mergeCount == |ops| && mergeCount + discardCount == |toDiscard|
  {
    var known := IdSet(all);
    var decisionMap := DecisionMap(known, decisions);
    keepCount, mergeCount, discardCount, toDiscard, ops := 0, 0, 0, [], [];
    for i := 0 to |all|
      invariant toDiscard == Removals(all, decisions, all[..i]) && ops == MergeOps(all, decisions, all[..i])
      invariant keepCount == i - |toDiscard| && mergeCount == |ops| && mergeCount + discardCount == |toDiscard|
    {
      assert all[..i + 1][..i] == all[..i];
      var obs := all[i];
      assert obs.id in known;
      var plan := PlanOf(known, if obs.id in decisionMap then Some(decisionMap[obs.id]) else None);
      match plan {
        case Kept => keepCount := keepCount + 1;
        case Discarded =>
          discardCount := discardCount + 1;
          toDiscard := toDiscard + [obs];
        case Merged(target, content) =>
          mergeCount := mergeCount + 1;
          toDiscard := toDiscard + [obs];
          ops := ops + [MergeOp(target, content, obs.id)];
      }
    }
    assert all[..|all|] == all;
  }

  method Rescue(toDiscard: seq<Row>, kept: nat, minRetained: nat) returns (rescued: set<ObservationId>)
    requires kept < minRetained
    ensures rescued == Rescued(toDiscard, kept, minRetained)
  {
    var order := RescueOrder(toDiscard);
    var n := if minRetained - kept < |order| then minRetained - kept else |order|;
    rescued := {};
    for i := 0 to n
      invariant rescued == IdSet(order[..i])
    {
      assert order[..i + 1] == order[..i] + [order[i]];
      rescued := rescued + {order[i].id};
    }
    assert Take(order, minRetained - kept) == order[..n];
  }

  datatype Begun = Busy | Finished | Asking(all: seq<Row>)

  /** A pass is split at its one await, the call to the model; `running` is the lock between passes. */
  class ReflectorAgent {
    const store: ObservationStore
    const cfg: Config
    var running: bool

    constructor (store: ObservationStore, cfg: Config)
      ensures this.store == store && this.cfg == cfg && !running
    {
      this.store, this.cfg, running := store, cfg, false;
    }

    method BeginPass(agent: AgentId) returns (r: Begun)
      modifies this
      ensures var all := ActiveObservations(store.rows, agent, DEFAULT_LIMIT);
        r == if old(running) then Busy else if |all| <= cfg.minRetained || all == [] then Finished else Asking(all)
      ensures running == (old(running) || r.Asking?)
    {
      if running { return Busy; }
      var all := store.GetActiveObservations(agent, DEFAULT_LIMIT);
      if |all| == 0 { return Finished; }
      if |all| <= cfg.minRetained { return Finished; }
      running := true;
      return Asking(all);
    }

    method ApplyMerges(ops: seq<MergeOp>, ghost rows: seq<Row>)
      requires store.rows == rows
      modifies store`rows
      ensures store.rows == WithMerges(rows, ops)
    {
      for i := 0 to |ops|
        invariant store.rows == WithMerges(rows, ops[..i])
      {
        assert ops[..i + 1][..i] == ops[..i];
        store.UpdateContent(ops[i].target, ops[i].content);
      }
      assert ops[..|ops|] == ops;
    }

    method ApplyDecisions(all: seq<Row>, decisions: seq<Decision>) returns (kept: int, merged: int, discarded: int)
      modifies store`rows
      ensures var e := EffectOf(all, decisions, cfg.minRetained);
        store.rows == Reflected(old(store.rows), e) && kept == e.kept && merged == e.merged && discarded == e.discarded
    {
      var keepCount, mergeCount, discardCount, toDiscard, ops := PlanRemovals(all, decisions);
      var dropped, merges := toDiscard, ops;
      kept, merged, discarded := keepCount, mergeCount, discardCount;
      if keepCount < cfg.minRetained {
        var rescued := Rescue(toDiscard, keepCount, cfg.minRetained);
        dropped, merges := Except(toDiscard, rescued), OpsExcept(ops, rescued);
        kept, merged, discarded := |all| - |dropped| - |merges|, |merges|, |dropped| - |merges|;
      }
      assert EffectOf(all, decisions, cfg.minRetained) == Effect(merges, dropped, kept, merged, discarded);
      ApplyMerges(merges, store.rows);
      ghost var updated := store.rows;
      if |dropped| > 0 {
        var changes := store.MarkReflected(IdSet(dropped));
      } else {
        assert Marked(updated, IdSet(dropped)) == updated;
      }
    }

    /** The rest of a pass, once the model has answered; None stands for a call that failed. */
    method FinishPass(agent: AgentId, all: seq<Row>, answer: Option<seq<Decision>>) returns (ok: bool)
      requires running
      modifies this, store
      ensures !running && ok == (answer.Some? && answer.value != [])
      ensures store.rows ==
                if ok then Reflected(old(store.rows), EffectOf(all, answer.value, cfg.minRetained)) else old(store.rows)
      ensures store.memory ==
                if ok then old(store.memory)[agent := Recounted(cfg, store.rows, old(store.memory), agent)]
                              else old(store.memory)
    {
      running := false;
      if answer.None? || answer.value == [] { return false; }
      var kept, merged, discarded := ApplyDecisions(all, answer.value);
      var remaining := store.GetActiveObservations(agent, DEFAULT_LIMIT);
      var existing := StateOf(store.memory, agent);
      store.UpsertMemoryState(agent,
                              MemoryState(TokenSum(remaining, cfg.charsPerToken), existing.rawBufferTokens,
                                          |remaining|));
      ok := true;
    }
  }
}
