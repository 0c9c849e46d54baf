/** What a reflection pass does to each observation, told by the positions of the model's decisions
    (lib/reflector-agent.ts:437-534). */
module ReflectorDecisions {
  import opened Wrappers
  import opened ObservationStore
  import opened Reflector

  /** The decision at `j` is the last one on this observation. */
  predicate IsLast(decisions: seq<Decision>, j: nat, id: ObservationId) {
    && j < |decisions| && decisions[j].observationId == id
    && forall k :: j < k < |decisions| ==> decisions[k].observationId != id
  }

  ghost predicate IsDiscarded(decisions: seq<Decision>, id: ObservationId) {
    exists j: nat :: IsLast(decisions, j, id) && decisions[j].kind == Discard
  }

  /** The last decision merges it, with content, into one of the observations evaluated. */
  ghost predicate IsMerged(all: seq<Row>, decisions: seq<Decision>, id: ObservationId) {
    exists j: nat :: IsLast(decisions, j, id) && MergesInto(all, decisions[j].kind)
  }

  predicate MergesInto(all: seq<Row>, k: Kind) {
    k.Merge? && k.into.Some? && k.content.Some? && exists i :: 0 <= i < |all| && all[i].id == k.into.value
  }

  lemma {:induction false} LastIs(decisions: seq<Decision>, id: ObservationId)
    ensures forall j: nat :: IsLast(decisions, j, id) ==> LastDecision(decisions, id) == Some(decisions[j].kind)
    ensures LastDecision(decisions, id).Some? ==> exists j: nat :: IsLast(decisions, j, id)
  {
    if decisions != [] {
      var n := |decisions| - 1;
      if decisions[n].observationId == id {
        assert IsLast(decisions, n, id);
      } else {
        LastIs(decisions[..n], id);
        forall j: nat | IsLast(decisions, j, id) ensures IsLast(decisions[..n], j, id) {}
        forall j: nat | IsLast(decisions[..n], j, id) ensures IsLast(decisions, j, id) {}
      }
    }
  }

  lemma PlanIs(all: seq<Row>, decisions: seq<Decision>, r: Row)
    ensures PlanFor(all, decisions, r).Discarded? <==> IsDiscarded(decisions, r.id)
    ensures PlanFor(all, decisions, r).Merged? <==> IsMerged(all, decisions, r.id)
  {
    LastIs(decisions, r.id);
    KnownIs(all);
    if LastDecision(decisions, r.id).Some? {
      var j: nat :| IsLast(decisions, j, r.id);
    }
  }

  lemma KnownIs(all: seq<Row>)
    ensures forall id :: id in IdSet(all) <==> exists i :: 0 <= i < |all| && all[i].id == id
  {
    forall id | id in IdSet(all) ensures exists i :: 0 <= i < |all| && all[i].id == id {
      var r :| r in all && r.id == id;
      var i :| 0 <= i < |all| && all[i] == r;
    }
  }

  /** The observations evaluated whose last decision discards them, and those whose last decision merges them. */
  ghost function Discards(all: seq<Row>, decisions: seq<Decision>): set<ObservationId> {
    set i | 0 <= i < |all| && IsDiscarded(decisions, all[i].id) :: all[i].id
  }

  ghost function Merges(all: seq<Row>, decisions: seq<Decision>): set<ObservationId> {
    set i | 0 <= i < |all| && IsMerged(all, decisions, all[i].id) :: all[i].id
  }

  /** The removals among the first `n`, told by the decisions. */
  ghost predicate IsSplit(all: seq<Row>, decisions: seq<Decision>, n: nat)
    requires n <= |all|
  {
    var discards, merges := DiscardsTo(all, decisions, n), MergesTo(all, decisions, n);
    && IdSet(Removals(all, decisions, all[..n])) == discards + merges
    && |MergeOps(all, decisions, all[..n])| == |merges|
    && |Removals(all, decisions, all[..n])| == |discards| + |merges|
  }

  lemma {:induction false} RemovalsAre(all: seq<Row>, decisions: seq<Decision>, n: nat)
    requires UniqueIds(all) && n <= |all|
    ensures IsSplit(all, decisions, n)
  {
    if n == 0 {
      NoneRemovedYet(all, decisions);
    } else {
      var m := n - 1;
      RemovalsAre(all, decisions, m);
      RemovalsNext(all, decisions, m, n);
    }
  }

  lemma NoneRemovedYet(all: seq<Row>, decisions: seq<Decision>)
    ensures IsSplit(all, decisions, 0)
  {
    assert all[..0] == [] && IdSet([]) == {};
    assert DiscardsTo(all, decisions, 0) == {} && MergesTo(all, decisions, 0) == {};
  }

  ghost function DiscardsTo(all: seq<Row>, decisions: seq<Decision>, n: nat): set<ObservationId>
    requires n <= |all|
  {
    if n == 0 then {} else
      DiscardsTo(all, decisions, n - 1) + If(IsDiscarded(decisions, all[n - 1].id), all[n - 1].id)
  }

  ghost function MergesTo(all: seq<Row>, decisions: seq<Decision>, n: nat): set<ObservationId>
    requires n <= |all|
  {
    if n == 0 then {} else
      MergesTo(all, decisions, n - 1) + If(IsMerged(all, decisions, all[n - 1].id), all[n - 1].id)
  }

  lemma {:induction false} SetsTo(all: seq<Row>, decisions: seq<Decision>, n: nat, id: ObservationId)
    requires n <= |all|
    ensures id in DiscardsTo(all, decisions, n)
            <==> IsDiscarded(decisions, id) && exists i :: 0 <= i < n && all[i].id == id
    ensures id in MergesTo(all, decisions, n)
            <==> IsMerged(all, decisions, id) && exists i :: 0 <= i < n && all[i].id == id
  {
    if n > 0 { SetsTo(all, decisions, n - 1, id); }
  }

  lemma NotYet(all: seq<Row>, decisions: seq<Decision>, n: nat)
    requires UniqueIds(all) && n < |all|
    ensures all[n].id !in DiscardsTo(all, decisions, n) && all[n].id !in MergesTo(all, decisions, n)
  {
    SetsTo(all, decisions, n, all[n].id);
  }

  lemma NotBoth(all: seq<Row>, decisions: seq<Decision>, id: ObservationId)
    ensures !(IsDiscarded(decisions, id) && IsMerged(all, decisions, id))
  {
    if IsDiscarded(decisions, id) {
      var j: nat :| IsLast(decisions, j, id) && decisions[j].kind == Discard;
      forall k: nat | IsLast(decisions, k, id) ensures k == j {}
    }
  }

  lemma LastRemoval(all: seq<Row>, decisions: seq<Decision>, n: nat)
    requires n < |all|
    ensures Removals(all, decisions, all[..n + 1])
         == Removals(all, decisions, all[..n]) + if PlanFor(all, decisions, all[n]).Kept? then [] else [all[n]]
    ensures |MergeOps(all, decisions, all[..n + 1])|
         == |MergeOps(all, decisions, all[..n])| + if PlanFor(all, decisions, all[n]).Merged? then 1 else 0
  {
    assert all[..n + 1][..n] == all[..n];
    assert Removals(all, decisions, all[..n]) + [] == Removals(all, decisions, all[..n]);
  }

  lemma RemovalsNext(all: seq<Row>, decisions: seq<Decision>, n: nat, next: nat)
    requires UniqueIds(all) && n < |all| && next == n + 1 && IsSplit(all, decisions, n)
    ensures IsSplit(all, decisions, next)
  {
    LastRemoval(all, decisions, n);
    NotYet(all, decisions, n);
    PlanIs(all, decisions, all[n]);
    NotBoth(all, decisions, all[n].id);
    NextCounts(Removals(all, decisions, all[..n]), DiscardsTo(all, decisions, n), MergesTo(all, decisions, n), all[n],
               IsDiscarded(decisions, all[n].id), IsMerged(all, decisions, all[n].id));
  }

  function If(b: bool, id: ObservationId): set<ObservationId> { if b then {id} else {} }

  lemma NextCounts(removals: seq<Row>, discards: set<ObservationId>, merges: set<ObservationId>, r: Row, d: bool,
                   m: bool)
    requires IdSet(removals) == discards + merges && |removals| == |discards| + |merges|
    requires r.id !in discards && r.id !in merges && !(d && m)
    ensures var more := removals + if d || m then [r] else [];
      && IdSet(more) == (discards + If(d, r.id)) + (merges + If(m, r.id))
      && |more| == |discards + If(d, r.id)| + |merges + If(m, r.id)|
    ensures |merges + If(m, r.id)| == |merges| + if m then 1 else 0
  {
    OneMore(discards, merges, r.id);
    if d || m {
      IdSetAppend(removals, r);
      assert !d ==> discards + If(d, r.id) == discards;
      assert !m ==> merges + If(m, r.id) == merges;
    } else {
      assert removals + [] == removals && discards + {} == discards && merges + {} == merges;
    }
  }

  lemma OneMore(a: set<ObservationId>, b: set<ObservationId>, id: ObservationId)
    requires id !in a && id !in b
    ensures |a + {id}| == |a| + 1 && |b + {id}| == |b| + 1
    ensures (a + {id}) + b == a + b + {id} && a + (b + {id}) == a + b + {id}
  {
  }

  lemma IdSetAppend(rows: seq<Row>, r: Row)
    ensures IdSet(rows + [r]) == IdSet(rows) + {r.id}
  {
    assert forall q :: q in rows + [r] <==> q in rows || q == r;
  }

  lemma DiscardsAre(all: seq<Row>, decisions: seq<Decision>)
    ensures DiscardsTo(all, decisions, |all|) == Discards(all, decisions)
  {
    forall id ensures id in DiscardsTo(all, decisions, |all|) <==> id in Discards(all, decisions) {
      SetsTo(all, decisions, |all|, id);
    }
  }

  lemma MergesAre(all: seq<Row>, decisions: seq<Decision>)
    ensures MergesTo(all, decisions, |all|) == Merges(all, decisions)
  {
    forall id ensures id in MergesTo(all, decisions, |all|) <==> id in Merges(all, decisions) {
      SetsTo(all, decisions, |all|, id);
    }
  }

  lemma AllAre(all: seq<Row>, decisions: seq<Decision>)
    requires UniqueIds(all)
    ensures IdSet(Removals(all, decisions, all)) == Discards(all, decisions) + Merges(all, decisions)
    ensures |MergeOps(all, decisions, all)| == |Merges(all, decisions)|
    ensures |Removals(all, decisions, all)| == |Discards(all, decisions)| + |Merges(all, decisions)|
  {
    assert all[..|all|] == all;
    DiscardsAre(all, decisions);
    MergesAre(all, decisions);
    RemovalsAre(all, decisions, |all|);
  }

  /** Where at least the floor is kept, the pass drops exactly the observations whose last decision discards or
      merges them, and reports how many of each. */
  lemma DecisionsCarriedOut(all: seq<Row>, decisions: seq<Decision>, minRetained: nat)
    requires UniqueIds(all)
    requires |all| - |Discards(all, decisions)| - |Merges(all, decisions)| >= minRetained
    ensures var e := EffectOf(all, decisions, minRetained);
      && IdSet(e.dropped) == Discards(all, decisions) + Merges(all, decisions)
      && e.discarded == |Discards(all, decisions)| && e.merged == |Merges(all, decisions)|
      && e.kept == |all| - e.discarded - e.merged
  {
    AllAre(all, decisions);
  }

  /** On the table: a row evaluated is reflected afterwards, where it was not, exactly when its last decision is
      a discard, or a merge with content into an observation evaluated. */
  lemma RowsCarriedOut(rows: seq<Row>, agent: AgentId, all: seq<Row>, decisions: seq<Decision>, minRetained: nat,
                       i: nat)
    requires UniqueIds(rows) && UniqueIds(all) && IdSet(all) <= IdSet(Active(rows, agent)) && i < |rows|
    requires |all| - |Discards(all, decisions)| - |Merges(all, decisions)| >= minRetained
    requires exists k :: 0 <= k < |all| && all[k].id == rows[i].id
    ensures var after := Reflected(rows, EffectOf(all, decisions, minRetained));
      |after| == |rows| && !rows[i].reflected
      && (after[i].reflected <==> IsDiscarded(decisions, rows[i].id) || IsMerged(all, decisions, rows[i].id))
  {
    DecisionsCarriedOut(all, decisions, minRetained);
    ReflectedTable(rows, agent, all, decisions, minRetained);
    WasActive(rows, agent, all, i);
    SetsHold(all, decisions, rows[i].id);
  }

  lemma WasActive(rows: seq<Row>, agent: AgentId, all: seq<Row>, i: nat)
    requires UniqueIds(rows) && IdSet(all) <= IdSet(Active(rows, agent)) && i < |rows|
    requires exists k :: 0 <= k < |all| && all[k].id == rows[i].id
    ensures !rows[i].reflected
  {
    KnownIs(all);
    assert rows[i].id in IdSet(Active(rows, agent));
    ActiveMembers(rows, agent);
    var r :| r in Active(rows, agent) && r.id == rows[i].id;
    SameRow(rows, r, rows[i]);
  }

  lemma SetsHold(all: seq<Row>, decisions: seq<Decision>, id: ObservationId)
    requires exists k :: 0 <= k < |all| && all[k].id == id
    ensures id in Discards(all, decisions) <==> IsDiscarded(decisions, id)
    ensures id in Merges(all, decisions) <==> IsMerged(all, decisions, id)
  {
  }

  /** With a rescue, what is dropped is still among those, and as many of them as the floor allows. */
  lemma DecisionsRescued(all: seq<Row>, decisions: seq<Decision>, minRetained: nat)
    requires UniqueIds(all)
    requires |all| - |Discards(all, decisions)| - |Merges(all, decisions)| < minRetained
    ensures var e := EffectOf(all, decisions, minRetained);
      && IdSet(e.dropped) <= Discards(all, decisions) + Merges(all, decisions)
      && |all| - |e.dropped| == if minRetained < |all| then minRetained else |all|
  {
    AllAre(all, decisions);
    FloorHolds(all, decisions, minRetained);
    var removals := Removals(all, decisions, all);
    RemovalsOf(all, decisions, all);
    forall id | id in IdSet(EffectOf(all, decisions, minRetained).dropped) ensures id in IdSet(removals) {
      var r :| r in EffectOf(all, decisions, minRetained).dropped && r.id == id;
      assert r in removals;
    }
  }

  // ----- Where merged content goes -----

  /** The last decision on the observation at `j` merges it, with this content, into `id`, which is evaluated too. */
  ghost predicate GoesInto(all: seq<Row>, decisions: seq<Decision>, j: nat, id: ObservationId, content: string) {
    && j < |all| && (exists i :: 0 <= i < |all| && all[i].id == id)
    && exists k: nat :: IsLast(decisions, k, all[j].id) && decisions[k].kind == Merge(Some(id), Some(content))
  }

  lemma GoesIntoIff(all: seq<Row>, decisions: seq<Decision>, j: nat, id: ObservationId, content: string)
    requires j < |all|
    ensures GoesInto(all, decisions, j, id, content) <==> PlanFor(all, decisions, all[j]) == Merged(id, content)
  {
    LastIs(decisions, all[j].id);
    KnownIs(all);
    if LastDecision(decisions, all[j].id).Some? {
      var k: nat :| IsLast(decisions, k, all[j].id);
    }
  }

  /** None of the observations from `lo` to `hi` is merged into `id`. */
  ghost predicate NoneGoInto(all: seq<Row>, decisions: seq<Decision>, lo: nat, hi: nat, id: ObservationId) {
    forall j: nat, content :: lo <= j < hi ==> !GoesInto(all, decisions, j, id, content)
  }

  lemma NextMergeOp(all: seq<Row>, decisions: seq<Decision>, n: nat, id: ObservationId)
    requires n < |all|
    ensures var plan := PlanFor(all, decisions, all[n]);
      LastMerge(MergeOps(all, decisions, all[..n + 1]), id)
      == if plan.Merged? && plan.target == id then Some(plan.content)
         else LastMerge(MergeOps(all, decisions, all[..n]), id)
  {
    assert all[..n + 1][..n] == all[..n];
    var ops, plan := MergeOps(all, decisions, all[..n]), PlanFor(all, decisions, all[n]);
    if plan.Merged? {
      assert (ops + [MergeOp(plan.target, plan.content, all[n].id)])[..|ops|] == ops;
    }
  }

  lemma {:induction false} NoMergeYet(all: seq<Row>, decisions: seq<Decision>, n: nat, id: ObservationId)
    requires n <= |all| && NoneGoInto(all, decisions, 0, n, id)
    ensures LastMerge(MergeOps(all, decisions, all[..n]), id) == None
  {
    if n > 0 {
      NoMergeYet(all, decisions, n - 1, id);
      NextMergeOp(all, decisions, n - 1, id);
      var plan := PlanFor(all, decisions, all[n - 1]);
      if plan.Merged? { GoesIntoIff(all, decisions, n - 1, plan.target, plan.content); }
    }
  }

  lemma {:induction false} LastMergeIs(all: seq<Row>, decisions: seq<Decision>, n: nat, j: nat, id: ObservationId,
                                       content: string)
    requires j < n <= |all| && GoesInto(all, decisions, j, id, content) && NoneGoInto(all, decisions, j + 1, n, id)
    ensures LastMerge(MergeOps(all, decisions, all[..n]), id) == Some(content)
  {
    NextMergeOp(all, decisions, n - 1, id);
    if j == n - 1 {
      GoesIntoIff(all, decisions, j, id, content);
    } else {
      LastMergeIs(all, decisions, n - 1, j, id, content);
      var plan := PlanFor(all, decisions, all[n - 1]);
      if plan.Merged? { GoesIntoIff(all, decisions, n - 1, plan.target, plan.content); }
    }
  }

  /** Where at least the floor is kept, a row of the table holds what the last observation merged into it brings,
      by its last decision. */
  lemma ContentCarriedOut(rows: seq<Row>, all: seq<Row>, decisions: seq<Decision>, minRetained: nat, i: nat, j: nat,
                          content: string)
    requires UniqueIds(all) && i < |rows|
    requires |all| - |Discards(all, decisions)| - |Merges(all, decisions)| >= minRetained
    requires GoesInto(all, decisions, j, rows[i].id, content)
    requires NoneGoInto(all, decisions, j + 1, |all|, rows[i].id)
    ensures var after := Reflected(rows, EffectOf(all, decisions, minRetained));
      |after| == |rows| && after[i].content == content
  {
    MergesStand(all, decisions, minRetained);
    LastMergeWins(rows, MergeOps(all, decisions, all));
    assert all[..|all|] == all;
    LastMergeIs(all, decisions, |all|, j, rows[i].id, content);
  }

  /** And where none is merged into it, it holds what it held. */
  lemma ContentStands(rows: seq<Row>, all: seq<Row>, decisions: seq<Decision>, minRetained: nat, i: nat)
    requires UniqueIds(all) && i < |rows|
    requires |all| - |Discards(all, decisions)| - |Merges(all, decisions)| >= minRetained
    requires NoneGoInto(all, decisions, 0, |all|, rows[i].id)
    ensures var after := Reflected(rows, EffectOf(all, decisions, minRetained));
      |after| == |rows| && after[i].content == rows[i].content
  {
    MergesStand(all, decisions, minRetained);
    LastMergeWins(rows, MergeOps(all, decisions, all));
    assert all[..|all|] == all;
    NoMergeYet(all, decisions, |all|, rows[i].id);
  }

  lemma MergesStand(all: seq<Row>, decisions: seq<Decision>, minRetained: nat)
    requires UniqueIds(all)
    requires |all| - |Discards(all, decisions)| - |Merges(all, decisions)| >= minRetained
    ensures EffectOf(all, decisions, minRetained).merges == MergeOps(all, decisions, all)
  {
    AllAre(all, decisions);
  }

  // ----- Who is rescued -----

  /** `a` is rescued before `b`: it is less important, info and none alike, or as important and listed earlier. */
  predicate GoesFirst(all: seq<Row>, a: nat, b: nat)
    requires a < |all| && b < |all|
  {
    match all[a].priority {
      case High => all[b].priority == High && a < b
      case Medium => all[b].priority == High || (all[b].priority == Medium && a < b)
      case _ => all[b].priority in {High, Medium} || a < b
    }
  }

  lemma {:induction false} RemovalsInOrder(all: seq<Row>, decisions: seq<Decision>, part: seq<Row>, i: nat, j: nat)
    returns (a: nat, b: nat)
    requires i < j < |part|
    requires !PlanFor(all, decisions, part[i]).Kept? && !PlanFor(all, decisions, part[j]).Kept?
    ensures a < b < |Removals(all, decisions, part)|
    ensures Removals(all, decisions, part)[a] == part[i] && Removals(all, decisions, part)[b] == part[j]
  {
    var init := part[..|part| - 1];
    if j == |init| {
      RemovalsOf(all, decisions, init);
      assert init[i] in Removals(all, decisions, init);
      a :| 0 <= a < |Removals(all, decisions, init)| && Removals(all, decisions, init)[a] == part[i];
      b := |Removals(all, decisions, init)|;
    } else {
      a, b := RemovalsInOrder(all, decisions, init, i, j);
    }
  }

  lemma {:induction false} RankInOrder(rows: seq<Row>, rank: nat, a: nat, b: nat) returns (p: nat, q: nat)
    requires a < b < |rows| && RescueRank(rows[a]) == rank && RescueRank(rows[b]) == rank
    ensures p < q < |OfRank(rows, rank)| && OfRank(rows, rank)[p] == rows[a] && OfRank(rows, rank)[q] == rows[b]
  {
    var init := rows[..|rows| - 1];
    if b == |init| {
      OfRankParts(init, rank);
      assert init[a] in OfRank(init, rank);
      p :| 0 <= p < |OfRank(init, rank)| && OfRank(init, rank)[p] == rows[a];
      q := |OfRank(init, rank)|;
    } else {
      p, q := RankInOrder(init, rank, a, b);
    }
  }

  /** Where rank `rank` begins in the order of rescue. */
  function StartOf(rows: seq<Row>, rank: nat): nat {
    if rank >= 2 then 0 else if rank == 1 then |OfRank(rows, 2)| else |OfRank(rows, 2)| + |OfRank(rows, 1)|
  }

  lemma InOrder(rows: seq<Row>, rank: nat, p: nat)
    requires rank <= 2 && p < |OfRank(rows, rank)|
    ensures StartOf(rows, rank) + p < |RescueOrder(rows)|
    ensures RescueOrder(rows)[StartOf(rows, rank) + p] == OfRank(rows, rank)[p]
    ensures rank > 0 ==> StartOf(rows, rank) + p < StartOf(rows, rank - 1)
  {
  }

  lemma PlaceOfRank(rows: seq<Row>, a: nat) returns (p: nat)
    requires a < |rows|
    ensures p < |OfRank(rows, RescueRank(rows[a]))| && OfRank(rows, RescueRank(rows[a]))[p] == rows[a]
  {
    OfRankParts(rows, RescueRank(rows[a]));
    assert rows[a] in OfRank(rows, RescueRank(rows[a]));
    p :| 0 <= p < |OfRank(rows, RescueRank(rows[a]))| && OfRank(rows, RescueRank(rows[a]))[p] == rows[a];
  }

  lemma SameRankOrder(rows: seq<Row>, a: nat, b: nat) returns (p: nat, q: nat)
    requires a < b < |rows| && RescueRank(rows[a]) == RescueRank(rows[b])
    ensures p < q < |RescueOrder(rows)| && RescueOrder(rows)[p] == rows[a] && RescueOrder(rows)[q] == rows[b]
  {
    var rank := RescueRank(rows[a]);
    p, q := RankInOrder(rows, rank, a, b);
    InOrder(rows, rank, p);
    InOrder(rows, rank, q);
    p, q := StartOf(rows, rank) + p, StartOf(rows, rank) + q;
  }

  lemma HigherRankOrder(rows: seq<Row>, a: nat, b: nat) returns (p: nat, q: nat)
    requires a < |rows| && b < |rows| && RescueRank(rows[a]) > RescueRank(rows[b])
    ensures p < q < |RescueOrder(rows)| && RescueOrder(rows)[p] == rows[a] && RescueOrder(rows)[q] == rows[b]
  {
    p := PlaceOfRank(rows, a);
    q := PlaceOfRank(rows, b);
    InOrder(rows, RescueRank(rows[a]), p);
    InOrder(rows, RescueRank(rows[b]), q);
    assert StartOf(rows, RescueRank(rows[a])) + p < StartOf(rows, RescueRank(rows[b]));
    p, q := StartOf(rows, RescueRank(rows[a])) + p, StartOf(rows, RescueRank(rows[b])) + q;
  }

  lemma RescuedBefore(removals: seq<Row>, kept: nat, minRetained: nat, p: nat, q: nat)
    requires UniqueIds(removals) && p < q < |RescueOrder(removals)|
    requires RescueOrder(removals)[q].id in Rescued(removals, kept, minRetained)
    ensures RescueOrder(removals)[p].id in Rescued(removals, kept, minRetained)
  {
    var n := if kept < minRetained then minRetained - kept else 0;
    RescueOrderIsPermutation(removals);
    Taken(RescueOrder(removals), n, p);
    Taken(RescueOrder(removals), n, q);
  }

  lemma RankIff(all: seq<Row>, i: nat, j: nat)
    requires i < |all| && j < |all|
    ensures GoesFirst(all, i, j)
            <==> RescueRank(all[i]) > RescueRank(all[j]) || (RescueRank(all[i]) == RescueRank(all[j]) && i < j)
  {
  }

  lemma OrderedRescue(all: seq<Row>, decisions: seq<Decision>, i: nat, j: nat) returns (p: nat, q: nat)
    requires i < |all| && j < |all| && GoesFirst(all, i, j)
    requires !PlanFor(all, decisions, all[i]).Kept? && !PlanFor(all, decisions, all[j]).Kept?
    ensures var order := RescueOrder(Removals(all, decisions, all));
      p < q < |order| && order[p] == all[i] && order[q] == all[j]
  {
    var removals := Removals(all, decisions, all);
    RankIff(all, i, j);
    if RescueRank(all[i]) == RescueRank(all[j]) {
      var a, b := RemovalsInOrder(all, decisions, all, i, j);
      p, q := SameRankOrder(removals, a, b);
    } else {
      RemovalsOf(all, decisions, all);
      assert all[i] in removals && all[j] in removals;
      var a :| 0 <= a < |removals| && removals[a] == all[i];
      var b :| 0 <= b < |removals| && removals[b] == all[j];
      p, q := HigherRankOrder(removals, a, b);
    }
  }

  lemma DroppedAre(all: seq<Row>, decisions: seq<Decision>, minRetained: nat)
    ensures var removals := Removals(all, decisions, all);
      EffectOf(all, decisions, minRetained).dropped
      == if |all| - |removals| < minRetained then Except(removals, Rescued(removals, |all| - |removals|, minRetained))
         else removals
  {
  }

  lemma NoneRescued(removals: seq<Row>, kept: nat, minRetained: nat)
    requires kept >= minRetained
    ensures Rescued(removals, kept, minRetained) == {}
  {
    assert Take(RescueOrder(removals), 0) == [];
  }

  lemma DroppedOf(removals: seq<Row>, kept: int, minRetained: nat, dropped: seq<Row>, r: Row)
    requires kept >= 0 && r in removals
    requires dropped == if kept < minRetained then Except(removals, Rescued(removals, kept, minRetained)) else removals
    ensures r in dropped <==> r.id !in Rescued(removals, kept, minRetained)
  {
    if kept < minRetained {
      ExceptOf(removals, Rescued(removals, kept, minRetained));
    } else {
      NoneRescued(removals, kept, minRetained);
    }
  }

  lemma DroppedIff(all: seq<Row>, decisions: seq<Decision>, minRetained: nat, r: Row)
    requires r in all && !PlanFor(all, decisions, r).Kept?
    ensures var removals := Removals(all, decisions, all);
      r in EffectOf(all, decisions, minRetained).dropped
      <==> r.id !in Rescued(removals, |all| - |removals|, minRetained)
  {
    var removals := Removals(all, decisions, all);
    RemovalsOf(all, decisions, all);
    DroppedAre(all, decisions, minRetained);
    DroppedOf(removals, |all| - |removals|, minRetained, EffectOf(all, decisions, minRetained).dropped, r);
  }

  /** Of two observations to be removed, one that goes first is rescued whenever the other is: the least important
      are, and of those the first listed. */
  lemma RescuedInOrder(all: seq<Row>, decisions: seq<Decision>, minRetained: nat, i: nat, j: nat)
    requires UniqueIds(all) && i < |all| && j < |all| && GoesFirst(all, i, j)
    requires IsDiscarded(decisions, all[i].id) || IsMerged(all, decisions, all[i].id)
    requires IsDiscarded(decisions, all[j].id) || IsMerged(all, decisions, all[j].id)
    ensures var dropped := EffectOf(all, decisions, minRetained).dropped;
      all[j] !in dropped ==> all[i] !in dropped
  {
    PlanIs(all, decisions, all[i]);
    PlanIs(all, decisions, all[j]);
    DroppedIff(all, decisions, minRetained, all[i]);
    DroppedIff(all, decisions, minRetained, all[j]);
    var removals := Removals(all, decisions, all);
    RemovalsUnique(all, decisions, all);
    var p, q := OrderedRescue(all, decisions, i, j);
    if all[j] !in EffectOf(all, decisions, minRetained).dropped {
      RescuedBefore(removals, |all| - |removals|, minRetained, p, q);
    }
  }
}
