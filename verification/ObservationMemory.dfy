/** Observer and reflector passes over the shared tables, interleaved at their awaits
    (lib/observer-agent.ts:331-468, lib/reflector-agent.ts:273-429, lib/observation-store.ts). */
module ObservationMemory {
  import opened Wrappers
  import opened ObservationStore
  import opened Reflector
  import Observer

  /** A reflection pass waiting for the model: the agent it serves and the rows it is evaluating. */
  datatype Pass = Pass(agent: AgentId, all: seq<Row>)

  type Message = string

  /** An observation pass waiting for the model: the agent it serves and the messages it asked about. */
  datatype Watch = Watch(agent: AgentId, asked: seq<Message>)

  datatype Memory = Memory(rows: seq<Row>, memory: map<AgentId, MemoryState>, buffers: map<AgentId, seq<Message>>,
                           observer: Option<Watch>, reflector: Option<Pass>)

  datatype Event =
    | Buffers(agent: AgentId, message: Message)
    | ObserverBegins(agent: AgentId) | ObserverEnds(items: seq<Row>) | ObserverFails
    | ReflectorBegins(agent: AgentId) | ReflectorEnds(decisions: seq<Decision>) | ReflectorFails

  /** New observations of an agent, under ids the table does not have. */
  ghost predicate Newborn(s: Memory, agent: AgentId, items: seq<Row>) {
    && UniqueIds(items)
    && forall r :: r in items ==> IsActive(r, agent) && r.id !in IdSet(s.rows)
  }

  function BufferOf(s: Memory, agent: AgentId): seq<Message> { Observer.Buffered(s.buffers, agent) }

  /** The observer adds its batch and the batch's own counts to the memory state, and clears the buffer. */
  function Observed(cfg: Config, s: Memory, agent: AgentId, items: seq<Row>): Memory {
    var t := s.(observer := None, buffers := s.buffers - {agent});
    if items == [] then t else
      t.(rows := s.rows + items,
         memory := s.memory[agent := Observer.Credited(StateOf(s.memory, agent), items, cfg.charsPerToken)])
  }

  function Collected(cfg: Config, s: Memory, p: Pass, decisions: seq<Decision>): Memory {
    var rows := Reflected(s.rows, EffectOf(p.all, decisions, cfg.minRetained));
    s.(rows := rows, memory := s.memory[p.agent := Recounted(cfg, rows, s.memory, p.agent)], reflector := None)
  }

  ghost predicate Next(cfg: Config, s: Memory, e: Event, t: Memory) {
    match e
    case Buffers(agent, message) => t == s.(buffers := s.buffers[agent := BufferOf(s, agent) + [message]])
    case ObserverBegins(agent) =>
      s.observer.None? && t ==
        if BufferOf(s, agent) == [] then s else s.(observer := Some(Watch(agent, BufferOf(s, agent))))
    case ObserverEnds(items) =>
      s.observer.Some? && Newborn(s, s.observer.value.agent, items)
        && t == Observed(cfg, s, s.observer.value.agent, items)
    case ObserverFails => s.observer.Some? && t == s.(observer := None)
    case ReflectorBegins(agent) =>
      var all := ActiveObservations(s.rows, agent, DEFAULT_LIMIT);
      s.reflector.None? && t ==
        if |all| <= cfg.minRetained || all == [] then s else s.(reflector := Some(Pass(agent, all)))
    case ReflectorEnds(decisions) =>
      s.reflector.Some? && decisions != [] && t == Collected(cfg, s, s.reflector.value, decisions)
    case ReflectorFails => s.reflector.Some? && t == s.(reflector := None)
  }

  /** The rows under evaluation are still in the table, active and unchanged. */
  ghost predicate Current(cfg: Config, s: Memory) {
    s.reflector.Some? ==>
      var p := s.reflector.value;
      && |p.all| > cfg.minRetained && UniqueIds(p.all)
      && forall r :: r in p.all ==> r in s.rows && IsActive(r, p.agent)
  }

  ghost predicate Inv(cfg: Config, s: Memory) { UniqueIds(s.rows) && Current(cfg, s) }

  /** The derived counters of an agent are the tokens and the number of its active rows. */
  ghost predicate Exact(cfg: Config, s: Memory, agent: AgentId) {
    && StateOf(s.memory, agent).tokens == TokenSum(Active(s.rows, agent), cfg.charsPerToken)
    && StateOf(s.memory, agent).count == |Active(s.rows, agent)|
  }

  // ----- Adding rows -----

  lemma {:induction false} ActiveConcat(a: seq<Row>, b: seq<Row>, agent: AgentId)
    ensures Active(a + b, agent) == Active(a, agent) + Active(b, agent)
  {
    if b == [] {
      assert a + b == a;
    } else {
      assert (a + b)[..|a + b| - 1] == a + b[..|b| - 1];
      ActiveConcat(a, b[..|b| - 1], agent);
    }
  }

  lemma {:induction false} ActiveItems(items: seq<Row>, agent: AgentId, other: AgentId)
    requires forall r :: r in items ==> IsActive(r, agent)
    ensures Active(items, other) == if other == agent then items else []
  {
    if items != [] {
      assert items[|items| - 1] in items;
      ActiveItems(items[..|items| - 1], agent, other);
    }
  }

  lemma NewbornUnique(s: Memory, agent: AgentId, items: seq<Row>)
    requires UniqueIds(s.rows) && Newborn(s, agent, items)
    ensures UniqueIds(s.rows + items)
  {
    forall i, j | 0 <= i < |s.rows| && 0 <= j < |items| ensures s.rows[i].id != items[j].id {
      assert s.rows[i].id in IdSet(s.rows) && items[j] in items;
    }
  }

  lemma ObservedKeeps(cfg: Config, s: Memory, agent: AgentId, items: seq<Row>)
    requires Inv(cfg, s) && Newborn(s, agent, items)
    ensures Inv(cfg, Observed(cfg, s, agent, items))
  {
    NewbornUnique(s, agent, items);
  }

  lemma ObservedExact(cfg: Config, s: Memory, agent: AgentId, items: seq<Row>, other: AgentId)
    requires Newborn(s, agent, items) && Exact(cfg, s, other)
    ensures Exact(cfg, Observed(cfg, s, agent, items), other)
  {
    ActiveConcat(s.rows, items, other);
    ActiveItems(items, agent, other);
    TokenSumConcat(Active(s.rows, other), items, cfg.charsPerToken);
    if other != agent { assert Active(s.rows, other) + [] == Active(s.rows, other); }
  }

  // ----- Collecting rows -----

  lemma BeginsCurrent(cfg: Config, s: Memory, agent: AgentId)
    requires UniqueIds(s.rows)
    ensures var all := ActiveObservations(s.rows, agent, DEFAULT_LIMIT);
      UniqueIds(all) && forall r :: r in all ==> r in s.rows && IsActive(r, agent)
  {
    var active := Active(s.rows, agent);
    var sorted := Sorted(active);
    ActiveIsUnique(s.rows, agent);
    ActiveMembers(s.rows, agent);
    SortedPermutes(active);
    forall r | r in sorted ensures r in active { assert r in multiset(sorted); }
    SortedIsUnique(active);
  }

  lemma SortedIsUnique(rows: seq<Row>)
    requires UniqueIds(rows)
    ensures UniqueIds(Sorted(rows))
  {
    var sorted := Sorted(rows);
    SortedPermutes(rows);
    forall i, j | 0 <= i < j < |sorted| ensures sorted[i].id != sorted[j].id {
      var a, b := sorted[i], sorted[j];
      assert multiset(sorted)[a] >= 1 && multiset(sorted)[b] >= 1;
      if a == b {
        TwiceIn(sorted, i, j);
        OnceIn(rows, a);
      } else {
        assert a in multiset(rows) && b in multiset(rows);
        SameRow(rows, a, b);
      }
    }
  }

  lemma TwiceIn(rows: seq<Row>, i: nat, j: nat)
    requires i < j < |rows| && rows[i] == rows[j]
    ensures multiset(rows)[rows[i]] >= 2
  {
    assert rows == rows[..j] + [rows[j]] + rows[j + 1..];
    assert rows[..j][i] == rows[i];
    assert multiset(rows) == multiset(rows[..j]) + multiset{rows[j]} + multiset(rows[j + 1..]);
    assert rows[i] in multiset(rows[..j]);
  }

  lemma {:induction false} OnceIn(rows: seq<Row>, r: Row)
    requires UniqueIds(rows)
    ensures multiset(rows)[r] <= 1
  {
    if rows != [] {
      var init, last := rows[..|rows| - 1], rows[|rows| - 1];
      LastDiffers(rows);
      OnceIn(init, r);
      assert rows == init + [last];
      assert r == last ==> r !in multiset(init);
    }
  }

  /** The pass sees the active rows only, and all of its rows still are. */
  lemma PassIsActive(cfg: Config, s: Memory)
    requires Inv(cfg, s) && s.reflector.Some?
    ensures IdSet(s.reflector.value.all) <= IdSet(Active(s.rows, s.reflector.value.agent))
  {
    ActiveMembers(s.rows, s.reflector.value.agent);
  }

  /** Where two tables agree on the active rows of an agent, so do the lists of them. */
  lemma {:induction false} ActiveAgrees(a: seq<Row>, b: seq<Row>, agent: AgentId)
    requires |a| == |b|
    requires forall i :: 0 <= i < |a| ==> a[i] == b[i] || (!IsActive(a[i], agent) && !IsActive(b[i], agent))
    ensures Active(a, agent) == Active(b, agent)
  {
    if a != [] { ActiveAgrees(a[..|a| - 1], b[..|b| - 1], agent); }
  }

  lemma CollectedOthers(cfg: Config, s: Memory, decisions: seq<Decision>, other: AgentId)
    requires Inv(cfg, s) && s.reflector.Some? && other != s.reflector.value.agent
    ensures Active(Collected(cfg, s, s.reflector.value, decisions).rows, other) == Active(s.rows, other)
  {
    var p := s.reflector.value;
    var e := EffectOf(p.all, decisions, cfg.minRetained);
    var after := Reflected(s.rows, e);
    PassIsActive(cfg, s);
    ReflectedTable(s.rows, p.agent, p.all, decisions, cfg.minRetained);
    WithMergesKeeps(s.rows, e.merges);
    forall i | 0 <= i < |s.rows|
      ensures after[i] == s.rows[i] || (!IsActive(after[i], other) && !IsActive(s.rows[i], other))
    {
      assert WithMerges(s.rows, e.merges)[i].(content := "") == s.rows[i].(content := "");
      if s.rows[i].id in IdSet(p.all) {
        var r :| r in p.all && r.id == s.rows[i].id;
        SameRow(s.rows, r, s.rows[i]);
      }
    }
    ActiveAgrees(after, s.rows, other);
  }

  /** A finished pass leaves at least the retention floor active: it began with more, and only the
      observer can have touched the agent's rows since. */
  lemma FloorSurvives(cfg: Config, s: Memory, decisions: seq<Decision>)
    requires Inv(cfg, s) && s.reflector.Some?
    ensures var t := Collected(cfg, s, s.reflector.value, decisions);
      |Active(t.rows, s.reflector.value.agent)| >= cfg.minRetained
  {
    var p := s.reflector.value;
    PassIsActive(cfg, s);
    ReflectedTable(s.rows, p.agent, p.all, decisions, cfg.minRetained);
    FloorHolds(p.all, decisions, cfg.minRetained);
    IdSetSize(p.all);
    ActiveIsUnique(s.rows, p.agent);
    IdSetSize(Active(s.rows, p.agent));
    SubsetSize(IdSet(p.all), IdSet(Active(s.rows, p.agent)));
  }

  lemma {:induction false} SubsetSize(a: set<ObservationId>, b: set<ObservationId>)
    requires a <= b
    ensures |a| <= |b|
  {
    if a != {} {
      var x :| x in a;
      SubsetSize(a - {x}, b - {x});
    }
  }

  // ----- Every run -----

  lemma NextKeeps(cfg: Config, s: Memory, e: Event, t: Memory)
    requires Inv(cfg, s) && Next(cfg, s, e, t)
    ensures Inv(cfg, t)
  {
    match e
    case Buffers(_, _) =>
    case ObserverBegins(_) =>
    case ObserverEnds(items) => ObservedKeeps(cfg, s, s.observer.value.agent, items);
    case ObserverFails =>
    case ReflectorBegins(agent) => BeginsCurrent(cfg, s, agent);
    case ReflectorEnds(decisions) =>
      PassIsActive(cfg, s);
      ReflectedTable(s.rows, s.reflector.value.agent, s.reflector.value.all, decisions, cfg.minRetained);
    case ReflectorFails =>
  }

  /** After each event the counters stay exact, for a reflection if and only if no active row of its
      agent is beyond the 500 it recounts. */
  lemma NextExactIff(cfg: Config, s: Memory, e: Event, t: Memory, agent: AgentId)
    requires Inv(cfg, s) && Next(cfg, s, e, t)
    ensures !(e.ReflectorEnds? && s.reflector.value.agent == agent) && Exact(cfg, s, agent) ==> Exact(cfg, t, agent)
    ensures e.ReflectorEnds? && s.reflector.value.agent == agent ==>
              (Exact(cfg, t, agent) <==> |Active(t.rows, agent)| <= 500)
  {
    match e
    case ObserverEnds(items) => if Exact(cfg, s, agent) { ObservedExact(cfg, s, s.observer.value.agent, items, agent); }
    case ReflectorEnds(decisions) =>
      if s.reflector.value.agent == agent {
        CountIsExactIff(t.rows, agent, cfg.charsPerToken, DEFAULT_LIMIT);
      } else {
        CollectedOthers(cfg, s, decisions, agent);
      }
    case _ =>
  }

  ghost predicate IsRun(cfg: Config, ss: seq<Memory>, es: seq<Event>) {
    && |ss| == |es| + 1 && ss[0] == Memory([], map[], map[], None, None)
    && forall i :: 0 <= i < |es| ==> StepAt(cfg, ss, es, i)
  }

  ghost predicate StepAt(cfg: Config, ss: seq<Memory>, es: seq<Event>, i: int) {
    0 <= i < |es| && i + 1 < |ss| && Next(cfg, ss[i], es[i], ss[i + 1])
  }

  /** Every reflection of the agent leaves no more active rows than it recounts. */
  ghost predicate SmallReflections(ss: seq<Memory>, es: seq<Event>, agent: AgentId, k: nat) {
    && k <= |es| && |ss| == |es| + 1
    && forall i :: 0 <= i < k ==> SmallAt(ss, es, agent, i)
  }

  ghost predicate SmallAt(ss: seq<Memory>, es: seq<Event>, agent: AgentId, i: int) {
    0 <= i < |es| && i + 1 < |ss|
    && (es[i].ReflectorEnds? && ss[i].reflector.Some? && ss[i].reflector.value.agent == agent ==>
          |Active(ss[i + 1].rows, agent)| <= 500)
  }

  lemma {:induction false} RunInv(cfg: Config, ss: seq<Memory>, es: seq<Event>, k: nat)
    requires IsRun(cfg, ss, es) && k <= |es|
    ensures Inv(cfg, ss[k])
  {
    if k > 0 {
      RunInv(cfg, ss, es, k - 1);
      assert StepAt(cfg, ss, es, k - 1);
      NextKeeps(cfg, ss[k - 1], es[k - 1], ss[k]);
    }
  }

  /** Under any interleaving of passes, the counters are exact at all times. */
  lemma {:induction false} CountersExact(cfg: Config, ss: seq<Memory>, es: seq<Event>, agent: AgentId, k: nat)
    requires IsRun(cfg, ss, es) && k <= |es| && SmallReflections(ss, es, agent, k)
    ensures Exact(cfg, ss[k], agent)
  {
    if k > 0 {
      assert forall i :: 0 <= i < k - 1 ==> SmallAt(ss, es, agent, i);
      CountersExact(cfg, ss, es, agent, k - 1);
      RunInv(cfg, ss, es, k - 1);
      assert StepAt(cfg, ss, es, k - 1) && SmallAt(ss, es, agent, k - 1);
      NextExactIff(cfg, ss[k - 1], es[k - 1], ss[k], agent);
    }
  }

  /** Nothing is ever deleted or revived: a row keeps its place, id, agent, priority and date, and once
      soft-deleted it stays so. */
  lemma {:induction false} RowsSurvive(cfg: Config, ss: seq<Memory>, es: seq<Event>, j: nat, k: nat, i: nat)
    requires IsRun(cfg, ss, es) && j <= k <= |es| && i < |ss[j].rows|
    ensures i < |ss[k].rows|
    ensures ss[k].rows[i].(content := "", reflected := false) == ss[j].rows[i].(content := "", reflected := false)
    ensures ss[j].rows[i].reflected ==> ss[k].rows[i].reflected
  {
    if j < k {
      RowsSurvive(cfg, ss, es, j, k - 1, i);
      assert StepAt(cfg, ss, es, k - 1);
      RowSurvives(cfg, ss[k - 1], es[k - 1], ss[k], i);
    }
  }

  lemma RowSurvives(cfg: Config, s: Memory, e: Event, t: Memory, i: nat)
    requires Next(cfg, s, e, t) && i < |s.rows|
    ensures i < |t.rows|
    ensures t.rows[i].(content := "", reflected := false) == s.rows[i].(content := "", reflected := false)
    ensures s.rows[i].reflected ==> t.rows[i].reflected
  {
    if e.ReflectorEnds? {
      var merges := EffectOf(s.reflector.value.all, e.decisions, cfg.minRetained).merges;
      WithMergesKeeps(s.rows, merges);
      assert WithMerges(s.rows, merges)[i].(content := "") == s.rows[i].(content := "");
    }
  }

  // ----- Where buffered messages go -----

  /** The messages buffered for an agent by the events from `i` to `k`. */
  function BufferedIn(es: seq<Event>, i: nat, k: nat, agent: AgentId): seq<Message>
    requires i <= k <= |es|
  {
    if i == k then [] else
      BufferedIn(es, i, k - 1, agent)
        + if es[k - 1].Buffers? && es[k - 1].agent == agent then [es[k - 1].message] else []
  }

  /** The messages of an agent that the passes ended so far took out of its buffer. */
  function Cleared(ss: seq<Memory>, es: seq<Event>, agent: AgentId, k: nat): seq<Message>
    requires k <= |es| < |ss|
  {
    if k == 0 then [] else
      Cleared(ss, es, agent, k - 1)
      + if es[k - 1].ObserverEnds? && ss[k - 1].observer.Some? && ss[k - 1].observer.value.agent == agent
        then BufferOf(ss[k - 1], agent) else []
  }

  /** Every message buffered for an agent is in its buffer still, or was cleared by a pass that ended well,
      in the order of arrival. */
  lemma {:induction false} BufferedIsKept(cfg: Config, ss: seq<Memory>, es: seq<Event>, agent: AgentId, k: nat)
    requires IsRun(cfg, ss, es) && k <= |es|
    ensures BufferedIn(es, 0, k, agent) == Cleared(ss, es, agent, k) + BufferOf(ss[k], agent)
  {
    if k > 0 {
      BufferedIsKept(cfg, ss, es, agent, k - 1);
      assert StepAt(cfg, ss, es, k - 1);
    }
  }

  /** The pass running at event `k` began at event `b` with the messages buffered by then, and what came
      since stands behind them in the buffer. */
  ghost predicate BeganAt(ss: seq<Memory>, es: seq<Event>, b: nat, k: nat) {
    && b < k <= |es| < |ss| && ss[k].observer.Some?
    && var agent := ss[k].observer.value.agent;
       && es[b] == ObserverBegins(agent) && ss[b].observer.None?
       && ss[k].observer.value.asked == BufferOf(ss[b], agent) != []
       && BufferOf(ss[k], agent) == ss[k].observer.value.asked + BufferedIn(es, b, k, agent)
       && forall i :: b < i <= k ==> ss[i].observer == ss[k].observer
  }

  lemma {:induction false} PassBegan(cfg: Config, ss: seq<Memory>, es: seq<Event>, k: nat) returns (b: nat)
    requires IsRun(cfg, ss, es) && k <= |es| && ss[k].observer.Some?
    ensures BeganAt(ss, es, b, k)
  {
    var last := k - 1;
    assert StepAt(cfg, ss, es, last);
    if ss[last].observer.Some? {
      b := PassBegan(cfg, ss, es, last);
    } else {
      b := last;
      assert BufferedIn(es, b, k, ss[k].observer.value.agent) == [];
    }
  }

  /** A pass that ends well clears messages the model was not asked about. */
  ghost predicate LosesAt(ss: seq<Memory>, es: seq<Event>, k: nat) {
    k < |es| < |ss| && es[k].ObserverEnds? && ss[k].observer.Some?
    && BufferOf(ss[k], ss[k].observer.value.agent) != ss[k].observer.value.asked
  }

  /** A message is buffered at event `j` for the agent whose pass runs from before `j` to its good end at `k`. */
  ghost predicate ArrivesDuring(ss: seq<Memory>, es: seq<Event>, j: nat, k: nat) {
    j < k < |es| < |ss| && es[k].ObserverEnds? && es[j].Buffers?
    && ss[k].observer.Some? && ss[k].observer.value.agent == es[j].agent
    && forall i :: j <= i <= k ==> ss[i].observer == ss[k].observer
  }

  lemma {:induction false} NoneBuffered(es: seq<Event>, i: nat, k: nat, agent: AgentId)
    requires i <= k <= |es|
    ensures BufferedIn(es, i, k, agent) == [] <==> forall j :: i <= j < k ==> !(es[j].Buffers? && es[j].agent == agent)
  {
    if i < k { NoneBuffered(es, i, k - 1, agent); }
  }

  /** A pass clears a message unseen exactly when one was buffered for its agent while it was asking the
      model; what it clears unseen is exactly what arrived then. */
  lemma LosesIff(cfg: Config, ss: seq<Memory>, es: seq<Event>, k: nat) returns (b: nat)
    requires IsRun(cfg, ss, es) && k < |es| && es[k].ObserverEnds?
    ensures BeganAt(ss, es, b, k)
    ensures LosesAt(ss, es, k) <==> exists j: nat :: ArrivesDuring(ss, es, j, k)
  {
    assert StepAt(cfg, ss, es, k);
    b := PassBegan(cfg, ss, es, k);
    var agent := ss[k].observer.value.agent;
    NoneBuffered(es, b, k, agent);
    forall j: nat | b <= j < k && es[j].Buffers? && es[j].agent == agent ensures ArrivesDuring(ss, es, j, k) {
      assert j != b;
    }
    forall j: nat | ArrivesDuring(ss, es, j, k) ensures b <= j {}
    if LosesAt(ss, es, k) {
      assert BufferedIn(es, b, k, agent) != [];
      var j: nat :| b <= j < k && es[j].Buffers? && es[j].agent == agent;
      assert ArrivesDuring(ss, es, j, k);
    }
  }

  /** Over a whole run, no message leaves a buffer unseen exactly when none arrives during a pass of its agent
      that ends well. */
  lemma NothingLostIff(cfg: Config, ss: seq<Memory>, es: seq<Event>)
    requires IsRun(cfg, ss, es)
    ensures (forall k: nat :: !LosesAt(ss, es, k)) <==> forall j: nat, k: nat :: !ArrivesDuring(ss, es, j, k)
  {
    forall k: nat | k < |es| && es[k].ObserverEnds?
      ensures LosesAt(ss, es, k) <==> exists j: nat :: ArrivesDuring(ss, es, j, k)
    {
      var b := LosesIff(cfg, ss, es, k);
    }
  }

  // ----- Two runs -----

  /** A run of one event more. */
  lemma Grow(cfg: Config, ss: seq<Memory>, es: seq<Event>, e: Event, t: Memory) returns (more: seq<Memory>)
    requires IsRun(cfg, ss, es) && Next(cfg, ss[|es|], e, t)
    ensures more == ss + [t] && IsRun(cfg, more, es + [e])
  {
    more := ss + [t];
    forall i | 0 <= i < |es + [e]| ensures StepAt(cfg, more, es + [e], i) {
      if i < |es| { assert StepAt(cfg, ss, es, i); }
    }
  }

  const Fresh := Memory([], map[], map[], None, None)

  /** A message arrives while the model is asked about another: the pass clears both. */
  lemma MessageLost(cfg: Config, agent: AgentId, seen: Message, unseen: Message)
    returns (ss: seq<Memory>, es: seq<Event>)
    ensures IsRun(cfg, ss, es) && LosesAt(ss, es, 3)
    ensures es == [Buffers(agent, seen), ObserverBegins(agent), Buffers(agent, unseen), ObserverEnds([])]
    ensures BufferOf(ss[3], agent) == [seen, unseen] && BufferOf(ss[4], agent) == []
  {
    var one := Fresh.(buffers := map[agent := [seen]]);
    var two := one.(observer := Some(Watch(agent, [seen])));
    var three := two.(buffers := map[agent := [seen, unseen]]);
    var four := three.(buffers := map[], observer := None);
    es := [Buffers(agent, seen), ObserverBegins(agent), Buffers(agent, unseen), ObserverEnds([])];
    ss := [Fresh, one, two, three, four];
    assert [] + [seen] == [seen] && [seen] + [unseen] == [seen, unseen];
    assert Fresh.buffers[agent := [seen]] == one.buffers && one.buffers[agent := [seen, unseen]] == three.buffers;
    assert three.buffers - {agent} == four.buffers;
    assert StepAt(cfg, ss, es, 0) && StepAt(cfg, ss, es, 1) && StepAt(cfg, ss, es, 2) && StepAt(cfg, ss, es, 3);
  }

  function Numbered(n: nat): (id: ObservationId)
    ensures |id| == n
  {
    if n == 0 then "" else Numbered(n - 1) + "i"
  }

  function Batch(agent: AgentId, n: nat): (rows: seq<Row>)
    ensures |rows| == n && forall i :: 0 <= i < n ==> rows[i] == Row(Numbered(i), agent, "x", Info, 0, true, false)
  {
    if n == 0 then [] else Batch(agent, n - 1) + [Row(Numbered(n - 1), agent, "x", Info, 0, true, false)]
  }

  lemma BatchIsNew(agent: AgentId, n: nat)
    ensures Newborn(Fresh, agent, Batch(agent, n)) && Active(Batch(agent, n), agent) == Batch(agent, n)
  {
    var rows := Batch(agent, n);
    forall i, j | 0 <= i < j < n ensures rows[i].id != rows[j].id {
      assert |rows[i].id| == i && |rows[j].id| == j;
    }
    ActiveItems(rows, agent, agent);
  }

  predicate KeepsAll(decisions: seq<Decision>) { forall i :: 0 <= i < |decisions| ==> decisions[i].kind == Keep }

  lemma {:induction false} LastKeeps(decisions: seq<Decision>, id: ObservationId)
    requires KeepsAll(decisions)
    ensures LastDecision(decisions, id) == None || LastDecision(decisions, id) == Some(Keep)
  {
    if decisions != [] { LastKeeps(decisions[..|decisions| - 1], id); }
  }

  lemma NothingDone(all: seq<Row>, decisions: seq<Decision>, minRetained: nat)
    requires KeepsAll(decisions) && |all| >= minRetained
    ensures EffectOf(all, decisions, minRetained).merges == [] && EffectOf(all, decisions, minRetained).dropped == []
  {
    forall r ensures PlanFor(all, decisions, r).Kept? { LastKeeps(decisions, r.id); }
    NoneRemoved(all, decisions, all);
  }

  lemma {:induction false} NoneRemoved(all: seq<Row>, decisions: seq<Decision>, part: seq<Row>)
    requires forall r :: PlanFor(all, decisions, r).Kept?
    ensures Removals(all, decisions, part) == [] && MergeOps(all, decisions, part) == []
  {
    if part != [] { NoneRemoved(all, decisions, part[..|part| - 1]); }
  }

  /** One pass of the observer adds the items to an empty table, and one of the reflector begins. */
  lemma ObservedOnce(cfg: Config, agent: AgentId, message: Message, items: seq<Row>, all: seq<Row>)
    returns (ss: seq<Memory>, es: seq<Event>)
    requires Newborn(Fresh, agent, items) && items != [] && all == ActiveObservations(items, agent, DEFAULT_LIMIT)
    requires |all| > cfg.minRetained
    ensures IsRun(cfg, ss, es) && |es| == 4 && ss[4].rows == items && ss[4].reflector == Some(Pass(agent, all))
  {
    var one := Fresh.(buffers := map[agent := [message]]);
    var two := one.(observer := Some(Watch(agent, [message])));
    var three := Observed(cfg, two, agent, items);
    assert [] + [message] == [message] && Fresh.buffers[agent := [message]] == one.buffers && [] + items == items;
    es := [Buffers(agent, message), ObserverBegins(agent), ObserverEnds(items), ReflectorBegins(agent)];
    ss := [Fresh, one, two, three, three.(reflector := Some(Pass(agent, all)))];
    assert StepAt(cfg, ss, es, 0) && StepAt(cfg, ss, es, 1) && StepAt(cfg, ss, es, 2) && StepAt(cfg, ss, es, 3);
  }

  lemma KeptAsTheyWere(cfg: Config, s: Memory, p: Pass, decisions: seq<Decision>)
    requires KeepsAll(decisions) && |p.all| >= cfg.minRetained
    ensures Collected(cfg, s, p, decisions).rows == s.rows
  {
    NothingDone(p.all, decisions, cfg.minRetained);
    assert IdSet([]) == {} && Marked(s.rows, {}) == s.rows;
  }

  /** One pass observes 501 things or more, and a reflection keeps them all: it recounts the 500 it sees. */
  lemma TooMany(cfg: Config, agent: AgentId, message: Message, n: nat, decisions: seq<Decision>)
    returns (ss: seq<Memory>, es: seq<Event>)
    requires cfg.minRetained < DEFAULT_LIMIT < n && decisions != [] && KeepsAll(decisions)
    ensures IsRun(cfg, ss, es) && |es| == 5 && es[4] == ReflectorEnds(decisions) && !Exact(cfg, ss[5], agent)
    ensures Active(ss[5].rows, agent) == Batch(agent, n)
  {
    var all;
    ss, es, all := BatchObserved(cfg, agent, message, n);
    var t := RecountMisses(cfg, ss[4], agent, all, decisions);
    ss := Grow(cfg, ss, es, ReflectorEnds(decisions), t);
    es := es + [ReflectorEnds(decisions)];
  }

  lemma BatchObserved(cfg: Config, agent: AgentId, message: Message, n: nat)
    returns (ss: seq<Memory>, es: seq<Event>, all: seq<Row>)
    requires cfg.minRetained < DEFAULT_LIMIT < n
    ensures IsRun(cfg, ss, es) && |es| == 4 && Inv(cfg, ss[4])
    ensures Active(ss[4].rows, agent) == Batch(agent, n) && ss[4].reflector == Some(Pass(agent, all))
    ensures |all| == DEFAULT_LIMIT
  {
    var items := Batch(agent, n);
    BatchIsNew(agent, n);
    SortedTokens(items, cfg.charsPerToken);
    all := ActiveObservations(items, agent, DEFAULT_LIMIT);
    ss, es := ObservedOnce(cfg, agent, message, items, all);
    RunInv(cfg, ss, es, 4);
  }

  lemma RecountMisses(cfg: Config, s: Memory, agent: AgentId, all: seq<Row>, decisions: seq<Decision>)
    returns (t: Memory)
    requires Inv(cfg, s) && s.reflector == Some(Pass(agent, all)) && |all| >= cfg.minRetained
    requires decisions != [] && KeepsAll(decisions) && |Active(s.rows, agent)| > DEFAULT_LIMIT
    ensures Next(cfg, s, ReflectorEnds(decisions), t) && t.rows == s.rows && !Exact(cfg, t, agent)
  {
    t := Collected(cfg, s, Pass(agent, all), decisions);
    KeptAsTheyWere(cfg, s, Pass(agent, all), decisions);
    NextExactIff(cfg, s, ReflectorEnds(decisions), t, agent);
  }
}
