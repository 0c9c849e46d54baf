/** The prompt cache of one agent (lib/observation-cache.ts): the longest prefix of its observations, in
    priority-then-recency order, that fits a token budget. */
module ObservationCache {
  import opened Wrappers
  import opened ObservationStore
  import Tokens

  datatype Config = Config(maxTokenBudget: int, charsPerToken: int, maxObservations: nat)

  /** `n` rows fit: within the budget, or the first row alone. */
  predicate Fits(rows: seq<Row>, n: nat, cfg: Config) {
    n <= |rows| && (n <= 1 || TokenSum(rows[..n], cfg.charsPerToken) <= cfg.maxTokenBudget)
  }

  /** The content of a cache over these rows: the longest prefix that fits. */
  ghost predicate IsCacheOf(rows: seq<Row>, cached: seq<Row>, cfg: Config) {
    cached <= rows && Fits(rows, |cached|, cfg) && forall n: nat :: Fits(rows, n, cfg) ==> n <= |cached|
  }

  lemma {:induction false} TokensGrow(rows: seq<Row>, m: nat, n: nat, charsPerToken: int)
    requires m <= n <= |rows|
    ensures TokenSum(rows[..m], charsPerToken) <= TokenSum(rows[..n], charsPerToken)
    ensures m < n ==> TokenSum(rows[..m], charsPerToken) < TokenSum(rows[..n], charsPerToken)
  {
    if m < n {
      assert rows[..n][..n - 1] == rows[..n - 1];
      TokensGrow(rows, m, n - 1, charsPerToken);
    }
  }

  /** There is one longest fitting prefix. */
  lemma CacheIsUnique(rows: seq<Row>, a: seq<Row>, b: seq<Row>, cfg: Config)
    requires IsCacheOf(rows, a, cfg) && IsCacheOf(rows, b, cfg)
    ensures a == b
  {
    assert |a| == |b|;
    assert a == rows[..|a|] && b == rows[..|b|];
  }

  lemma NothingLonger(rows: seq<Row>, i: nat, cfg: Config)
    requires 1 <= i < |rows| && Fits(rows, i, cfg) && TokenSum(rows[..i + 1], cfg.charsPerToken) > cfg.maxTokenBudget
    ensures IsCacheOf(rows, rows[..i], cfg)
  {
    forall n: nat | Fits(rows, n, cfg) ensures n <= i {
      if n > i { TokensGrow(rows, i + 1, n, cfg.charsPerToken); }
    }
  }

  /** The cache exceeds a threshold exactly when some prefix that fits does. */
  lemma ExceedsIff(rows: seq<Row>, cached: seq<Row>, cfg: Config, threshold: int)
    requires IsCacheOf(rows, cached, cfg)
    ensures TokenSum(cached, cfg.charsPerToken) > threshold <==>
              exists n: nat :: Fits(rows, n, cfg) && TokenSum(rows[..n], cfg.charsPerToken) > threshold
  {
    assert cached == rows[..|cached|];
    forall n: nat | Fits(rows, n, cfg)
      ensures TokenSum(rows[..n], cfg.charsPerToken) <= TokenSum(cached, cfg.charsPerToken)
    {
      TokensGrow(rows, n, |cached|, cfg.charsPerToken);
    }
  }

  /** At the budget or above, only the very first observation alone can do so, or a negative threshold. */
  lemma ExceedsBudgetIff(rows: seq<Row>, cached: seq<Row>, cfg: Config, threshold: int)
    requires IsCacheOf(rows, cached, cfg) && threshold >= cfg.maxTokenBudget
    ensures TokenSum(cached, cfg.charsPerToken) > threshold <==>
              threshold < 0 || (rows != [] && Tokens.Estimate(cfg.charsPerToken, |rows[0].content|) > threshold)
  {
    assert cached == rows[..|cached|];
    if rows != [] {
      assert Fits(rows, 1, cfg);
      assert rows[..1][..0] == [];
      assert TokenSum(rows[..1], cfg.charsPerToken) == Tokens.Estimate(cfg.charsPerToken, |rows[0].content|);
      TokensGrow(rows, 1, |cached|, cfg.charsPerToken);
    }
  }

  // ----- Histories of changes, invalidations and reads -----

  datatype State = State(rows: seq<Row>, cached: seq<Row>, dirty: bool)

  /** The changes the store offers, and what a cache is asked for. */
  datatype Event = Inserted(items: seq<Row>) | Marks(ids: set<ObservationId>)
                 | Updated(id: ObservationId, content: string)
                 | Invalidated | Reads

  predicate IsChange(e: Event) { e.Inserted? || e.Marks? || e.Updated? }

  function SourceOf(rows: seq<Row>, agent: AgentId, cfg: Config): seq<Row> {
    ActiveObservations(rows, agent, cfg.maxObservations)
  }

  /** What is cached is what a rebuild would make of the table now. */
  ghost predicate IsRight(s: State, agent: AgentId, cfg: Config) {
    IsCacheOf(SourceOf(s.rows, agent, cfg), s.cached, cfg)
  }

  ghost predicate Next(s: State, e: Event, t: State, agent: AgentId, cfg: Config) {
    match e
    case Inserted(items) => t == s.(rows := s.rows + items)
    case Marks(ids) => t == s.(rows := Marked(s.rows, ids))
    case Updated(id, content) => t == s.(rows := WithContent(s.rows, id, content))
    case Invalidated => t == s.(dirty := true)
    case Reads => if s.dirty then t == s.(cached := t.cached, dirty := false) && IsRight(t, agent, cfg) else t == s
  }

  ghost predicate StepAt(ss: seq<State>, es: seq<Event>, agent: AgentId, cfg: Config, i: int) {
    0 <= i < |es| && i + 1 < |ss| && Next(ss[i], es[i], ss[i + 1], agent, cfg)
  }

  /** A run of a new cache over any table. */
  ghost predicate IsRun(ss: seq<State>, es: seq<Event>, agent: AgentId, cfg: Config) {
    |ss| == |es| + 1 && ss[0].dirty && forall i :: 0 <= i < |es| ==> StepAt(ss, es, agent, cfg, i)
  }

  /** A change that nothing has invalidated the cache for, up to the k-th event. */
  predicate IsMissed(es: seq<Event>, i: int, k: nat) {
    0 <= i < k <= |es| && IsChange(es[i]) && forall j :: i < j < k ==> !es[j].Invalidated?
  }

  lemma {:induction false} DirtyOrRight(ss: seq<State>, es: seq<Event>, agent: AgentId, cfg: Config, k: nat)
    requires IsRun(ss, es, agent, cfg) && k <= |es| && forall i :: 0 <= i < k ==> !IsMissed(es, i, k)
    ensures ss[k].dirty || IsRight(ss[k], agent, cfg)
  {
    if k > 0 {
      var last := k - 1;
      assert StepAt(ss, es, agent, cfg, last) && !IsMissed(es, last, k);
      if !es[last].Invalidated? {
        forall i | 0 <= i < last ensures !IsMissed(es, i, last) { assert !IsMissed(es, i, k); }
        DirtyOrRight(ss, es, agent, cfg, last);
      }
    }
  }

  /** No read comes after a change the cache was not invalidated for. */
  predicate IsCleanAt(es: seq<Event>, k: nat) {
    k < |es| && es[k].Reads? ==> forall i :: 0 <= i < k ==> !IsMissed(es, i, k)
  }

  /** Where every change is followed by an invalidation before the next read, every read returns what a
      rebuild would. */
  lemma ReadsAreRight(ss: seq<State>, es: seq<Event>, agent: AgentId, cfg: Config, k: nat)
    requires IsRun(ss, es, agent, cfg) && forall j: nat :: IsCleanAt(es, j)
    requires k < |es| && es[k].Reads?
    ensures IsRight(ss[k + 1], agent, cfg) && !ss[k + 1].dirty
  {
    assert IsCleanAt(es, k);
    DirtyOrRight(ss, es, agent, cfg, k);
    assert StepAt(ss, es, agent, cfg, k);
  }

  // ----- One missed insertion -----

  /** Where a row goes in the order: after all it does not come before. */
  function Place(rows: seq<Row>, r: Row): (p: nat)
    ensures p <= |rows|
  {
    if rows == [] || Before(rows[|rows| - 1], r) then |rows| else Place(rows[..|rows| - 1], r)
  }

  lemma {:induction false} InsertAtPlace(rows: seq<Row>, r: Row)
    ensures var p := Place(rows, r);
      Insert(rows, r) == WithAt(rows, p, r) && (p < |rows| ==> !Before(rows[p], r))
  {
    if rows != [] && !Before(rows[|rows| - 1], r) { InsertAtPlace(rows[..|rows| - 1], r); }
  }

  /** The rows a cache takes after one more row is inserted. */
  lemma SourceAfter(rows: seq<Row>, r: Row, agent: AgentId, cfg: Config)
    ensures !IsActive(r, agent) ==> SourceOf(rows + [r], agent, cfg) == SourceOf(rows, agent, cfg)
    ensures IsActive(r, agent) ==> var sorted := Sorted(Active(rows, agent));
      SourceOf(rows + [r], agent, cfg) == Take(WithAt(sorted, Place(sorted, r), r), cfg.maxObservations)
  {
    assert (rows + [r])[..|rows|] == rows;
    var active := Active(rows, agent);
    assert (active + [r])[..|active|] == active;
    InsertAtPlace(Sorted(active), r);
  }

  /** A longer prefix fits exactly when the next row does. */
  lemma NextDecides(rows: seq<Row>, cached: seq<Row>, cfg: Config)
    requires cached <= rows && Fits(rows, |cached|, cfg)
    ensures IsCacheOf(rows, cached, cfg) <==> |cached| == |rows| || !Fits(rows, |cached| + 1, cfg)
  {
    var c := |cached|;
    if c < |rows| && !Fits(rows, c + 1, cfg) {
      forall n: nat | Fits(rows, n, cfg) ensures n <= c {
        if n > c { TokensGrow(rows, c + 1, n, cfg.charsPerToken); }
      }
    }
  }

  function WithAt(rows: seq<Row>, p: nat, r: Row): seq<Row>
    requires p <= |rows|
  {
    rows[..p] + [r] + rows[p..]
  }

  lemma InsertedEarlier(sorted: seq<Row>, p: nat, r: Row, n: nat, max: nat)
    requires p < n <= |Take(sorted, max)| && !Before(sorted[p], r)
    ensures !(sorted[..n] <= Take(WithAt(sorted, p, r), max))
  {
    var more := Take(WithAt(sorted, p, r), max);
    assert more[p] == r && sorted[..n][p] == sorted[p];
  }

  lemma InsertedLater(sorted: seq<Row>, p: nat, r: Row, n: nat, max: nat)
    requires n <= p <= |sorted| && n <= max
    ensures sorted[..n] <= Take(WithAt(sorted, p, r), max)
    ensures |Take(WithAt(sorted, p, r), max)| == n <==> max == n
    ensures n < max ==> Take(WithAt(sorted, p, r), max)[n] == if p == n then r else sorted[n]
  {
  }

  function TokensWith(rows: seq<Row>, r: Row, cfg: Config): nat {
    TokenSum(rows, cfg.charsPerToken) + Tokens.Estimate(cfg.charsPerToken, |r.content|)
  }

  lemma FitsNext(rows: seq<Row>, n: nat, cfg: Config)
    requires n < |rows|
    ensures Fits(rows, n + 1, cfg)
            <==> n == 0 || TokensWith(rows[..n], rows[n], cfg) <= cfg.maxTokenBudget
  {
    assert rows[..n + 1][..n] == rows[..n];
  }

  /** The order of a table with one more row, cut to the most a cache loads. */
  lemma InsertedRight(sorted: seq<Row>, p: nat, r: Row, cached: seq<Row>, cfg: Config)
    requires p <= |sorted| && (p < |sorted| ==> !Before(sorted[p], r))
    requires IsCacheOf(Take(sorted, cfg.maxObservations), cached, cfg)
    ensures IsCacheOf(Take(WithAt(sorted, p, r), cfg.maxObservations), cached, cfg)
            <==> p > |cached| || (p == |cached| && !HasRoom(cached, r, cfg))
  {
    var c, less, more := |cached|, Take(sorted, cfg.maxObservations), Take(WithAt(sorted, p, r), cfg.maxObservations);
    assert cached == sorted[..c] && cached == less[..c];
    if p < c {
      InsertedEarlier(sorted, p, r, c, cfg.maxObservations);
    } else {
      InsertedLater(sorted, p, r, c, cfg.maxObservations);
      assert cached == more[..c];
      StillFits(less, more, cached, cfg);
      NextDecides(more, cached, cfg);
      if c < |more| { FitsNext(more, c, cfg); }
      if c < |less| { FitsNext(less, c, cfg); }
      NextDecides(less, cached, cfg);
    }
  }

  lemma StillFits(less: seq<Row>, more: seq<Row>, cached: seq<Row>, cfg: Config)
    requires cached <= less && cached <= more && Fits(less, |cached|, cfg)
    ensures Fits(more, |cached|, cfg)
  {
    assert less[..|cached|] == more[..|cached|];
  }

  predicate HasRoom(cached: seq<Row>, r: Row, cfg: Config) {
    |cached| < cfg.maxObservations
    && (cached == [] || TokensWith(cached, r, cfg) <= cfg.maxTokenBudget)
  }

  /** After one insertion that nothing invalidated, what was rightly cached is still right exactly when
      the row is not active for the agent, or comes after the first row left out, or is the first row
      left out because there is no room for it. */
  lemma MissedInsertionIff(s: State, r: Row, agent: AgentId, cfg: Config)
    requires IsRight(s, agent, cfg)
    ensures var p := Place(Sorted(Active(s.rows, agent)), r);
      IsRight(s.(rows := s.rows + [r]), agent, cfg)
      <==> !IsActive(r, agent) || p > |s.cached| || (p == |s.cached| && !HasRoom(s.cached, r, cfg))
  {
    var sorted := Sorted(Active(s.rows, agent));
    SourceAfter(s.rows, r, agent, cfg);
    if IsActive(r, agent) {
      InsertAtPlace(sorted, r);
      InsertedRight(sorted, Place(sorted, r), r, s.cached, cfg);
    }
  }

  // ----- One missed mark or update -----

  /** Against any order: what is cached is right exactly when it begins the order and the next row has no room. */
  lemma RightIff(sorted: seq<Row>, cached: seq<Row>, cfg: Config)
    requires Fits(cached, |cached|, cfg) && |cached| <= cfg.maxObservations
    ensures IsCacheOf(Take(sorted, cfg.maxObservations), cached, cfg)
            <==> cached <= sorted && (|cached| == |sorted| || !HasRoom(cached, sorted[|cached|], cfg))
  {
    var source, c := Take(sorted, cfg.maxObservations), |cached|;
    if cached <= sorted {
      assert cached == source[..c] && cached[..c] == cached;
      NextDecides(source, cached, cfg);
      if c < |source| { FitsNext(source, c, cfg); }
    }
  }

  lemma CachedFits(s: State, agent: AgentId, cfg: Config)
    requires IsRight(s, agent, cfg)
    ensures Fits(s.cached, |s.cached|, cfg) && |s.cached| <= cfg.maxObservations
    ensures var sorted := Sorted(Active(s.rows, agent));
      s.cached <= sorted && (|s.cached| == |sorted| || !HasRoom(s.cached, sorted[|s.cached|], cfg))
  {
    var source := SourceOf(s.rows, agent, cfg);
    assert s.cached == source[..|s.cached|] && s.cached[..|s.cached|] == s.cached;
    RightIff(Sorted(Active(s.rows, agent)), s.cached, cfg);
  }

  lemma {:induction false} ActiveExcept(rows: seq<Row>, ids: set<ObservationId>, agent: AgentId)
    ensures Active(Marked(rows, ids), agent) == Except(Active(rows, agent), ids)
  {
    if rows != [] {
      var n := |rows| - 1;
      ActiveExcept(rows[..n], ids, agent);
      assert Marked(rows, ids)[..n] == Marked(rows[..n], ids);
      var active := Active(rows[..n], agent);
      assert (active + [rows[n]])[..|active|] == active;
      assert Except(active, ids) + [] == Except(active, ids);
    }
  }

  lemma ExceptAppend(rows: seq<Row>, r: Row, ids: set<ObservationId>)
    ensures Except(rows + [r], ids) == Except(rows, ids) + Unless(r, ids)
  {
    assert (rows + [r])[..|rows|] == rows;
  }

  /** Inserting a row and leaving rows out can be done in either order. */
  ghost predicate Commutes(rows: seq<Row>, r: Row, ids: set<ObservationId>) {
    Except(Insert(rows, r), ids) == if r.id in ids then Except(rows, ids) else Insert(Except(rows, ids), r)
  }

  lemma {:induction false} ExceptInsert(rows: seq<Row>, n: nat, r: Row, ids: set<ObservationId>)
    requires Ordered(rows) && n <= |rows|
    ensures Commutes(rows[..n], r, ids)
  {
    if n > 0 && !Before(rows[n - 1], r) {
      ExceptInsert(rows, n - 1, r, ids);
      ExceptEarlier(rows, n - 1, r, ids);
    } else {
      ExceptLaterAt(rows, n, r, ids);
    }
  }

  lemma ExceptLaterAt(rows: seq<Row>, n: nat, r: Row, ids: set<ObservationId>)
    requires Ordered(rows) && n <= |rows| && (n > 0 ==> Before(rows[n - 1], r))
    ensures Commutes(rows[..n], r, ids)
  {
    ExceptLater(rows[..n], r, ids);
  }

  lemma InsertAbove(rows: seq<Row>, n: nat, r: Row)
    requires n < |rows| && !Before(rows[n], r)
    ensures Insert(rows[..n + 1], r) == Insert(rows[..n], r) + [rows[n]]
  {
    assert rows[..n + 1][..n] == rows[..n];
  }

  function Unless(r: Row, ids: set<ObservationId>): seq<Row> { if r.id in ids then [] else [r] }

  lemma ExceptAbove(rows: seq<Row>, n: nat, ids: set<ObservationId>)
    requires n < |rows|
    ensures Except(rows[..n + 1], ids) == Except(rows[..n], ids) + Unless(rows[n], ids)
  {
    assert rows[..n + 1][..n] == rows[..n];
  }

  lemma ExceptEarlier(rows: seq<Row>, n: nat, r: Row, ids: set<ObservationId>)
    requires n < |rows| && !Before(rows[n], r) && Commutes(rows[..n], r, ids)
    ensures Commutes(rows[..n + 1], r, ids)
  {
    InsertAbove(rows, n, r);
    ExceptAbove(rows, n, ids);
    ExceptAppend(Insert(rows[..n], r), rows[n], ids);
    InsertEarlier(Except(rows[..n], ids), rows[n], r, ids);
  }

  lemma ExceptLater(rows: seq<Row>, r: Row, ids: set<ObservationId>)
    requires Ordered(rows) && (rows == [] || Before(rows[|rows| - 1], r))
    ensures Commutes(rows, r, ids)
  {
    assert rows == [] ==> [r] == rows + [r];
    ExceptAppend(rows, r, ids);
    assert Except(rows, ids) + [] == Except(rows, ids);
    if r.id !in ids { InsertLast(rows, r, ids); }
  }

  lemma InsertEarlier(kept: seq<Row>, last: Row, r: Row, ids: set<ObservationId>)
    requires !Before(last, r)
    ensures Insert(kept + Unless(last, ids), r) == Insert(kept, r) + Unless(last, ids)
  {
    assert (kept + [last])[..|kept|] == kept;
    assert kept + [] == kept && Insert(kept, r) + [] == Insert(kept, r);
  }

  lemma InsertLast(rows: seq<Row>, r: Row, ids: set<ObservationId>)
    requires Ordered(rows) && (rows == [] || Before(rows[|rows| - 1], r))
    ensures Insert(Except(rows, ids), r) == Except(rows, ids) + [r]
  {
    ExceptOf(rows, ids);
    var kept := Except(rows, ids);
    if kept != [] {
      assert kept[|kept| - 1] in kept;
      var i :| 0 <= i < |rows| && rows[i] == kept[|kept| - 1];
      assert i < |rows| - 1 ==> Before(rows[i], rows[|rows| - 1]);
    }
  }

  lemma SortedAppend(rows: seq<Row>, r: Row)
    ensures Sorted(rows + [r]) == Insert(Sorted(rows), r)
  {
    assert (rows + [r])[..|rows|] == rows;
  }

  lemma SortedExceptNext(rows: seq<Row>, r: Row, ids: set<ObservationId>)
    requires SortCommutes(rows, ids)
    ensures SortCommutes(rows + [r], ids)
  {
    var sorted := Sorted(rows);
    SortedAppend(rows, r);
    SortedIsOrdered(rows);
    ExceptInsert(sorted, |sorted|, r, ids);
    assert sorted[..|sorted|] == sorted;
    ExceptAppend(rows, r, ids);
    SortedAppend(Except(rows, ids), r);
    assert Except(rows, ids) + [] == Except(rows, ids);
  }

  /** Sorting and leaving rows out can be done in either order. */
  ghost predicate SortCommutes(rows: seq<Row>, ids: set<ObservationId>) {
    Sorted(Except(rows, ids)) == Except(Sorted(rows), ids)
  }

  lemma SortedExceptAt(rows: seq<Row>, n: nat, ids: set<ObservationId>)
    requires n < |rows| && SortCommutes(rows[..n], ids)
    ensures SortCommutes(rows[..n + 1], ids)
  {
    assert rows[..n + 1] == rows[..n] + [rows[n]];
    SortedExceptNext(rows[..n], rows[n], ids);
  }

  lemma {:induction false} SortedExcept(rows: seq<Row>, n: nat, ids: set<ObservationId>)
    requires n <= |rows|
    ensures SortCommutes(rows[..n], ids)
  {
    if n > 0 {
      SortedExcept(rows, n - 1, ids);
      SortedExceptAt(rows, n - 1, ids);
    }
  }

  lemma {:induction false} ExceptConcat(a: seq<Row>, b: seq<Row>, ids: set<ObservationId>)
    ensures Except(a + b, ids) == Except(a, ids) + Except(b, ids)
  {
    if b == [] {
      assert a + b == a;
    } else {
      var n := |b| - 1;
      assert a + b == (a + b[..n]) + [b[n]];
      ExceptConcat(a, b[..n], ids);
      ExceptAppend(a + b[..n], b[n], ids);
    }
  }

  lemma {:induction false} ExceptNone(rows: seq<Row>, ids: set<ObservationId>)
    requires forall i :: 0 <= i < |rows| ==> rows[i].id !in ids
    ensures Except(rows, ids) == rows
  {
    if rows != [] { ExceptNone(rows[..|rows| - 1], ids); }
  }

  /** After one mark that nothing invalidated, what was rightly cached is still right exactly when no cached
      row is marked, and there is no room for the first row left out that is not marked. */
  lemma MissedMarkIff(s: State, ids: set<ObservationId>, agent: AgentId, cfg: Config)
    requires IsRight(s, agent, cfg)
    ensures |s.cached| <= |Sorted(Active(s.rows, agent))|
    ensures var rest := Except(Sorted(Active(s.rows, agent))[|s.cached|..], ids);
      IsRight(s.(rows := Marked(s.rows, ids)), agent, cfg)
      <==> (forall r :: r in s.cached ==> r.id !in ids) && (rest == [] || !HasRoom(s.cached, rest[0], cfg))
  {
    var sorted := Sorted(Active(s.rows, agent));
    CachedFits(s, agent, cfg);
    var tail := sorted[|s.cached|..];
    assert sorted == s.cached + tail;
    SourceWithout(s.rows, ids, agent, cfg);
    ExceptRightIff(s.cached, tail, ids, cfg);
  }

  lemma ExceptRightIff(cached: seq<Row>, tail: seq<Row>, ids: set<ObservationId>, cfg: Config)
    requires Fits(cached, |cached|, cfg) && |cached| <= cfg.maxObservations
    ensures var rest := Except(tail, ids);
      IsCacheOf(Take(Except(cached + tail, ids), cfg.maxObservations), cached, cfg)
      <==> (forall r :: r in cached ==> r.id !in ids) && (rest == [] || !HasRoom(cached, rest[0], cfg))
  {
    var after := Except(cached + tail, ids);
    ExceptBegins(cached, tail, ids);
    RightIff(after, cached, cfg);
    if cached <= after && Except(tail, ids) != [] { assert after[|cached|] == Except(tail, ids)[0]; }
  }

  lemma SourceWithout(rows: seq<Row>, ids: set<ObservationId>, agent: AgentId, cfg: Config)
    ensures SourceOf(Marked(rows, ids), agent, cfg)
            == Take(Except(Sorted(Active(rows, agent)), ids), cfg.maxObservations)
  {
    ActiveExcept(rows, ids, agent);
    var active := Active(rows, agent);
    assert active[..|active|] == active;
    SortedExcept(active, |active|, ids);
  }

  lemma ExceptBegins(cached: seq<Row>, tail: seq<Row>, ids: set<ObservationId>)
    ensures cached <= Except(cached + tail, ids) <==> forall r :: r in cached ==> r.id !in ids
    ensures cached <= Except(cached + tail, ids) ==> Except(cached + tail, ids) == cached + Except(tail, ids)
  {
    ExceptConcat(cached, tail, ids);
    if forall r :: r in cached ==> r.id !in ids {
      ExceptNone(cached, ids);
    } else {
      var i :| 0 <= i < |cached| && cached[i].id in ids;
      ExceptLacks(cached + tail, ids, cached[i]);
    }
  }

  lemma ExceptLacks(rows: seq<Row>, ids: set<ObservationId>, r: Row)
    requires r.id in ids
    ensures forall k :: 0 <= k < |Except(rows, ids)| ==> Except(rows, ids)[k] != r
  {
    ExceptOf(rows, ids);
    forall k | 0 <= k < |Except(rows, ids)| ensures Except(rows, ids)[k] != r {
      assert Except(rows, ids)[k] in Except(rows, ids);
    }
  }

  lemma {:induction false} ActiveWithContent(rows: seq<Row>, id: ObservationId, content: string, agent: AgentId)
    ensures Active(WithContent(rows, id, content), agent) == WithContent(Active(rows, agent), id, content)
  {
    if rows != [] {
      var n := |rows| - 1;
      ActiveWithContent(rows[..n], id, content, agent);
      assert WithContent(rows, id, content)[..n] == WithContent(rows[..n], id, content);
    }
  }

  function WithNew(r: Row, id: ObservationId, content: string): (q: Row)
    ensures forall x :: Before(x, q) == Before(x, r) && Before(q, x) == Before(r, x)
  {
    if r.id == id then r.(content := content) else r
  }

  lemma {:induction false} InsertWithContent(rows: seq<Row>, r: Row, id: ObservationId, content: string)
    ensures WithContent(Insert(rows, r), id, content) == Insert(WithContent(rows, id, content), WithNew(r, id, content))
  {
    var n, after := |rows| - 1, WithContent(rows, id, content);
    if rows != [] {
      assert after[n] == WithNew(rows[n], id, content);
      assert Before(after[n], WithNew(r, id, content)) == Before(rows[n], r);
      if !Before(rows[n], r) {
        InsertWithContent(rows[..n], r, id, content);
        assert after[..n] == WithContent(rows[..n], id, content);
      }
    }
  }

  lemma {:induction false} SortedWithContent(rows: seq<Row>, id: ObservationId, content: string)
    ensures Sorted(WithContent(rows, id, content)) == WithContent(Sorted(rows), id, content)
  {
    if rows != [] {
      var n := |rows| - 1;
      SortedWithContent(rows[..n], id, content);
      assert WithContent(rows, id, content)[..n] == WithContent(rows[..n], id, content);
      InsertWithContent(Sorted(rows[..n]), rows[n], id, content);
    }
  }

  /** After one update that nothing invalidated, what was rightly cached is still right exactly when it
      changes no cached content, and does not make room for the first row left out. */
  lemma MissedUpdateIff(s: State, id: ObservationId, content: string, agent: AgentId, cfg: Config)
    requires IsRight(s, agent, cfg)
    ensures var sorted, c := Sorted(Active(s.rows, agent)), |s.cached|;
      IsRight(s.(rows := WithContent(s.rows, id, content)), agent, cfg)
      <==> (forall r :: r in s.cached && r.id == id ==> r.content == content)
           && (c < |sorted| && sorted[c].id == id ==> !HasRoom(s.cached, sorted[c].(content := content), cfg))
  {
    CachedFits(s, agent, cfg);
    ActiveWithContent(s.rows, id, content, agent);
    SortedWithContent(Active(s.rows, agent), id, content);
    UpdatedRightIff(Sorted(Active(s.rows, agent)), s.cached, id, content, cfg);
  }

  lemma UpdatedRightIff(sorted: seq<Row>, cached: seq<Row>, id: ObservationId, content: string, cfg: Config)
    requires Fits(cached, |cached|, cfg) && |cached| <= cfg.maxObservations && cached <= sorted
    requires |cached| == |sorted| || !HasRoom(cached, sorted[|cached|], cfg)
    ensures IsCacheOf(Take(WithContent(sorted, id, content), cfg.maxObservations), cached, cfg)
            <==> (forall r :: r in cached && r.id == id ==> r.content == content)
                 && (|cached| < |sorted| && sorted[|cached|].id == id
                     ==> !HasRoom(cached, sorted[|cached|].(content := content), cfg))
  {
    RightIff(WithContent(sorted, id, content), cached, cfg);
    UpdatedBegins(sorted, cached, id, content);
  }

  lemma UpdatedBegins(sorted: seq<Row>, cached: seq<Row>, id: ObservationId, content: string)
    requires cached <= sorted
    ensures cached <= WithContent(sorted, id, content)
            <==> forall r :: r in cached && r.id == id ==> r.content == content
  {
    var after := WithContent(sorted, id, content);
    assert forall i :: 0 <= i < |cached| ==> cached[i] == sorted[i];
    if forall r :: r in cached && r.id == id ==> r.content == content {
      assert forall i :: 0 <= i < |cached| ==> cached[i] in cached;
    } else {
      var i :| 0 <= i < |cached| && cached[i].id == id && cached[i].content != content;
      assert after[i] != cached[i];
    }
  }

  /** One observation is cached, a more important one is inserted, nothing invalidates: the next read
      returns the first alone. */
  lemma StaleRead(agent: AgentId, r: Row, q: Row, cfg: Config) returns (ss: seq<State>, es: seq<Event>)
    requires IsActive(r, agent) && IsActive(q, agent) && !Before(r, q) && cfg.maxObservations > 0
    ensures IsRun(ss, es, agent, cfg) && es == [Reads, Inserted([q]), Reads]
    ensures IsRight(ss[1], agent, cfg) && ss[3].cached == [r] && !IsRight(ss[3], agent, cfg)
  {
    var s := State([r], [r], false);
    assert [r][..0] == [] && Active([r], agent) == [r] && Sorted([r]) == [r];
    assert SourceOf([r], agent, cfg) == [r];
    assert IsCacheOf([r], [r], cfg);
    es := [Reads, Inserted([q]), Reads];
    ss := [State([r], [], true), s, s.(rows := [r] + [q]), s.(rows := [r] + [q])];
    MissedInsertionIff(s, q, agent, cfg);
    assert StepAt(ss, es, agent, cfg, 0) && StepAt(ss, es, agent, cfg, 1) && StepAt(ss, es, agent, cfg, 2);
  }

  class ObservationCache {
    const store: ObservationStore
    const agent: AgentId
    const cfg: Config
    var cached: seq<Row>
    var totalTokens: nat
    var generation: nat
    var dirty: bool

    constructor (store: ObservationStore, agent: AgentId, cfg: Config)
      ensures this.store == store && this.agent == agent && this.cfg == cfg
      ensures Valid() && dirty && cached == [] && generation == 0
    {
      this.store, this.agent, this.cfg := store, agent, cfg;
      cached, totalTokens, generation, dirty := [], 0, 0, true;
    }

    /** The running total is that of what is cached; whether that is still right depends on the history. */
    ghost predicate Valid()
      reads this
    {
      totalTokens == TokenSum(cached, cfg.charsPerToken)
    }

    ghost function View(): State
      reads this, store
    {
      State(store.rows, cached, dirty)
    }

    method Invalidate()
      requires Valid()
      modifies this
      ensures Valid() && Next(old(View()), Invalidated, View(), agent, cfg) && generation == old(generation)
    {
      dirty := true;
    }

    method Rebuild()
      modifies this
      ensures Valid() && !dirty && IsRight(View(), agent, cfg) && generation == old(generation) + 1
    {
      var observations := store.GetActiveObservations(agent, cfg.maxObservations);
      SortedIsOrdered(Active(store.rows, agent));
      OrderedPrefix(Sorted(Active(store.rows, agent)), cfg.maxObservations);
      OrderedIsSorted(observations);
      observations := Sorted(observations);
      var trimmed, runningTokens := Trim(observations);
      cached, totalTokens := trimmed, runningTokens;
      generation := generation + 1;
      dirty := false;
    }

    method Trim(observations: seq<Row>) returns (trimmed: seq<Row>, runningTokens: nat)
      ensures IsCacheOf(observations, trimmed, cfg) && runningTokens == TokenSum(trimmed, cfg.charsPerToken)
    {
      trimmed, runningTokens := [], 0;
      var i := 0;
      while i < |observations|
        invariant i <= |observations| && trimmed == observations[..i]
        invariant runningTokens == TokenSum(trimmed, cfg.charsPerToken) && Fits(observations, i, cfg)
      {
        var tokens := Tokens.Estimate(cfg.charsPerToken, |observations[i].content|);
        assert observations[..i + 1][..i] == observations[..i];
        assert TokenSum(observations[..i + 1], cfg.charsPerToken) == runningTokens + tokens;
        if runningTokens + tokens > cfg.maxTokenBudget && |trimmed| > 0 {
          NothingLonger(observations, i, cfg);
          return;
        }
        trimmed, runningTokens := trimmed + [observations[i]], runningTokens + tokens;
        i := i + 1;
      }
    }

    /** One read of a history. */
    method GetObservations() returns (r: seq<Row>)
      requires Valid()
      modifies this
      ensures Valid() && Next(old(View()), Reads, View(), agent, cfg) && !dirty && r == cached
      ensures generation == old(generation) + if old(dirty) then 1 else 0
    {
      if dirty { Rebuild(); }
      r := cached;
    }

    method GetTotalTokens() returns (n: nat)
      requires Valid()
      modifies this
      ensures Valid() && Next(old(View()), Reads, View(), agent, cfg) && !dirty
      ensures n == TokenSum(cached, cfg.charsPerToken)
      ensures generation == old(generation) + if old(dirty) then 1 else 0
    {
      if dirty { Rebuild(); }
      n := totalTokens;
    }

    /** Where what is cached is right, a threshold is exceeded exactly when some prefix that fits does so,
        and the budget itself exactly when it is negative or the first observation alone is over it. */
    method ExceedsBudget(threshold: Option<int>) returns (r: bool)
      requires Valid()
      modifies this
      ensures Valid() && Next(old(View()), Reads, View(), agent, cfg) && !dirty
      ensures var rows := SourceOf(store.rows, agent, cfg);
              var limit := if threshold.Some? then threshold.value else cfg.maxTokenBudget;
        IsRight(View(), agent, cfg) ==>
          && (r <==> exists n: nat :: Fits(rows, n, cfg) && TokenSum(rows[..n], cfg.charsPerToken) > limit)
          && (threshold.None? ==>
            (r <==> limit < 0 || (rows != [] && Tokens.Estimate(cfg.charsPerToken, |rows[0].content|) > limit)))
    {
      var budget := if threshold.Some? then threshold.value else cfg.maxTokenBudget;
      var n := GetTotalTokens();
      r := n > budget;
      ghost var rows := SourceOf(store.rows, agent, cfg);
      if IsCacheOf(rows, cached, cfg) {
        ExceedsIff(rows, cached, cfg, budget);
        if threshold.None? { ExceedsBudgetIff(rows, cached, cfg, budget); }
      }
    }
  }
}
