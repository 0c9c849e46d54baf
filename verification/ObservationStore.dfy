/** The observations and memory_state tables (lib/observation-store.ts), shared by the observer and the
    reflector. Rows keep their insertion order; categories and dates other than createdAt are left out. */
module ObservationStore {
  import Tokens

  type ObservationId = string
  type AgentId = string

  datatype Priority = High | Medium | Info | Unset

  datatype Row = Row(id: ObservationId, agent: AgentId, content: string, priority: Priority, createdAt: int,
                     processed: bool, reflected: bool)

  datatype MemoryState = MemoryState(tokens: nat, rawBufferTokens: nat, count: nat)

  function Rank(p: Priority): nat {
    match p case High => 0 case Medium => 1 case Info => 2 case Unset => 3
  }

  predicate IsActive(r: Row, agent: AgentId) { r.agent == agent && r.processed && !r.reflected }

  /** The active rows of an agent, in table order. */
  function Active(rows: seq<Row>, agent: AgentId): seq<Row> {
    if rows == [] then [] else
      var last, rest := rows[|rows| - 1], Active(rows[..|rows| - 1], agent);
      if IsActive(last, agent) then rest + [last] else rest
  }

  // ----- Priority-then-recency order -----

  /** `a` does not come after `b`: more important, or as important and not older. */
  predicate Before(a: Row, b: Row) {
    Rank(a.priority) < Rank(b.priority) || (Rank(a.priority) == Rank(b.priority) && a.createdAt >= b.createdAt)
  }

  ghost predicate Ordered(rows: seq<Row>) {
    forall i, j :: 0 <= i < j < |rows| ==> Before(rows[i], rows[j])
  }

  function Insert(rows: seq<Row>, r: Row): seq<Row> {
    if rows == [] || !Before(rows[|rows| - 1], r) then
      if rows == [] then [r] else Insert(rows[..|rows| - 1], r) + [rows[|rows| - 1]]
    else rows + [r]
  }

  function Sorted(rows: seq<Row>): seq<Row> {
    if rows == [] then [] else Insert(Sorted(rows[..|rows| - 1]), rows[|rows| - 1])
  }

  function Take<T>(s: seq<T>, n: nat): (r: seq<T>)
    ensures r <= s && |r| == if |s| < n then |s| else n
  {
    if |s| > n then s[..n] else s
  }

  const DEFAULT_LIMIT := 500

  /** getActiveObservations. */
  function ActiveObservations(rows: seq<Row>, agent: AgentId, limit: nat): seq<Row> {
    Take(Sorted(Active(rows, agent)), limit)
  }

  lemma SplitLast(rows: seq<Row>)
    requires rows != []
    ensures multiset(rows) == multiset(rows[..|rows| - 1]) + multiset{rows[|rows| - 1]}
  {
    assert rows == rows[..|rows| - 1] + [rows[|rows| - 1]];
  }

  lemma {:induction false} InsertPermutes(rows: seq<Row>, r: Row)
    ensures multiset(Insert(rows, r)) == multiset(rows) + multiset{r}
  {
    if rows != [] && !Before(rows[|rows| - 1], r) {
      var init, last := rows[..|rows| - 1], rows[|rows| - 1];
      InsertPermutes(init, r);
      assert rows == init + [last];
    }
  }

  lemma {:induction false} InsertOrders(rows: seq<Row>, r: Row)
    requires Ordered(rows)
    ensures Ordered(Insert(rows, r))
    ensures forall k :: 0 <= k < |Insert(rows, r)| ==> Insert(rows, r)[k] == r || Insert(rows, r)[k] in rows
  {
    if rows != [] && !Before(rows[|rows| - 1], r) {
      var n := |rows| - 1;
      var init, last := rows[..n], rows[n];
      InsertOrders(init, r);
      forall k | 0 <= k < |Insert(init, r)| ensures Before(Insert(init, r)[k], last) {
        if Insert(init, r)[k] != r {
          var i :| 0 <= i < n && rows[i] == Insert(init, r)[k];
          assert Before(rows[i], rows[n]);
        }
      }
    } else if rows != [] {
      forall i | 0 <= i < |rows| ensures Before(rows[i], r) {
        assert i < |rows| - 1 ==> Before(rows[i], rows[|rows| - 1]);
      }
    }
  }

  lemma {:induction false} SortedIsOrdered(rows: seq<Row>)
    ensures Ordered(Sorted(rows))
  {
    if rows != [] {
      SortedIsOrdered(rows[..|rows| - 1]);
      InsertOrders(Sorted(rows[..|rows| - 1]), rows[|rows| - 1]);
    }
  }

  lemma {:induction false} SortedPermutes(rows: seq<Row>)
    ensures multiset(Sorted(rows)) == multiset(rows)
  {
    if rows != [] {
      var init, last := rows[..|rows| - 1], rows[|rows| - 1];
      SortedPermutes(init);
      InsertPermutes(Sorted(init), last);
      SplitLast(rows);
    }
  }

  /** Sorting again changes nothing. */
  lemma {:induction false} OrderedIsSorted(rows: seq<Row>)
    requires Ordered(rows)
    ensures Sorted(rows) == rows
  {
    if rows != [] { OrderedIsSorted(rows[..|rows| - 1]); }
  }

  lemma OrderedPrefix(rows: seq<Row>, n: nat)
    requires Ordered(rows)
    ensures Ordered(Take(rows, n))
  {
  }

  lemma {:induction false} ActiveMembers(rows: seq<Row>, agent: AgentId)
    ensures forall r :: r in Active(rows, agent) <==> r in rows && IsActive(r, agent)
  {
    if rows != [] {
      ActiveMembers(rows[..|rows| - 1], agent);
      assert rows == rows[..|rows| - 1] + [rows[|rows| - 1]];
    }
  }

  ghost predicate UniqueIds(rows: seq<Row>) {
    forall i, j :: 0 <= i < j < |rows| ==> rows[i].id != rows[j].id
  }

  /** High before medium before info before none; and of the same importance, newer before older. */
  predicate MayPrecede(a: Row, b: Row) {
    match b.priority {
      case High => a.priority == High && a.createdAt >= b.createdAt
      case Medium => a.priority == High || (a.priority == Medium && a.createdAt >= b.createdAt)
      case Info => a.priority in {High, Medium} || (a.priority == Info && a.createdAt >= b.createdAt)
      case Unset => a.priority == Unset ==> a.createdAt >= b.createdAt
    }
  }

  lemma MayPrecedeIff(a: Row, b: Row)
    ensures Before(a, b) <==> MayPrecede(a, b)
  {
  }

  /** Of two listed rows the first may precede the second, and both are active. */
  lemma ListingIs(rows: seq<Row>, agent: AgentId, limit: nat, i: nat, j: nat)
    requires i < j < |ActiveObservations(rows, agent, limit)|
    ensures var a, b := ActiveObservations(rows, agent, limit)[i], ActiveObservations(rows, agent, limit)[j];
      && a in rows && a.agent == agent && a.processed && !a.reflected
      && b in rows && b.agent == agent && b.processed && !b.reflected && MayPrecede(a, b)
  {
    var listing := Sorted(Active(rows, agent));
    SortedIsOrdered(Active(rows, agent));
    SortedPermutes(Active(rows, agent));
    assert listing[i] in multiset(listing) && listing[j] in multiset(listing);
    ActiveMembers(rows, agent);
    assert Before(listing[i], listing[j]);
    MayPrecedeIff(listing[i], listing[j]);
  }

  /** An active row is left out only of a full listing, and only when every listed row may precede it. */
  lemma LeftOutIs(rows: seq<Row>, agent: AgentId, limit: nat, r: Row)
    requires r in rows && r.agent == agent && r.processed && !r.reflected
    requires r !in ActiveObservations(rows, agent, limit)
    ensures var listing := ActiveObservations(rows, agent, limit);
      |listing| == limit && forall k :: 0 <= k < |listing| ==> MayPrecede(listing[k], r)
  {
    var sorted := Sorted(Active(rows, agent));
    SortedIsOrdered(Active(rows, agent));
    SortedPermutes(Active(rows, agent));
    ActiveMembers(rows, agent);
    assert r in multiset(sorted);
    var j :| 0 <= j < |sorted| && sorted[j] == r;
    assert j >= limit;
    forall k | 0 <= k < limit ensures MayPrecede(sorted[k], r) {
      assert Before(sorted[k], sorted[j]);
      MayPrecedeIff(sorted[k], r);
    }
  }

  // ----- Tokens -----

  function TokenSum(rows: seq<Row>, charsPerToken: int): nat {
    if rows == [] then 0 else
      TokenSum(rows[..|rows| - 1], charsPerToken) + Tokens.Estimate(charsPerToken, |rows[|rows| - 1].content|)
  }

  lemma {:induction false} TokenSumConcat(a: seq<Row>, b: seq<Row>, charsPerToken: int)
    ensures TokenSum(a + b, charsPerToken) == TokenSum(a, charsPerToken) + TokenSum(b, charsPerToken)
  {
    if b == [] {
      assert a + b == a;
    } else {
      assert (a + b)[..|a + b| - 1] == a + b[..|b| - 1];
      TokenSumConcat(a, b[..|b| - 1], charsPerToken);
    }
  }

  lemma {:induction false} TokenSumPositive(rows: seq<Row>, charsPerToken: int)
    ensures TokenSum(rows, charsPerToken) >= |rows|
  {
    if rows != [] { TokenSumPositive(rows[..|rows| - 1], charsPerToken); }
  }

  lemma {:induction false} InsertTokens(rows: seq<Row>, r: Row, charsPerToken: int)
    ensures TokenSum(Insert(rows, r), charsPerToken)
            == TokenSum(rows, charsPerToken) + Tokens.Estimate(charsPerToken, |r.content|)
    ensures |Insert(rows, r)| == |rows| + 1
  {
    if rows != [] && !Before(rows[|rows| - 1], r) {
      var init, last := rows[..|rows| - 1], rows[|rows| - 1];
      InsertTokens(init, r, charsPerToken);
      assert (Insert(init, r) + [last])[..|rows|] == Insert(init, r);
    } else {
      assert (rows + [r])[..|rows|] == rows;
    }
  }

  /** The order of the rows does not matter to their tokens. */
  lemma {:induction false} SortedTokens(rows: seq<Row>, charsPerToken: int)
    ensures TokenSum(Sorted(rows), charsPerToken) == TokenSum(rows, charsPerToken) && |Sorted(rows)| == |rows|
  {
    if rows != [] {
      SortedTokens(rows[..|rows| - 1], charsPerToken);
      InsertTokens(Sorted(rows[..|rows| - 1]), rows[|rows| - 1], charsPerToken);
    }
  }

  /** What a pass counts is exact if and only if no active row is beyond the limit. */
  lemma CountIsExactIff(rows: seq<Row>, agent: AgentId, charsPerToken: int, limit: nat)
    ensures TokenSum(ActiveObservations(rows, agent, limit), charsPerToken)
            == TokenSum(Active(rows, agent), charsPerToken)
            <==> |Active(rows, agent)| <= limit
    ensures |ActiveObservations(rows, agent, limit)| == |Active(rows, agent)| <==> |Active(rows, agent)| <= limit
  {
    var sorted := Sorted(Active(rows, agent));
    SortedTokens(Active(rows, agent), charsPerToken);
    if |sorted| > limit {
      assert sorted == sorted[..limit] + sorted[limit..];
      TokenSumConcat(sorted[..limit], sorted[limit..], charsPerToken);
      TokenSumPositive(sorted[limit..], charsPerToken);
    }
  }

  // ----- Updates -----

  /** The memory state of an agent; an agent without one has counted nothing. */
  function StateOf(memory: map<AgentId, MemoryState>, agent: AgentId): MemoryState {
    if agent in memory then memory[agent] else MemoryState(0, 0, 0)
  }

  function Marked(rows: seq<Row>, ids: set<ObservationId>): (r: seq<Row>)
    ensures |r| == |rows|
    ensures forall i :: 0 <= i < |r| ==> r[i] == if rows[i].id in ids then rows[i].(reflected := true) else rows[i]
  {
    seq(|rows|, i requires 0 <= i < |rows| => if rows[i].id in ids then rows[i].(reflected := true) else rows[i])
  }

  function WithContent(rows: seq<Row>, id: ObservationId, content: string): (r: seq<Row>)
    ensures |r| == |rows|
    ensures forall i :: 0 <= i < |r| ==> r[i] == if rows[i].id == id then rows[i].(content := content) else rows[i]
  {
    seq(|rows|, i requires 0 <= i < |rows| => if rows[i].id == id then rows[i].(content := content) else rows[i])
  }

  /** The rows whose id is not in the set, in order. */
  function Except(rows: seq<Row>, ids: set<ObservationId>): seq<Row> {
    if rows == [] then [] else
      Except(rows[..|rows| - 1], ids) + if rows[|rows| - 1].id in ids then [] else [rows[|rows| - 1]]
  }

  lemma {:induction false} ExceptOf(rows: seq<Row>, ids: set<ObservationId>)
    ensures forall r :: r in Except(rows, ids) <==> r in rows && r.id !in ids
  {
    if rows != [] {
      ExceptOf(rows[..|rows| - 1], ids);
      assert rows == rows[..|rows| - 1] + [rows[|rows| - 1]];
    }
  }

  class ObservationStore {
    var rows: seq<Row>
    var memory: map<AgentId, MemoryState>

    constructor ()
      ensures rows == [] && memory == map[]
    {
      rows, memory := [], map[];
    }

    /** One transaction: a duplicate id leaves the table as it was. */
    method InsertBatch(items: seq<Row>) returns (ok: bool)
      modifies this`rows
      ensures ok <==> UniqueIds(items) && forall r, s :: r in old(rows) && s in items ==> r.id != s.id
      ensures rows == if ok then old(rows) + items else old(rows)
    {
      var before := rows;
      for i := 0 to |items|
        invariant rows == before + items[..i]
        invariant UniqueIds(items[..i]) && forall r, s :: r in before && s in items[..i] ==> r.id != s.id
      {
        var item := items[i];
        if exists r :: r in rows && r.id == item.id {
          var r :| r in rows && r.id == item.id;
          assert r in before || r in items[..i];
          assert item in items;
          rows := before;
          return false;
        }
        rows := rows + [item];
        assert items[..i + 1] == items[..i] + [item];
        assert forall r :: r in items[..i] ==> r in before + items[..i];
        assert forall r :: r in before ==> r in before + items[..i];
      }
      assert items[..|items|] == items;
      ok := true;
    }

    /** Sets reflected_at on the listed rows that do not have it yet; the result counts them. */
    method MarkReflected(ids: set<ObservationId>) returns (changes: nat)
      modifies this`rows
      ensures rows == Marked(old(rows), ids)
      ensures changes == |set i | 0 <= i < |rows| && rows[i].reflected && !old(rows)[i].reflected|
    {
      var before := rows;
      changes := 0;
      ghost var changed: set<int> := {};
      for i := 0 to |rows|
        invariant |rows| == |before| && changes == |changed|
        invariant forall j :: i <= j < |rows| ==> rows[j] == before[j]
        invariant forall j :: 0 <= j < i ==> rows[j] == Marked(before, ids)[j]
        invariant forall j :: j in changed <==> 0 <= j < i && rows[j].reflected && !before[j].reflected
      {
        if rows[i].id in ids && !rows[i].reflected {
          rows := rows[i := rows[i].(reflected := true)];
          changes := changes + 1;
          changed := changed + {i};
        }
      }
      assert changed == set i | 0 <= i < |rows| && rows[i].reflected && !before[i].reflected;
    }

    method UpdateContent(id: ObservationId, content: string)
      modifies this`rows
      ensures rows == WithContent(old(rows), id, content)
    {
      rows := WithContent(rows, id, content);
    }

    method UpsertMemoryState(agent: AgentId, state: MemoryState)
      modifies this`memory
      ensures memory == old(memory)[agent := state]
    {
      memory := memory[agent := state];
    }

    method GetActiveObservations(agent: AgentId, limit: nat) returns (r: seq<Row>)
      ensures r == ActiveObservations(rows, agent, limit)
    {
      r := ActiveObservations(rows, agent, limit);
    }
  }
}
