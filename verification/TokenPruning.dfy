/** Priority pruning (lib/token-compactor.ts:313-371): the files with the lowest scores go, one by one,
    until the target is met or only the minimum is left. */
module TokenPruning {
  import opened TokenCompactor

  datatype Level = Conservative | Standard | Aggressive

  function TargetReduction(level: Level): real {
    match level case Conservative => 0.5 case Standard => 0.7 case Aggressive => 0.9
  }

  function MinRetained(level: Level): nat {
    match level case Conservative => 2 case Standard => 1 case Aggressive => 1
  }

  function MaxReal(a: real, b: real): real { if a > b then a else b }

  function MinReal(a: real, b: real): real { if a < b then a else b }

  const DAY := 86_400_000.0

  function Score(f: File, now: real): real {
    var age := if f.updatedAtMs == 0.0 then 10.0 else MaxReal(0.0, (now - f.updatedAtMs) / DAY);
    var recency := if f.updatedAtMs == 0.0 then 0.5 else MaxReal(0.0, 4.0 - age / 3.0);
    MaxReal(-10.0, MinReal(10.0, f.priority)) * 3.0 + recency
    + MaxReal(0.0, 2.0 - EstimateTokens(|f.original|) as real / 1500.0)
  }

  /** A file of higher priority, or updated later, is never pruned before an otherwise equal one, unless
      the other has no update time at all. */
  lemma ScoreGrows(f: File, priority: real, updatedAtMs: real, now: real)
    requires priority >= f.priority && updatedAtMs >= f.updatedAtMs && (f.updatedAtMs == 0.0 <==> updatedAtMs == 0.0)
    ensures Score(f.(priority := priority, updatedAtMs := updatedAtMs), now) >= Score(f, now)
  {
    var a, b := (now - f.updatedAtMs) / DAY, (now - updatedAtMs) / DAY;
    assert a - b == (updatedAtMs - f.updatedAtMs) / DAY >= 0.0;
  }

  /** A file's first update time keeps its score from falling exactly when it is at most ten and a half
      days back: an older one counts for less than none. */
  lemma FirstUpdateIff(f: File, updatedAtMs: real, now: real)
    requires f.updatedAtMs == 0.0 && updatedAtMs != 0.0
    ensures Score(f.(updatedAtMs := updatedAtMs), now) >= Score(f, now) <==> now - updatedAtMs <= 10.5 * DAY
  {
    var age := (now - updatedAtMs) / DAY;
    assert now - updatedAtMs == age * DAY;
    assert age <= 10.5 <==> 4.0 - age / 3.0 >= 0.5;
  }

  // ----- The pruning order -----

  /** A candidate: its position in the list of files, its index in the input, its score and its tokens. */
  datatype Candidate = Candidate(at: nat, index: nat, score: real, tokens: nat)

  predicate Below(a: Candidate, b: Candidate) { a.score < b.score || (a.score == b.score && a.index < b.index) }

  predicate IsCandidate(f: File) { Eligible(f) && f.content != "" }

  function CandidateAt(files: seq<File>, i: nat, now: real): Candidate
    requires i < |files|
  {
    Candidate(i, files[i].index, Score(files[i], now), EstimateTokens(|files[i].content|))
  }

  function Candidates(files: seq<File>, n: nat, now: real): seq<Candidate>
    requires n <= |files|
  {
    if n == 0 then [] else
      Candidates(files, n - 1, now) + if IsCandidate(files[n - 1]) then [CandidateAt(files, n - 1, now)] else []
  }

  ghost predicate Ascending(cs: seq<Candidate>) {
    forall i, j :: 0 <= i < j < |cs| ==> !Below(cs[j], cs[i])
  }

  function Insert(cs: seq<Candidate>, c: Candidate): seq<Candidate> {
    if cs == [] then [c]
    else if Below(c, cs[|cs| - 1]) then Insert(cs[..|cs| - 1], c) + [cs[|cs| - 1]]
    else cs + [c]
  }

  function Sorted(cs: seq<Candidate>): (r: seq<Candidate>)
    ensures |r| == |cs|
  {
    if cs == [] then [] else
      InsertLength(Sorted(cs[..|cs| - 1]), cs[|cs| - 1]);
      Insert(Sorted(cs[..|cs| - 1]), cs[|cs| - 1])
  }

  lemma {:induction false} InsertLength(cs: seq<Candidate>, c: Candidate)
    ensures |Insert(cs, c)| == |cs| + 1
  {
    if cs != [] { InsertLength(cs[..|cs| - 1], c); }
  }

  lemma {:induction false} InsertAscends(cs: seq<Candidate>, c: Candidate)
    requires Ascending(cs)
    ensures Ascending(Insert(cs, c))
    ensures forall k :: 0 <= k < |Insert(cs, c)| ==> Insert(cs, c)[k] == c || Insert(cs, c)[k] in cs
  {
    if cs != [] {
      var n := |cs| - 1;
      if Below(c, cs[n]) {
        InsertAscends(cs[..n], c);
        forall k | 0 <= k < |Insert(cs[..n], c)| ensures !Below(cs[n], Insert(cs[..n], c)[k]) {
          if Insert(cs[..n], c)[k] != c {
            var i :| 0 <= i < n && cs[i] == Insert(cs[..n], c)[k];
            assert !Below(cs[n], cs[i]);
          }
        }
      } else {
        forall i | 0 <= i < |cs| ensures !Below(c, cs[i]) { assert i < n ==> !Below(cs[n], cs[i]); }
      }
    }
  }

  lemma {:induction false} SortedAscends(cs: seq<Candidate>)
    ensures Ascending(Sorted(cs))
  {
    if cs != [] {
      SortedAscends(cs[..|cs| - 1]);
      InsertAscends(Sorted(cs[..|cs| - 1]), cs[|cs| - 1]);
    }
  }

  lemma {:induction false} InsertMembers(cs: seq<Candidate>, c: Candidate)
    ensures forall x :: x in Insert(cs, c) <==> x in cs || x == c
  {
    if cs != [] {
      var n := |cs| - 1;
      InsertMembers(cs[..n], c);
      assert cs == cs[..n] + [cs[n]];
    }
  }

  lemma {:induction false} SortedMembers(cs: seq<Candidate>)
    ensures forall x :: x in Sorted(cs) <==> x in cs
  {
    if cs != [] {
      var n := |cs| - 1;
      SortedMembers(cs[..n]);
      InsertMembers(Sorted(cs[..n]), cs[n]);
      assert cs == cs[..n] + [cs[n]];
    }
  }

  lemma {:induction false} CandidatesOf(files: seq<File>, n: nat, now: real)
    requires n <= |files|
    ensures forall c :: c in Candidates(files, n, now) <==>
              exists i :: 0 <= i < n && IsCandidate(files[i]) && c == CandidateAt(files, i, now)
  {
    if n > 0 { CandidatesOf(files, n - 1, now); }
  }

  // ----- How many are pruned -----

  function TokensOf(files: seq<File>, n: nat): nat
    requires n <= |files|
  {
    if n == 0 then 0 else TokensOf(files, n - 1) + EstimateTokens(|files[n - 1].content|)
  }

  function ProtectedTokens(files: seq<File>, n: nat): nat
    requires n <= |files|
  {
    if n == 0 then 0 else
      ProtectedTokens(files, n - 1) + if Eligible(files[n - 1]) then 0 else EstimateTokens(|files[n - 1].content|)
  }

  function Freed(order: seq<Candidate>, k: nat): nat
    requires k <= |order|
  {
    if k == 0 then 0 else Freed(order, k - 1) + order[k - 1].tokens
  }

  function Target(files: seq<File>, level: Level, preTokens: nat): int {
    var target := (preTokens as real * (1.0 - TargetReduction(level))).Floor;
    if ProtectedTokens(files, |files|) > target then ProtectedTokens(files, |files|) else target
  }

  /** Exactly `k` candidates are pruned: fewer would have missed the target, and `k` meets it or leaves
      the minimum. */
  ghost predicate PrunesExactly(order: seq<Candidate>, total: int, target: int, least: nat, k: nat) {
    && k <= |order| && (k == 0 || |order| - k >= least)
    && (forall j :: 0 <= j < k ==> total - Freed(order, j) > target)
    && (total - Freed(order, k) <= target || |order| - k <= least)
  }

  /** There is only one such number. */
  lemma PrunesUniquely(order: seq<Candidate>, total: int, target: int, least: nat, j: nat, k: nat)
    requires PrunesExactly(order, total, target, least, j) && PrunesExactly(order, total, target, least, k)
    ensures j == k
  {
  }

  function Least(level: Level, candidates: nat): nat {
    if candidates < MinRetained(level) then candidates else MinRetained(level)
  }

  /** `result` is `files` with the first `k` candidates of the order pruned and nothing else but the
      layer mark changed. */
  ghost predicate PrunedTo(files: seq<File>, result: seq<File>, order: seq<Candidate>, k: nat) {
    && |result| == |files| && k <= |order|
    && forall i :: 0 <= i < |files| ==>
         result[i] == if !IsCandidate(files[i]) then files[i]
                      else files[i].(touched := true,
                                     pruned := files[i].pruned || exists j :: 0 <= j < k && order[j].at == i)
  }

  /** The pruned files are those with the lowest scores, ties going by input order. */
  lemma PrunedAreLowest(files: seq<File>, result: seq<File>, now: real, k: nat, i: nat, j: nat)
    requires PrunedTo(files, result, Sorted(Candidates(files, |files|, now)), k)
    requires i < |files| && j < |files| && !files[i].pruned && result[i].pruned
    requires IsCandidate(files[j]) && !result[j].pruned
    ensures !Below(CandidateAt(files, j, now), CandidateAt(files, i, now))
  {
    var candidates := Candidates(files, |files|, now);
    var order := Sorted(candidates);
    SortedAscends(candidates);
    CandidatesOf(files, |files|, now);
    SortedMembers(candidates);
    var a :| 0 <= a < k && order[a].at == i;
    assert order[a] in candidates;
    assert CandidateAt(files, j, now) in order;
    var b :| 0 <= b < |order| && order[b] == CandidateAt(files, j, now);
    assert b >= k;
  }

  method Total(files: seq<File>) returns (total: nat)
    ensures total == TokensOf(files, |files|)
  {
    total := 0;
    for i := 0 to |files|
      invariant total == TokensOf(files, i)
    {
      total := total + EstimateTokens(|files[i].content|);
    }
  }

  method MarkTouched(files: seq<File>) returns (result: seq<File>)
    ensures |result| == |files|
    ensures forall i ::
              0 <= i < |files| ==> result[i] == if IsCandidate(files[i]) then files[i].(touched := true) else files[i]
  {
    result := files;
    for i := 0 to |files|
      invariant |result| == |files|
      invariant forall j ::
                  0 <= j < i ==> result[j] == if IsCandidate(files[j]) then files[j].(touched := true) else files[j]
      invariant forall j :: i <= j < |files| ==> result[j] == files[j]
    {
      if IsCandidate(files[i]) { result := result[i := files[i].(touched := true)]; }
    }
  }

  ghost predicate PrunedSoFar(files: seq<File>, result: seq<File>, order: seq<Candidate>, k: nat) {
    && |result| == |files| && k <= |order|
    && forall i :: 0 <= i < |files| ==>
         result[i] == files[i].(pruned := files[i].pruned || exists j :: 0 <= j < k && order[j].at == i)
  }

  lemma PruneNext(files: seq<File>, result: seq<File>, order: seq<Candidate>, k: nat)
    requires PrunedSoFar(files, result, order, k) && k < |order| && order[k].at < |files|
    ensures PrunedSoFar(files, result[order[k].at := result[order[k].at].(pruned := true)], order, k + 1)
  {
    var after := result[order[k].at := result[order[k].at].(pruned := true)];
    forall i | 0 <= i < |files|
      ensures after[i] == files[i].(pruned := files[i].pruned || exists j :: 0 <= j < k + 1 && order[j].at == i)
    {
      if i == order[k].at { assert order[k].at == i; }
    }
  }

  /** The order names positions of candidates. */
  lemma OrderIsInFiles(files: seq<File>, now: real)
    ensures forall j :: 0 <= j < |Candidates(files, |files|, now)| ==>
              var c := Sorted(Candidates(files, |files|, now))[j]; c.at < |files| && IsCandidate(files[c.at])
  {
    var candidates := Candidates(files, |files|, now);
    CandidatesOf(files, |files|, now);
    SortedMembers(candidates);
    forall j | 0 <= j < |candidates|
      ensures var c := Sorted(candidates)[j]; c.at < |files| && IsCandidate(files[c.at])
    {
      assert Sorted(candidates)[j] in candidates;
    }
  }

  method PruneInOrder(files: seq<File>, order: seq<Candidate>, total: int, target: int, least: nat)
    returns (result: seq<File>, k: nat)
    requires forall j :: 0 <= j < |order| ==> order[j].at < |files|
    requires forall i :: 0 <= i < |files| ==> !files[i].pruned
    ensures PrunedSoFar(files, result, order, k) && PrunesExactly(order, total, target, least, k)
  {
    k, result := 0, files;
    var currentTokens, retained := total, |order|;
    while k < |order| && currentTokens > target && retained > least
      invariant k <= |order| && retained == |order| - k && (k == 0 || retained >= least)
      invariant currentTokens == total - Freed(order, k)
      invariant forall j :: 0 <= j < k ==> total - Freed(order, j) > target
      invariant PrunedSoFar(files, result, order, k)
    {
      PruneNext(files, result, order, k);
      result := result[order[k].at := result[order[k].at].(pruned := true)];
      currentTokens := currentTokens - order[k].tokens;
      retained := retained - 1;
      k := k + 1;
    }
  }

  lemma MarkedIsPruned(files: seq<File>, pruned: seq<File>, result: seq<File>, order: seq<Candidate>, k: nat)
    requires PrunedSoFar(files, pruned, order, k) && |result| == |files|
    requires forall j :: 0 <= j < |order| ==> order[j].at < |files| && IsCandidate(files[order[j].at])
    requires forall i :: 0 <= i < |files| ==> !files[i].pruned
    requires forall i ::
               0 <= i < |files| ==>
                 result[i] == if IsCandidate(pruned[i]) then pruned[i].(touched := true) else pruned[i]
    ensures PrunedTo(files, result, order, k)
  {
    forall i | 0 <= i < |files|
      ensures result[i] == if !IsCandidate(files[i]) then files[i]
              else files[i].(touched := true, pruned := files[i].pruned || exists j :: 0 <= j < k && order[j].at == i)
    {
      assert IsCandidate(pruned[i]) == IsCandidate(files[i]);
      if !IsCandidate(files[i]) { assert forall j :: 0 <= j < k ==> order[j].at != i; }
    }
  }

  // ----- What is left of the files -----

  function KeptTokens(files: seq<File>, n: nat): nat
    requires n <= |files|
  {
    if n == 0 then 0 else
      KeptTokens(files, n - 1) + if files[n - 1].pruned then 0 else EstimateTokens(|files[n - 1].content|)
  }

  function KeptCandidates(files: seq<File>, n: nat): nat
    requires n <= |files|
  {
    if n == 0 then 0 else
      KeptCandidates(files, n - 1) + if IsCandidate(files[n - 1]) && !files[n - 1].pruned then 1 else 0
  }

  predicate HasDistinctPlaces(cs: seq<Candidate>) {
    forall i, j :: 0 <= i < j < |cs| ==> cs[i].at != cs[j].at
  }

  lemma {:induction false} InsertPlaces(cs: seq<Candidate>, c: Candidate)
    requires HasDistinctPlaces(cs) && forall i :: 0 <= i < |cs| ==> cs[i].at != c.at
    ensures HasDistinctPlaces(Insert(cs, c))
  {
    if cs != [] && Below(c, cs[|cs| - 1]) {
      var n := |cs| - 1;
      InsertPlaces(cs[..n], c);
      InsertMembers(cs[..n], c);
      forall i | 0 <= i < |Insert(cs[..n], c)| ensures Insert(cs[..n], c)[i].at != cs[n].at {
        assert Insert(cs[..n], c)[i] in Insert(cs[..n], c);
      }
    }
  }

  lemma {:induction false} OrderPlaces(files: seq<File>, n: nat, now: real)
    requires n <= |files|
    ensures HasDistinctPlaces(Sorted(Candidates(files, n, now)))
  {
    if n > 0 {
      OrderPlaces(files, n - 1, now);
      var before := Candidates(files, n - 1, now);
      if IsCandidate(files[n - 1]) {
        var c := CandidateAt(files, n - 1, now);
        assert (before + [c])[..|before|] == before;
        CandidatesOf(files, n - 1, now);
        SortedMembers(before);
        forall i | 0 <= i < |before| ensures Sorted(before)[i].at != c.at { assert Sorted(before)[i] in before; }
        InsertPlaces(Sorted(before), c);
      } else {
        assert before + [] == before;
      }
    }
  }

  /** The order lists candidates of these files, each once and with its tokens. */
  ghost predicate IsOrderOf(files: seq<File>, order: seq<Candidate>) {
    && HasDistinctPlaces(order)
    && forall j :: 0 <= j < |order| ==> order[j].at < |files| && IsCandidate(files[order[j].at])
                                        && order[j].tokens == EstimateTokens(|files[order[j].at].content|)
  }

  lemma OrderIsOf(files: seq<File>, now: real)
    ensures IsOrderOf(files, Sorted(Candidates(files, |files|, now)))
  {
    var candidates := Candidates(files, |files|, now);
    OrderPlaces(files, |files|, now);
    CandidatesOf(files, |files|, now);
    SortedMembers(candidates);
    forall j | 0 <= j < |candidates|
      ensures var c := Sorted(candidates)[j];
        c.at < |files| && IsCandidate(files[c.at]) && c.tokens == EstimateTokens(|files[c.at].content|)
    {
      assert Sorted(candidates)[j] in candidates;
    }
  }

  /** The files with the first `k` candidates of the order pruned. */
  ghost function PrunedFirst(files: seq<File>, order: seq<Candidate>, k: nat): (r: seq<File>)
    requires k <= |order| && forall j :: 0 <= j < |order| ==> order[j].at < |files|
    ensures |r| == |files|
  {
    if k == 0 then files else
      var before := PrunedFirst(files, order, k - 1);
      before[order[k - 1].at := before[order[k - 1].at].(pruned := true)]
  }

  lemma {:induction false} PrunedFirstIs(files: seq<File>, order: seq<Candidate>, k: nat)
    requires k <= |order| && IsOrderOf(files, order)
    ensures PrunedSoFar(files, PrunedFirst(files, order, k), order, k)
  {
    if k > 0 {
      PrunedFirstIs(files, order, k - 1);
      PruneNext(files, PrunedFirst(files, order, k - 1), order, k - 1);
    }
  }

  lemma {:induction false} PruneOne(files: seq<File>, at: nat, n: nat)
    requires at < |files| && n <= |files| && !files[at].pruned
    ensures var after := files[at := files[at].(pruned := true)];
      && KeptTokens(after, n) + (if at < n then EstimateTokens(|files[at].content|) else 0) == KeptTokens(files, n)
      && KeptCandidates(after, n) + (if at < n && IsCandidate(files[at]) then 1 else 0) == KeptCandidates(files, n)
  {
    if n > 0 { PruneOne(files, at, n - 1); }
  }

  lemma NotYetPruned(files: seq<File>, before: seq<File>, order: seq<Candidate>, k: nat)
    requires k < |order| && IsOrderOf(files, order) && PrunedSoFar(files, before, order, k)
    requires forall i :: 0 <= i < |files| ==> !files[i].pruned
    ensures !before[order[k].at].pruned && before[order[k].at] == files[order[k].at]
  {
  }

  lemma LeavesOneLess(files: seq<File>, before: seq<File>, order: seq<Candidate>, k: nat)
    requires k < |order| && IsOrderOf(files, order) && PrunedSoFar(files, before, order, k)
    requires forall i :: 0 <= i < |files| ==> !files[i].pruned
    ensures var after := before[order[k].at := before[order[k].at].(pruned := true)];
      && KeptTokens(after, |after|) + order[k].tokens == KeptTokens(before, |before|)
      && KeptCandidates(after, |after|) + 1 == KeptCandidates(before, |before|)
  {
    NotYetPruned(files, before, order, k);
    PruneOne(before, order[k].at, |before|);
  }

  lemma PrunedFirstNext(files: seq<File>, order: seq<Candidate>, k: nat)
    requires k < |order| && IsOrderOf(files, order) && forall i :: 0 <= i < |files| ==> !files[i].pruned
    ensures var before, after := PrunedFirst(files, order, k), PrunedFirst(files, order, k + 1);
      && KeptTokens(after, |after|) + order[k].tokens == KeptTokens(before, |before|)
      && KeptCandidates(after, |after|) + 1 == KeptCandidates(before, |before|)
  {
    PrunedFirstIs(files, order, k);
    LeavesOneLess(files, PrunedFirst(files, order, k), order, k);
  }

  lemma {:induction false} PrunedFirstLeaves(files: seq<File>, order: seq<Candidate>, k: nat)
    requires k <= |order| && IsOrderOf(files, order) && forall i :: 0 <= i < |files| ==> !files[i].pruned
    ensures var r := PrunedFirst(files, order, k);
      && KeptTokens(r, |r|) + Freed(order, k) == KeptTokens(files, |files|)
      && KeptCandidates(r, |r|) + k == KeptCandidates(files, |files|)
  {
    if k > 0 {
      PrunedFirstLeaves(files, order, k - 1);
      PrunedFirstNext(files, order, k - 1);
    }
  }

  /** Marks do not matter to what is kept. */
  lemma {:induction false} KeptAlike(a: seq<File>, b: seq<File>, n: nat)
    requires n <= |a| == |b| && forall i :: 0 <= i < n ==> a[i].(touched := true) == b[i].(touched := true)
    ensures KeptTokens(a, n) == KeptTokens(b, n) && KeptCandidates(a, n) == KeptCandidates(b, n)
  {
    if n > 0 { KeptAlike(a, b, n - 1); }
  }

  lemma {:induction false} AllKept(files: seq<File>, n: nat, now: real)
    requires n <= |files| && forall i :: 0 <= i < |files| ==> !files[i].pruned
    ensures KeptTokens(files, n) == TokensOf(files, n) && KeptCandidates(files, n) == |Candidates(files, n, now)|
  {
    if n > 0 { AllKept(files, n - 1, now); }
  }

  /** Exactly `k` files go, with exactly the tokens the order lists for them. */
  lemma PruningLeaves(files: seq<File>, result: seq<File>, now: real, k: nat)
    requires PrunedTo(files, result, Sorted(Candidates(files, |files|, now)), k)
    requires forall i :: 0 <= i < |files| ==> !files[i].pruned
    ensures var candidates := Candidates(files, |files|, now);
      && KeptTokens(result, |result|) + Freed(Sorted(candidates), k) == TokensOf(files, |files|)
      && KeptCandidates(result, |result|) + k == |candidates|
  {
    var order := Sorted(Candidates(files, |files|, now));
    OrderIsOf(files, now);
    PrunedFirstIs(files, order, k);
    PrunedFirstLeaves(files, order, k);
    AllKept(files, |files|, now);
    PrunedAlike(files, PrunedFirst(files, order, k), result, order, k);
    KeptAlike(PrunedFirst(files, order, k), result, |files|);
  }

  lemma PrunedAlike(files: seq<File>, pruned: seq<File>, result: seq<File>, order: seq<Candidate>, k: nat)
    requires IsOrderOf(files, order) && PrunedSoFar(files, pruned, order, k) && PrunedTo(files, result, order, k)
    requires forall i :: 0 <= i < |files| ==> !files[i].pruned
    ensures forall i :: 0 <= i < |files| ==> pruned[i].(touched := true) == result[i].(touched := true)
  {
  }

  /** The retained files meet the target, or as few candidates as allowed are left, and never fewer. */
  ghost predicate MeetsTarget(result: seq<File>, target: int, least: nat) {
    && KeptCandidates(result, |result|) >= least
    && (KeptTokens(result, |result|) <= target || KeptCandidates(result, |result|) == least)
  }

  /** Among the pruned files, none goes after this one, and without it the target would be missed. */
  ghost predicate IsLastNeeded(files: seq<File>, result: seq<File>, now: real, target: int, i: nat)
    requires |result| == |files|
  {
    && i < |files| && result[i].pruned && KeptTokens(result, |result|) + EstimateTokens(|files[i].content|) > target
    && forall j ::
      0 <= j < |files| && result[j].pruned ==> !Below(CandidateAt(files, i, now), CandidateAt(files, j, now))
  }

  lemma PruningMeets(files: seq<File>, result: seq<File>, now: real, target: int, least: nat, k: nat)
    requires PrunedTo(files, result, Sorted(Candidates(files, |files|, now)), k)
    requires forall i :: 0 <= i < |files| ==> !files[i].pruned
    requires PrunesExactly(Sorted(Candidates(files, |files|, now)), TokensOf(files, |files|), target, least, k)
    requires least <= |Candidates(files, |files|, now)|
    ensures KeptCandidates(result, |result|) == |Candidates(files, |files|, now)| - k
    ensures MeetsTarget(result, target, least)
    ensures k > 0 ==> exists i :: IsLastNeeded(files, result, now, target, i)
  {
    PruningLeaves(files, result, now, k);
    if k > 0 { LastIsNeeded(files, result, now, target, k); }
  }

  lemma LastIsNeeded(files: seq<File>, result: seq<File>, now: real, target: int, k: nat)
    requires 0 < k <= |Candidates(files, |files|, now)|
    requires PrunedTo(files, result, Sorted(Candidates(files, |files|, now)), k)
    requires forall i :: 0 <= i < |files| ==> !files[i].pruned
    requires TokensOf(files, |files|) - Freed(Sorted(Candidates(files, |files|, now)), k - 1) > target
    requires KeptTokens(result, |result|) + Freed(Sorted(Candidates(files, |files|, now)), k)
             == TokensOf(files, |files|)
    ensures IsLastNeeded(files, result, now, target, Sorted(Candidates(files, |files|, now))[k - 1].at)
  {
    var candidates := Candidates(files, |files|, now);
    var order := Sorted(candidates);
    OrderIsOf(files, now);
    SortedAscends(candidates);
    SortedMembers(candidates);
    CandidatesOf(files, |files|, now);
    var i := order[k - 1].at;
    assert order[k - 1] in candidates && order[k - 1] == CandidateAt(files, i, now);
    forall j | 0 <= j < |files| && result[j].pruned
      ensures !Below(CandidateAt(files, i, now), CandidateAt(files, j, now))
    {
      var b :| 0 <= b < k && order[b].at == j;
      assert order[b] in candidates;
    }
  }

  method PriorityPruning(files: seq<File>, level: Level, preTokens: nat, now: real) returns (result: seq<File>, k: nat)
    requires forall i :: 0 <= i < |files| ==> !files[i].pruned
    ensures var candidates := Candidates(files, |files|, now);
            var target, least := Target(files, level, preTokens), Least(level, |candidates|);
      && PrunedTo(files, result, Sorted(candidates), k)
      && PrunesExactly(Sorted(candidates), TokensOf(files, |files|), target, least, k)
      && KeptCandidates(result, |result|) == |candidates| - k && MeetsTarget(result, target, least)
      && (k > 0 ==> exists i :: IsLastNeeded(files, result, now, target, i))
  {
    var candidates := Candidates(files, |files|, now);
    var order := Sorted(candidates);
    var total := Total(files);
    OrderIsInFiles(files, now);
    var pruned;
    pruned, k := PruneInOrder(files, order, total, Target(files, level, preTokens), Least(level, |candidates|));
    result := MarkTouched(pruned);
    MarkedIsPruned(files, pruned, result, order, k);
    PruningMeets(files, result, now, Target(files, level, preTokens), Least(level, |candidates|), k);
  }
}
