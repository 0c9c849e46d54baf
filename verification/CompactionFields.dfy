/** The compactor by the marks of the files (lib/token-compactor.ts:285-371, 382-467): which layers reach a
    protected file, a file that is not text and any other, what pruning may take and in what order. */
module CompactionFields {
  import opened TokenCompactor
  import opened TokenPruning
  import opened Compaction

  // ----- Blocks, by file and place -----

  /** The block is numbered below the blocks of its file, and no layer skips the file. */
  predicate IsBlock(files: seq<File>, j: nat, k: nat, rules: Rules) {
    && j < |files| && !files[j].isProtected && files[j].isText
    && k < |rules.blocks(files[j].content)|
  }

  ghost predicate HasNorm(files: seq<File>, j: nat, k: nat, rules: Rules, n: string) {
    IsBlock(files, j, k, rules) && rules.norm(rules.blocks(files[j].content)[k]) == n
  }

  /** A block with this normal form comes before block `m` of file `i`. */
  ghost predicate IsSeen(files: seq<File>, i: nat, m: nat, rules: Rules, n: string) {
    exists j: nat, k: nat :: HasNorm(files, j, k, rules, n) && (j < i || (j == i && k < m))
  }

  /** Block `m` of file `i` is not blank, and is shorter than 80 characters or the first of its kind. */
  ghost predicate Survives(files: seq<File>, i: nat, m: nat, rules: Rules)
    requires IsBlock(files, i, m, rules)
  {
    var n := rules.norm(rules.blocks(files[i].content)[m]);
    n != "" && (|n| < 80 || !IsSeen(files, i, m, rules, n))
  }

  /** The surviving ones of the first `m` blocks of file `i`. */
  ghost function Survivors(files: seq<File>, i: nat, m: nat, rules: Rules): seq<string>
    requires m > 0 ==> IsBlock(files, i, m - 1, rules)
  {
    if m == 0 then [] else
      Survivors(files, i, m - 1, rules)
      + if Survives(files, i, m - 1, rules) then [rules.blocks(files[i].content)[m - 1]] else []
  }

  lemma PlaceOfBlock(files: seq<File>, i: nat, m: nat, n: nat, rules: Rules)
    requires i < n <= |files| && IsBlock(files, i, m, rules)
    ensures var all, p := AllBlocks(files, n, rules), |AllBlocks(files, i, rules)| + m;
      p < |all| && all[p] == rules.blocks(files[i].content)[m]
  {
    AllBlocksPrefix(files, i + 1, n, rules);
    assert AllBlocks(files, i + 1, rules) == AllBlocks(files, i, rules) + rules.blocks(files[i].content);
  }

  lemma {:induction false} BlockAtPlace(files: seq<File>, n: nat, p: nat, rules: Rules) returns (i: nat, m: nat)
    requires n <= |files| && p < |AllBlocks(files, n, rules)|
    ensures i < n && IsBlock(files, i, m, rules) && p == |AllBlocks(files, i, rules)| + m
    ensures AllBlocks(files, n, rules)[p] == rules.blocks(files[i].content)[m]
  {
    var before := |AllBlocks(files, n - 1, rules)|;
    if p < before {
      i, m := BlockAtPlace(files, n - 1, p, rules);
    } else {
      i, m := n - 1, p - before;
    }
  }

  lemma PlacesGrow(files: seq<File>, i: nat, m: nat, j: nat, k: nat, rules: Rules)
    requires IsBlock(files, i, m, rules) && IsBlock(files, j, k, rules)
    ensures |AllBlocks(files, j, rules)| + k < |AllBlocks(files, i, rules)| + m <==> j < i || (j == i && k < m)
  {
    if j < i {
      PlaceOfBlock(files, j, k, i, rules);
    } else if i < j {
      PlaceOfBlock(files, i, m, j, rules);
    }
  }

  /** A block of a lower number has this normal form. */
  ghost predicate IsBelow(all: seq<string>, p: nat, norm: string -> string, n: string)
    requires p < |all|
  {
    exists q :: 0 <= q < p && norm(all[q]) == n
  }

  lemma EarlierIsBelow(files: seq<File>, i: nat, m: nat, rules: Rules, n: string, j: nat, k: nat)
    requires IsBlock(files, i, m, rules) && HasNorm(files, j, k, rules, n) && (j < i || (j == i && k < m))
    requires |AllBlocks(files, i, rules)| + m < |AllBlocks(files, i + 1, rules)|
    ensures IsBelow(AllBlocks(files, i + 1, rules), |AllBlocks(files, i, rules)| + m, rules.norm, n)
  {
    PlaceOfBlock(files, j, k, i + 1, rules);
    PlacesGrow(files, i, m, j, k, rules);
    assert rules.norm(AllBlocks(files, i + 1, rules)[|AllBlocks(files, j, rules)| + k]) == n;
  }

  lemma BelowIsSeen(files: seq<File>, i: nat, m: nat, rules: Rules, q: nat)
    requires IsBlock(files, i, m, rules) && q < |AllBlocks(files, i, rules)| + m <= |AllBlocks(files, i + 1, rules)|
    ensures IsSeen(files, i, m, rules, rules.norm(AllBlocks(files, i + 1, rules)[q]))
  {
    var j, k := BlockAtPlace(files, i + 1, q, rules);
    PlacesGrow(files, i, m, j, k, rules);
    assert HasNorm(files, j, k, rules, rules.norm(AllBlocks(files, i + 1, rules)[q]));
  }

  /** Counting the blocks through, a block is seen exactly when one of a lower number has its normal form. */
  lemma SeenIff(files: seq<File>, i: nat, m: nat, rules: Rules, n: string)
    requires IsBlock(files, i, m, rules)
    ensures var all, p := AllBlocks(files, i + 1, rules), |AllBlocks(files, i, rules)| + m;
      p < |all| && (IsSeen(files, i, m, rules, n) <==> IsBelow(all, p, rules.norm, n))
  {
    var all, p := AllBlocks(files, i + 1, rules), |AllBlocks(files, i, rules)| + m;
    PlaceOfBlock(files, i, m, i + 1, rules);
    if IsSeen(files, i, m, rules, n) {
      var j: nat, k: nat :| HasNorm(files, j, k, rules, n) && (j < i || (j == i && k < m));
      EarlierIsBelow(files, i, m, rules, n, j, k);
    }
    if IsBelow(all, p, rules.norm, n) {
      var q :| 0 <= q < p && rules.norm(all[q]) == n;
      BelowIsSeen(files, i, m, rules, q);
    }
  }

  lemma KeepsIff(all: seq<string>, p: nat, norm: string -> string)
    requires p < |all|
    ensures Keeps(all, p, norm)
            <==> norm(all[p]) != "" && (|norm(all[p])| < 80 || !IsBelow(all, p, norm, norm(all[p])))
  {
  }

  lemma SurvivesIff(files: seq<File>, i: nat, m: nat, rules: Rules)
    requires IsBlock(files, i, m, rules)
    ensures var all, p := AllBlocks(files, i + 1, rules), |AllBlocks(files, i, rules)| + m;
      p < |all| && all[p] == rules.blocks(files[i].content)[m]
        && (Survives(files, i, m, rules) <==> Keeps(all, p, rules.norm))
  {
    PlaceOfBlock(files, i, m, i + 1, rules);
    SeenIff(files, i, m, rules, rules.norm(rules.blocks(files[i].content)[m]));
    KeepsIff(AllBlocks(files, i + 1, rules), |AllBlocks(files, i, rules)| + m, rules.norm);
  }

  lemma KeptGrows(all: seq<string>, lo: nat, p: nat, norm: string -> string, keeps: bool)
    requires lo <= p < |all| && keeps == Keeps(all, p, norm)
    ensures KeptIn(all, lo, p + 1, norm) == KeptIn(all, lo, p, norm) + if keeps then [all[p]] else []
  {
  }

  lemma SurvivorsGrow(files: seq<File>, i: nat, m: nat, rules: Rules)
    requires IsBlock(files, i, m, rules)
    ensures Survivors(files, i, m + 1, rules) == Survivors(files, i, m, rules)
              + if Survives(files, i, m, rules) then [rules.blocks(files[i].content)[m]] else []
  {
  }

  lemma {:induction false} SurvivorsAre(files: seq<File>, i: nat, m: nat, rules: Rules, lo: nat, all: seq<string>)
    requires i < |files| && (m > 0 ==> IsBlock(files, i, m - 1, rules))
    requires all == AllBlocks(files, i + 1, rules) && lo == |AllBlocks(files, i, rules)| && lo + m <= |all|
    ensures Survivors(files, i, m, rules) == KeptIn(all, lo, lo + m, rules.norm)
  {
    if m > 0 {
      SurvivorsAre(files, i, m - 1, rules, lo, all);
      SurvivorsGrow(files, i, m - 1, rules);
      SurvivesIff(files, i, m - 1, rules);
      KeptGrows(all, lo, lo + m - 1, rules.norm, Survives(files, i, m - 1, rules));
    }
  }

  lemma SurvivorsAreKept(files: seq<File>, i: nat, rules: Rules)
    requires i < |files| && !files[i].isProtected && files[i].isText
    ensures KeptOf(files, i, rules) == Survivors(files, i, |rules.blocks(files[i].content)|, rules)
  {
    var all, blocks := AllBlocks(files, i + 1, rules), rules.blocks(files[i].content);
    assert all == AllBlocks(files, i, rules) + blocks;
    SurvivorsAre(files, i, |blocks|, rules, |AllBlocks(files, i, rules)|, all);
  }

  // ----- The layers -----

  /** Each file after the squeeze, after the strip and after deduplication, of a run in time: a protected file
      and one that is not text are as they were; any other goes through all three. */
  lemma LayersByMark(files: seq<File>, w: seq<File>, c: seq<File>, d: seq<File>, rules: Rules, i: nat)
    requires Rewritten(files, w, Squeeze(rules)) && Rewritten(w, c, rules.strip) && AllDeduped(c, d, rules)
    requires i < |files|
    ensures |w| == |c| == |d| == |files|
    ensures files[i].isProtected || !files[i].isText ==> w[i] == files[i] && c[i] == files[i] && d[i] == files[i]
    ensures !files[i].isProtected && files[i].isText ==>
              && w[i] == files[i].(content := rules.squeeze(files[i].content), touched := true)
              && c[i] == w[i].(content := rules.strip(w[i].content, files[i].path))
              && var blocks := rules.blocks(c[i].content);
                 d[i] == if |blocks| == 0 then c[i] else c[i].(content := Join(Survivors(c, i, |blocks|, rules)))
  {
    assert DedupedAt(c, d, i, rules);
    if !files[i].isProtected && files[i].isText { SurvivorsAreKept(c, i, rules); }
  }

  /** The blocks of a file are joined with an empty line between each two. */
  lemma {:induction false} JoinSplits(a: seq<string>, b: seq<string>)
    ensures |a| == 1 ==> Join(a) == a[0]
    ensures a != [] && b != [] ==> Join(a + b) == Join(a) + "\n\n" + Join(b)
  {
    if a != [] && b != [] {
      var n := |b| - 1;
      assert (a + b)[..|a + b| - 1] == a + b[..n];
      if n > 0 {
        JoinSplits(a, b[..n]);
      } else {
        assert a + b[..n] == a;
      }
    }
  }

  // ----- Pruning -----

  /** The tokens no pruning can free. */
  function FixedTokens(files: seq<File>): nat {
    if files == [] then 0 else
      var n := |files| - 1;
      FixedTokens(files[..n])
      + if files[n].isProtected || !files[n].isText then EstimateTokens(|files[n].content|) else 0
  }

  lemma {:induction false} FixedAre(files: seq<File>, n: nat)
    requires n <= |files|
    ensures ProtectedTokens(files, n) == FixedTokens(files[..n])
  {
    if n > 0 {
      FixedAre(files, n - 1);
      assert files[..n][..n - 1] == files[..n - 1];
    }
  }

  /** The target is the larger of what no pruning can free and half, three tenths or one tenth of the tokens. */
  lemma TargetIs(files: seq<File>, level: Level, preTokens: nat)
    ensures var target := Target(files, level, preTokens);
            var tenths := match level case Conservative => 5 case Standard => 3 case Aggressive => 1;
      && target >= FixedTokens(files) && target >= preTokens * tenths / 10
      && (target == FixedTokens(files) || target == preTokens * tenths / 10)
  {
    FixedAre(files, |files|);
    assert files[..|files|] == files;
    TenthsOf(preTokens, level);
  }

  lemma TenthsOf(preTokens: nat, level: Level)
    ensures var tenths := match level case Conservative => 5 case Standard => 3 case Aggressive => 1;
      (preTokens as real * (1.0 - TargetReduction(level))).Floor == preTokens * tenths / 10
  {
    var tenths := match level case Conservative => 5 case Standard => 3 case Aggressive => 1;
    var q, r := preTokens * tenths / 10, preTokens * tenths % 10;
    var share := preTokens as real * (1.0 - TargetReduction(level));
    assert preTokens * tenths == 10 * q + r;
    assert (preTokens * tenths) as real == preTokens as real * tenths as real;
    assert share * 10.0 == (10 * q + r) as real;
    assert q as real <= share < q as real + 1.0;
  }

  /** Open to pruning are the files that are text, not protected and not empty. */
  lemma CandidateIff(files: seq<File>, now: real, i: nat)
    requires i < |files|
    ensures (exists x :: x in Candidates(files, |files|, now) && x.at == i)
            <==> !files[i].isProtected && files[i].isText && files[i].content != ""
  {
    CandidatesOf(files, |files|, now);
    if !files[i].isProtected && files[i].isText && files[i].content != "" {
      assert IsCandidate(files[i]);
      assert CandidateAt(files, i, now) in Candidates(files, |files|, now);
    }
  }

  /** At least this many of the files open to pruning stay, or all where there are fewer. */
  lemma LeastIs(level: Level, candidates: nat)
    ensures level == Conservative && candidates >= 2 ==> Least(level, candidates) == 2
    ensures level != Conservative && candidates >= 1 ==> Least(level, candidates) == 1
    ensures level == Conservative && candidates < 2 ==> Least(level, candidates) == candidates
    ensures candidates == 0 ==> Least(level, candidates) == 0
  {
  }

  /** A pruned file was open to pruning, and pruning changes no other mark or text. */
  lemma PrunedByMark(d: seq<File>, p: seq<File>, level: Level, preTokens: nat, now: real, k: nat, i: nat)
    requires PrunedAsDue(d, p, level, preTokens, now, k) && i < |d| && !d[i].pruned
    ensures |p| == |d| && p[i] == d[i].(pruned := p[i].pruned, touched := p[i].touched)
    ensures p[i].pruned ==> !d[i].isProtected && d[i].isText && d[i].content != ""
    ensures d[i].isProtected || !d[i].isText || d[i].content == "" ==> p[i] == d[i]
  {
    assert IsCandidate(d[i]) <==> !d[i].isProtected && d[i].isText && d[i].content != "";
  }

  /** No file that stays has a lower score than a pruned one, nor the same one and an earlier place in the input. */
  lemma PrunedByScore(d: seq<File>, p: seq<File>, level: Level, preTokens: nat, now: real, k: nat, i: nat, j: nat)
    requires PrunedAsDue(d, p, level, preTokens, now, k) && i < |d| && j < |d| && !d[i].pruned && !d[j].pruned
    requires p[i].pruned && !p[j].pruned && !d[j].isProtected && d[j].isText && d[j].content != ""
    ensures Score(d[j], now) > Score(d[i], now) || (Score(d[j], now) == Score(d[i], now) && d[j].index >= d[i].index)
  {
    assert IsCandidate(d[j]);
    PrunedAreLowest(d, p, now, k, i, j);
  }

  // ----- The bundle -----

  /** The places of the files a bundle shows: those that are not empty, nor pruned unless pruned ones are included,
      in their order. */
  ghost predicate AreShown(files: seq<File>, includePruned: bool, shown: seq<nat>) {
    && (forall k, l :: 0 <= k < l < |shown| ==> shown[k] < shown[l])
    && forall i: nat ::
         i in shown <==> i < |files| && files[i].content != "" && (includePruned || !files[i].pruned)
  }

  function Line(f: File, abbreviated: bool): string { Header(f, abbreviated) + "\n" + f.content }

  lemma ShownNext(files: seq<File>, includePruned: bool, shown: seq<nat>)
    requires files != [] && AreShown(files[..|files| - 1], includePruned, shown)
    ensures var f := files[|files| - 1];
      AreShown(files, includePruned,
               if f.content != "" && (includePruned || !f.pruned) then shown + [|files| - 1] else shown)
  {
    forall k | 0 <= k < |shown| ensures shown[k] < |files| - 1 { assert shown[k] in shown; }
  }

  /** The lines are those of the files at these places. */
  ghost predicate AreLinesOf(files: seq<File>, abbreviated: bool, lines: seq<string>, shown: seq<nat>) {
    |shown| == |lines|
    && forall k :: 0 <= k < |shown| ==> shown[k] < |files| && lines[k] == Line(files[shown[k]], abbreviated)
  }

  lemma LinesNext(files: seq<File>, abbreviated: bool, lines: seq<string>, shown: seq<nat>)
    requires files != [] && AreLinesOf(files[..|files| - 1], abbreviated, lines, shown)
    ensures AreLinesOf(files, abbreviated, lines, shown)
    ensures AreLinesOf(files, abbreviated, lines + [Line(files[|files| - 1], abbreviated)], shown + [|files| - 1])
  {
  }

  lemma LastLine(files: seq<File>, abbreviated: bool, includePruned: bool)
    requires files != []
    ensures var f, rest := files[|files| - 1], Lines(files[..|files| - 1], abbreviated, includePruned);
      Lines(files, abbreviated, includePruned)
      == if f.content != "" && (includePruned || !f.pruned) then rest + [Line(f, abbreviated)] else rest
  {
  }

  /** A bundle has one part for each file it shows: its header, a line break and its content. */
  lemma {:induction false} LinesAre(files: seq<File>, abbreviated: bool, includePruned: bool) returns (shown: seq<nat>)
    ensures AreShown(files, includePruned, shown)
    ensures AreLinesOf(files, abbreviated, Lines(files, abbreviated, includePruned), shown)
  {
    shown := [];
    if files != [] {
      var n := |files| - 1;
      var rest := Lines(files[..n], abbreviated, includePruned);
      shown := LinesAre(files[..n], abbreviated, includePruned);
      ShownNext(files, includePruned, shown);
      LinesNext(files, abbreviated, rest, shown);
      LastLine(files, abbreviated, includePruned);
      if files[n].content != "" && (includePruned || !files[n].pruned) { shown := shown + [n]; }
    }
  }

  // ----- Scores -----

  function Clamped(priority: real): real {
    if priority < -10.0 then -10.0 else if priority > 10.0 then 10.0 else priority
  }

  /** A point of priority within ten of zero is worth three. */
  lemma PriorityCounts(f: File, priority: real, now: real)
    ensures Score(f.(priority := priority), now) - Score(f, now) == 3.0 * (Clamped(priority) - Clamped(f.priority))
  {
  }

  /** A dated file loses a third of a point with each day, over twelve days, of four at first. */
  lemma AgeCounts(f: File, days: real, now: real)
    requires 0.0 <= days <= 12.0 && now - days * 86_400_000.0 != 0.0 && now != 0.0
    ensures Score(f.(updatedAtMs := now), now) - Score(f.(updatedAtMs := now - days * 86_400_000.0), now) == days / 3.0
    ensures Score(f.(updatedAtMs := now), now) == Score(f.(updatedAtMs := 0.0), now) + 3.5
  {
    assert (now - (now - days * 86_400_000.0)) / DAY == days;
  }

  /** An empty undated file of no priority scores two and a half, and each 1500 tokens cost a point, up to two. */
  lemma SizeCounts(f: File, now: real)
    requires f.priority == 0.0 && f.updatedAtMs == 0.0
    ensures var tokens := (|f.original| + 3) / 4;
      Score(f, now) == if tokens >= 3000 then 0.5 else 2.5 - tokens as real / 1500.0
  {
    var tokens := (|f.original| + 3) / 4;
    assert tokens >= 3000 <==> tokens as real / 1500.0 >= 2.0;
  }

  /** Two points of priority outweigh age and size together. */
  lemma PriorityDecides(a: File, b: File, now: real)
    requires Clamped(a.priority) >= Clamped(b.priority) + 2.0
    ensures Score(a, now) >= Score(b, now)
  {
  }
}
