/** The token compactor (lib/token-compactor.ts): whitespace and comment layers, cross-file deduplication,
    header abbreviation and priority pruning over the files of a prompt, under a deadline. */
module TokenCompactor {

  /** A working file. `touched` stands for a non-empty set of applied layers; an `updatedAtMs` of 0 is
      absent, as in the source. The two texts are what the header prints. */
  datatype File = File(index: nat, path: string, original: string, priority: real, updatedAtMs: real,
                       priorityText: string, updatedText: string, isProtected: bool, isText: bool,
                       content: string, pruned: bool, touched: bool)

  predicate Eligible(f: File) { !f.isProtected && f.isText }

  /** The regex rules, as functions: the whitespace and comment layers, the split into blocks at blank
      lines, and the normal form blocks are compared by (its SHA-1 is taken to be injective). */
  datatype Rules = Rules(squeeze: string -> string, strip: (string, string) -> string,
                         blocks: string -> seq<string>, norm: string -> string)

  /** What the rules guarantee: they only remove text, and every separator has two characters or more. */
  ghost predicate Removing(rules: Rules) {
    && (forall s :: |rules.squeeze(s)| <= |s|)
    && (forall s, path :: |rules.strip(s, path)| <= |s|)
    && (forall s :: |Join(rules.blocks(s))| <= |s|)
  }

  // ----- Bundles -----

  const SEPARATOR := "\n\n"

  function Join(parts: seq<string>): string {
    if |parts| == 0 then "" else if |parts| == 1 then parts[0]
    else Join(parts[..|parts| - 1]) + SEPARATOR + parts[|parts| - 1]
  }

  /** The length of a join, with one separator too many. */
  function Weight(parts: seq<string>): nat {
    if parts == [] then 0 else Weight(parts[..|parts| - 1]) + |parts[|parts| - 1]| + 2
  }

  lemma {:induction false} JoinLength(parts: seq<string>)
    ensures |Join(parts)| == if parts == [] then 0 else Weight(parts) - 2
    ensures parts != [] ==> Weight(parts) >= 2
  {
    if |parts| > 1 {
      JoinLength(parts[..|parts| - 1]);
    } else if |parts| == 1 {
      assert parts[..0] == [];
    }
  }

  function Header(f: File, abbreviated: bool): string {
    if abbreviated then "F:" + f.path + " (p=" + f.priorityText + ",u=" + f.updatedText + ")"
    else "FILE:" + f.path + " (priority=" + f.priorityText + ", updatedAt=" + f.updatedText + ")"
  }

  function Lines(files: seq<File>, abbreviated: bool, includePruned: bool): seq<string> {
    if files == [] then [] else
      var f, rest := files[|files| - 1], Lines(files[..|files| - 1], abbreviated, includePruned);
      if (!includePruned && f.pruned) || f.content == "" then rest
      else rest + [Header(f, abbreviated) + "\n" + f.content]
  }

  function Bundle(files: seq<File>, abbreviated: bool, includePruned: bool): string {
    Join(Lines(files, abbreviated, includePruned))
  }

  function EstimateTokens(length: nat): nat { (length + 3) / 4 }

  function BundleTokens(files: seq<File>, abbreviated: bool, includePruned: bool): nat {
    EstimateTokens(|Bundle(files, abbreviated, includePruned)|)
  }

  /** `b` is `a` with less content, perhaps with some files pruned. */
  ghost predicate Smaller(a: File, b: File) {
    && a.path == b.path && a.priorityText == b.priorityText && a.updatedText == b.updatedText
    && |b.content| <= |a.content|
  }

  ghost predicate AllSmaller(a: seq<File>, b: seq<File>) {
    |a| == |b| && forall i :: 0 <= i < |a| ==> Smaller(a[i], b[i])
  }

  lemma {:induction false} LinesShrink(a: seq<File>, b: seq<File>, short: bool, shorter: bool, all: bool, fewer: bool)
    requires AllSmaller(a, b) && (short ==> shorter)
    requires all || (!fewer && forall i :: 0 <= i < |a| ==> (a[i].pruned ==> b[i].pruned))
    ensures Weight(Lines(b, shorter, fewer)) <= Weight(Lines(a, short, all))
  {
    if a != [] {
      var n := |a| - 1;
      LinesShrink(a[..n], b[..n], short, shorter, all, fewer);
      assert Smaller(a[n], b[n]);
      assert |Header(b[n], shorter)| <= |Header(a[n], short)|;
      WeightStep(a, short, all);
      WeightStep(b, shorter, fewer);
    }
  }

  lemma WeightStep(files: seq<File>, abbreviated: bool, includePruned: bool)
    requires files != []
    ensures var n := |files| - 1;
      Weight(Lines(files, abbreviated, includePruned)) == Weight(Lines(files[..n], abbreviated, includePruned))
        + if (!includePruned && files[n].pruned) || files[n].content == "" then 0
          else |Header(files[n], abbreviated)| + 1 + |files[n].content| + 2
  {
    var rest := Lines(files[..|files| - 1], abbreviated, includePruned);
    var line := Header(files[|files| - 1], abbreviated) + "\n" + files[|files| - 1].content;
    assert (rest + [line])[..|rest|] == rest;
  }

  /** A layer that only removes text never costs tokens; nor does abbreviating headers or dropping files. */
  lemma TokensShrink(a: seq<File>, b: seq<File>, short: bool, shorter: bool, all: bool, fewer: bool)
    requires AllSmaller(a, b) && (short ==> shorter)
    requires all || (!fewer && forall i :: 0 <= i < |a| ==> (a[i].pruned ==> b[i].pruned))
    ensures BundleTokens(b, shorter, fewer) <= BundleTokens(a, short, all)
  {
    LinesShrink(a, b, short, shorter, all, fewer);
    JoinLength(Lines(a, short, all));
    JoinLength(Lines(b, shorter, fewer));
  }

  // ----- Deduplication -----

  const LONG := 80

  /** Block `k` is kept: it is not blank, and it is short or the first with its normal form. */
  predicate Keeps(all: seq<string>, k: nat, norm: string -> string)
    requires k < |all|
  {
    var n := norm(all[k]);
    n != "" && (|n| < LONG || forall j :: 0 <= j < k ==> norm(all[j]) != n)
  }

  /** The kept blocks among those numbered `lo` to `hi`. */
  function KeptIn(all: seq<string>, lo: nat, hi: nat, norm: string -> string): (r: seq<string>)
    requires lo <= hi <= |all|
    ensures |r| <= hi - lo
  {
    if lo == hi then [] else
      KeptIn(all, lo, hi - 1, norm) + if Keeps(all, hi - 1, norm) then [all[hi - 1]] else []
  }

  function BlocksOf(f: File, rules: Rules): seq<string> { if Eligible(f) then rules.blocks(f.content) else [] }

  /** The blocks of the first `n` files, in path order; files that are not eligible have none. */
  function AllBlocks(files: seq<File>, n: nat, rules: Rules): seq<string>
    requires n <= |files|
  {
    if n == 0 then [] else AllBlocks(files, n - 1, rules) + BlocksOf(files[n - 1], rules)
  }

  lemma {:induction false} AllBlocksPrefix(files: seq<File>, i: nat, j: nat, rules: Rules)
    requires i <= j <= |files|
    ensures AllBlocks(files, i, rules) <= AllBlocks(files, j, rules)
  {
    if i < j {
      AllBlocksPrefix(files, i, j - 1, rules);
    }
  }

  /** File `i` after a finished deduplication. */
  function Deduped(files: seq<File>, i: nat, rules: Rules): File
    requires i < |files|
  {
    if BlocksOf(files[i], rules) == [] then files[i]
    else files[i].(content := Join(KeptOf(files, i, rules)), touched := true)
  }

  /** The blocks kept of file `i`. */
  function KeptOf(files: seq<File>, i: nat, rules: Rules): seq<string>
    requires i < |files|
  {
    var all := AllBlocks(files, i + 1, rules);
    KeptIn(all, |AllBlocks(files, i, rules)|, |all|, rules.norm)
  }

  /** What is kept of a prefix of the blocks does not depend on the blocks after it. */
  lemma {:induction false} KeptInPrefix(a: seq<string>, b: seq<string>, lo: nat, hi: nat, norm: string -> string)
    requires lo <= hi <= |a| && a <= b
    ensures KeptIn(a, lo, hi, norm) == KeptIn(b, lo, hi, norm)
  {
    if lo < hi { KeptInPrefix(a, b, lo, hi - 1, norm); }
  }

  /** A finished deduplication keeps, of each file, the blocks that are kept among all blocks of all files. */
  lemma DedupedGlobally(files: seq<File>, i: nat, rules: Rules)
    requires i < |files|
    ensures var all := AllBlocks(files, |files|, rules);
            var lo, hi := |AllBlocks(files, i, rules)|, |AllBlocks(files, i + 1, rules)|;
      lo <= hi <= |all| && all[lo..hi] == BlocksOf(files[i], rules)
        && KeptOf(files, i, rules) == KeptIn(all, lo, hi, rules.norm)
  {
    var part, all := AllBlocks(files, i + 1, rules), AllBlocks(files, |files|, rules);
    AllBlocksPrefix(files, i + 1, |files|, rules);
    KeptInPrefix(part, all, |AllBlocks(files, i, rules)|, |part|, rules.norm);
  }

  /** Every long block survives exactly once: at its first occurrence in path order. */
  lemma {:induction false} LongBlocksSurviveOnce(all: seq<string>, k: nat, norm: string -> string) returns (first: nat)
    requires k < |all| && |norm(all[k])| >= LONG
    ensures first <= k && norm(all[first]) == norm(all[k]) && Keeps(all, first, norm)
    ensures forall j :: 0 <= j < |all| && norm(all[j]) == norm(all[k]) && Keeps(all, j, norm) ==> j == first
  {
    if exists j :: 0 <= j < k && norm(all[j]) == norm(all[k]) {
      var j :| 0 <= j < k && norm(all[j]) == norm(all[k]);
      first := LongBlocksSurviveOnce(all, j, norm);
    } else {
      first := k;
    }
  }

  lemma WeightAppend(parts: seq<string>, part: string)
    ensures Weight(parts + [part]) == Weight(parts) + |part| + 2
  {
    assert (parts + [part])[..|parts|] == parts;
  }

  lemma SliceWeight(parts: seq<string>, lo: nat, hi: nat)
    requires lo < hi <= |parts|
    ensures Weight(parts[lo..hi]) == Weight(parts[lo..hi - 1]) + |parts[hi - 1]| + 2
  {
    assert parts[lo..hi] == parts[lo..hi - 1] + [parts[hi - 1]];
    WeightAppend(parts[lo..hi - 1], parts[hi - 1]);
  }

  lemma {:induction false} KeptWeight(all: seq<string>, lo: nat, hi: nat, norm: string -> string)
    requires lo <= hi <= |all|
    ensures Weight(KeptIn(all, lo, hi, norm)) <= Weight(all[lo..hi])
  {
    if lo < hi {
      KeptWeight(all, lo, hi - 1, norm);
      SliceWeight(all, lo, hi);
      var kept := KeptIn(all, lo, hi - 1, norm);
      WeightAppend(kept, all[hi - 1]);
      assert KeptIn(all, lo, hi, norm) == if Keeps(all, hi - 1, norm) then kept + [all[hi - 1]] else kept;
    }
  }

  lemma DedupedSmaller(files: seq<File>, i: nat, rules: Rules)
    requires i < |files| && Removing(rules)
    ensures Smaller(files[i], Deduped(files, i, rules))
  {
    var f := files[i];
    var blocks := BlocksOf(f, rules);
    if blocks != [] {
      var all, lo := AllBlocks(files, i + 1, rules), |AllBlocks(files, i, rules)|;
      assert all[lo..|all|] == blocks;
      KeptWeight(all, lo, |all|, rules.norm);
      JoinLength(blocks);
      JoinLength(KeptIn(all, lo, |all|, rules.norm));
    }
  }

  ghost predicate SeenIs(seen: set<string>, all: seq<string>, n: nat, norm: string -> string) {
    n <= |all| && forall s :: s in seen <==> |s| >= LONG && exists j :: 0 <= j < n && norm(all[j]) == s
  }

  /** The blocks from `lo` to `n` are done: what was kept of them, and what has been seen up to there. */
  ghost predicate DoneTo(all: seq<string>, lo: nat, n: nat, norm: string -> string, kept: seq<string>,
                         seen: set<string>) {
    lo <= n <= |all| && kept == KeptIn(all, lo, n, norm) && SeenIs(seen, all, n, norm)
  }

  lemma SeenGrowsBy(seen: set<string>, all: seq<string>, n: nat, norm: string -> string)
    requires SeenIs(seen, all, n, norm) && n < |all|
    ensures SeenIs(if |norm(all[n])| >= LONG then seen + {norm(all[n])} else seen, all, n + 1, norm)
  {
  }

  /** The set decides whether the next block is kept. */
  lemma DoneNext(all: seq<string>, lo: nat, n: nat, norm: string -> string, kept: seq<string>, seen: set<string>)
    requires DoneTo(all, lo, n, norm, kept, seen) && n < |all|
    ensures norm(all[n]) == "" ==> DoneTo(all, lo, n + 1, norm, kept, seen)
    ensures norm(all[n]) != "" && |norm(all[n])| < LONG ==> DoneTo(all, lo, n + 1, norm, kept + [all[n]], seen)
    ensures |norm(all[n])| >= LONG && norm(all[n]) in seen ==> DoneTo(all, lo, n + 1, norm, kept, seen)
    ensures |norm(all[n])| >= LONG && norm(all[n]) !in seen ==>
              DoneTo(all, lo, n + 1, norm, kept + [all[n]], seen + {norm(all[n])})
  {
    SeenGrowsBy(seen, all, n, norm);
    if |norm(all[n])| >= LONG && norm(all[n]) in seen { assert seen + {norm(all[n])} == seen; }
    assert Keeps(all, n, norm) <==> norm(all[n]) != "" && (|norm(all[n])| < LONG || norm(all[n]) !in seen);
  }

  /** The inner loop: the blocks of one file, which are those of `all` from `lo` on. */
  method DedupBlocks(blocks: seq<string>, ghost all: seq<string>, ghost lo: nat, norm: string -> string,
                     late: nat -> bool, reading0: nat, seen0: set<string>)
    returns (done: bool, kept: seq<string>, reading: nat, seen: set<string>)
    requires lo + |blocks| == |all| && all[lo..] == blocks && SeenIs(seen0, all, lo, norm)
    ensures done ==> DoneTo(all, lo, |all|, norm, kept, seen)
  {
    kept, reading, seen := [], reading0, seen0;
    for j := 0 to |blocks|
      invariant DoneTo(all, lo, lo + j, norm, kept, seen)
    {
      var block := blocks[j];
      assert block == all[lo + j];
      DoneNext(all, lo, lo + j, norm, kept, seen);
      var normalized := norm(block);
      if normalized != "" {
        if late(reading) { return false, kept, reading + 1, seen; }
        reading := reading + 1;
        if |normalized| < LONG {
          kept := kept + [block];
        } else if normalized !in seen {
          seen := seen + {normalized};
          kept := kept + [block];
        }
      }
    }
    done := true;
  }

  ghost predicate DedupedAt(files: seq<File>, result: seq<File>, k: nat, rules: Rules) {
    k < |files| == |result| && result[k] == Deduped(files, k, rules)
  }

  ghost predicate SeenUpTo(seen: set<string>, files: seq<File>, i: nat, rules: Rules) {
    i <= |files| && SeenIs(seen, AllBlocks(files, i, rules), |AllBlocks(files, i, rules)|, rules.norm)
  }

  /** The outer loop's body. */
  method DedupFile(files: seq<File>, i: nat, rules: Rules, late: nat -> bool, reading0: nat, seen0: set<string>)
    returns (done: bool, f: File, reading: nat, seen: set<string>)
    requires i < |files| && SeenUpTo(seen0, files, i, rules)
    ensures done ==> f == Deduped(files, i, rules) && SeenUpTo(seen, files, i + 1, rules)
  {
    f, reading, seen := files[i], reading0, seen0;
    assert BlocksOf(f, rules) == [] ==> AllBlocks(files, i + 1, rules) == AllBlocks(files, i, rules);
    if !Eligible(f) { return true, f, reading, seen; }
    if late(reading) { return false, f, reading + 1, seen; }
    reading := reading + 1;
    var blocks := rules.blocks(f.content);
    if |blocks| == 0 { return true, f, reading, seen; }
    ghost var all, lo := AllBlocks(files, i + 1, rules), |AllBlocks(files, i, rules)|;
    SeenGrows(seen, AllBlocks(files, i, rules), all, rules.norm);
    var kept;
    done, kept, reading, seen := DedupBlocks(blocks, all, lo, rules.norm, late, reading, seen);
    if done { f := f.(content := Join(kept), touched := true); }
  }

  /** applyCrossFileDedup: files are deduplicated in order; when the deadline strikes, the rest, and the
      file at work, stay as they were. */
  method CrossFileDedup(files: seq<File>, rules: Rules, late: nat -> bool, reading0: nat)
    returns (done: bool, result: seq<File>, reading: nat, ghost reached: nat)
    ensures |result| == |files| && reached <= |files| && (done ==> reached == |files|)
    ensures forall i :: 0 <= i < reached ==> DedupedAt(files, result, i, rules)
    ensures forall i :: reached <= i < |files| ==> result[i] == files[i]
  {
    result, reading := files, reading0;
    var seen: set<string> := {};
    for i := 0 to |files|
      invariant |result| == |files|
      invariant forall k :: 0 <= k < i ==> DedupedAt(files, result, k, rules)
      invariant forall k :: i <= k < |files| ==> result[k] == files[k]
      invariant SeenUpTo(seen, files, i, rules)
    {
      var f;
      done, f, reading, seen := DedupFile(files, i, rules, late, reading, seen);
      if !done { return false, result, reading, i; }
      ghost var before := result;
      result := result[i := f];
      forall k | 0 <= k < i + 1 ensures DedupedAt(files, result, k, rules) {
        if k < i { assert DedupedAt(files, before, k, rules); }
      }
    }
    done, reached := true, |files|;
  }

  lemma SeenGrows(seen: set<string>, a: seq<string>, b: seq<string>, norm: string -> string)
    requires SeenIs(seen, a, |a|, norm) && a <= b
    ensures SeenIs(seen, b, |a|, norm)
  {
  }
}
