/** The compaction pipeline (lib/token-compactor.ts:382-524): five layers under one deadline. Whatever
    the clock does, every layer only shrinks the bundle and the savings add up. */
module Compaction {
  import opened TokenCompactor
  import opened TokenPruning

  datatype Layer = Whitespace | Comments | Deduplication | Abbreviation | Pruning

  datatype Contribution = Contribution(layer: Layer, preTokens: nat, postTokens: nat, savedTokens: nat)

  function TotalSaved(cs: seq<Contribution>): nat {
    if cs == [] then 0 else TotalSaved(cs[..|cs| - 1]) + cs[|cs| - 1].savedTokens
  }

  /** Each contribution starts where the one before ended, and saves exactly the difference. */
  ghost predicate Telescopes(cs: seq<Contribution>, pre: nat, post: nat) {
    if cs == [] then post == pre else
      var last := cs[|cs| - 1];
      last.postTokens == post && last.preTokens >= post && last.savedTokens == last.preTokens - post
      && Telescopes(cs[..|cs| - 1], pre, last.preTokens)
  }

  /** The savings of the layers are the whole saving. */
  lemma {:induction false} SavingsAddUp(cs: seq<Contribution>, pre: nat, post: nat)
    requires Telescopes(cs, pre, post)
    ensures TotalSaved(cs) == pre - post
  {
    if cs != [] { SavingsAddUp(cs[..|cs| - 1], pre, cs[|cs| - 1].preTokens); }
  }

  function Contributed(layer: Layer, pre: nat, post: nat): Contribution {
    Contribution(layer, pre, post, if pre >= post then pre - post else 0)
  }

  lemma TelescopeGrows(cs: seq<Contribution>, layer: Layer, pre: nat, mid: nat, post: nat)
    requires Telescopes(cs, pre, mid) && post <= mid
    ensures Telescopes(cs + [Contributed(layer, mid, post)], pre, post)
  {
    assert (cs + [Contributed(layer, mid, post)])[..|cs|] == cs;
  }

  /** `b` is `a` somewhere in the layers before pruning: files that are not eligible are as they were,
      the others have no more content, and nothing is pruned. */
  ghost predicate Reduced(a: seq<File>, b: seq<File>) {
    && |a| == |b|
    && forall i :: 0 <= i < |a| ==> ReducedFile(a[i], b[i])
  }

  ghost predicate ReducedFile(a: File, b: File) {
    && Smaller(a, b) && b == a.(content := b.content, touched := b.touched)
    && (!Eligible(a) ==> b == a) && (a.touched ==> b.touched) && (!b.touched ==> b.content == a.content)
  }

  lemma ReducedTwice(a: seq<File>, b: seq<File>, c: seq<File>)
    requires Reduced(a, b) && Reduced(b, c)
    ensures Reduced(a, c)
  {
    forall i | 0 <= i < |a| ensures ReducedFile(a[i], c[i]) {
      assert ReducedFile(a[i], b[i]) && ReducedFile(b[i], c[i]);
    }
  }

  lemma ReducedIsSmaller(a: seq<File>, b: seq<File>)
    requires Reduced(a, b)
    ensures AllSmaller(a, b)
  {
    forall i | 0 <= i < |a| ensures Smaller(a[i], b[i]) { assert ReducedFile(a[i], b[i]); }
  }

  /** A text layer that has reached every file. */
  ghost predicate Rewritten(a: seq<File>, b: seq<File>, rule: (string, string) -> string) {
    && |a| == |b|
    && forall i :: 0 <= i < |a| ==>
         b[i] == if Eligible(a[i]) then a[i].(content := rule(a[i].content, a[i].path), touched := true) else a[i]
  }

  ghost predicate AllDeduped(a: seq<File>, b: seq<File>, rules: Rules) {
    |a| == |b| && forall i :: 0 <= i < |a| ==> DedupedAt(a, b, i, rules)
  }

  /** The squeeze of the whitespace layer, which does not look at paths. */
  function Squeeze(rules: Rules): (string, string) -> string { (s: string, path: string) => rules.squeeze(s) }

  /** One of the two text layers: in path order, until the deadline strikes. */
  method TextLayer(files: seq<File>, rule: (string, string) -> string, late: nat -> bool, reading0: nat)
    returns (done: bool, result: seq<File>, reading: nat)
    requires forall s, path :: |rule(s, path)| <= |s|
    ensures Reduced(files, result)
    ensures done ==> Rewritten(files, result, rule)
  {
    result, reading := files, reading0;
    for i := 0 to |files|
      invariant Reduced(files, result)
      invariant forall j :: i <= j < |files| ==> result[j] == files[j]
      invariant forall j :: 0 <= j < i ==>
        result[j] ==
          if Eligible(files[j]) then files[j].(content := rule(files[j].content, files[j].path), touched := true)
          else files[j]
    {
      var f := files[i];
      if Eligible(f) {
        if late(reading) { return false, result, reading + 1; }
        reading := reading + 1;
        ghost var before := result;
        result := result[i := f.(content := rule(f.content, f.path), touched := true)];
        forall j | 0 <= j < |files| ensures ReducedFile(files[j], result[j]) {
          if j != i { assert ReducedFile(files[j], before[j]); }
        }
      }
    }
    done := true;
  }

  lemma DedupReduces(files: seq<File>, result: seq<File>, reached: nat, rules: Rules)
    requires Removing(rules) && |result| == |files| && reached <= |files|
    requires forall i :: 0 <= i < reached ==> DedupedAt(files, result, i, rules)
    requires forall i :: reached <= i < |files| ==> result[i] == files[i]
    ensures Reduced(files, result)
  {
    forall i | 0 <= i < |files| ensures ReducedFile(files[i], result[i]) {
      if i < reached {
        assert DedupedAt(files, result, i, rules);
        DedupedSmaller(files, i, rules);
      }
    }
  }

  /** The three layers that rewrite content. A layer runs only if no earlier one met the deadline. */
  method RewriteLayers(files: seq<File>, rules: Rules, late: nat -> bool, reading0: nat)
    returns (w: seq<File>, c: seq<File>, d: seq<File>, timedOut: bool, reading: nat)
    requires Removing(rules)
    ensures Reduced(files, w) && Reduced(w, c) && Reduced(c, d)
    ensures !timedOut ==> Rewritten(files, w, Squeeze(rules)) && Rewritten(w, c, rules.strip) && AllDeduped(c, d, rules)
  {
    var done;
    done, w, reading := TextLayer(files, Squeeze(rules), late, reading0);
    timedOut := !done;
    c := w;
    if !timedOut {
      done, c, reading := TextLayer(w, rules.strip, late, reading);
      timedOut := !done;
    }
    d := c;
    if !timedOut {
      ghost var reached;
      done, d, reading, reached := CrossFileDedup(c, rules, late, reading);
      DedupReduces(c, d, reached, rules);
      timedOut := !done;
    }
  }

  /** What a run returns, reduced to what the properties speak of. */
  datatype Result = Result(files: seq<File>, bundle: string, preTokens: nat, postTokens: nat,
                           contributions: seq<Contribution>, timedOut: bool)

  ghost predicate IsFreshInput(files: seq<File>) {
    forall i :: 0 <= i < |files| ==> files[i].content == files[i].original && !files[i].pruned && !files[i].touched
  }

  lemma PrunedIsSmaller(files: seq<File>, result: seq<File>, order: seq<Candidate>, k: nat)
    requires PrunedTo(files, result, order, k)
    ensures AllSmaller(files, result)
  {
  }

  /** `k` candidates of the deduplicated files were pruned, and neither fewer nor more were due. */
  ghost predicate PrunedAsDue(d: seq<File>, p: seq<File>, level: Level, preTokens: nat, now: real, k: nat) {
    var candidates := Candidates(d, |d|, now);
    && PrunedTo(d, p, Sorted(candidates), k)
    && PrunesExactly(Sorted(candidates), TokensOf(d, |d|), Target(d, level, preTokens), Least(level, |candidates|), k)
  }

  method PruneLayer(d: seq<File>, level: Level, preTokens: nat, now: real) returns (p: seq<File>, ghost k: nat)
    requires forall i :: 0 <= i < |d| ==> !d[i].pruned
    ensures AllSmaller(d, p) && PrunedAsDue(d, p, level, preTokens, now, k)
    ensures forall i :: 0 <= i < |d| && !Eligible(d[i]) ==> p[i] == d[i]
    ensures forall i :: 0 <= i < |d| ==> p[i] == d[i] || p[i].touched
  {
    var pruned;
    p, pruned := PriorityPruning(d, level, preTokens, now);
    k := pruned;
    PrunedIsSmaller(d, p, Sorted(Candidates(d, |d|, now)), k);
  }

  /** Each reading of the clock is late or not; nothing else is known of it. The ghost results are the
      files after each of the three rewriting layers, and the number of files pruned. */
  method RunTokenCompaction(files: seq<File>, rules: Rules, level: Level, now: real, late: nat -> bool)
    returns (r: Result, ghost w: seq<File>, ghost c: seq<File>, ghost d: seq<File>, ghost k: nat)
    requires IsFreshInput(files) && Removing(rules)
    ensures r.preTokens == BundleTokens(files, false, true) && r.postTokens == EstimateTokens(|r.bundle|)
    ensures r.bundle == Bundle(r.files, true, false)
    ensures |r.contributions| == 5 && Telescopes(r.contributions, r.preTokens, r.postTokens)
    ensures TotalSaved(r.contributions) == r.preTokens - r.postTokens
    ensures |r.files| == |files|
    ensures forall i ::
              0 <= i < |files| && (files[i].isProtected || !files[i].isText) ==>
                r.files[i] == files[i] && !r.files[i].pruned
    ensures forall i ::
              0 <= i < |files| ==> Smaller(files[i], r.files[i]) && (!r.files[i].touched ==> r.files[i] == files[i])
    ensures !r.timedOut ==>
              && Rewritten(files, w, Squeeze(rules)) && Rewritten(w, c, rules.strip) && AllDeduped(c, d, rules)
              && PrunedAsDue(d, r.files, level, r.preTokens, now, k)
  {
    var squeezed, stripped, deduped, timedOut, reading := RewriteLayers(files, rules, late, 0);
    w, c, d, k := squeezed, stripped, deduped, 0;
    var p := deduped;
    if timedOut || late(reading) {
      timedOut := true;
    } else {
      assert forall i ::
        0 <= i < |d| ==> ReducedFile(files[i], w[i]) && ReducedFile(w[i], c[i]) && ReducedFile(c[i], d[i]);
      p, k := PruneLayer(deduped, level, BundleTokens(files, false, true), now);
    }
    var contributions := Contributions(files, squeezed, stripped, deduped, p);
    // Files no layer has reached still hold their original content, so writing it back changes nothing.
    r := Result(p, Bundle(p, true, false), BundleTokens(files, false, true), BundleTokens(p, true, false),
                contributions, timedOut);
    SavingsAddUp(contributions, r.preTokens, r.postTokens);
    Untouched(files, w, c, d);
  }

  lemma Untouched(files: seq<File>, w: seq<File>, c: seq<File>, d: seq<File>)
    requires Reduced(files, w) && Reduced(w, c) && Reduced(c, d)
    ensures Reduced(files, d)
  {
    ReducedTwice(files, w, c);
    ReducedTwice(files, c, d);
  }

  method Contributions(files: seq<File>, w: seq<File>, c: seq<File>, d: seq<File>, p: seq<File>)
    returns (cs: seq<Contribution>)
    requires Reduced(files, w) && Reduced(w, c) && Reduced(c, d) && AllSmaller(d, p)
    ensures |cs| == 5 && Telescopes(cs, BundleTokens(files, false, true), BundleTokens(p, true, false))
  {
    ReducedIsSmaller(files, w);
    ReducedIsSmaller(w, c);
    ReducedIsSmaller(c, d);
    var t0, t1, t2 := BundleTokens(files, false, true), BundleTokens(w, false, true), BundleTokens(c, false, true);
    var t3, t4, t5 := BundleTokens(d, false, true), BundleTokens(d, true, true), BundleTokens(p, true, false);
    TokensShrink(files, w, false, false, true, true);
    TokensShrink(w, c, false, false, true, true);
    TokensShrink(c, d, false, false, true, true);
    TokensShrink(d, d, false, true, true, true);
    TokensShrink(d, p, true, true, true, false);
    cs := [];
    TelescopeGrows(cs, Whitespace, t0, t0, t1);
    cs := cs + [Contributed(Whitespace, t0, t1)];
    TelescopeGrows(cs, Comments, t0, t1, t2);
    cs := cs + [Contributed(Comments, t1, t2)];
    TelescopeGrows(cs, Deduplication, t0, t2, t3);
    cs := cs + [Contributed(Deduplication, t2, t3)];
    TelescopeGrows(cs, Abbreviation, t0, t3, t4);
    cs := cs + [Contributed(Abbreviation, t3, t4)];
    TelescopeGrows(cs, Pruning, t0, t4, t5);
    cs := cs + [Contributed(Pruning, t4, t5)];
  }
}
