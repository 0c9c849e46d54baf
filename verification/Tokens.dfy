/** The token estimate shared by the conversation engine, the observer, the reflector and the cache. */
module Tokens {

  function PerToken(charsPerToken: int): (per: int)
    ensures per >= 1
  {
    if charsPerToken > 1 then charsPerToken else 1
  }

  /** max(1, ceil(length / max(1, charsPerToken))). */
  function Estimate(charsPerToken: int, length: nat): (n: nat)
    ensures n >= 1
  {
    var per := PerToken(charsPerToken);
    var n := (length + per - 1) / per;
    if n > 1 then n else 1
  }

  /** The estimate is the least positive number of tokens whose characters, at least one each,
      hold the text. */
  lemma EstimateIsLeast(charsPerToken: int, length: nat, n: nat)
    requires n >= 1
    ensures Estimate(charsPerToken, length) <= n <==> length <= n * PerToken(charsPerToken)
  {
    var per := PerToken(charsPerToken);
    var ceil := (length + per - 1) / per;
    CeilingBounds(per, length, ceil);
    if ceil <= n { Times(ceil, n, per); } else { Times(n, ceil - 1, per); }
  }

  lemma CeilingBounds(per: int, length: nat, ceil: int)
    requires per >= 1 && ceil == (length + per - 1) / per
    ensures ceil * per >= length && (ceil - 1) * per < length
  {
    var rest := (length + per - 1) % per;
    assert length + per - 1 == per * ceil + rest && 0 <= rest < per;
    assert (ceil - 1) * per == ceil * per - per;
  }

  lemma Times(a: int, b: int, c: int)
    requires a <= b && c >= 0
    ensures a * c <= b * c
  {
  }
}
