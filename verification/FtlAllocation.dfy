/**
 The allocation and victim-selection loops of the four mapping schemes, proved against their specifications.
 */
module FtlAllocation {
  import opened Ftl
  import opened FtlEndurance
  import opened FtlPolicies
  import opened FtlWear

  datatype Policy =
    | FirstFitPolicy                                                  // PageMapping, WLPageMapping
    | WeightedPolicy(weight: Block -> real, fraction: nat -> real)    // RBPAPageMapping
    | ChannelPolicy                                                   // LAPageMapping

  function Chooser(p: Policy, heads: nat): (seq<Block>, nat, nat) -> nat {
    match p
    case FirstFitPolicy => FirstFit(heads)
    case WeightedPolicy(weight, fraction) => Weighted(heads, weight, fraction)
    case ChannelPolicy => LeastWornChannel(heads)
  }

  /** Every policy chooses a position of the list. */
  lemma ChoosesWithin(p: Policy, heads: nat, free: seq<Block>, idx: nat, draw: nat)
    requires 0 < heads && 0 < |free|
    ensures Chooser(p, heads)(free, idx, draw) < |free|
  {
    match p
    case FirstFitPolicy =>
    case WeightedPolicy(weight, fraction) =>
      assert WeightedPick(heads, weight, fraction(draw), free, idx) < |free|;
    case ChannelPolicy =>
  }

  /** So a configuration with any of them is one that the theorems are about. */
  lemma PoliciesOk(c: Config, p: Policy)
    requires 0 < c.total && 0 < c.pages && 0 < c.units && 0 < c.heads && c.choose == Chooser(p, c.heads)
    ensures c.Ok()
  {
    hide Chooser;
    forall free, idx, draw | 0 < |free|
      ensures c.choose(free, idx, draw) < |free|
    {
      ChoosesWithin(p, c.heads, free, idx, draw);
    }
  }

  /** What each policy takes: first fit and the weighted choice a block of the channel asked for, if it has a free one,
      and first fit a least-worn one of those; the least-worn channel a least-worn block of its channel, which is not the
      one asked for if that is worn more throughout than some other. */
  lemma PolicyLaw(p: Policy, heads: nat, free: seq<Block>, idx: nat, draw: nat)
    requires 0 < heads && idx < heads && 0 < |free| && Ascending(free)
    ensures var k := Chooser(p, heads)(free, idx, draw);
      && k < |free|
      && (!p.ChannelPolicy? && HasOn(free, heads, idx) ==> OnChannel(free[k], heads, idx))
      && (!p.ChannelPolicy? && !HasOn(free, heads, idx) ==> k == 0)
      && (!p.WeightedPolicy? ==> forall j :: 0 <= j < |free| && free[j].idx % heads == free[k].idx % heads ==>
            free[k].eraseCount <= free[j].eraseCount)
      && (p.ChannelPolicy? ==> forall d: nat :: d < heads && HasOn(free, heads, d) && WornLess(free, heads, d, idx) ==>
            !OnChannel(free[k], heads, idx))
  {
    hide FirstFit, LeastWornChannel, Weighted, WornLess, OnChannel, HasOn;
    match p
    case FirstFitPolicy =>
      FirstFitLaw(heads, free, idx, draw);
    case WeightedPolicy(weight, fraction) =>
      WeightedLaw(heads, weight, fraction, free, idx, draw);
    case ChannelPolicy =>
      ChannelLaw(heads, free, idx, draw);
  }

  lemma FirstFitLaw(heads: nat, free: seq<Block>, idx: nat, draw: nat)
    requires 0 < heads && idx < heads && 0 < |free| && Ascending(free)
    ensures var k := FirstFit(heads)(free, idx, draw);
      && k < |free| && (if HasOn(free, heads, idx) then OnChannel(free[k], heads, idx) else k == 0)
      && forall j :: 0 <= j < |free| && free[j].idx % heads == free[k].idx % heads ==> free[k].eraseCount <= free[j].eraseCount
  {
    FirstFitIsLeastWorn(free, heads, idx, draw);
  }

  lemma WeightedLaw(heads: nat, weight: Block -> real, fraction: nat -> real, free: seq<Block>, idx: nat, draw: nat)
    requires 0 < heads && 0 < |free|
    ensures var k := Weighted(heads, weight, fraction)(free, idx, draw);
      k < |free| && if HasOn(free, heads, idx) then OnChannel(free[k], heads, idx) else k == 0
  {
    hide WeightsOf, Selected, Prefix, On, Candidates;
    assert WeightedPick(heads, weight, fraction(draw), free, idx) in Candidates(free, heads, idx);
  }

  lemma ChannelLaw(heads: nat, free: seq<Block>, idx: nat, draw: nat)
    requires 0 < heads && idx < heads && 0 < |free| && Ascending(free)
    ensures var k := LeastWornChannel(heads)(free, idx, draw);
      && k < |free|
      && (forall j :: 0 <= j < |free| && free[j].idx % heads == free[k].idx % heads ==> free[k].eraseCount <= free[j].eraseCount)
      && forall d: nat :: d < heads && HasOn(free, heads, d) && WornLess(free, heads, d, idx) ==> !OnChannel(free[k], heads, idx)
  {
    hide LeastWornChannel, WornLess;
    LeastWornChannelCorrect(free, heads, idx, draw);
    forall d: nat | d < heads && HasOn(free, heads, d) && WornLess(free, heads, d, idx)
      ensures !OnChannel(free[LeastWornChannel(heads)(free, idx, draw)], heads, idx)
    {
      WornChannelSpared(free, heads, idx, draw, d);
    }
  }

  /** The search loop for a free block on channel ch. */
  method Search(free: seq<Block>, heads: nat, ch: nat) returns (k: nat)
    requires 0 < heads && 0 < |free|
    ensures var r := FirstOn(free, heads, ch, 0); k == if r == |free| then 0 else r
  {
    k := 0;
    while k < |free| && free[k].idx % heads != ch
      invariant k <= |free| && FirstOn(free, heads, ch, k) == FirstOn(free, heads, ch, 0)
    {
      k := k + 1;
    }
    if k == |free| {
      k := 0;
    }
  }

  method SearchFirstFit(free: seq<Block>, heads: nat, idx: nat, ghost draw: nat) returns (k: nat)
    requires 0 < heads && 0 < |free|
    ensures k == FirstFit(heads)(free, idx, draw)
  {
    k := Search(free, heads, idx);
  }

  /** LA's per-channel sums and the channel of least average wear. */
  method SearchLeastWorn(free: seq<Block>, heads: nat, idx: nat, ghost draw: nat) returns (k: nat)
    requires 0 < heads && idx < heads && 0 < |free|
    ensures k == LeastWornChannel(heads)(free, idx, draw)
  {
    var sum := new nat[heads](_ => 0);
    var count := new nat[heads](_ => 0);
    for n := 0 to |free|
      invariant forall ch: nat :: ch < heads ==> sum[ch] == SumOn(free, heads, ch, n) && count[ch] == CountOn(free, heads, ch, n)
    {
      var ch := free[n].idx % heads;
      sum[ch] := sum[ch] + free[n].eraseCount;
      count[ch] := count[ch] + 1;
    }
    var target := idx;
    for ch := 0 to heads
      invariant target < heads && target == Coolest(free, heads, idx, ch)
    {
      if count[ch] == 0 {
        continue;
      }
      if count[target] == 0 || sum[ch] as real / count[ch] as real < sum[target] as real / count[target] as real {
        target := ch;
      }
    }
    k := Search(free, heads, target);
  }

  /** RBPA's candidate loop. */
  method CollectCandidates(free: seq<Block>, heads: nat, idx: nat) returns (cand: seq<nat>)
    requires 0 < heads && 0 < |free|
    ensures cand == Candidates(free, heads, idx)
  {
    cand := [];
    for n := 0 to |free|
      invariant cand == On(free, heads, idx, n)
    {
      if free[n].idx % heads == idx {
        cand := cand + [n];
      }
    }
    if |cand| == 0 {
      cand := [0];
    }
  }

  /** RBPA's weight loop: the weights and their running total. */
  method CollectWeights(free: seq<Block>, cand: seq<nat>, weight: Block -> real) returns (w: seq<real>, total: real)
    requires forall i :: 0 <= i < |cand| ==> cand[i] < |free|
    ensures w == WeightsOf(free, cand, weight) && total == Prefix(w, |w|)
  {
    ghost var all := WeightsOf(free, cand, weight);
    w := [];
    total := 0.0;
    for i := 0 to |cand|
      invariant |w| == i && w == all[..i] && total == Prefix(all, i)
    {
      w := w + [weight(free[cand[i]])];
      total := total + w[i];
    }
    assert w == all;
  }

  /** RBPA's accumulation loop. */
  method Accumulate(w: seq<real>, r: real) returns (sel: nat)
    requires 0 < |w|
    ensures sel == Spin(w, r, 0)
  {
    sel := 0;
    var acc := w[0];
    while !(r <= acc) && sel + 1 < |w|
      invariant sel < |w| && acc == Prefix(w, sel + 1) && Spin(w, r, sel) == Spin(w, r, 0)
    {
      sel := sel + 1;
      acc := acc + w[sel];
    }
  }

  method SearchWeighted(free: seq<Block>, heads: nat, idx: nat, weight: Block -> real, fraction: nat -> real, draw: nat)
    returns (k: nat)
    requires 0 < heads && 0 < |free|
    ensures k == Weighted(heads, weight, fraction)(free, idx, draw)
  {
    hide Selected;
    var cand := CollectCandidates(free, heads, idx);
    var w, total := CollectWeights(free, cand, weight);
    var sel := Select(w, total, fraction(draw));
    k := cand[sel];
  }

  method Select(w: seq<real>, total: real, fraction: real) returns (sel: nat)
    requires 0 < |w|
    ensures sel == Selected(w, total, fraction)
  {
    sel := 0;
    if total > 0.0 {
      sel := Accumulate(w, Scaled(fraction, total));
    }
  }

  method Choose(p: Policy, free: seq<Block>, heads: nat, idx: nat, draw: nat) returns (k: nat)
    requires 0 < heads && idx < heads && 0 < |free|
    ensures k == Chooser(p, heads)(free, idx, draw)
  {
    match p
    case FirstFitPolicy => k := SearchFirstFit(free, heads, idx, draw);
    case WeightedPolicy(weight, fraction) => k := SearchWeighted(free, heads, idx, weight, fraction, draw);
    case ChannelPolicy => k := SearchLeastWorn(free, heads, idx, draw);
  }

  // ---------------------------------------------------------------- victims

  predicate InCost(blocks: map<nat, Block>, cost: Block -> real, a: nat, b: nat)
    requires a in blocks && b in blocks
  {
    cost(blocks[a]) <= cost(blocks[b])
  }

  ghost predicate CostAscending(blocks: map<nat, Block>, cost: Block -> real, list: seq<nat>)
    requires InUse(blocks, list)
  {
    forall j, k :: 0 <= j <= k < |list| ==> InCost(blocks, cost, list[j], list[k])
  }

  /** One step of an insertion sort by cost. */
  method InsertByCost(blocks: map<nat, Block>, cost: Block -> real, list: seq<nat>, b: nat) returns (out: seq<nat>)
    requires InUse(blocks, list) && CostAscending(blocks, cost, list) && Different(list)
    requires b in blocks && b !in list
    ensures InUse(blocks, out) && CostAscending(blocks, cost, out) && Different(out)
    ensures |out| == |list| + 1 && forall x :: x in out <==> x == b || x in list
  {
    var k := |list|;
    while 0 < k && !InCost(blocks, cost, list[k - 1], b)
      invariant 0 <= k <= |list|
      invariant forall j :: k <= j < |list| ==> InCost(blocks, cost, b, list[j])
    {
      k := k - 1;
    }
    out := list[..k] + [b] + list[k..];
    assert forall j :: 0 <= j < k ==> InCost(blocks, cost, list[j], b);
  }

  /** calculateVictimWeight and selectVictimBlock: collect the full blocks, sort them by cost, take the first n. */
  method SelectVictims(c: Config, blocks: map<nat, Block>, cost: Block -> real, n: nat) returns (victims: seq<nat>)
    ensures Selection(c, blocks, cost, n, victims)
  {
    var weight: seq<nat> := [];
    var todo := blocks.Keys;
    while todo != {}
      invariant todo <= blocks.Keys
      invariant InUse(blocks, weight) && Different(weight)
      invariant forall b :: b in weight <==> b in blocks.Keys - todo && c.Full(blocks[b])
    {
      var b :| b in todo;
      todo := todo - {b};
      if c.Full(blocks[b]) {
        weight := weight + [b];
      }
    }
    var sorted: seq<nat> := [];
    for i := 0 to |weight|
      invariant InUse(blocks, sorted) && CostAscending(blocks, cost, sorted) && Different(sorted)
      invariant |sorted| == i && forall b :: b in sorted <==> b in weight[..i]
    {
      assert weight[i] !in weight[..i];
      sorted := InsertByCost(blocks, cost, sorted, weight[i]);
      assert weight[..i + 1] == weight[..i] + [weight[i]];
    }
    assert weight[..|weight|] == weight;
    var m := if n < |sorted| then n else |sorted|;
    victims := sorted[..m];
    forall b, k | b in blocks && c.Full(blocks[b]) && b !in victims && 0 <= k < |victims|
      ensures cost(blocks[victims[k]]) <= cost(blocks[b])
    {
      assert b in sorted;
      var j :| 0 <= j < |sorted| && sorted[j] == b;
      assert m <= j;
      assert InCost(blocks, cost, sorted[k], sorted[j]);
    }
    forall j, k | 0 <= j <= k < |victims|
      ensures cost(blocks[victims[j]]) <= cost(blocks[victims[k]])
    {
      assert InCost(blocks, cost, sorted[j], sorted[k]);
    }
  }

  // ---------------------------------------------------------------- sampling

  /** The positions drawn. */
  function Drawn(rolls: seq<nat>, k: nat): set<nat>
    requires k <= |rolls|
  {
    set j | 0 <= j < k :: rolls[j]
  }

  lemma DrawnNext(rolls: seq<nat>, k: nat)
    requires k < |rolls|
    ensures Drawn(rolls, k + 1) == Drawn(rolls, k) + {rolls[k]}
  {
  }

  lemma {:induction false} DrawnMore(rolls: seq<nat>, j: nat, k: nat)
    requires j <= k <= |rolls|
    ensures |Drawn(rolls, j)| <= |Drawn(rolls, k)|
  {
    SubsetCount(Drawn(rolls, j), Drawn(rolls, k));
  }

  /** The random and d-choice policies draw positions until `range` different full blocks are picked; None means that the
      draws given do not end the loop. They do exactly when they hold that many different positions; what is picked then
      lies at the positions first drawn. */
  method SampleVictims(weight: seq<nat>, range: nat, rolls: seq<nat>) returns (r: Option<seq<nat>>)
    requires Different(weight) && forall k :: 0 <= k < |rolls| ==> rolls[k] < |weight|
    ensures r.Some? <==> range <= |Drawn(rolls, |rolls|)|
    ensures r.Some? ==> |r.value| == range && Different(r.value) && forall x :: x in r.value ==> x in weight
    ensures r.Some? ==> exists k :: 0 <= k <= |rolls| && |Drawn(rolls, k)| == range && Picked(weight, Drawn(rolls, k), r.value)
  {
    hide Drawn;
    var selected: seq<nat> := [];
    var marked := new bool[|weight|](_ => false);
    var k := 0;
    NothingDrawn(rolls);
    while |selected| < range && k < |rolls|
      invariant k <= |rolls| && |selected| == |Drawn(rolls, k)| <= range
      invariant forall i :: 0 <= i < |weight| ==> (marked[i] <==> i in Drawn(rolls, k))
      invariant Picked(weight, Drawn(rolls, k), selected)
    {
      var idx := rolls[k];
      DrawnNext(rolls, k);
      if !marked[idx] {
        PickedMore(weight, Drawn(rolls, k), selected, idx);
        selected := selected + [weight[idx]];
        marked[idx] := true;
      } else {
        assert Drawn(rolls, k + 1) == Drawn(rolls, k);
      }
      k := k + 1;
    }
    DrawnMore(rolls, k, |rolls|);
    if |selected| < range {
      return None;
    }
    return Some(selected);
  }

  lemma NothingDrawn(rolls: seq<nat>)
    ensures Drawn(rolls, 0) == {}
  {
  }

  /** The blocks at these positions, each once. */
  ghost predicate Picked(weight: seq<nat>, positions: set<nat>, selected: seq<nat>) {
    && Different(selected) && (forall x :: x in selected ==> x in weight)
    && forall i :: 0 <= i < |weight| ==> (weight[i] in selected <==> i in positions)
  }

  lemma PickedMore(weight: seq<nat>, positions: set<nat>, selected: seq<nat>, idx: nat)
    requires Different(weight) && idx < |weight| && idx !in positions && Picked(weight, positions, selected)
    ensures Picked(weight, positions + {idx}, selected + [weight[idx]])
  {
    forall i | 0 <= i < |weight|
      ensures weight[i] in selected + [weight[idx]] <==> i in positions + {idx}
    {
    }
  }

  /** So the loop can end if and only if it asks for no more blocks than are full. */
  lemma SamplingEndsIff(full: nat, range: nat)
    ensures (exists rolls: seq<nat> :: (forall k :: 0 <= k < |rolls| ==> rolls[k] < full) && range <= |Drawn(rolls, |rolls|)|)
       <==> range <= full
  {
    if range <= full {
      var rolls := seq(range, k requires 0 <= k < range => k as nat);
      forall x | x in Below(range)
        ensures x in Drawn(rolls, range)
      {
        assert rolls[x] == x;
      }
      assert Drawn(rolls, range) == Below(range);
      BelowCount(range);
      assert (forall k :: 0 <= k < |rolls| ==> rolls[k] < full) && range <= |Drawn(rolls, |rolls|)|;
    }
    forall rolls: seq<nat> | forall k :: 0 <= k < |rolls| ==> rolls[k] < full
      ensures |Drawn(rolls, |rolls|)| <= full
    {
      BelowCount(full);
      SubsetCount(Drawn(rolls, |rolls|), Below(full));
    }
  }
}
