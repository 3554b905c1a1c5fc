/**
 The allocation policies (first fit of PageMapping and WLPageMapping, the weighted choice of RBPAPageMapping, the
 least-worn channel of LAPageMapping) and the victim costs, over the reals where the source uses floats.
 */
module FtlPolicies {
  import opened Ftl
  import opened FtlWear

  /** A channel (parallel unit) is a residue of block indices modulo the number of write heads. */
  predicate OnChannel(b: Block, heads: nat, ch: nat)
    requires 0 < heads
  {
    b.idx % heads == ch
  }

  /** The first position from k on whose block lies on channel ch; the length of the list if there is none. */
  function FirstOn(free: seq<Block>, heads: nat, ch: nat, k: nat): (r: nat)
    requires 0 < heads && k <= |free|
    ensures k <= r <= |free|
    ensures forall j :: k <= j < r ==> !OnChannel(free[j], heads, ch)
    ensures r < |free| ==> OnChannel(free[r], heads, ch)
    decreases |free| - k
  {
    if k == |free| || OnChannel(free[k], heads, ch) then k else FirstOn(free, heads, ch, k + 1)
  }

  /** First fit: a block on the channel, or the front of the list. */
  function FirstFit(heads: nat): (seq<Block>, nat, nat) -> nat {
    (free: seq<Block>, idx: nat, draw: nat) =>
      if heads == 0 then 0
      else var k := FirstOn(free, heads, idx, 0); if k == |free| then 0 else k
  }

  ghost predicate HasOn(free: seq<Block>, heads: nat, ch: nat)
    requires 0 < heads
  {
    exists k :: 0 <= k < |free| && OnChannel(free[k], heads, ch)
  }

  /** On a sorted list first fit takes a least-worn block of the channel, or a least-worn one overall when the
      channel has no free block. */
  lemma FirstFitIsLeastWorn(free: seq<Block>, heads: nat, idx: nat, draw: nat)
    requires 0 < heads && 0 < |free| && Ascending(free)
    ensures var k := FirstFit(heads)(free, idx, draw);
      && k < |free|
      && (HasOn(free, heads, idx) ==>
            && OnChannel(free[k], heads, idx)
            && forall j :: 0 <= j < |free| && OnChannel(free[j], heads, idx) ==> free[k].eraseCount <= free[j].eraseCount)
      && (!HasOn(free, heads, idx) ==> forall j :: 0 <= j < |free| ==> free[k].eraseCount <= free[j].eraseCount)
  {
  }

  // ---------------------------------------------------------------- LA: the least-worn channel

  /** Erase counts summed and blocks counted on channel ch over the first n blocks of the list. */
  function SumOn(free: seq<Block>, heads: nat, ch: nat, n: nat): nat
    requires 0 < heads && n <= |free|
  {
    if n == 0 then 0
    else SumOn(free, heads, ch, n - 1) + if OnChannel(free[n - 1], heads, ch) then free[n - 1].eraseCount else 0
  }

  function CountOn(free: seq<Block>, heads: nat, ch: nat, n: nat): (r: nat)
    requires 0 < heads && n <= |free|
    ensures r > 0 <==> exists k :: 0 <= k < n && OnChannel(free[k], heads, ch)
  {
    if n == 0 then 0
    else CountOn(free, heads, ch, n - 1) + if OnChannel(free[n - 1], heads, ch) then 1 else 0
  }

  function AverageOn(free: seq<Block>, heads: nat, ch: nat): real
    requires 0 < heads && CountOn(free, heads, ch, |free|) > 0
  {
    SumOn(free, heads, ch, |free|) as real / CountOn(free, heads, ch, |free|) as real
  }

  /** The channel LA ends up with after looking at the channels below n, starting from `best`. */
  function Coolest(free: seq<Block>, heads: nat, best: nat, n: nat): nat
    requires 0 < heads && best < heads && n <= heads
    decreases n
  {
    if n == 0 then best
    else
      var t := Coolest(free, heads, best, n - 1);
      if CountOn(free, heads, n - 1, |free|) == 0 then t
      else if CountOn(free, heads, t, |free|) == 0 || AverageOn(free, heads, n - 1) < AverageOn(free, heads, t) then n - 1
      else t
  }

  function LeastWornChannel(heads: nat): (seq<Block>, nat, nat) -> nat {
    (free: seq<Block>, idx: nat, draw: nat) =>
      if heads == 0 || idx >= heads then 0
      else
        var ch := Coolest(free, heads, idx, heads);
        var k := FirstOn(free, heads, ch, 0);
        if k == |free| then 0 else k
  }

  lemma {:induction false} CoolestIsLeast(free: seq<Block>, heads: nat, best: nat, n: nat)
    requires 0 < heads && best < heads && n <= heads
    ensures var t := Coolest(free, heads, best, n);
      && t < heads
      && (t == best || (t < n && CountOn(free, heads, t, |free|) > 0))
      && (CountOn(free, heads, best, |free|) > 0 ==> CountOn(free, heads, t, |free|) > 0)
      && (forall ch: nat :: ch < n && CountOn(free, heads, ch, |free|) > 0 ==>
            CountOn(free, heads, t, |free|) > 0 && AverageOn(free, heads, t) <= AverageOn(free, heads, ch))
      && (t != best && CountOn(free, heads, best, |free|) > 0 ==> AverageOn(free, heads, t) < AverageOn(free, heads, best))
    decreases n
  {
    if n > 0 { CoolestIsLeast(free, heads, best, n - 1); }
  }

  /** Whenever a free block exists, LA takes one from a channel of least average wear among the channels that have
      free blocks, the requested channel on a tie, and on a sorted list a least-worn block of that channel; its
      "just use first one" fallback is never reached. */
  lemma LeastWornChannelCorrect(free: seq<Block>, heads: nat, idx: nat, draw: nat)
    requires 0 < heads && idx < heads && 0 < |free| && Ascending(free)
    ensures var ch := Coolest(free, heads, idx, heads); var k := LeastWornChannel(heads)(free, idx, draw);
      && ch < heads && CountOn(free, heads, ch, |free|) > 0
      && (forall d: nat :: d < heads && CountOn(free, heads, d, |free|) > 0 ==> AverageOn(free, heads, ch) <= AverageOn(free, heads, d))
      && (CountOn(free, heads, idx, |free|) > 0 && AverageOn(free, heads, idx) <= AverageOn(free, heads, ch) ==> ch == idx)
      && FirstOn(free, heads, ch, 0) < |free|
      && k < |free| && OnChannel(free[k], heads, ch)
      && forall j :: 0 <= j < |free| && OnChannel(free[j], heads, ch) ==> free[k].eraseCount <= free[j].eraseCount
  {
    CoolestIsLeast(free, heads, idx, heads);
    assert OnChannel(free[0], heads, free[0].idx % heads);
    assert CountOn(free, heads, free[0].idx % heads, |free|) > 0;
  }

  /** Erases of a block, and the block itself, if it lies on channel ch. */
  function ErasesOn(heads: nat, ch: nat): Block -> int
    requires 0 < heads
  {
    (b: Block) => if OnChannel(b, heads, ch) then b.eraseCount else 0
  }

  function OneOn(heads: nat, ch: nat): Block -> int
    requires 0 < heads
  {
    (b: Block) => if OnChannel(b, heads, ch) then 1 else 0
  }

  /** What LA adds up is the erase counts of the channel's free blocks, and their number. */
  lemma {:induction false} SumOnIs(free: seq<Block>, heads: nat, ch: nat, n: nat)
    requires 0 < heads && n <= |free|
    ensures SumOn(free, heads, ch, n) == SumList(ErasesOn(heads, ch), free[..n])
    ensures CountOn(free, heads, ch, n) == SumList(OneOn(heads, ch), free[..n])
  {
    if n > 0 {
      SumOnIs(free, heads, ch, n - 1);
      assert free[..n] == free[..n - 1] + [free[n - 1]];
      SumListConcat(ErasesOn(heads, ch), free[..n - 1], [free[n - 1]]);
      SumListConcat(OneOn(heads, ch), free[..n - 1], [free[n - 1]]);
    }
  }

  lemma {:induction false} ErasesBetween(list: seq<Block>, heads: nat, ch: nat, lo: int, hi: int)
    requires 0 < heads
    requires forall k :: 0 <= k < |list| && OnChannel(list[k], heads, ch) ==> lo <= list[k].eraseCount <= hi
    ensures 0 <= SumList(OneOn(heads, ch), list)
    ensures lo * SumList(OneOn(heads, ch), list) <= SumList(ErasesOn(heads, ch), list) <= hi * SumList(OneOn(heads, ch), list)
  {
    if |list| > 0 {
      ErasesBetween(list[1..], heads, ch, lo, hi);
      OneMore(lo, SumList(OneOn(heads, ch), list[1..]));
      OneMore(hi, SumList(OneOn(heads, ch), list[1..]));
    }
  }

  lemma OneMore(a: int, n: int)
    ensures a * (1 + n) == a + a * n
  {
  }

  lemma {:induction false} ErasesBetweenInUse(blocks: map<nat, Block>, n: nat, heads: nat, ch: nat, lo: int, hi: int)
    requires 0 < heads
    requires forall k :: k in blocks && OnChannel(blocks[k], heads, ch) ==> lo <= blocks[k].eraseCount <= hi
    ensures 0 <= SumInUse(OneOn(heads, ch), blocks, n)
    ensures lo * SumInUse(OneOn(heads, ch), blocks, n) <= SumInUse(ErasesOn(heads, ch), blocks, n)
         <= hi * SumInUse(OneOn(heads, ch), blocks, n)
  {
    if n > 0 {
      ErasesBetweenInUse(blocks, n - 1, heads, ch, lo, hi);
      OneMore(lo, SumInUse(OneOn(heads, ch), blocks, n - 1));
      OneMore(hi, SumInUse(OneOn(heads, ch), blocks, n - 1));
    }
  }

  lemma Quotient(sum: int, n: int, lo: int, hi: int)
    requires 0 < n && lo * n <= sum <= hi * n
    ensures lo as real <= sum as real / n as real <= hi as real
  {
    var q := sum as real / n as real;
    assert q * n as real == sum as real;
    assert lo as real * n as real == (lo * n) as real;
    assert hi as real * n as real == (hi * n) as real;
    SmallerFactor(lo as real, q, n as real);
    SmallerFactor(q, hi as real, n as real);
  }

  lemma SmallerFactor(a: real, b: real, n: real)
    requires 0.0 < n && a * n <= b * n
    ensures a <= b
  {
    assert (a - b) * n <= 0.0;
  }

  /** The average lies between any bounds on the erase counts of the channel's free blocks. */
  lemma AverageBetween(free: seq<Block>, heads: nat, ch: nat, lo: int, hi: int)
    requires 0 < heads && CountOn(free, heads, ch, |free|) > 0
    requires forall k :: 0 <= k < |free| && OnChannel(free[k], heads, ch) ==> lo <= free[k].eraseCount <= hi
    ensures lo as real <= AverageOn(free, heads, ch) <= hi as real
  {
    SumOnIs(free, heads, ch, |free|);
    assert free[..|free|] == free;
    ErasesBetween(free, heads, ch, lo, hi);
    Quotient(SumOn(free, heads, ch, |free|), CountOn(free, heads, ch, |free|), lo, hi);
  }

  /** Every free block of channel a is worn less than every free block of channel b. */
  ghost predicate WornLess(free: seq<Block>, heads: nat, a: nat, b: nat)
    requires 0 < heads
  {
    forall j, k :: 0 <= j < |free| && OnChannel(free[j], heads, a) && 0 <= k < |free| && OnChannel(free[k], heads, b) ==>
      free[j].eraseCount < free[k].eraseCount
  }

  /** A requested channel whose free blocks are all worn more than those of some other channel is passed over. */
  lemma WornChannelSpared(free: seq<Block>, heads: nat, idx: nat, draw: nat, d: nat)
    requires 0 < heads && idx < heads && d < heads && Ascending(free)
    requires HasOn(free, heads, d) && WornLess(free, heads, d, idx)
    ensures var k := LeastWornChannel(heads)(free, idx, draw);
      k < |free| && !OnChannel(free[k], heads, idx)
  {
    hide Coolest, LeastWornChannel, AverageOn;
    LeastWornChannelCorrect(free, heads, idx, draw);
    var j :| 0 <= j < |free| && OnChannel(free[j], heads, d);
    assert CountOn(free, heads, d, |free|) > 0;
    if CountOn(free, heads, idx, |free|) > 0 {
      var k := FirstOn(free, heads, idx, 0);
      var m, top := free[k].eraseCount, free[|free| - 1].eraseCount;
      AverageBetween(free, heads, d, 0, m - 1);
      AverageBetween(free, heads, idx, m, top);
    }
  }

  // ---------------------------------------------------------------- RBPA: a choice weighted by remaining budget

  /** Positions of the free blocks on channel ch below n, in list order. */
  function On(free: seq<Block>, heads: nat, ch: nat, n: nat): (r: seq<nat>)
    requires 0 < heads && n <= |free|
    ensures forall i :: 0 <= i < |r| ==> r[i] < n && OnChannel(free[r[i]], heads, ch)
    ensures forall i, j :: 0 <= i < j < |r| ==> r[i] < r[j]
    ensures forall k :: 0 <= k < n && OnChannel(free[k], heads, ch) ==> k in r
  {
    if n == 0 then []
    else On(free, heads, ch, n - 1) + if OnChannel(free[n - 1], heads, ch) then [n - 1] else []
  }

  /** The candidates: the channel's free blocks, or the front of the list when it has none. */
  function Candidates(free: seq<Block>, heads: nat, idx: nat): (r: seq<nat>)
    requires 0 < heads
    ensures |r| > 0
    ensures 0 < |free| ==> forall i :: 0 <= i < |r| ==> r[i] < |free|
    ensures HasOn(free, heads, idx) ==> forall i :: 0 <= i < |r| ==> r[i] < |free| && OnChannel(free[r[i]], heads, idx)
    ensures forall k :: 0 <= k < |free| && OnChannel(free[k], heads, idx) ==> k in r
    ensures !HasOn(free, heads, idx) ==> r == [0]
    ensures forall i, j :: 0 <= i < j < |r| ==> r[i] < r[j]
  {
    var r := On(free, heads, idx, |free|);
    if |r| == 0 then [0]
    else
      assert OnChannel(free[r[0]], heads, idx);
      r
  }

  function Prefix(w: seq<real>, n: nat): real
    requires n <= |w|
  {
    if n == 0 then 0.0 else Prefix(w, n - 1) + w[n - 1]
  }

  /** The accumulating loop: the first position whose running sum reaches r, or the last one. */
  function Spin(w: seq<real>, r: real, i: nat): (k: nat)
    requires i < |w|
    ensures i <= k < |w|
    decreases |w| - i
  {
    if r <= Prefix(w, i + 1) || i + 1 == |w| then i else Spin(w, r, i + 1)
  }

  lemma {:induction false} PrefixGrows(w: seq<real>, i: nat, j: nat)
    requires i <= j <= |w| && forall k :: 0 <= k < |w| ==> 0.0 < w[k]
    ensures Prefix(w, i) <= Prefix(w, j) && (i < j ==> Prefix(w, i) < Prefix(w, j))
    decreases j
  {
    if i < j { PrefixGrows(w, i, j - 1); }
  }

  lemma {:induction false} SpinFrom(w: seq<real>, r: real, i: nat, k: nat)
    requires forall j :: 0 <= j < |w| ==> 0.0 < w[j]
    requires i <= k < |w| && Prefix(w, i) < r <= Prefix(w, |w|)
    ensures Spin(w, r, i) == k <==> Prefix(w, k) < r <= Prefix(w, k + 1)
    decreases |w| - i
  {
    PrefixGrows(w, i + 1, k + 1);
    PrefixGrows(w, k + 1, |w|);
    if r <= Prefix(w, i + 1) || i + 1 == |w| {
      if k > i { PrefixGrows(w, i + 1, k); }
    } else if k > i {
      SpinFrom(w, r, i + 1, k);
    } else {
      assert Spin(w, r, i) == Spin(w, r, i + 1) >= i + 1;
    }
  }

  /** A draw from the uniform distribution over [0, total], as a fraction of the total. */
  function Scaled(fraction: real, total: real): real {
    fraction * total
  }

  /** The selected position: without any weight the first one. */
  function Selected(w: seq<real>, total: real, fraction: real): (k: nat)
    requires 0 < |w|
    ensures k < |w|
  {
    if total > 0.0 then Spin(w, Scaled(fraction, total), 0) else 0
  }

  function WeightedPick(heads: nat, weight: Block -> real, fraction: real, free: seq<Block>, idx: nat): (k: nat)
    requires 0 < heads && 0 < |free|
    ensures k < |free| && k in Candidates(free, heads, idx)
    ensures HasOn(free, heads, idx) ==> OnChannel(free[k], heads, idx)
  {
    var cand := Candidates(free, heads, idx);
    var w := WeightsOf(free, cand, weight);
    cand[Selected(w, Prefix(w, |w|), fraction)]
  }

  /** `weight(b)` stands for (remaining budget + 1)^exponent; `fraction(draw)` for the uniform draw, in [0, 1]. */
  function Weighted(heads: nat, weight: Block -> real, fraction: nat -> real): (seq<Block>, nat, nat) -> nat {
    (free: seq<Block>, idx: nat, draw: nat) =>
      if heads == 0 || |free| == 0 then 0 else WeightedPick(heads, weight, fraction(draw), free, idx)
  }

  function WeightsOf(free: seq<Block>, cand: seq<nat>, weight: Block -> real): (r: seq<real>)
    ensures |r| == |cand|
    ensures forall i :: 0 <= i < |cand| && cand[i] < |free| ==> r[i] == weight(free[cand[i]])
  {
    seq(|cand|, i requires 0 <= i < |cand| => if cand[i] < |free| then weight(free[cand[i]]) else 0.0)
  }

  lemma {:induction false} PrefixOfPositive(w: seq<real>, n: nat)
    requires n <= |w| && forall j :: 0 <= j < |w| ==> 0.0 < w[j]
    ensures 0.0 <= Prefix(w, n) && (0 < n ==> 0.0 < Prefix(w, n))
  {
    if n > 0 { PrefixOfPositive(w, n - 1); }
  }

  /** The interval of draws for which the accumulating loop stops at k. */
  predicate Lands(w: seq<real>, r: real, k: nat)
    requires k < |w|
  {
    (k == 0 || Prefix(w, k) < r) && r <= Prefix(w, k) + w[k]
  }

  lemma SpinLands(w: seq<real>, r: real, k: nat)
    requires k < |w| && forall j :: 0 <= j < |w| ==> 0.0 < w[j]
    requires 0.0 <= r <= Prefix(w, |w|)
    ensures Spin(w, r, 0) == k <==> Lands(w, r, k)
  {
    PrefixOfPositive(w, k);
    if r == 0.0 {
      PrefixOfPositive(w, 1);
      assert Spin(w, r, 0) == 0;
    } else {
      SpinFrom(w, r, 0, k);
    }
  }

  /** RBPA picks candidate k exactly when the draw, scaled to the total weight, falls into an interval as long as
      the candidate's weight: each candidate is picked in proportion to its weight, and candidates are the free
      blocks of the channel whenever it has any. */
  lemma WeightedIsProportional(heads: nat, weight: Block -> real, fraction: nat -> real, free: seq<Block>, idx: nat, draw: nat, k: nat)
    requires 0 < heads && 0 < |free| && forall b :: 0.0 < weight(b)
    requires 0.0 <= fraction(draw) <= 1.0
    requires k < |Candidates(free, heads, idx)|
    ensures var cand := Candidates(free, heads, idx); var w := WeightsOf(free, cand, weight);
      (Weighted(heads, weight, fraction)(free, idx, draw) == cand[k]) == Lands(w, fraction(draw) * Prefix(w, |w|), k)
  {
    hide Lands, Weighted, Candidates, Prefix;
    var w := WeightsOf(free, Candidates(free, heads, idx), weight);
    WeightedLands(heads, weight, fraction, free, idx, draw, k);
    ScaledIs(fraction(draw), Prefix(w, |w|));
  }

  /** The stretches of the candidates follow each other without a gap, each as long as the candidate's weight. */
  lemma PrefixAddsUp(free: seq<Block>, cand: seq<nat>, weight: Block -> real, k: nat)
    requires k < |cand| && forall j :: 0 <= j < |cand| ==> cand[j] < |free|
    ensures var w := WeightsOf(free, cand, weight);
      Prefix(w, 0) == 0.0 && Prefix(w, k + 1) - Prefix(w, k) == weight(free[cand[k]])
  {
  }

  /** RBPA's weight: a power of the erases that a block has left, and one. */
  function BudgetWeight(threshold: nat, power: nat -> real): Block -> real {
    (b: Block) => power((if threshold > b.eraseCount then threshold - b.eraseCount else 0) + 1)
  }

  /** Of two candidates the one worn less has the longer stretch, whatever increasing power it is. */
  lemma FresherIsLikelier(free: seq<Block>, cand: seq<nat>, threshold: nat, power: nat -> real, j: nat, k: nat)
    requires j < |cand| && k < |cand| && forall i :: 0 <= i < |cand| ==> cand[i] < |free|
    requires forall m: nat, n: nat :: m < n ==> power(m) < power(n)
    ensures var w := WeightsOf(free, cand, BudgetWeight(threshold, power));
      var a, b := free[cand[j]].eraseCount, free[cand[k]].eraseCount;
      && (a < b && a < threshold ==> Prefix(w, j + 1) - Prefix(w, j) > Prefix(w, k + 1) - Prefix(w, k))
      && (a == b || (threshold <= a && threshold <= b) ==> Prefix(w, j + 1) - Prefix(w, j) == Prefix(w, k + 1) - Prefix(w, k))
  {
    hide Prefix;
    PrefixAddsUp(free, cand, BudgetWeight(threshold, power), j);
    PrefixAddsUp(free, cand, BudgetWeight(threshold, power), k);
  }

  lemma ScaledIs(f: real, total: real)
    ensures Scaled(f, total) == f * total
  {
  }

  lemma WeightedLands(heads: nat, weight: Block -> real, fraction: nat -> real, free: seq<Block>, idx: nat, draw: nat, k: nat)
    requires 0 < heads && 0 < |free| && forall b :: 0.0 < weight(b)
    requires 0.0 <= fraction(draw) <= 1.0
    requires k < |Candidates(free, heads, idx)|
    ensures var cand := Candidates(free, heads, idx); var w := WeightsOf(free, cand, weight);
      (Weighted(heads, weight, fraction)(free, idx, draw) == cand[k]) == Lands(w, Scaled(fraction(draw), Prefix(w, |w|)), k)
  {
    hide Lands, Scaled;
    var cand := Candidates(free, heads, idx);
    var w := WeightsOf(free, cand, weight);
    var total := Prefix(w, |w|);
    PrefixOfPositive(w, |w|);
    ScaledDraw(fraction(draw), total);
    var r := Scaled(fraction(draw), total);
    SpinLands(w, r, k);
    var i := Spin(w, r, 0);
    assert WeightedPick(heads, weight, fraction(draw), free, idx) == cand[i];
    assert (cand[i] == cand[k]) == (i == k);
  }

  lemma ScaledDraw(f: real, total: real)
    requires 0.0 <= f <= 1.0 && 0.0 <= total
    ensures 0.0 <= Scaled(f, total) <= total
  {
    Monotone(0.0, f, total);
    Monotone(f, 1.0, total);
  }

  lemma Monotone(a: real, b: real, t: real)
    requires a <= b && 0.0 <= t
    ensures a * t <= b * t
  {
  }

  // ---------------------------------------------------------------- victim costs

  /** The baseline: valid units. */
  function Greedy(): Block -> real {
    (b: Block) => |b.valid| as real
  }

  /** WL: valid units plus lambda times the erase count. */
  function WearAware(scale: real, pages: nat, threshold: nat): Block -> real {
    (b: Block) => |b.valid| as real + (if threshold > 0 then scale * pages as real / threshold as real else 0.0) * b.eraseCount as real
  }

  /** RBPA: valid units plus the scaled worn fraction; the threshold is cut to 32 bits before the minimum. */
  function BudgetAware(scale: real, pages: nat, threshold: nat): Block -> real {
    (b: Block) =>
      var cap := threshold % 0x1_0000_0000;
      var worn := if threshold > 0 then (if b.eraseCount < cap then b.eraseCount else cap) as real / threshold as real else 0.0;
      |b.valid| as real + scale * worn * pages as real
  }

  /** Erases of a channel's blocks, in use and free, and their number. */
  function ChannelErases(blocks: map<nat, Block>, free: seq<Block>, total: nat, heads: nat, ch: nat): int
    requires 0 < heads
  {
    SumInUse(ErasesOn(heads, ch), blocks, total) + SumList(ErasesOn(heads, ch), free)
  }

  function ChannelBlocks(blocks: map<nat, Block>, free: seq<Block>, total: nat, heads: nat, ch: nat): int
    requires 0 < heads
  {
    SumInUse(OneOn(heads, ch), blocks, total) + SumList(OneOn(heads, ch), free)
  }

  function ChannelWear(blocks: map<nat, Block>, free: seq<Block>, total: nat, heads: nat, ch: nat): real
    requires 0 < heads
  {
    var n := ChannelBlocks(blocks, free, total, heads, ch);
    if n > 0 then ChannelErases(blocks, free, total, heads, ch) as real / n as real else 0.0
  }

  /** Sum of the first n channels' average wear, and how many of them have blocks. */
  function WearOfChannels(blocks: map<nat, Block>, free: seq<Block>, total: nat, heads: nat, n: nat): (real, nat)
    requires 0 < heads
  {
    if n == 0 then (0.0, 0)
    else
      var (sum, count) := WearOfChannels(blocks, free, total, heads, n - 1);
      if ChannelBlocks(blocks, free, total, heads, n - 1) > 0
      then (sum + ChannelWear(blocks, free, total, heads, n - 1), count + 1) else (sum, count)
  }

  function MeanWear(blocks: map<nat, Block>, free: seq<Block>, total: nat, heads: nat): real
    requires 0 < heads
  {
    var (sum, count) := WearOfChannels(blocks, free, total, heads, heads);
    if count > 0 then sum / count as real else sum
  }

  /** A channel's wear lies between any bounds on the erase counts of its blocks, in use and free. */
  lemma ChannelWearBetween(blocks: map<nat, Block>, free: seq<Block>, total: nat, heads: nat, ch: nat, lo: int, hi: int)
    requires 0 < heads && ChannelBlocks(blocks, free, total, heads, ch) > 0
    requires forall k :: k in blocks && OnChannel(blocks[k], heads, ch) ==> lo <= blocks[k].eraseCount <= hi
    requires forall k :: 0 <= k < |free| && OnChannel(free[k], heads, ch) ==> lo <= free[k].eraseCount <= hi
    ensures lo as real <= ChannelWear(blocks, free, total, heads, ch) <= hi as real
  {
    hide SumInUse, SumList;
    ErasesBetween(free, heads, ch, lo, hi);
    ErasesBetweenInUse(blocks, total, heads, ch, lo, hi);
    var n, m := SumInUse(OneOn(heads, ch), blocks, total), SumList(OneOn(heads, ch), free);
    Shared(lo, n, m);
    Shared(hi, n, m);
    Quotient(ChannelErases(blocks, free, total, heads, ch), ChannelBlocks(blocks, free, total, heads, ch), lo, hi);
  }

  lemma Shared(a: int, n: int, m: int)
    ensures a * (n + m) == a * n + a * m
  {
  }

  /** How far the first n channels with blocks are above the mean, taken together. */
  function Above(blocks: map<nat, Block>, free: seq<Block>, total: nat, heads: nat, mean: real, n: nat): real
    requires 0 < heads
  {
    if n == 0 then 0.0
    else
      Above(blocks, free, total, heads, mean, n - 1)
      + if ChannelBlocks(blocks, free, total, heads, n - 1) > 0 then ChannelWear(blocks, free, total, heads, n - 1) - mean else 0.0
  }

  /** The mean is that of the channels: what some are above it, others are below. */
  lemma MeanBalances(blocks: map<nat, Block>, free: seq<Block>, total: nat, heads: nat)
    requires 0 < heads
    ensures Above(blocks, free, total, heads, MeanWear(blocks, free, total, heads), heads) == 0.0
  {
    hide ChannelWear, ChannelBlocks, WearOfChannels, Above;
    var mean := MeanWear(blocks, free, total, heads);
    AboveIs(blocks, free, total, heads, mean, heads);
    NoneCounted(blocks, free, total, heads, heads);
    var (sum, count) := WearOfChannels(blocks, free, total, heads, heads);
    if count > 0 { assert count as real * mean == sum; }
  }

  lemma {:induction false} AboveIs(blocks: map<nat, Block>, free: seq<Block>, total: nat, heads: nat, mean: real, n: nat)
    requires 0 < heads
    ensures var (sum, count) := WearOfChannels(blocks, free, total, heads, n);
      Above(blocks, free, total, heads, mean, n) == sum - count as real * mean
  {
    hide ChannelWear, ChannelBlocks, WearOfChannels, Above;
    NextChannel(blocks, free, total, heads, mean, n);
    if n > 0 {
      AboveIs(blocks, free, total, heads, mean, n - 1);
      var (sum, count) := WearOfChannels(blocks, free, total, heads, n - 1);
      OneAbove(sum, count, mean, ChannelWear(blocks, free, total, heads, n - 1));
    }
  }

  lemma NextChannel(blocks: map<nat, Block>, free: seq<Block>, total: nat, heads: nat, mean: real, n: nat)
    requires 0 < heads
    ensures n == 0 ==> WearOfChannels(blocks, free, total, heads, n) == (0.0, 0) && Above(blocks, free, total, heads, mean, n) == 0.0
    ensures n > 0 ==>
      var wear, has := ChannelWear(blocks, free, total, heads, n - 1), ChannelBlocks(blocks, free, total, heads, n - 1) > 0;
      var (sum, count) := WearOfChannels(blocks, free, total, heads, n - 1);
      && WearOfChannels(blocks, free, total, heads, n) == (if has then (sum + wear, count + 1) else (sum, count))
      && Above(blocks, free, total, heads, mean, n) == Above(blocks, free, total, heads, mean, n - 1) + if has then wear - mean else 0.0
  {
    hide ChannelWear, ChannelBlocks;
  }

  lemma OneAbove(sum: real, count: nat, mean: real, wear: real)
    ensures (sum + wear) - (count + 1) as real * mean == (sum - count as real * mean) + (wear - mean)
  {
    assert (count + 1) as real == count as real + 1.0;
  }

  lemma {:induction false} NoneCounted(blocks: map<nat, Block>, free: seq<Block>, total: nat, heads: nat, n: nat)
    requires 0 < heads
    ensures var (sum, count) := WearOfChannels(blocks, free, total, heads, n); count == 0 ==> sum == 0.0
  {
    hide ChannelWear, ChannelBlocks;
    if n > 0 {
      NoneCounted(blocks, free, total, heads, n - 1);
    }
  }

  function Bias(wear: real, mean: real, alpha: real): real {
    if mean > 0.0 then (wear - mean) / mean * alpha else 0.0
  }

  /** LA: valid units less a share of the channel's wear above the mean over the channels. */
  function LoadAdaptive(scale: real, pages: nat, total: nat, heads: nat): (map<nat, Block>, seq<Block>) -> Block -> real
    requires 0 < heads
  {
    (blocks: map<nat, Block>, free: seq<Block>) =>
      var mean := MeanWear(blocks, free, total, heads);
      (b: Block) =>
        |b.valid| as real - Bias(ChannelWear(blocks, free, total, heads, b.idx % heads), mean, pages as real * scale)
  }

  /** A block with u valid units on a channel of wear x is preferred to one with v on a channel of wear y only if it has
      no more of them, or its channel is worn more, by as much as the units it has more are worth. */
  ghost predicate WornEnough(u: real, x: real, v: real, y: real, mean: real, alpha: real) {
    && (x == y ==> u <= v)
    && (u >= v ==> x >= y)
    && (u - v) * mean <= (x - y) * alpha
  }

  /** What LA's victims leave out: in a victim's own channel, only full blocks with at least as many valid units; in
      another channel, only blocks that are preferred less for the wear of their channel. */
  lemma LoadAdaptiveVictims(c: Config, scale: real, blocks: map<nat, Block>, free: seq<Block>, n: nat, out: seq<nat>, k: nat, z: nat)
    requires 0 < c.heads && 0 < c.pages && 0.0 < scale && 0.0 < MeanWear(blocks, free, c.total, c.heads)
    requires Selection(c, blocks, LoadAdaptive(scale, c.pages, c.total, c.heads)(blocks, free), n, out)
    requires k < |out| && z in blocks && c.Full(blocks[z]) && z !in out
    ensures out[k] in blocks
    ensures var a, left := blocks[out[k]], blocks[z];
      WornEnough(|a.valid| as real, ChannelWear(blocks, free, c.total, c.heads, a.idx % c.heads),
                 |left.valid| as real, ChannelWear(blocks, free, c.total, c.heads, left.idx % c.heads),
                 MeanWear(blocks, free, c.total, c.heads), c.pages as real * scale)
  {
    hide LoadAdaptive, ChannelWear, MeanWear, WornEnough;
    LoadAdaptiveTrade(scale, c.pages, c.total, c.heads, blocks, free, blocks[out[k]], blocks[z]);
  }

  /** If the blocks of the victim's channel are all worn less than those of the channel of a full block left out, the victim
      has fewer valid units. */
  lemma LoadAdaptiveWear(c: Config, scale: real, blocks: map<nat, Block>, free: seq<Block>, n: nat, out: seq<nat>, k: nat, z: nat, m: nat)
    requires 0 < c.heads && 0 < c.pages && 0.0 < scale && 0.0 < MeanWear(blocks, free, c.total, c.heads)
    requires Selection(c, blocks, LoadAdaptive(scale, c.pages, c.total, c.heads)(blocks, free), n, out)
    requires k < |out| && z in blocks && c.Full(blocks[z]) && z !in out
    requires out[k] in blocks && forall b :: b in blocks ==> b < c.total
    requires forall b :: b in blocks ==>
      && (OnChannel(blocks[b], c.heads, blocks[out[k]].idx % c.heads) ==> blocks[b].eraseCount < m)
      && (OnChannel(blocks[b], c.heads, blocks[z].idx % c.heads) ==> m <= blocks[b].eraseCount)
    requires forall j :: 0 <= j < |free| ==>
      && (OnChannel(free[j], c.heads, blocks[out[k]].idx % c.heads) ==> free[j].eraseCount < m)
      && (OnChannel(free[j], c.heads, blocks[z].idx % c.heads) ==> m <= free[j].eraseCount)
    ensures |blocks[out[k]].valid| < |blocks[z].valid|
  {
    hide LoadAdaptive, ChannelWear, MeanWear, Selection, ChannelBlocks, Config.Full;
    LoadAdaptiveVictims(c, scale, blocks, free, n, out, k, z);
    var low, high := blocks[out[k]].idx % c.heads, blocks[z].idx % c.heads;
    HasBlocks(blocks, free, c.total, c.heads, out[k]);
    HasBlocks(blocks, free, c.total, c.heads, z);
    var top := Top(blocks, free, c.total);
    ChannelWearBetween(blocks, free, c.total, c.heads, low, 0, m - 1);
    ChannelWearBetween(blocks, free, c.total, c.heads, high, m, top);
  }

  lemma HasBlocks(blocks: map<nat, Block>, free: seq<Block>, total: nat, heads: nat, b: nat)
    requires 0 < heads && b in blocks && b < total
    ensures ChannelBlocks(blocks, free, total, heads, blocks[b].idx % heads) > 0
  {
    SumListNonNegative(OneOn(heads, blocks[b].idx % heads), free);
    CountsOne(blocks, total, heads, b);
  }

  lemma {:induction false} CountsOne(blocks: map<nat, Block>, n: nat, heads: nat, b: nat)
    requires 0 < heads && b in blocks && b < n
    ensures SumInUse(OneOn(heads, blocks[b].idx % heads), blocks, n) > 0
  {
    if b == n - 1 {
      SumInUseNonNegative(OneOn(heads, blocks[b].idx % heads), blocks, n - 1);
    } else {
      CountsOne(blocks, n - 1, heads, b);
    }
  }

  /** An erase count that no block exceeds. */
  lemma Top(blocks: map<nat, Block>, free: seq<Block>, total: nat) returns (top: nat)
    requires forall b :: b in blocks ==> b < total
    ensures forall b :: b in blocks ==> blocks[b].eraseCount <= top
    ensures forall j :: 0 <= j < |free| ==> free[j].eraseCount <= top
  {
    top := 0;
    for b := 0 to total
      invariant forall a :: a in blocks && a < b ==> blocks[a].eraseCount <= top
    {
      if b in blocks && blocks[b].eraseCount > top { top := blocks[b].eraseCount; }
    }
    for j := 0 to |free|
      invariant forall b :: b in blocks ==> blocks[b].eraseCount <= top
      invariant forall i :: 0 <= i < j ==> free[i].eraseCount <= top
    {
      if free[j].eraseCount > top { top := free[j].eraseCount; }
    }
  }

  lemma LoadAdaptiveTrade(scale: real, pages: nat, total: nat, heads: nat, blocks: map<nat, Block>, free: seq<Block>, a: Block, z: Block)
    requires 0 < heads && 0 < pages && 0.0 < scale && 0.0 < MeanWear(blocks, free, total, heads)
    requires var cost := LoadAdaptive(scale, pages, total, heads)(blocks, free); cost(a) <= cost(z)
    ensures WornEnough(|a.valid| as real, ChannelWear(blocks, free, total, heads, a.idx % heads),
                       |z.valid| as real, ChannelWear(blocks, free, total, heads, z.idx % heads),
                       MeanWear(blocks, free, total, heads), pages as real * scale)
  {
    hide ChannelWear, MeanWear, Bias, WornEnough;
    Positive(pages, scale);
    BiasTrade(|a.valid| as real, ChannelWear(blocks, free, total, heads, a.idx % heads),
              |z.valid| as real, ChannelWear(blocks, free, total, heads, z.idx % heads),
              MeanWear(blocks, free, total, heads), pages as real * scale);
  }

  lemma BiasTrade(u: real, x: real, v: real, y: real, mean: real, alpha: real)
    requires 0.0 < mean && 0.0 < alpha && u - Bias(x, mean, alpha) <= v - Bias(y, mean, alpha)
    ensures WornEnough(u, x, v, y, mean, alpha)
  {
    hide Bias;
    BiasOrder(y, x, mean, alpha);
    BiasGap(x, y, mean, alpha, u - v);
  }

  lemma BiasGap(x: real, y: real, mean: real, k: real, d: real)
    requires 0.0 < mean && d <= Bias(x, mean, k) - Bias(y, mean, k)
    ensures d * mean <= (x - y) * k
  {
    var a, b := (x - mean) / mean, (y - mean) / mean;
    assert a * mean == x - mean && b * mean == y - mean;
    assert (a - b) * mean == x - y;
    assert a * k - b * k == (a - b) * k;
    assert (a - b) * k * mean == (x - y) * k;
    Scale(d, (a - b) * k, mean);
  }

  lemma Scale(d: real, e: real, m: real)
    requires d <= e && 0.0 < m
    ensures d * m <= e * m
  {
  }

  lemma Positive(pages: nat, scale: real)
    requires 0 < pages && 0.0 < scale
    ensures 0.0 < pages as real * scale
  {
  }

  lemma BiasOrder(x: real, y: real, mean: real, k: real)
    requires 0.0 < mean && 0.0 < k
    ensures Bias(x, mean, k) > Bias(y, mean, k) <==> x > y
  {
    var a, b := (x - mean) / mean, (y - mean) / mean;
    assert a * mean == x - mean && b * mean == y - mean;
    assert (a - b) * mean == x - y;
    assert a * k - b * k == (a - b) * k;
  }

  lemma ScaledWear(scale: real, pages: real, threshold: real, n: real)
    requires threshold > 0.0
    ensures scale * pages / threshold * n == scale * (n / threshold) * pages
  {
    calc {
      scale * pages / threshold * n;
      (scale * pages * n) / threshold;
      scale * (n / threshold) * pages;
    }
  }

  lemma ScaledApart(scale: real, pages: real, threshold: real, n: real, m: real)
    requires threshold > 0.0 && scale * pages != 0.0 && n != m
    ensures scale * (n / threshold) * pages != scale * (m / threshold) * pages
  {
    var k := scale * pages / threshold;
    ScaledWear(scale, pages, threshold, n);
    ScaledWear(scale, pages, threshold, m);
    assert k * threshold == scale * pages;
    assert k * n - k * m == k * (n - m);
  }

  lemma NonZero(scale: real, pages: nat)
    requires scale != 0.0 && 0 < pages
    ensures scale * pages as real != 0.0
  {
  }

  /** The two cost formulas agree on a block exactly when the clamp does not bite. */
  lemma CostsAgreeIff(scale: real, pages: nat, threshold: nat, b: Block)
    requires threshold > 0 && 0 < pages && scale != 0.0
    ensures WearAware(scale, pages, threshold)(b) == BudgetAware(scale, pages, threshold)(b)
       <==> b.eraseCount <= threshold % 0x1_0000_0000
  {
    var cap := threshold % 0x1_0000_0000;
    var least := if b.eraseCount < cap then b.eraseCount else cap;
    ScaledWear(scale, pages as real, threshold as real, b.eraseCount as real);
    NonZero(scale, pages);
    if least != b.eraseCount {
      ScaledApart(scale, pages as real, threshold as real, least as real, b.eraseCount as real);
    }
  }

  // ---------------------------------------------------------------- victim selection

  /** The costs of the listed blocks, in order. */
  function Costs(blocks: map<nat, Block>, cost: Block -> real, list: seq<nat>): (r: seq<real>)
    requires forall k :: 0 <= k < |list| ==> list[k] in blocks
    ensures |r| == |list|
    ensures forall k :: 0 <= k < |list| ==> r[k] == cost(blocks[list[k]])
  {
    seq(|list|, k requires 0 <= k < |list| => cost(blocks[list[k]]))
  }

  ghost predicate InUse(blocks: map<nat, Block>, list: seq<nat>) {
    forall k :: 0 <= k < |list| ==> list[k] in blocks
  }

  ghost predicate Different(list: seq<nat>) {
    forall j, k :: 0 <= j < k < |list| ==> list[j] != list[k]
  }

  /** `out` is what selectVictimBlock may return for n blocks: distinct full blocks in ascending order of cost, as
      many as asked for or all of them, none costing more than a full block left out. */
  ghost predicate Selection(c: Config, blocks: map<nat, Block>, cost: Block -> real, n: nat, out: seq<nat>) {
    && InUse(blocks, out) && Different(out)
    && (forall k :: 0 <= k < |out| ==> c.Full(blocks[out[k]]))
    && (forall j, k :: 0 <= j <= k < |out| ==> cost(blocks[out[j]]) <= cost(blocks[out[k]]))
    && (forall b, k :: b in blocks && c.Full(blocks[b]) && b !in out && 0 <= k < |out| ==> cost(blocks[out[k]]) <= cost(blocks[b]))
    && |out| <= n
    && (|out| < n ==> forall b :: b in blocks && c.Full(blocks[b]) ==> b in out)
  }

  function Front(list: seq<nat>, n: nat): set<nat>
    requires n <= |list|
  {
    set k | 0 <= k < n :: list[k]
  }

  lemma {:induction false} FrontCount(list: seq<nat>, n: nat)
    requires Different(list) && n <= |list|
    ensures |Front(list, n)| == n
  {
    if n > 0 {
      FrontCount(list, n - 1);
      assert Front(list, n) == Front(list, n - 1) + {list[n - 1]};
      assert list[n - 1] !in Front(list, n - 1);
    } else {
      assert Front(list, 0) == {};
    }
  }

  lemma SelectionsNotBelow(c: Config, blocks: map<nat, Block>, cost: Block -> real, n: nat, a: seq<nat>, z: seq<nat>, i: nat)
    requires Selection(c, blocks, cost, n, a) && Selection(c, blocks, cost, n, z) && i < |a| && i < |z|
    ensures cost(blocks[z[i]]) <= cost(blocks[a[i]])
  {
    if cost(blocks[a[i]]) < cost(blocks[z[i]]) {
      FrontCount(a, i + 1);
      FrontCount(z, i);
      if Front(a, i + 1) <= Front(z, i) {
        SubsetCount(Front(a, i + 1), Front(z, i));
      }
    }
  }

  lemma {:induction false} SubsetCount(a: set<nat>, b: set<nat>)
    requires a <= b
    ensures |a| <= |b|
  {
    if a != {} {
      var x :| x in a;
      SubsetCount(a - {x}, b - {x});
    }
  }

  lemma SelectionSizes(c: Config, blocks: map<nat, Block>, cost: Block -> real, n: nat, a: seq<nat>, z: seq<nat>)
    requires Selection(c, blocks, cost, n, a) && Selection(c, blocks, cost, n, z)
    ensures |a| <= |z|
  {
    if |z| < |a| {
      FrontCount(a, |a|);
      FrontCount(z, |z|);
      assert Front(a, |a|) <= Front(z, |z|);
      SubsetCount(Front(a, |a|), Front(z, |z|));
    }
  }

  /** Whatever order ties are broken in, two selections of n victims carry the same costs. */
  lemma SelectionCostsUnique(c: Config, blocks: map<nat, Block>, cost: Block -> real, n: nat, a: seq<nat>, z: seq<nat>)
    requires Selection(c, blocks, cost, n, a) && Selection(c, blocks, cost, n, z)
    ensures Costs(blocks, cost, a) == Costs(blocks, cost, z)
  {
    SelectionSizes(c, blocks, cost, n, a, z);
    SelectionSizes(c, blocks, cost, n, z, a);
    forall i | 0 <= i < |a|
      ensures cost(blocks[a[i]]) == cost(blocks[z[i]])
    {
      SelectionsNotBelow(c, blocks, cost, n, a, z, i);
      SelectionsNotBelow(c, blocks, cost, n, z, a, i);
    }
  }

  lemma SameCostsSameSelection(c: Config, blocks: map<nat, Block>, cost: Block -> real, cost': Block -> real, n: nat, out: seq<nat>)
    requires Selection(c, blocks, cost, n, out)
    requires forall b :: b in blocks ==> cost(blocks[b]) == cost'(blocks[b])
    ensures Selection(c, blocks, cost', n, out)
  {
  }

  /** WL's victims against the full blocks they leave out: a victim has more valid units only where it is worn less, by as
      many erases as the units it has more are worth. */
  lemma WearAwareVictims(c: Config, scale: real, blocks: map<nat, Block>, n: nat, out: seq<nat>, k: nat, z: nat)
    requires 0.0 < scale && 0 < c.pages && 0 < c.threshold
    requires Selection(c, blocks, WearAware(scale, c.pages, c.threshold), n, out)
    requires k < |out| && z in blocks && c.Full(blocks[z]) && z !in out
    ensures out[k] in blocks
    ensures LessWorn(scale, c.pages, c.threshold, blocks[out[k]], blocks[z])
  {
    hide Config.Full, LessWorn;
    WearAwareTrade(scale, c.pages, c.threshold, blocks[out[k]], blocks[z]);
  }

  /** And so are RBPA's, within the cut. */
  lemma BudgetAwareVictims(c: Config, scale: real, blocks: map<nat, Block>, n: nat, out: seq<nat>, k: nat, z: nat)
    requires 0.0 < scale && 0 < c.pages && 0 < c.threshold && WithinCut(c, blocks)
    requires Selection(c, blocks, BudgetAware(scale, c.pages, c.threshold), n, out)
    requires k < |out| && z in blocks && c.Full(blocks[z]) && z !in out
    ensures out[k] in blocks
    ensures LessWorn(scale, c.pages, c.threshold, blocks[out[k]], blocks[z])
  {
    hide Config.Full, LessWorn, WearAware, BudgetAware;
    CostsAgreeIff(scale, c.pages, c.threshold, blocks[out[k]]);
    CostsAgreeIff(scale, c.pages, c.threshold, blocks[z]);
    WearAwareTrade(scale, c.pages, c.threshold, blocks[out[k]], blocks[z]);
  }

  /** What block a has more in valid units than block z, it has less in erases. */
  ghost predicate LessWorn(scale: real, pages: nat, threshold: nat, a: Block, z: Block) {
    && (a.eraseCount == z.eraseCount ==> |a.valid| <= |z.valid|)
    && (|a.valid| >= |z.valid| ==> a.eraseCount <= z.eraseCount)
    && (|a.valid| as real - |z.valid| as real) * threshold as real
       <= scale * pages as real * (z.eraseCount as real - a.eraseCount as real)
  }

  lemma WearAwareTrade(scale: real, pages: nat, threshold: nat, a: Block, z: Block)
    requires 0.0 < scale && 0 < pages && 0 < threshold
    requires WearAware(scale, pages, threshold)(a) <= WearAware(scale, pages, threshold)(z)
    ensures LessWorn(scale, pages, threshold, a, z)
  {
    hide LessWorn;
    Positive(pages, scale);
    var x, t := scale * pages as real, threshold as real;
    Traded(x / t, x, t, |a.valid| as real - |z.valid| as real, a.eraseCount as real, z.eraseCount as real);
    LessWornIs(scale, pages, threshold, a, z);
  }

  lemma Traded(rate: real, x: real, t: real, units: real, u: real, v: real)
    requires 0.0 < x && 0.0 < t && rate == x / t && units + rate * u <= rate * v
    ensures units * t <= x * (v - u)
    ensures u == v ==> units <= 0.0
    ensures 0.0 <= units ==> u <= v
  {
    assert rate * t == x;
    assert units <= rate * (v - u);
    Scale(units, rate * (v - u), t);
    assert rate * (v - u) * t == rate * t * (v - u);
    if 0.0 <= units {
      Scale(0.0, units, t);
      NoLess(x, v - u);
    }
  }

  lemma NoLess(x: real, d: real)
    requires 0.0 < x && 0.0 <= x * d
    ensures 0.0 <= d
  {
  }

  lemma LessWornIs(scale: real, pages: nat, threshold: nat, a: Block, z: Block)
    requires var units := |a.valid| as real - |z.valid| as real; var u, v := a.eraseCount as real, z.eraseCount as real;
      && units * threshold as real <= scale * pages as real * (v - u)
      && (u == v ==> units <= 0.0) && (0.0 <= units ==> u <= v)
    ensures LessWorn(scale, pages, threshold, a, z)
  {
  }

  /** No block in use is worn beyond the 32-bit cut of the threshold. */
  ghost predicate WithinCut(c: Config, blocks: map<nat, Block>) {
    forall b :: b in blocks ==> blocks[b].eraseCount <= c.threshold % 0x1_0000_0000
  }

  /** Below 2 to the 32 the cut is the threshold, which no block in use has reached. */
  lemma SmallThreshold(c: Config, s: State)
    requires Ledger(c, s) && c.threshold < 0x1_0000_0000
    ensures WithinCut(c, s.blocks)
  {
  }

  /** In a state whose blocks are alive the two formulas agree on all of them exactly when none is worn beyond the cut. */
  lemma AllCostsAgreeIff(c: Config, s: State, scale: real)
    requires Ledger(c, s) && 0 < c.pages && scale != 0.0
    ensures (forall b :: b in s.blocks ==>
               WearAware(scale, c.pages, c.threshold)(s.blocks[b]) == BudgetAware(scale, c.pages, c.threshold)(s.blocks[b]))
       <==> WithinCut(c, s.blocks)
  {
    var f, g := WearAware(scale, c.pages, c.threshold), BudgetAware(scale, c.pages, c.threshold);
    forall b | b in s.blocks
      ensures f(s.blocks[b]) == g(s.blocks[b]) <==> s.blocks[b].eraseCount <= c.threshold % 0x1_0000_0000
    {
      assert s.blocks[b].eraseCount < c.threshold;
      CostsAgreeIff(scale, c.pages, c.threshold, s.blocks[b]);
    }
  }

  /** RBPA and WL choose victims alike in every state whose blocks are alive and within the cut, as they always are for a
      threshold below 2 to the 32: the chosen victims cost the same, one by one, although the formulas differ. */
  lemma RbpaAndWlAgree(c: Config, s: State, scale: real, n: nat, wl: seq<nat>, rbpa: seq<nat>)
    requires Ledger(c, s) && (c.threshold < 0x1_0000_0000 || WithinCut(c, s.blocks)) && 0 < c.pages
    requires Selection(c, s.blocks, WearAware(scale, c.pages, c.threshold), n, wl)
    requires Selection(c, s.blocks, BudgetAware(scale, c.pages, c.threshold), n, rbpa)
    ensures Costs(s.blocks, WearAware(scale, c.pages, c.threshold), wl)
         == Costs(s.blocks, BudgetAware(scale, c.pages, c.threshold), rbpa)
  {
    hide Ledger, Selection;
    var f, g := WearAware(scale, c.pages, c.threshold), BudgetAware(scale, c.pages, c.threshold);
    if c.threshold < 0x1_0000_0000 {
      SmallThreshold(c, s);
    }
    forall b | b in s.blocks
      ensures f(s.blocks[b]) == g(s.blocks[b])
    {
      if scale != 0.0 {
        AllCostsAgreeIff(c, s, scale);
      }
    }
    hide WearAware, BudgetAware;
    SameCostsSameSelection(c, s.blocks, g, f, n, rbpa);
    SelectionCostsUnique(c, s.blocks, f, n, wl, rbpa);
    CostsMatch(s.blocks, f, g, rbpa, c, n);
  }

  lemma CostsMatch(blocks: map<nat, Block>, f: Block -> real, g: Block -> real, list: seq<nat>, c: Config, n: nat)
    requires Selection(c, blocks, g, n, list)
    requires forall b :: b in blocks ==> f(blocks[b]) == g(blocks[b])
    ensures Costs(blocks, f, list) == Costs(blocks, g, list)
  {
  }
}
