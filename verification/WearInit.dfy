/**
 applyInitialWear: some blocks start with a given erase count, chosen by position in a shuffled order, and the
 free list is sorted again.
 */
module WearInit {
  import opened Ftl
  import opened FtlMapping
  import opened FtlWear
  import opened FtlHeads

  /** The list the constructor builds: every block of the device, never written. */
  function NewBlocks(total: nat, units: nat): (r: seq<Block>)
    ensures |r| == total && forall k :: 0 <= k < total ==> r[k] == Block(k, 0, seq(units, _ => 0), map[], {})
  {
    seq(total, k requires 0 <= k => Block(k, 0, seq(units, _ => 0), map[], {}))
  }

  ghost predicate Permutation(order: seq<nat>, n: nat) {
    && |order| == n
    && (forall i :: 0 <= i < n ==> order[i] < n)
    && (forall i, j :: 0 <= i < j < n ==> order[i] != order[j])
  }

  /** The list with the blocks at positions order[..n] given erase count ec, nothing moved. */
  ghost predicate Worn(free: seq<Block>, order: seq<nat>, n: nat, ec: nat, out: seq<Block>) {
    && |out| == |free| && n <= |order|
    && forall k: nat :: k < |free| ==> out[k] == if k in order[..n] then free[k].(eraseCount := ec) else free[k]
  }

  ghost predicate SameBlocks(a: seq<Block>, z: seq<Block>) {
    |a| == |z| && forall b :: b in a <==> b in z
  }

  method WearFirst(free: seq<Block>, order: seq<nat>, n: nat, ec: nat) returns (out: seq<Block>)
    requires Permutation(order, |free|) && n <= |free|
    ensures Worn(free, order, n, ec, out)
  {
    out := free;
    for i := 0 to n
      invariant Worn(free, order, i, ec, out)
    {
      assert order[i] !in order[..i];
      assert order[..i + 1] == order[..i] + [order[i]];
      out := out[order[i] := out[order[i]].(eraseCount := ec)];
    }
  }

  /** list::sort by erase count. */
  method SortByWear(list: seq<Block>) returns (out: seq<Block>)
    requires Distinct(list)
    ensures SameBlocks(out, list) && Distinct(out) && Ascending(out)
  {
    out := [];
    for i := 0 to |list|
      invariant SameBlocks(out, list[..i]) && Distinct(out) && Ascending(out)
    {
      out := InsertByWear(out, list[i], list[..i]);
      assert list[..i + 1] == list[..i] + [list[i]];
    }
    assert list[..|list|] == list;
  }

  method InsertByWear(sorted: seq<Block>, b: Block, ghost seen: seq<Block>) returns (out: seq<Block>)
    requires SameBlocks(sorted, seen) && Distinct(sorted) && Ascending(sorted)
    requires forall k :: 0 <= k < |seen| ==> seen[k].idx != b.idx
    ensures SameBlocks(out, seen + [b]) && Distinct(out) && Ascending(out)
  {
    var k := |sorted|;
    while 0 < k && b.eraseCount < sorted[k - 1].eraseCount
      invariant 0 <= k <= |sorted|
      invariant InsertAt(sorted, b.eraseCount, k) == InsertAt(sorted, b.eraseCount, |sorted|)
    {
      k := k - 1;
    }
    out := sorted[..k] + [b] + sorted[k..];
    InsertedAscending(sorted, b);
    InsertedSame(sorted, b, k);
    forall j | 0 <= j < |sorted|
      ensures sorted[j].idx != b.idx
    {
      assert sorted[j] in seen;
    }
    ListedInsert(sorted, k, b, b.idx);
  }

  lemma InsertedSame(list: seq<Block>, b: Block, k: nat)
    requires k <= |list|
    ensures forall x :: x in list[..k] + [b] + list[k..] <==> x in list || x == b
  {
    assert list == list[..k] + list[k..];
  }

  /** How many blocks are pre-worn, and to which erase count. */
  function WornCount(total: nat, ratio: real): int {
    (total as real * ratio).Floor
  }

  function WornTo(threshold: nat, ecRatio: real): int {
    (threshold as real * ecRatio).Floor
  }

  /** Both are rounded down: a ratio asks for more blocks than there are exactly if it asks for one whole block more, and
      pre-wears to the erase threshold exactly from a ratio of one on. */
  lemma RoundsDown(total: nat, ratio: real, threshold: nat, ecRatio: real)
    requires 0 < threshold
    ensures WornCount(total, ratio) as real <= total as real * ratio < WornCount(total, ratio) as real + 1.0
    ensures WornTo(threshold, ecRatio) as real <= threshold as real * ecRatio < WornTo(threshold, ecRatio) as real + 1.0
    ensures total < WornCount(total, ratio) <==> (total + 1) as real <= total as real * ratio
    ensures WornTo(threshold, ecRatio) < threshold <==> ecRatio < 1.0
  {
    Rounded(total as real * ratio, total + 1);
    Rounded(threshold as real * ecRatio, threshold);
    BelowOne(threshold as real, ecRatio);
  }

  lemma Rounded(x: real, n: int)
    ensures x.Floor as real <= x < x.Floor as real + 1.0
    ensures n <= x.Floor <==> n as real <= x
  {
  }

  lemma BelowOne(t: real, a: real)
    requires 0.0 < t
    ensures t * a < t <==> a < 1.0
  {
    if a < 1.0 {
      var x := 1.0 - a;
      Positive(t, x);
      TimesRest(t, a, x);
    } else {
      var x := a - 1.0;
      Positive(t, x);
      TimesRest(t, a, -x);
    }
  }

  lemma TimesRest(t: real, a: real, x: real)
    requires a == 1.0 - x
    ensures t * a == t - t * x && t * -x == -(t * x)
  {
  }

  lemma Positive(t: real, x: real)
    requires 0.0 < t && 0.0 <= x
    ensures 0.0 <= t * x && (0.0 < x ==> 0.0 < t * x)
  {
  }

  /** Which list comes out: the same blocks, the chosen ones pre-worn, sorted by erase count. With a ratio whose
      rounded-down count exceeds the number of blocks the source indexes past its vector. */
  method ApplyInitialWear(free: seq<Block>, threshold: nat, ratio: real, ecRatio: real, order: seq<nat>)
    returns (r: Outcome<seq<Block>>)
    requires Distinct(free) && Ascending(free) && Permutation(order, |free|) && 0.0 <= ecRatio
    ensures r.Halted? <==> |free| < WornCount(|free|, ratio) && 0.0 < ratio && |free| > 0
    ensures r.Running? ==>
      var out := r.value; var n := WornCount(|free|, ratio);
      && Distinct(out) && Ascending(out)
      && if ratio <= 0.0 || |free| == 0 || n == 0 then out == free
         else exists worn :: Worn(free, order, n, WornTo(threshold, ecRatio), worn) && SameBlocks(out, worn)
  {
    if ratio <= 0.0 || |free| == 0 {
      return Running(free);
    }
    var preEC := WornTo(threshold, ecRatio);
    var nWorn := WornCount(|free|, ratio);
    NonNegative(|free|, ratio);
    NonNegative(threshold, ecRatio);
    if nWorn == 0 {
      return Running(free);
    }
    if nWorn > |free| {
      return Halted(Undefined);
    }
    var worn := WearFirst(free, order, nWorn, preEC);
    var out := SortByWear(worn);
    r := Running(out);
  }

  lemma NonNegative(n: nat, x: real)
    requires 0.0 <= x
    ensures 0 <= (n as real * x).Floor
  {
    assert 0.0 <= n as real * x;
  }

  /** A pre-worn block is a new one, but for its erase count. */
  lemma WornIsNew(c: Config, order: seq<nat>, n: nat, ec: nat, worn: seq<Block>, j: nat)
    requires c.Ok() && n <= c.total && Worn(NewBlocks(c.total, c.units), order, n, ec, worn) && j < c.total
    ensures |worn| == c.total && worn[j].idx == j && BlockOk(c, worn[j]) && Blank(worn[j])
    ensures worn[j].eraseCount == if j in order[..n] then ec else 0
  {
  }

  lemma WornAreNew(c: Config, order: seq<nat>, n: nat, ec: nat, worn: seq<Block>, out: seq<Block>)
    requires c.Ok() && n <= c.total && Worn(NewBlocks(c.total, c.units), order, n, ec, worn) && SameBlocks(out, worn)
    ensures forall k :: 0 <= k < |out| ==> out[k].idx < c.total && BlockOk(c, out[k]) && Blank(out[k])
    ensures forall k :: 0 <= k < |out| ==> out[k].eraseCount == 0 || out[k].eraseCount == ec
  {
    hide BlockOk, Blank;
    forall k | 0 <= k < |out|
      ensures out[k].idx < c.total && BlockOk(c, out[k]) && Blank(out[k])
      ensures out[k].eraseCount == 0 || out[k].eraseCount == ec
    {
      assert out[k] in worn;
      var j :| 0 <= j < |worn| && worn[j] == out[k];
      WornIsNew(c, order, n, ec, worn, j);
    }
  }

  lemma WornAreAll(c: Config, order: seq<nat>, n: nat, ec: nat, worn: seq<Block>, out: seq<Block>)
    requires c.Ok() && n <= c.total && Worn(NewBlocks(c.total, c.units), order, n, ec, worn) && SameBlocks(out, worn)
    ensures forall i: nat :: i < c.total <==> Listed(out, i)
  {
    hide BlockOk, Blank, Worn;
    WornAreNew(c, order, n, ec, worn, out);
    forall i: nat | i < c.total
      ensures Listed(out, i)
    {
      WornIsNew(c, order, n, ec, worn, i);
      assert worn[i] in out;
      var k :| 0 <= k < |out| && out[k] == worn[i];
      assert out[k].idx == i;
    }
    forall i: nat | Listed(out, i)
      ensures i < c.total
    {
      var k :| 0 <= k < |out| && out[k].idx == i;
    }
  }

  /** The pre-worn list is one the constructor may start from exactly when the pre-wear stays below the erase
      threshold; otherwise some block is handed out although it should be dead. */
  lemma PrewornIsInitialIff(c: Config, order: seq<nat>, n: nat, ec: nat, worn: seq<Block>, out: seq<Block>)
    requires c.Ok() && 0 < c.threshold && Permutation(order, c.total) && 0 < n <= c.total
    requires Worn(NewBlocks(c.total, c.units), order, n, ec, worn) && SameBlocks(out, worn)
    requires Distinct(out) && Ascending(out)
    ensures Initial(c, out) <==> ec < c.threshold
  {
    hide BlockOk, Blank, Worn, Distinct, Ascending, Listed;
    WornAreNew(c, order, n, ec, worn, out);
    WornAreAll(c, order, n, ec, worn, out);
    assert order[0] in order[..n];
    WornIsNew(c, order, n, ec, worn, order[0]);
    assert worn[order[0]] in out;
    var w :| 0 <= w < |out| && out[w] == worn[order[0]];
    assert out[w].eraseCount == ec;
  }
}
