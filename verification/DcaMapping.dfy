/**
 DCAMapping's allocator: a counter of free blocks per parallel unit beside the free list itself.
 */
module DcaMapping {
  import opened Ftl
  import opened FtlPolicies
  import MixedRadix

  /** Free blocks of the list that lie on unit u. */
  function Count(list: seq<Block>, units: nat, u: nat): nat
    requires 0 < units
  {
    if |list| == 0 then 0 else (if OnChannel(list[0], units, u) then 1 else 0) + Count(list[1..], units, u)
  }

  lemma {:induction false} CountConcat(a: seq<Block>, z: seq<Block>, units: nat, u: nat)
    requires 0 < units
    ensures Count(a + z, units, u) == Count(a, units, u) + Count(z, units, u)
  {
    if |a| == 0 {
      assert a + z == z;
    } else {
      assert (a + z)[1..] == a[1..] + z;
      CountConcat(a[1..], z, units, u);
    }
  }

  lemma CountSplit(a: seq<Block>, b: Block, z: seq<Block>, units: nat, u: nat)
    requires 0 < units
    ensures Count(a + [b] + z, units, u) == Count(a + z, units, u) + if OnChannel(b, units, u) then 1 else 0
  {
    CountConcat(a + [b], z, units, u);
    CountConcat(a, [b], units, u);
    CountConcat(a, z, units, u);
    assert Count([b], units, u) == if OnChannel(b, units, u) then 1 else 0;
  }

  lemma {:induction false} CountedMeansPresent(list: seq<Block>, units: nat, u: nat)
    requires 0 < units
    ensures Count(list, units, u) > 0 <==> HasOn(list, units, u)
  {
    if |list| > 0 {
      CountedMeansPresent(list[1..], units, u);
      if HasOn(list[1..], units, u) {
        var k :| 0 <= k < |list[1..]| && OnChannel(list[1..][k], units, u);
        assert OnChannel(list[k + 1], units, u);
      }
      if HasOn(list, units, u) && !OnChannel(list[0], units, u) {
        var k :| 0 <= k < |list| && OnChannel(list[k], units, u);
        assert OnChannel(list[1..][k - 1], units, u);
      }
    }
  }

  ghost predicate Agree(counters: seq<nat>, free: seq<Block>, units: nat) {
    0 < units && |counters| == units && forall u: nat :: u < units ==> counters[u] == Count(free, units, u)
  }

  /** What getBestParallelUnit promises: the first unit with the most free blocks. */
  ghost predicate Best(counters: seq<nat>, r: nat) {
    && r < |counters|
    && (forall u :: 0 <= u < |counters| ==> counters[u] <= counters[r])
    && (forall u :: 0 <= u < r ==> counters[u] < counters[r])
  }

  /** As long as the counters agree with the list and a block is free, the search for a block on the best unit hits:
      the "just use first one" fallback is never taken. */
  lemma SearchHits(counters: seq<nat>, free: seq<Block>, units: nat, r: nat)
    requires Agree(counters, free, units) && Best(counters, r) && |free| > 0
    ensures FirstOn(free, units, r, 0) < |free|
    ensures forall u: nat :: u < units ==> Count(free, units, u) <= Count(free, units, r)
  {
    var u := free[0].idx % units;
    assert OnChannel(free[0], units, u);
    CountedMeansPresent(free, units, u);
    CountedMeansPresent(free, units, r);
    assert counters[u] > 0;
    assert HasOn(free, units, r);
  }

  lemma TakeAgrees(counters: seq<nat>, free: seq<Block>, units: nat, k: nat)
    requires Agree(counters, free, units) && k < |free|
    ensures counters[free[k].idx % units] > 0
    ensures Agree(counters[free[k].idx % units := counters[free[k].idx % units] - 1], free[..k] + free[k + 1..], units)
  {
    assert free == free[..k] + [free[k]] + free[k + 1..];
    forall u: nat | u < units
      ensures Count(free, units, u) == Count(free[..k] + free[k + 1..], units, u) + if OnChannel(free[k], units, u) then 1 else 0
    {
      CountSplit(free[..k], free[k], free[k + 1..], units, u);
    }
  }

  lemma PutAgrees(counters: seq<nat>, free: seq<Block>, units: nat, b: Block, k: nat)
    requires Agree(counters, free, units) && k <= |free|
    ensures Agree(counters[b.idx % units := counters[b.idx % units] + 1], free[..k] + [b] + free[k..], units)
  {
    assert free == free[..k] + free[k..];
    forall u: nat | u < units
      ensures Count(free[..k] + [b] + free[k..], units, u) == Count(free, units, u) + if OnChannel(b, units, u) then 1 else 0
    {
      CountSplit(free[..k], b, free[k..], units, u);
    }
  }

  /** A free block is not in use and is listed once. */
  ghost predicate Separate(blocks: map<nat, Block>, free: seq<Block>) {
    && (forall k :: 0 <= k < |free| ==> free[k].idx !in blocks)
    && (forall j, k :: 0 <= j < k < |free| ==> free[j].idx != free[k].idx)
  }

  lemma TakeSeparates(blocks: map<nat, Block>, free: seq<Block>, k: nat)
    requires Separate(blocks, free) && k < |free|
    ensures free[k].idx !in blocks && Separate(blocks[free[k].idx := free[k]], free[..k] + free[k + 1..])
  {
    var rest := free[..k] + free[k + 1..];
    forall j | 0 <= j < |rest|
      ensures rest[j] == free[if j < k then j else j + 1]
    {
    }
  }

  /** The heads are different blocks, taken into use on top of what was in use before. */
  ghost predicate Taken(inUse0: set<nat>, inUse: set<nat>, heads: seq<nat>) {
    && inUse == inUse0 + (set b | b in heads)
    && (forall i :: 0 <= i < |heads| ==> heads[i] !in inUse0)
    && (forall i, j :: 0 <= i < j < |heads| ==> heads[i] != heads[j])
  }

  lemma TakenMore(inUse0: set<nat>, inUse: set<nat>, heads: seq<nat>, b: nat)
    requires Taken(inUse0, inUse, heads) && b !in inUse
    ensures Taken(inUse0, inUse + {b}, heads + [b])
  {
    assert forall i :: 0 <= i < |heads| ==> heads[i] in inUse;
  }

  /** Head i lies on unit i. */
  predicate OnOwnUnits(heads: seq<nat>, units: nat)
    requires 0 < units
  {
    forall i :: 0 <= i < |heads| ==> heads[i] % units == i
  }

  predicate Even(counters: seq<nat>) {
    forall u :: 0 <= u < |counters| ==> counters[u] == counters[0]
  }

  /** Each of the first i units gave one block. */
  predicate Dealt(counters: seq<nat>, counters0: seq<nat>, i: nat) {
    |counters| == |counters0| && forall u :: 0 <= u < |counters| ==> counters[u] + (if u < i then 1 else 0) == counters0[u]
  }

  lemma DealtInTurn(counters: seq<nat>, counters0: seq<nat>, i: nat, best: nat)
    requires Even(counters0) && Dealt(counters, counters0, i) && i < |counters| && Best(counters, best) && counters[best] > 0
    ensures best == i && Dealt(counters[i := counters[i] - 1], counters0, i + 1)
  {
    assert counters[i] == counters0[0] && counters[i] <= counters[best];
  }

  /** The first |heads| heads have been dealt blocks, from blocks in use and counters as given. */
  ghost predicate InTurn(units: nat, inUse0: set<nat>, counters0: seq<nat>, heads: seq<nat>, blocks: map<nat, Block>,
                         free: seq<Block>, counters: seq<nat>)
    requires 0 < units
  {
    && Taken(inUse0, blocks.Keys, heads) && Separate(blocks, free)
    && (Even(counters0) ==> Dealt(counters, counters0, |heads|) && OnOwnUnits(heads, units))
  }

  lemma InTurnStart(units: nat, blocks: map<nat, Block>, free: seq<Block>, counters: seq<nat>)
    requires 0 < units && Separate(blocks, free)
    ensures InTurn(units, blocks.Keys, counters, [], blocks, free, counters)
  {
  }

  lemma InTurnEnd(units: nat, inUse0: set<nat>, counters0: seq<nat>, heads: seq<nat>, blocks: map<nat, Block>,
                  free: seq<Block>, counters: seq<nat>)
    requires 0 < units && InTurn(units, inUse0, counters0, heads, blocks, free, counters)
    ensures Taken(inUse0, blocks.Keys, heads) && Separate(blocks, free)
    ensures Even(counters0) ==> OnOwnUnits(heads, units)
  {
  }

  lemma AgreeLengths(counters: seq<nat>, free: seq<Block>, units: nat)
    requires Agree(counters, free, units)
    ensures 0 < units == |counters|
  {
  }

  lemma InTurnNow(units: nat, inUse0: set<nat>, counters0: seq<nat>, heads: seq<nat>, blocks: map<nat, Block>,
                  free: seq<Block>, counters: seq<nat>, k: nat)
    requires 0 < units && k < |free| && InTurn(units, inUse0, counters0, heads, blocks, free, counters)
    ensures free[k].idx !in blocks
  {
  }

  lemma NextTurn(units: nat, inUse0: set<nat>, counters0: seq<nat>, heads: seq<nat>, blocks: map<nat, Block>,
                 free: seq<Block>, counters: seq<nat>, k: nat, best: nat)
    requires 0 < units && InTurn(units, inUse0, counters0, heads, blocks, free, counters)
    requires k < |free| && Best(counters, best) && counters[best] > 0 && free[k].idx % units == best && |heads| < |counters|
    ensures InTurn(units, inUse0, counters0, heads + [free[k].idx], blocks[free[k].idx := free[k]],
                   free[..k] + free[k + 1..], counters[best := counters[best] - 1])
  {
    hide Taken, Separate, Dealt, Even, Best;
    var b := free[k];
    TakeSeparates(blocks, free, k);
    TakenMore(inUse0, blocks.Keys, heads, b.idx);
    assert blocks[b.idx := b].Keys == blocks.Keys + {b.idx};
    if Even(counters0) {
      DealtInTurn(counters, counters0, |heads|, best);
    }
  }

  lemma NextDivision(i: nat, n: nat)
    requires 0 < n
    ensures var wraps := i % n + 1 == n;
      && (i + 1) % n == (if wraps then 0 else i % n + 1)
      && (i + 1) / n == i / n + (if wraps then 1 else 0)
  {
    var q, r := i / n, i % n;
    MixedRadix.DivModBack(i, n);
    if r + 1 == n {
      MixedRadix.Times(n, q, 1);
      MixedRadix.DivMod(i + 1, n, 0, q + 1);
    } else {
      MixedRadix.DivMod(i + 1, n, r + 1, q);
    }
  }

  class Allocator {
    const units: nat
    var freeBlocks: seq<Block>
    var nFreeBlocks: nat
    var blocks: map<nat, Block>
    var freeBlocksPerUnit: seq<nat>
    var lastFreeBlock: seq<nat>

    /** The counters agree with the list at every operation boundary. */
    ghost predicate Valid()
      reads this
    {
      Agree(freeBlocksPerUnit, freeBlocks, units) && nFreeBlocks == |freeBlocks|
    }

    constructor (units: nat, total: nat, lanes: nat)
      requires 0 < units
      ensures Valid() && Separate(blocks, freeBlocks) && this.units == units && |freeBlocks| == total && blocks == map[]
      ensures |lastFreeBlock| == units && (total % units == 0 ==> Even(freeBlocksPerUnit))
      ensures forall k :: 0 <= k < total ==> freeBlocks[k] == Block(k, 0, seq(lanes, _ => 0), map[], {})
    {
      this.units := units;
      blocks := map[];
      freeBlocks, freeBlocksPerUnit, nFreeBlocks := [], seq(units, _ => 0), 0;
      lastFreeBlock := seq(units, _ => 0);
      new;
      for i := 0 to total
        invariant Agree(freeBlocksPerUnit, freeBlocks, units) && |freeBlocks| == i && blocks == map[] && |lastFreeBlock| == units
        invariant forall k :: 0 <= k < i ==> freeBlocks[k] == Block(k, 0, seq(lanes, _ => 0), map[], {})
        invariant forall u :: 0 <= u < units ==> freeBlocksPerUnit[u] == i / units + if u < i % units then 1 else 0
      {
        NextDivision(i, units);
        var b := Block(i, 0, seq(lanes, _ => 0), map[], {});
        PutAgrees(freeBlocksPerUnit, freeBlocks, units, b, |freeBlocks|);
        assert freeBlocks[..|freeBlocks|] + [b] + freeBlocks[|freeBlocks|..] == freeBlocks + [b];
        freeBlocks := freeBlocks + [b];
        freeBlocksPerUnit := freeBlocksPerUnit[i % units := freeBlocksPerUnit[i % units] + 1];
      }
      nFreeBlocks := total;
    }

    method GetBestParallelUnit() returns (best: nat)
      requires Valid()
      ensures Best(freeBlocksPerUnit, best)
    {
      best := 0;
      var most := 0;
      for i := 0 to units
        invariant best < units && most <= freeBlocksPerUnit[best]
        invariant forall u :: 0 <= u < i ==> freeBlocksPerUnit[u] <= most
        invariant forall u :: 0 <= u < best ==> freeBlocksPerUnit[u] < freeBlocksPerUnit[best]
        invariant best == 0 || most == freeBlocksPerUnit[best]
        invariant best == 0 && i > 0 ==> most == freeBlocksPerUnit[0]
      {
        if freeBlocksPerUnit[i] > most {
          most := freeBlocksPerUnit[i];
          best := i;
        }
      }
    }

    /** Takes the first free block, at position k, of the best unit; there is always one. */
    method GetFreeBlock(idx: nat) returns (r: Outcome<nat>, ghost best: nat, ghost k: nat)
      requires Valid()
      modifies this
      ensures Valid() && lastFreeBlock == old(lastFreeBlock)
      ensures idx >= units ==> r == Halted(OutOfRange)
      ensures idx < units ==> (r == Halted(EndOfLife) <==> |old(freeBlocks)| == 0)
      ensures r.Halted? ==> unchanged(this) && r.why in {OutOfRange, EndOfLife, Corrupted}
      ensures idx < units && |old(freeBlocks)| > 0 ==>
                && Best(old(freeBlocksPerUnit), best) && old(freeBlocksPerUnit)[best] > 0
                && k == FirstOn(old(freeBlocks), units, best, 0) < |old(freeBlocks)|
                && (if old(freeBlocks)[k].idx in old(blocks) then r == Halted(Corrupted)
                    else r == Running(old(freeBlocks)[k].idx))
      ensures r.Running? ==>
                && idx < units && |old(freeBlocks)| > 0
                && var b := old(freeBlocks)[k];
                && b.idx % units == best && b.idx !in old(blocks)
                && freeBlocks == old(freeBlocks)[..k] + old(freeBlocks)[k + 1..]
                && blocks == old(blocks)[b.idx := b]
                && freeBlocksPerUnit == old(freeBlocksPerUnit)[best := old(freeBlocksPerUnit)[best] - 1]
    {
      hide Agree, Best;
      best, k := 0, 0;
      if idx >= units {
        return Halted(OutOfRange), best, k;
      }
      if nFreeBlocks == 0 {
        return Halted(EndOfLife), best, k;
      }
      var target := GetBestParallelUnit();
      SearchHits(freeBlocksPerUnit, freeBlocks, units, target);
      var iter := 0;
      while iter < |freeBlocks| && freeBlocks[iter].idx % units != target
        invariant iter <= |freeBlocks| && FirstOn(freeBlocks, units, target, iter) == FirstOn(freeBlocks, units, target, 0)
      {
        iter := iter + 1;
      }
      if iter == |freeBlocks| {
        iter := 0;
      }
      best, k := target, iter;
      TakeAgrees(freeBlocksPerUnit, freeBlocks, units, iter);
      var b := freeBlocks[iter];
      if b.idx in blocks {
        return Halted(Corrupted), best, k;
      }
      blocks := blocks[b.idx := b];
      freeBlocks := freeBlocks[..iter] + freeBlocks[iter + 1..];
      nFreeBlocks := nFreeBlocks - 1;
      freeBlocksPerUnit := freeBlocksPerUnit[b.idx % units := freeBlocksPerUnit[b.idx % units] - 1];
      return Running(b.idx), best, k;
    }

    /** The constructor's second part: one block for each head. With as many free blocks on every unit, as the constructor
        deals them out over a multiple of the units, each head gets a block of its own unit. */
    method AllocateHeads() returns (r: Outcome<()>)
      requires Valid() && Separate(blocks, freeBlocks) && |lastFreeBlock| == units
      modifies this
      ensures Valid() && Separate(blocks, freeBlocks) && |lastFreeBlock| == units
      ensures r == if units <= |old(freeBlocks)| then Running(()) else Halted(EndOfLife)
      ensures r.Running? ==> |freeBlocks| == |old(freeBlocks)| - units && Taken(old(blocks.Keys), blocks.Keys, lastFreeBlock)
      ensures r.Running? && Even(old(freeBlocksPerUnit)) ==> OnOwnUnits(lastFreeBlock, units)
    {
      hide Agree, Best, FirstOn, InTurn, Even, Taken, Separate;
      ghost var inUse, counters := blocks.Keys, freeBlocksPerUnit;
      AgreeLengths(counters, freeBlocks, units);
      InTurnStart(units, blocks, freeBlocks, counters);
      var i := 0;
      while i < units
        invariant i <= units && Valid() && |lastFreeBlock| == units && 0 < units == |freeBlocksPerUnit|
        invariant |freeBlocks| + i == |old(freeBlocks)|
        invariant InTurn(units, inUse, counters, lastFreeBlock[..i], blocks, freeBlocks, freeBlocksPerUnit)
      {
        ghost var blocks0, free0, counters0 := blocks, freeBlocks, freeBlocksPerUnit;
        var b, best, k := GetFreeBlock(i);
        if |free0| > 0 {
          InTurnNow(units, inUse, counters, lastFreeBlock[..i], blocks0, free0, counters0, k);
        }
        if b.Halted? {
          InTurnEnd(units, inUse, counters, lastFreeBlock[..i], blocks, freeBlocks, freeBlocksPerUnit);
          return Halted(b.why);
        }
        NextTurn(units, inUse, counters, lastFreeBlock[..i], blocks0, free0, counters0, k, best);
        lastFreeBlock := lastFreeBlock[i := b.value];
        assert lastFreeBlock[..i + 1] == lastFreeBlock[..i] + [b.value];
        i := i + 1;
      }
      assert lastFreeBlock[..units] == lastFreeBlock;
      InTurnEnd(units, inUse, counters, lastFreeBlock, blocks, freeBlocks, freeBlocksPerUnit);
      return Running(());
    }

    /** eraseInternal: an erased block returns to the sorted list, and its unit's counter follows. */
    method EraseInternal(idx: nat, threshold: nat) returns (r: Outcome<()>)
      requires Valid()
      requires idx in blocks ==> blocks[idx].idx == idx
      modifies this
      ensures Valid()
      ensures r.Halted? ==> unchanged(this)
      ensures r == if idx !in old(blocks) then Halted(NoSuchBlock)
                   else if old(blocks)[idx].valid != {} then Halted(ValidPagesInVictim)
                   else if old(blocks)[idx].eraseCount + 1 < threshold && |old(freeBlocks)| == 0 then Halted(EmptyFreeList)
                   else Running(())
      ensures r.Running? ==>
                && blocks == old(blocks) - {idx}
                && freeBlocks == if old(blocks)[idx].eraseCount + 1 < threshold
                                 then Inserted(old(freeBlocks), old(blocks)[idx].Erased()) else old(freeBlocks)
    {
      if idx !in blocks {
        return Halted(NoSuchBlock);
      }
      if blocks[idx].valid != {} {
        return Halted(ValidPagesInVictim);
      }
      var e := blocks[idx].Erased();
      if e.eraseCount < threshold {
        var iter := |freeBlocks|;
        if iter == 0 {
          return Halted(EmptyFreeList);
        }
        while 0 < iter && e.eraseCount < freeBlocks[iter - 1].eraseCount
          invariant 0 <= iter <= |freeBlocks|
          invariant InsertAt(freeBlocks, e.eraseCount, iter) == InsertAt(freeBlocks, e.eraseCount, |freeBlocks|)
        {
          iter := iter - 1;
        }
        PutAgrees(freeBlocksPerUnit, freeBlocks, units, e, iter);
        freeBlocks := freeBlocks[..iter] + [e] + freeBlocks[iter..];
        nFreeBlocks := nFreeBlocks + 1;
        freeBlocksPerUnit := freeBlocksPerUnit[idx % units := freeBlocksPerUnit[idx % units] + 1];
      }
      blocks := blocks - {idx};
      return Running(());
    }
  }
}
