/**
 The constructor, and the write heads: when the "Corrupted" halt of getLastFreeBlock can be met.
 */
module FtlHeads {
  import opened Ftl
  import opened FtlMapping
  import opened FtlGc
  import opened FtlWear
  import opened FtlEndurance

  // ---------------------------------------------------------------- construction

  /** A free list the constructor may start from: each block of the device once, never written, sorted, alive. */
  ghost predicate Initial(c: Config, free: seq<Block>) {
    && Distinct(free) && Ascending(free)
    && (forall i: nat :: i < c.total <==> Listed(free, i))
    && ErasedOk(c, free)
    && (forall k :: 0 <= k < |free| ==> free[k].eraseCount < c.threshold)
  }

  ghost predicate HeadsInUse(s: State, n: nat) {
    forall i :: 0 <= i < n && i < |s.heads| ==> s.heads[i] in s.blocks
  }

  ghost predicate HeadsDistinct(s: State, n: nat) {
    forall i, j :: 0 <= i < j < n && j < |s.heads| ==> s.heads[i] != s.heads[j]
  }

  lemma FreshOk(c: Config, free: seq<Block>)
    requires c.Ok() && Initial(c, free)
    ensures Inv(c, Fresh(c, free)) && Ledger(c, Fresh(c, free))
  {
    var s := Fresh(c, free);
    assert Partition(c.total, {}, free, []);
    assert s.blocks.Keys == {};
    forall k | 0 <= k < |free|
      ensures PointersOk(c, free[k])
    {
      assert BlockOk(c, free[k]);
    }
  }

  /** Claiming the heads succeeds exactly when there are enough free blocks; then every head is a block in use of
      its own, the mapping is empty and agrees, and the lists are in order. */
  lemma {:induction false} ClaimHeadsOk(c: Config, s: State, i: nat)
    requires Inv(c, s) && Ledger(c, s) && i <= c.heads
    requires HeadsInUse(s, i) && HeadsDistinct(s, i)
    requires s.table == map[]
    ensures ClaimHeads(c, s, i).Running? <==> c.heads - i <= |s.free|
    ensures ClaimHeads(c, s, i).Running? ==>
      var s' := ClaimHeads(c, s, i).value;
      && Inv(c, s') && Ledger(c, s') && HeadsInUse(s', c.heads) && HeadsDistinct(s', c.heads)
      && s'.table == map[] && Potential(c, s') <= Potential(c, s)
    decreases c.heads - i
  {
    hide Inv, Ledger, Potential, GetFreeBlock, Evolves;
    if i < c.heads {
      InvParts(c, s);
      GetFreeBlockHalts(c, s, i);
      if |s.free| > 0 {
        GetFreeBlockShape(c, s, i);
        GetFreeBlockEvolves(c, s, i);
        var (s1, b) := GetFreeBlock(c, s, i).value;
        var s2 := s1.(heads := s1.heads[i := b]);
        ClaimOne(c, s, i);
        ClaimHeadsOk(c, s2, i + 1);
      } else {
        assert ClaimHeads(c, s, i).Halted?;
      }
    }
  }

  lemma ClaimOne(c: Config, s: State, i: nat)
    requires Inv(c, s) && Ledger(c, s) && i < c.heads && GetFreeBlock(c, s, i).Running?
    ensures var (s1, b) := GetFreeBlock(c, s, i).value;
      var s2 := s1.(heads := s1.heads[i := b]);
      && Inv(c, s2) && Ledger(c, s2) && |s2.free| == |s.free| - 1 && Potential(c, s2) <= Potential(c, s)
  {
    hide Inv, Ledger, Potential, ErasesLeft;
    var (s1, b) := GetFreeBlock(c, s, i).value;
    InvParts(c, s);
    GetFreeBlockShape(c, s, i);
    GetFreeBlockEvolves(c, s, i);
    InvIsInvBut(c, s, 0);
    ExtendsKeepsMapping(c, s, s1, 0, {});
    NoHoles(c, s1, 0);
    HeadsIgnored(c, s1, s1.(heads := s1.heads[i := b]));
  }

  lemma HeadsIgnored(c: Config, s: State, s': State)
    requires Inv(c, s) && Ledger(c, s) && s' == s.(heads := s'.heads) && |s'.heads| == |s.heads|
    ensures Inv(c, s') && Ledger(c, s') && Potential(c, s') == Potential(c, s)
  {
    forall l: nat, v: nat
      ensures Points(c, s', l, v)
    {
      assert Points(c, s, l, v);
    }
    forall b, x | b in s'.blocks && x in s'.blocks[b].valid
      ensures Owned(s', b, x)
    {
      assert Owned(s, b, x);
    }
  }

  // ---------------------------------------------------------------- the "Corrupted" halt

  /** getLastFreeBlock halts as "Corrupted" exactly when the head it turns to is not in use; end of life is the
      only other way it can halt, and needs a full head and an empty free list. */
  lemma LastFreeBlockHaltsIff(c: Config, s: State, ioMap: set<nat>)
    requires Shape(c, s) && Ledger(c, s)
    ensures var h := s.heads[Advanced(c, s, ioMap).headIndex]; var r := LastFreeBlock(c, s, ioMap);
      && (r.Halted? && r.why == Corrupted <==> h !in s.blocks)
      && (r.Halted? && r.why == EndOfLife <==> h in s.blocks && c.Full(s.blocks[h]) && |s.free| == 0)
      && (r.Halted? ==> r.why in {Corrupted, EndOfLife})
  {
    var s1 := Advanced(c, s, ioMap);
    assert Ledger(c, s1);
    GetFreeBlockHalts(c, s1, s1.headIndex);
  }

  /** Heads after some copying: as they were, or blocks that were not in use before. */
  ghost predicate HeadsGrow(s: State, s': State) {
    && |s'.heads| == |s.heads|
    && s.blocks.Keys <= s'.blocks.Keys
    && forall i :: 0 <= i < |s.heads| ==> s'.heads[i] == s.heads[i] || (s'.heads[i] !in s.blocks && s'.heads[i] in s'.blocks)
  }

  lemma HeadsGrowTrans(s: State, s1: State, s2: State)
    requires HeadsGrow(s, s1) && HeadsGrow(s1, s2)
    ensures HeadsGrow(s, s2)
  {
  }

  lemma LastFreeBlockHeads(c: Config, s: State, ioMap: set<nat>)
    requires LastFreeBlock(c, s, ioMap).Running?
    ensures HeadsGrow(s, LastFreeBlock(c, s, ioMap).value.0)
  {
  }

  lemma {:induction false} MoveLanesHeads(c: Config, s: State, b: nat, p: nat, from: Block, bits: set<nat>, dst: nat, u: nat)
    requires MoveLanes(c, s, b, p, from, bits, dst, u).Running?
    ensures var s' := MoveLanes(c, s, b, p, from, bits, dst, u).value; s'.heads == s.heads && s'.blocks.Keys == s.blocks.Keys
    decreases c.Lanes() - u
  {
    if u < c.Lanes() {
      if !c.Touches(bits, u) {
        MoveLanesHeads(c, s, b, p, from, bits, dst, u + 1);
      } else {
        var s1 := MoveUnit(c, s, b, Unit(p, u), Label(from, Unit(p, u)), dst).value;
        assert s1.heads == s.heads && s1.blocks.Keys == s.blocks.Keys;
        MoveLanesHeads(c, s1, b, p, from, bits, dst, u + 1);
      }
    }
  }

  lemma {:induction false} MovePagesHeads(c: Config, s: State, b: nat, p: nat)
    requires MovePages(c, s, b, p).Running?
    ensures HeadsGrow(s, MovePages(c, s, b, p).value)
    decreases c.pages - p
  {
    hide LastFreeBlock, MoveLanes;
    if p < c.pages {
      var s1 := MovePage(c, s, b, p).value;
      var bits := PageInfo(c, s.blocks[b], p);
      if bits != {} {
        var (s2, dst) := LastFreeBlock(c, s, Moved(c, bits)).value;
        LastFreeBlockHeads(c, s, Moved(c, bits));
        MoveLanesHeads(c, s2, b, p, s.blocks[b], Moved(c, bits), dst, 0);
      }
      MovePagesHeads(c, s1, b, p + 1);
      HeadsGrowTrans(s, s1, MovePages(c, s1, b, p + 1).value);
    }
  }

  lemma {:induction false} MoveBlocksHeads(c: Config, s: State, victims: seq<nat>, k: nat)
    requires MoveBlocks(c, s, victims, k).Running?
    ensures HeadsGrow(s, MoveBlocks(c, s, victims, k).value)
    decreases |victims| - k
  {
    hide HeadsGrow, MovePages;
    if k >= |victims| {
      HeadsGrowRefl(s);
    } else {
      var s1 := MovePages(c, s, victims[k], 0).value;
      MovePagesHeads(c, s, victims[k], 0);
      MoveBlocksHeads(c, s1, victims, k + 1);
      HeadsGrowTrans(s, s1, MoveBlocks(c, s1, victims, k + 1).value);
    }
  }

  lemma HeadsGrowRefl(s: State)
    ensures HeadsGrow(s, s)
  {
  }

  lemma {:induction false} EraseBlocksHeads(c: Config, s: State, victims: seq<nat>, k: nat)
    requires EraseBlocks(c, s, victims, k).Running?
    ensures var s' := EraseBlocks(c, s, victims, k).value;
      s'.heads == s.heads && s'.blocks.Keys == s.blocks.Keys - (set j | k <= j < |victims| :: victims[j])
    decreases |victims| - k
  {
    if k < |victims| {
      EraseBlocksHeads(c, Erase(c, s, victims[k]).value, victims, k + 1);
    }
  }

  /** Victims that are not heads beforehand never become heads, and so every head outlives the collection. */
  lemma SparedHeadsStay(c: Config, s: State, victims: seq<nat>)
    requires HeadsInUse(s, |s.heads|) && Collected(c, s, victims).Running?
    requires forall k :: 0 <= k < |victims| ==> victims[k] in s.blocks && victims[k] !in s.heads
    ensures HeadsInUse(Collected(c, s, victims).value, |s.heads|)
  {
    hide MoveBlocks, EraseBlocks;
    if |victims| > 0 {
      var s1 := MoveBlocks(c, s, victims, 0).value;
      MoveBlocksHeads(c, s, victims, 0);
      EraseBlocksHeads(c, s1, victims, 0);
      assert HeadsInUse(s1, |s1.heads|);
    }
  }
}
