/**
 Write heads and channels. A channel is a residue of block indices modulo the number of write heads, and head i is meant
 to write to channel i, so that consecutive pages go to different parallel units. Under the policies that honour the
 channel asked for, it does for as long as the channel has a free block whenever one is asked for.
 */
module FtlChannels {
  import opened Ftl
  import opened FtlAllocation
  import opened FtlMapping
  import opened FtlWear
  import opened FtlHeads
  import opened FtlPolicies
  import opened FtlRuns

  /** The policy takes a block of the channel asked for, if there is a free one. */
  ghost predicate Channelled(c: Config) {
    && 0 < c.heads
    && forall free: seq<Block>, idx: nat, draw: nat :: HasOn(free, c.heads, idx) ==>
         var k := c.choose(free, idx, draw); k < |free| && free[k].idx % c.heads == idx
  }

  lemma FirstFitChannelled(c: Config)
    requires 0 < c.heads && c.choose == FirstFit(c.heads)
    ensures Channelled(c)
  {
    forall free: seq<Block>, idx: nat, draw: nat | HasOn(free, c.heads, idx)
      ensures var k := c.choose(free, idx, draw); k < |free| && free[k].idx % c.heads == idx
    {
      var j :| 0 <= j < |free| && OnChannel(free[j], c.heads, idx);
      assert FirstOn(free, c.heads, idx, 0) <= j;
    }
  }

  lemma WeightedChannelled(c: Config, weight: Block -> real, fraction: nat -> real)
    requires 0 < c.heads && c.choose == Weighted(c.heads, weight, fraction)
    ensures Channelled(c)
  {
    forall free: seq<Block>, idx: nat, draw: nat | HasOn(free, c.heads, idx)
      ensures var k := c.choose(free, idx, draw); k < |free| && free[k].idx % c.heads == idx
    {
      assert OnChannel(free[WeightedPick(c.heads, weight, fraction(draw), free, idx)], c.heads, idx);
    }
  }

  /** So all policies do but that of the least-worn channel. */
  lemma PolicyChannelled(c: Config, p: Policy)
    requires 0 < c.heads && c.choose == Chooser(p, c.heads) && !p.ChannelPolicy?
    ensures Channelled(c)
  {
    hide Channelled, FirstFit, Weighted;
    match p
    case FirstFitPolicy => FirstFitChannelled(c);
    case WeightedPolicy(weight, fraction) => WeightedChannelled(c, weight, fraction);
    case ChannelPolicy =>
  }

  // ---------------------------------------------------------------- turning to a head, and replacing it

  /** The heads take turns: the next one round is turned to exactly when the tweak is off or the request wants a lane that
      was wanted since the last turn. */
  lemma TurnsRound(c: Config, s: State, flags: set<nat>)
    requires Shape(c, s) && LastFreeBlock(c, s, flags).Running?
    ensures var s' := LastFreeBlock(c, s, flags).value.0;
      if !c.tweak || exists u :: u in flags && u in s.ioMap
      then s'.headIndex == (s.headIndex + 1) % c.heads && s'.ioMap == flags
      else s'.headIndex == s.headIndex && forall u :: u in s'.ioMap <==> u in s.ioMap || u in flags
  {
    hide GetFreeBlock, Highest;
    if u :| u in flags && u in s.ioMap {
      assert u in s.ioMap * flags;
    }
    if s.ioMap * flags != {} {
      var u :| u in s.ioMap * flags;
      assert u in flags && u in s.ioMap;
    }
    TakenFrame(c, Advanced(c, s, flags), Advanced(c, s, flags).headIndex);
    NextRound(s.headIndex, c.heads);
  }

  lemma NextRound(i: nat, n: nat)
    requires i < n
    ensures (i + 1) % n == if i + 1 == n then 0 else i + 1
  {
  }

  lemma TakenFrame(c: Config, s: State, i: nat)
    ensures GetFreeBlock(c, s, i).Running? ==>
      var (s', b) := GetFreeBlock(c, s, i).value;
      s'.headIndex == s.headIndex && s'.ioMap == s.ioMap && s'.heads == s.heads && s'.reclaimMore == s.reclaimMore
  {
  }

  /** A head is replaced by a block of its own channel whenever the channel has a free one. Only the head turned to is
      replaced, and the block named is then that head. */
  lemma ReplacedOnChannel(c: Config, s: State, flags: set<nat>)
    requires Shape(c, s) && Channelled(c) && LastFreeBlock(c, s, flags).Running?
    ensures var (s', dst) := LastFreeBlock(c, s, flags).value; var i := s'.headIndex;
      && i < c.heads && s'.heads == s.heads[i := dst]
      && (dst !in s.blocks && HasOn(s.free, c.heads, i) ==> dst % c.heads == i)
      && (dst in s.blocks ==> dst == s.heads[i])
  {
    hide Highest;
    var s1 := Advanced(c, s, flags);
    assert s1.heads[s1.headIndex := s1.heads[s1.headIndex]] == s1.heads;
  }

  // ---------------------------------------------------------------- the flag over writes and collections

  /** The flag, between two states with no selection in between. */
  ghost predicate Flagged(s: State, s': State) {
    |s'.free| <= |s.free| && (s'.reclaimMore <==> s.reclaimMore || |s'.free| < |s.free|)
  }

  lemma FlaggedTrans(s: State, s1: State, s2: State)
    requires Flagged(s, s1) && Flagged(s1, s2)
    ensures Flagged(s, s2)
  {
  }

  lemma LastFreeBlockFlag(c: Config, s: State, flags: set<nat>)
    requires s.nFree == |s.free| && LastFreeBlock(c, s, flags).Running?
    ensures var s' := LastFreeBlock(c, s, flags).value.0; Flagged(s, s') && s'.nFree == |s'.free|
  {
    hide Highest;
  }

  lemma {:induction false} MoveLanesFlag(c: Config, s: State, b: nat, p: nat, from: Block, bits: set<nat>, dst: nat, u: nat)
    requires MoveLanes(c, s, b, p, from, bits, dst, u).Running?
    ensures var s' := MoveLanes(c, s, b, p, from, bits, dst, u).value;
      s'.free == s.free && s'.nFree == s.nFree && s'.reclaimMore == s.reclaimMore
    decreases c.Lanes() - u
  {
    if u < c.Lanes() {
      if !c.Touches(bits, u) {
        MoveLanesFlag(c, s, b, p, from, bits, dst, u + 1);
      } else {
        var s1 := MoveUnit(c, s, b, Unit(p, u), Label(from, Unit(p, u)), dst).value;
        MoveLanesFlag(c, s1, b, p, from, bits, dst, u + 1);
      }
    }
  }

  lemma {:induction false} MovePagesFlag(c: Config, s: State, b: nat, p: nat)
    requires s.nFree == |s.free| && MovePages(c, s, b, p).Running?
    ensures var s' := MovePages(c, s, b, p).value; Flagged(s, s') && s'.nFree == |s'.free|
    decreases c.pages - p
  {
    hide LastFreeBlock, MoveLanes, PageInfo;
    if p < c.pages {
      var bits := PageInfo(c, s.blocks[b], p);
      var s1 := MovePage(c, s, b, p).value;
      if bits != {} {
        var (s2, dst) := LastFreeBlock(c, s, Moved(c, bits)).value;
        LastFreeBlockFlag(c, s, Moved(c, bits));
        MoveLanesFlag(c, s2, b, p, s.blocks[b], Moved(c, bits), dst, 0);
      }
      MovePagesFlag(c, s1, b, p + 1);
      FlaggedTrans(s, s1, MovePages(c, s1, b, p + 1).value);
    }
  }

  /** After the copies of a collection the flag is set exactly if it was before or the copies took a fresh block. */
  lemma {:induction false} MoveBlocksFlag(c: Config, s: State, victims: seq<nat>, k: nat)
    requires s.nFree == |s.free| && MoveBlocks(c, s, victims, k).Running?
    ensures var s' := MoveBlocks(c, s, victims, k).value; Flagged(s, s') && s'.nFree == |s'.free|
    decreases |victims| - k
  {
    hide MovePages, Flagged;
    if k < |victims| {
      var s1 := MovePages(c, s, victims[k], 0).value;
      MovePagesFlag(c, s, victims[k], 0);
      MoveBlocksFlag(c, s1, victims, k + 1);
      FlaggedTrans(s, s1, MoveBlocks(c, s1, victims, k + 1).value);
    } else {
      FlaggedRefl(s);
    }
  }

  lemma FlaggedRefl(s: State)
    ensures Flagged(s, s)
  {
  }

  /** A write, up to garbage collection, sets the flag exactly if its head had run full. */
  lemma StoreFlag(c: Config, s: State, lpn: nat, flags: set<nat>, data: nat -> Data)
    requires s.nFree == |s.free| && Store(c, s, lpn, flags, data).Running?
    ensures Flagged(s, Store(c, s, lpn, flags, data).value)
  {
    hide Invalidated, LastFreeBlock, Programmed;
    PreparedFlag(c, s, lpn, flags);
    var s1 := Prepared(c, s, lpn, flags).value;
    LastFreeBlockFlag(c, s1, flags);
    var (s2, dst) := LastFreeBlock(c, s1, flags).value;
    ProgrammedFlag(c, s2, lpn, flags, data, dst, 0);
  }

  lemma PreparedFlag(c: Config, s: State, lpn: nat, flags: set<nat>)
    requires Prepared(c, s, lpn, flags).Running?
    ensures var s' := Prepared(c, s, lpn, flags).value;
      s'.free == s.free && s'.nFree == s.nFree && s'.reclaimMore == s.reclaimMore
  {
    if lpn in s.table {
      InvalidatedFlag(c, s, lpn, flags, 0);
    }
  }

  lemma {:induction false} InvalidatedFlag(c: Config, s: State, lpn: nat, flags: set<nat>, u: nat)
    requires Invalidated(c, s, lpn, flags, u).Running?
    ensures var s' := Invalidated(c, s, lpn, flags, u).value;
      s'.free == s.free && s'.nFree == s.nFree && s'.reclaimMore == s.reclaimMore
    decreases c.Lanes() - u
  {
    if u < c.Lanes() {
      if !c.Touches(flags, u) || !c.Mapped(s.table[lpn][u]) {
        InvalidatedFlag(c, s, lpn, flags, u + 1);
      } else {
        InvalidatedFlag(c, ClearOld(s, s.table[lpn][u], u), lpn, flags, u + 1);
      }
    }
  }

  lemma {:induction false} ProgrammedFlag(c: Config, s: State, lpn: nat, flags: set<nat>, data: nat -> Data, dst: nat, u: nat)
    requires Programmed(c, s, lpn, flags, data, dst, u).Running?
    ensures var s' := Programmed(c, s, lpn, flags, data, dst, u).value;
      s'.free == s.free && s'.nFree == s.nFree && s'.reclaimMore == s.reclaimMore
    decreases c.Lanes() - u
  {
    if u < c.Lanes() {
      if !c.Touches(flags, u) {
        ProgrammedFlag(c, s, lpn, flags, data, dst, u + 1);
      } else {
        ProgrammedFlag(c, ProgramUnit(c, s, lpn, u, dst, data(u)).value, lpn, flags, data, dst, u + 1);
      }
    }
  }

  // ---------------------------------------------------------------- heads over runs

  ghost predicate HeadsOnChannels(c: Config, s: State) {
    0 < c.heads == |s.heads| && s.headIndex < c.heads && forall i :: 0 <= i < c.heads ==> s.heads[i] % c.heads == i
  }

  /** If the head that the request turns to is full, its channel has a free block. */
  ghost predicate Supplied(c: Config, s: State, flags: set<nat>) {
    var i := Advanced(c, s, flags).headIndex;
    0 < c.heads && i < |s.heads| && s.heads[i] in s.blocks && c.Full(s.blocks[s.heads[i]]) ==> HasOn(s.free, c.heads, i)
  }

  lemma LastFreeBlockStays(c: Config, s: State, flags: set<nat>)
    requires Channelled(c) && HeadsOnChannels(c, s) && Supplied(c, s, flags) && LastFreeBlock(c, s, flags).Running?
    ensures HeadsOnChannels(c, LastFreeBlock(c, s, flags).value.0)
  {
    hide Highest;
  }

  /** The same for every page that is still to be copied from a block, and from the victims behind it. */
  ghost predicate PagesSupplied(c: Config, s: State, b: nat, p: nat)
    decreases c.pages - p
  {
    p < c.pages && b in s.blocks ==>
      && (PageInfo(c, s.blocks[b], p) != {} ==> Supplied(c, s, Moved(c, PageInfo(c, s.blocks[b], p))))
      && (MovePage(c, s, b, p).Running? ==> PagesSupplied(c, MovePage(c, s, b, p).value, b, p + 1))
  }

  ghost predicate BlocksSupplied(c: Config, s: State, victims: seq<nat>, k: nat)
    decreases |victims| - k
  {
    k < |victims| ==>
      && PagesSupplied(c, s, victims[k], 0)
      && (MovePages(c, s, victims[k], 0).Running? ==> BlocksSupplied(c, MovePages(c, s, victims[k], 0).value, victims, k + 1))
  }

  lemma {:induction false} PagesStay(c: Config, s: State, b: nat, p: nat)
    requires Channelled(c) && HeadsOnChannels(c, s) && PagesSupplied(c, s, b, p) && MovePages(c, s, b, p).Running?
    ensures HeadsOnChannels(c, MovePages(c, s, b, p).value)
    decreases c.pages - p
  {
    hide Channelled, Supplied, LastFreeBlock, MoveLanes, PageInfo;
    if p < c.pages {
      var bits := PageInfo(c, s.blocks[b], p);
      if bits != {} {
        var (s1, dst) := LastFreeBlock(c, s, Moved(c, bits)).value;
        LastFreeBlockStays(c, s, Moved(c, bits));
        MoveLanesHeads(c, s1, b, p, s.blocks[b], Moved(c, bits), dst, 0);
        MoveLanesIndex(c, s1, b, p, s.blocks[b], Moved(c, bits), dst, 0);
      }
      PagesStay(c, MovePage(c, s, b, p).value, b, p + 1);
    }
  }

  lemma {:induction false} MoveLanesIndex(c: Config, s: State, b: nat, p: nat, from: Block, bits: set<nat>, dst: nat, u: nat)
    requires MoveLanes(c, s, b, p, from, bits, dst, u).Running?
    ensures MoveLanes(c, s, b, p, from, bits, dst, u).value.headIndex == s.headIndex
    decreases c.Lanes() - u
  {
    if u < c.Lanes() {
      if !c.Touches(bits, u) {
        MoveLanesIndex(c, s, b, p, from, bits, dst, u + 1);
      } else {
        MoveLanesIndex(c, MoveUnit(c, s, b, Unit(p, u), Label(from, Unit(p, u)), dst).value, b, p, from, bits, dst, u + 1);
      }
    }
  }

  lemma {:induction false} BlocksStay(c: Config, s: State, victims: seq<nat>, k: nat)
    requires Channelled(c) && HeadsOnChannels(c, s) && BlocksSupplied(c, s, victims, k) && MoveBlocks(c, s, victims, k).Running?
    ensures HeadsOnChannels(c, MoveBlocks(c, s, victims, k).value)
    decreases |victims| - k
  {
    hide Channelled, HeadsOnChannels, PagesSupplied, MovePages;
    if k < |victims| {
      PagesStay(c, s, victims[k], 0);
      BlocksStay(c, MovePages(c, s, victims[k], 0).value, victims, k + 1);
    }
  }

  lemma {:induction false} EraseBlocksStay(c: Config, s: State, victims: seq<nat>, k: nat)
    requires EraseBlocks(c, s, victims, k).Running?
    ensures var s' := EraseBlocks(c, s, victims, k).value; s'.heads == s.heads && s'.headIndex == s.headIndex
    decreases |victims| - k
  {
    if k < |victims| {
      EraseBlocksStay(c, Erase(c, s, victims[k]).value, victims, k + 1);
    }
  }

  /** Every block that the write asks for, for itself or for the copies of its collection, is there on its channel. */
  ghost predicate OpSupplied(c: Config, s: State, op: Op) {
    op.WriteOp? && op.flags != {} ==>
      var s0 := Counted(s, op.flags);
      && (Prepared(c, s0, op.lpn, op.flags).Running? ==> Supplied(c, Prepared(c, s0, op.lpn, op.flags).value, op.flags))
      && (Store(c, s0, op.lpn, op.flags, op.data).Running? ==>
            var s1 := Store(c, s0, op.lpn, op.flags, op.data).value;
            op.collect(s1).Some? ==> BlocksSupplied(c, s1.(reclaimMore := false), op.collect(s1).value, 0))
  }

  ghost predicate RunSupplied(c: Config, s: State, ops: seq<Op>)
    decreases |ops|
  {
    |ops| > 0 ==>
      && OpSupplied(c, s, ops[0])
      && (Apply(c, s, ops[0]).Running? ==> RunSupplied(c, Apply(c, s, ops[0]).value.0, ops[1..]))
  }

  lemma StoreStays(c: Config, s: State, lpn: nat, flags: set<nat>, data: nat -> Data)
    requires Channelled(c) && HeadsOnChannels(c, s) && Store(c, s, lpn, flags, data).Running?
    requires Supplied(c, Prepared(c, s, lpn, flags).value, flags)
    ensures HeadsOnChannels(c, Store(c, s, lpn, flags, data).value)
  {
    hide Channelled, Supplied, Invalidated, LastFreeBlock, Programmed;
    if lpn in s.table {
      InvalidatedHeads(c, s, lpn, flags, 0);
      InvalidatedIndex(c, s, lpn, flags, 0);
    }
    var s1 := Prepared(c, s, lpn, flags).value;
    LastFreeBlockStays(c, s1, flags);
    var (s2, dst) := LastFreeBlock(c, s1, flags).value;
    ProgrammedHeads(c, s2, lpn, flags, data, dst, 0);
    ProgrammedIndex(c, s2, lpn, flags, data, dst, 0);
  }

  lemma {:induction false} InvalidatedIndex(c: Config, s: State, lpn: nat, flags: set<nat>, u: nat)
    requires Invalidated(c, s, lpn, flags, u).Running?
    ensures Invalidated(c, s, lpn, flags, u).value.headIndex == s.headIndex
    decreases c.Lanes() - u
  {
    if u < c.Lanes() {
      if !c.Touches(flags, u) || !c.Mapped(s.table[lpn][u]) {
        InvalidatedIndex(c, s, lpn, flags, u + 1);
      } else {
        InvalidatedIndex(c, ClearOld(s, s.table[lpn][u], u), lpn, flags, u + 1);
      }
    }
  }

  lemma {:induction false} ProgrammedIndex(c: Config, s: State, lpn: nat, flags: set<nat>, data: nat -> Data, dst: nat, u: nat)
    requires Programmed(c, s, lpn, flags, data, dst, u).Running?
    ensures Programmed(c, s, lpn, flags, data, dst, u).value.headIndex == s.headIndex
    decreases c.Lanes() - u
  {
    if u < c.Lanes() {
      if !c.Touches(flags, u) {
        ProgrammedIndex(c, s, lpn, flags, data, dst, u + 1);
      } else {
        ProgrammedIndex(c, ProgramUnit(c, s, lpn, u, dst, data(u)).value, lpn, flags, data, dst, u + 1);
      }
    }
  }

  lemma {:induction false} TrimmedIndex(c: Config, s: State, lpn: nat, u: nat)
    requires Trimmed(c, s, lpn, u).Running?
    ensures Trimmed(c, s, lpn, u).value.headIndex == s.headIndex
    decreases c.Lanes() - u
  {
    if u < c.Lanes() {
      TrimmedIndex(c, ClearOld(s, s.table[lpn][u], u), lpn, u + 1);
    }
  }

  lemma ApplyStays(c: Config, s: State, op: Op)
    requires Channelled(c) && HeadsOnChannels(c, s) && OpSupplied(c, s, op) && Apply(c, s, op).Running?
    ensures HeadsOnChannels(c, Apply(c, s, op).value.0)
  {
    hide Channelled, Supplied, BlocksSupplied, Prepared, LastFreeBlock, Programmed, MoveBlocks, EraseBlocks, Trimmed, HostRead;
    match op
    case ReadOp(lpn, flags) =>
    case WriteOp(lpn, flags, data, collect) =>
      if flags != {} {
        var s0 := Counted(s, flags);
        StoreStays(c, s0, lpn, flags, data);
        var s1 := Store(c, s0, lpn, flags, data).value;
        var gc := collect(s1);
        if gc.Some? && |gc.value| > 0 {
          var s2 := s1.(reclaimMore := false);
          BlocksStay(c, s2, gc.value, 0);
          EraseBlocksStay(c, MoveBlocks(c, s2, gc.value, 0).value, gc.value, 0);
        }
      }
    case TrimOp(lpn) =>
      if lpn in s.table {
        TrimmedHeads(c, s, lpn, 0);
        TrimmedIndex(c, s, lpn, 0);
      }
  }

  /** Over a run in which every channel asked for has a free block, head i stays on channel i. */
  lemma {:induction false} RunStaysOnChannels(c: Config, s: State, ops: seq<Op>)
    requires Channelled(c) && HeadsOnChannels(c, s) && RunSupplied(c, s, ops) && Run(c, s, ops).Running?
    ensures HeadsOnChannels(c, Run(c, s, ops).value.0)
    decreases |ops|
  {
    hide Channelled, HeadsOnChannels, OpSupplied, Apply;
    if |ops| > 0 {
      ApplyStays(c, s, ops[0]);
      RunStaysOnChannels(c, Apply(c, s, ops[0]).value.0, ops[1..]);
    }
  }

  // ---------------------------------------------------------------- construction

  /** The first i heads are on their channels, and block j is still free for every later head j. */
  ghost predicate Claimed(c: Config, s: State, i: nat) {
    && 0 < c.heads == |s.heads| && s.headIndex < c.heads
    && (forall j :: 0 <= j < i && j < c.heads ==> s.heads[j] % c.heads == j)
    && (forall j: nat :: i <= j < c.heads ==> Listed(s.free, j))
  }

  lemma ClaimOnChannel(c: Config, s: State, i: nat)
    requires Channelled(c) && Claimed(c, s, i) && i < c.heads && Distinct(s.free) && GetFreeBlock(c, s, i).Running?
    ensures var (s1, b) := GetFreeBlock(c, s, i).value; var s2 := s1.(heads := s1.heads[i := b]);
      Claimed(c, s2, i + 1) && Distinct(s2.free)
  {
    assert Listed(s.free, i);
    var k0 :| 0 <= k0 < |s.free| && s.free[k0].idx == i;
    SmallModulus(i, c.heads);
    assert OnChannel(s.free[k0], c.heads, i);
    assert HasOn(s.free, c.heads, i);
    var k := c.choose(s.free, i, s.draws);
    var rest := s.free[..k] + s.free[k + 1..];
    forall j: nat | i + 1 <= j < c.heads
      ensures Listed(rest, j)
    {
      SmallModulus(j, c.heads);
      ListedRemove(s.free, k, j);
    }
    ListedRemove(s.free, k, i);
  }

  lemma SmallModulus(i: nat, n: nat)
    requires i < n
    ensures i % n == i
  {
  }

  lemma {:induction false} ClaimsOnChannels(c: Config, s: State, i: nat)
    requires Channelled(c) && i <= c.heads && Claimed(c, s, i) && Distinct(s.free) && ClaimHeads(c, s, i).Running?
    ensures HeadsOnChannels(c, ClaimHeads(c, s, i).value)
    decreases c.heads - i
  {
    hide Channelled, GetFreeBlock, Distinct, Listed;
    if i < c.heads {
      ClaimOnChannel(c, s, i);
      var (s1, b) := GetFreeBlock(c, s, i).value;
      ClaimsOnChannels(c, s1.(heads := s1.heads[i := b]), i + 1);
    }
  }

  /** The constructor puts head i on channel i, whatever the order of the free list, and there it stays over every run in
      which every channel asked for has a free block. */
  lemma HeadsKeepTheirChannels(c: Config, free: seq<Block>, ops: seq<Op>)
    requires c.Ok() && Channelled(c) && Initial(c, free) && c.heads <= c.total
    requires ClaimHeads(c, Fresh(c, free), 0).Running?
    ensures var s := ClaimHeads(c, Fresh(c, free), 0).value;
      && HeadsOnChannels(c, s)
      && (RunSupplied(c, s, ops) && Run(c, s, ops).Running? ==> HeadsOnChannels(c, Run(c, s, ops).value.0))
  {
    hide Channelled, ClaimHeads, RunSupplied, Run;
    var s0 := Fresh(c, free);
    ClaimsOnChannels(c, s0, 0);
    var s := ClaimHeads(c, s0, 0).value;
    if RunSupplied(c, s, ops) && Run(c, s, ops).Running? {
      RunStaysOnChannels(c, s, ops);
    }
  }
}
