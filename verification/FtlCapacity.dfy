/**
 How much a device can hold for good. With the random-I/O tweak off, greedy garbage collection and no block reaching its
 threshold, the pages that can still be written never run out as long as the logical pages fit into the blocks that are
 alive, less the write heads and the reserve that garbage collection keeps free.
 */
module FtlCapacity {
  import opened Ftl
  import opened FtlMapping
  import opened FtlGc
  import opened FtlWear
  import opened FtlEndurance
  import opened FtlHeads
  import opened FtlPlan
  import opened FtlPolicies
  import opened FtlRuns
  import opened FtlSpace

  // ---------------------------------------------------------------- pages that can still be written

  function OpenIn(c: Config, blocks: map<nat, Block>, h: nat): int {
    if h in blocks && |blocks[h].next| > 0 then c.pages - blocks[h].next[0] else 0
  }

  /** Pages left in the blocks of the first n heads. */
  function OpenPages(c: Config, blocks: map<nat, Block>, heads: seq<nat>, n: nat): int
    requires n <= |heads|
  {
    if n == 0 then 0 else OpenPages(c, blocks, heads, n - 1) + OpenIn(c, blocks, heads[n - 1])
  }

  /** Pages left in the whole device: in the free blocks and behind the write heads. */
  function Vacant(c: Config, s: State): int {
    |s.free| * c.pages + OpenPages(c, s.blocks, s.heads, |s.heads|)
  }

  lemma {:induction false} OpenSame(c: Config, blocks: map<nat, Block>, heads: seq<nat>, blocks': map<nat, Block>, heads': seq<nat>, n: nat)
    requires n <= |heads| && n <= |heads'|
    requires forall i :: 0 <= i < n ==> OpenIn(c, blocks', heads'[i]) == OpenIn(c, blocks, heads[i])
    ensures OpenPages(c, blocks', heads', n) == OpenPages(c, blocks, heads, n)
  {
    hide OpenIn;
    if n > 0 {
      OpenSame(c, blocks, heads, blocks', heads', n - 1);
    }
  }

  lemma {:induction false} OpenChanged(c: Config, blocks: map<nat, Block>, heads: seq<nat>, blocks': map<nat, Block>, heads': seq<nat>,
                                       n: nat, i: nat)
    requires i < n <= |heads| && n <= |heads'|
    requires forall j :: 0 <= j < n && j != i ==> OpenIn(c, blocks', heads'[j]) == OpenIn(c, blocks, heads[j])
    ensures OpenPages(c, blocks', heads', n) - OpenPages(c, blocks, heads, n)
         == OpenIn(c, blocks', heads'[i]) - OpenIn(c, blocks, heads[i])
  {
    hide OpenIn;
    if i < n - 1 {
      OpenChanged(c, blocks, heads, blocks', heads', n - 1, i);
    } else {
      OpenSame(c, blocks, heads, blocks', heads', n - 1);
    }
  }

  lemma {:induction false} OpenBound(c: Config, s: State, n: nat)
    requires Shape(c, s) && n <= |s.heads|
    ensures 0 <= OpenPages(c, s.blocks, s.heads, n) <= n * c.pages
    decreases n
  {
    if n > 0 {
      OpenBound(c, s, n - 1);
      OpenInBound(c, s, s.heads[n - 1]);
      Distribute(n - 1, 1, c.pages);
    }
  }

  lemma OpenInBound(c: Config, s: State, h: nat)
    requires Shape(c, s)
    ensures 0 <= OpenIn(c, s.blocks, h) <= c.pages
  {
    if h in s.blocks {
      assert BlockOk(c, s.blocks[h]);
    }
  }

  /** Taking a fresh block for a full head keeps the pages left: the block leaves the free list and opens behind the head. */
  lemma LastFreeBlockVacant(c: Config, s: State, flags: set<nat>)
    requires Shape(c, s) && HeadsOk(c, s) && Narrow(c, s) && !c.tweak && LastFreeBlock(c, s, flags).Running?
    ensures var (s', dst) := LastFreeBlock(c, s, flags).value;
      && Vacant(c, s') == Vacant(c, s)
      && |s'.heads| == c.heads && s'.headIndex < c.heads && s'.heads[s'.headIndex] == dst
  {
    hide Shape, GetFreeBlock, OpenPages, Highest, Narrow;
    var s1 := Advanced(c, s, flags);
    var i := s1.headIndex;
    HeadFacts(c, s);
    if c.Full(s1.blocks[s1.heads[i]]) {
      AdvancedFrame(c, s, flags);
      TakesBlank(c, s, s1, i);
      var (s', dst) := LastFreeBlock(c, s, flags).value;
      OpenChanged(c, s.blocks, s.heads, s'.blocks, s'.heads, |s.heads|, i);
      Distribute(|s'.free|, 1, c.pages);
    }
  }

  lemma HeadFacts(c: Config, s: State)
    requires Shape(c, s) && HeadsOk(c, s) && Narrow(c, s) && !c.tweak
    ensures |s.heads| == c.heads && s.headIndex < c.heads && 0 < c.units && 0 < c.pages
    ensures forall b :: b in s.blocks ==>
      |s.blocks[b].next| == c.units && s.blocks[b].next[0] <= c.pages && (c.Full(s.blocks[b]) <==> s.blocks[b].next[0] == c.pages)
  {
    forall b | b in s.blocks
      ensures |s.blocks[b].next| == c.units && s.blocks[b].next[0] <= c.pages && (c.Full(s.blocks[b]) <==> s.blocks[b].next[0] == c.pages)
    {
      assert BlockOk(c, s.blocks[b]) && Flat(c, s.blocks[b]);
      HighestIsFirst(s.blocks[b].next);
    }
  }

  lemma ProgramVacant(c: Config, s: State, lpn: nat, dst: nat, d: Data, i: nat)
    requires ProgramUnit(c, s, lpn, 0, dst, d).Running? && i < |s.heads| && s.heads[i] == dst && HeadsDistinct(s, |s.heads|)
    ensures Vacant(c, ProgramUnit(c, s, lpn, 0, dst, d).value) == Vacant(c, s) - 1
  {
    hide OpenPages;
    var s' := ProgramUnit(c, s, lpn, 0, dst, d).value;
    OpenChanged(c, s.blocks, s.heads, s'.blocks, s'.heads, |s.heads|, i);
  }

  lemma SameWearVacant(c: Config, s: State, s': State)
    requires SameWear(s, s') && s'.heads == s.heads
    ensures Vacant(c, s') == Vacant(c, s)
  {
    hide OpenPages;
    OpenSame(c, s.blocks, s.heads, s'.blocks, s'.heads, |s.heads|);
  }

  /** A host write costs one page. */
  lemma StoreVacant(c: Config, s: State, lpn: nat, flags: set<nat>, data: nat -> Data)
    requires Inv(c, s) && HeadsOk(c, s) && Narrow(c, s) && !c.tweak && Store(c, s, lpn, flags, data).Running?
    ensures Vacant(c, Store(c, s, lpn, flags, data).value) == Vacant(c, s) - 1
  {
    hide Inv, InvBut, Shape, Narrow, Flat, Invalidated, LastFreeBlock, ProgramUnit, Vacant, AllUnclaimed, Touched;
    PreparedKeeps(c, s, lpn, flags);
    PreparedHeads(c, s, lpn, flags);
    PreparedVacant(c, s, lpn, flags);
    PreparedTidy(c, s, lpn, flags);
    var s1 := Prepared(c, s, lpn, flags).value;
    InvButParts(c, s1, lpn, Touched(c, flags, c.Lanes()));
    LastFreeBlockVacant(c, s1, flags);
    LastFreeBlockKeepsHeads(c, s1, flags);
    var (s2, dst) := LastFreeBlock(c, s1, flags).value;
    ProgramVacant(c, s2, lpn, dst, data(0), s2.headIndex);
    assert Programmed(c, s2, lpn, flags, data, dst, 0)
        == Programmed(c, ProgramUnit(c, s2, lpn, 0, dst, data(0)).value, lpn, flags, data, dst, 1);
  }

  lemma PreparedVacant(c: Config, s: State, lpn: nat, flags: set<nat>)
    requires Prepared(c, s, lpn, flags).Running?
    ensures Vacant(c, Prepared(c, s, lpn, flags).value) == Vacant(c, s)
  {
    hide Invalidated, Vacant;
    var s1 := Prepared(c, s, lpn, flags).value;
    if lpn in s.table {
      InvalidatedEvolves(c, s, lpn, flags, 0);
      InvalidatedHeads(c, s, lpn, flags, 0);
    }
    SameWearVacant(c, s, s1);
  }

  lemma PreparedTidy(c: Config, s: State, lpn: nat, flags: set<nat>)
    requires Prepared(c, s, lpn, flags).Running? && Narrow(c, s)
    ensures Narrow(c, Prepared(c, s, lpn, flags).value)
  {
    hide Invalidated;
    if lpn in s.table {
      InvalidatedNarrow(c, s, lpn, flags, 0);
    }
  }

  // ---------------------------------------------------------------- copying costs one page for each page copied

  /** Pages left behind the heads of a plan. */
  function Remaining(c: Config, p: Plan, n: nat): int
    requires Level(c, p) && n <= c.heads
  {
    if n == 0 then 0 else Remaining(c, p, n - 1) + (c.pages - Written(c, p, n - 1))
  }

  lemma {:induction false} RemainingChanged(c: Config, p: Plan, p': Plan, n: nat, i: nat)
    requires Level(c, p) && Level(c, p') && n <= c.heads && i < c.heads
    requires forall j: nat :: j < c.heads && j != i ==> Written(c, p', j) == Written(c, p, j)
    ensures Remaining(c, p', n) - Remaining(c, p, n) == if i < n then Written(c, p, i) - Written(c, p', i) else 0
    decreases n
  {
    hide Level, Written;
    if n > 0 {
      RemainingChanged(c, p, p', n - 1, i);
    }
  }

  /** What a plan has left of what it started with, in pages: fresh blocks count against it. */
  function Balance(c: Config, p: Plan): int
    requires Level(c, p)
  {
    Remaining(c, p, c.heads) - p.taken * c.pages + p.copies
  }

  lemma TurnBalances(c: Config, p: Plan, p': Plan)
    requires Level(c, p) && Level(c, p') && TakesTurn(c, p, p')
    ensures Balance(c, p') == Balance(c, p)
  {
    hide Level, Written, Remaining;
    LevelOk(c, p);
    RemainingChanged(c, p, p', c.heads, NextHead(c, p.headIndex));
    Distribute(p.taken, 1, c.pages);
  }

  lemma {:induction false} PagesBalance(c: Config, p: Plan, b: Block, page: nat)
    requires Level(c, p)
    ensures PlanOk(c, p)
    ensures var p' := PlanPages(c, p, b, page);
      Level(c, p') && Balance(c, p') == Balance(c, p) && p'.copies == p.copies + PagesDue(c, b, page)
    decreases c.pages - page
  {
    hide Level, Claim, Fill, PageInfo, Balance, Written;
    LevelOk(c, p);
    if page < c.pages {
      var bits := PageInfo(c, b, page);
      if bits != {} {
        PageTurn(c, p, bits);
        TurnBalances(c, p, PlanPage(c, p, bits));
      }
      PagesBalance(c, PlanPage(c, p, bits), b, page + 1);
    }
  }

  lemma {:induction false} BlocksBalance(c: Config, p: Plan, blocks: map<nat, Block>, victims: seq<nat>, k: nat)
    requires Level(c, p)
    ensures PlanOk(c, p)
    ensures var p' := PlanBlocks(c, p, blocks, victims, k);
      Level(c, p') && Balance(c, p') == Balance(c, p) && p'.copies == p.copies + Due(c, blocks, victims, k)
    decreases |victims| - k
  {
    hide Level, PlanPages, PagesDue, Balance;
    LevelOk(c, p);
    if k < |victims| {
      var p1 := p;
      if victims[k] in blocks {
        PagesBalance(c, p, blocks[victims[k]], 0);
        p1 := PlanPages(c, p, blocks[victims[k]], 0);
      }
      BlocksBalance(c, p1, blocks, victims, k + 1);
    }
  }

  lemma {:induction false} FollowedOpen(c: Config, s0: State, s: State, p: Plan, t: seq<nat>, n: nat)
    requires Follows(c, s0, s, p, t) && Level(c, p) && n <= c.heads
    ensures |s.heads| == c.heads && OpenPages(c, s.blocks, s.heads, n) == Remaining(c, p, n)
    decreases n
  {
    hide Follows;
    HeadNow(c, s0, s, p, t, 0);
    if n > 0 {
      FollowedOpen(c, s0, s, p, t, n - 1);
      HeadNow(c, s0, s, p, t, n - 1);
    }
  }

  /** The copies of a collection cost as many pages as the victims have to be copied. */
  lemma MoveBlocksVacant(c: Config, s: State, victims: seq<nat>)
    requires Inv(c, s) && Ledger(c, s) && HeadsOk(c, s) && Narrow(c, s) && !c.tweak
    requires VictimsOk(c, s, victims) && VictimsSound(c, s, victims, 0) && MoveBlocks(c, s, victims, 0).Running?
    ensures Vacant(c, MoveBlocks(c, s, victims, 0).value) == Vacant(c, s) - Due(c, s.blocks, victims, 0)
  {
    hide Inv, Ledger, Narrow, VictimsOk, VictimsSound, Start, PlanBlocks, Level, MoveBlocks, Due, Shape, Follows, Remaining,
         OpenPages;
    InvParts(c, s);
    StartIsLevel(c, s);
    StartFollows(c, s);
    VictimsInUse(c, s, victims);
    var t := BlocksFollow(c, s, s, victims, 0, Start(c, s), []);
    BlocksBalance(c, Start(c, s), s.blocks, victims, 0);
    var s1, p := MoveBlocks(c, s, victims, 0).value, Planned(c, s, victims);
    FollowedOpen(c, s, s, Start(c, s), [], c.heads);
    FollowedOpen(c, s, s1, p, t, c.heads);
    FreeLeft(c, s, s1, p, t);
    StartIsFresh(c, s);
    assert |s.free| * c.pages == |s1.free| * c.pages + p.taken * c.pages by { Distribute(|s1.free|, p.taken, c.pages); }
  }

  lemma StartIsFresh(c: Config, s: State)
    requires CanPlan(c, s)
    ensures Start(c, s).taken == 0 && Start(c, s).copies == 0
  {
  }

  // ---------------------------------------------------------------- only write heads have pages left

  /** Every block in use with a page left is a write head. */
  ghost predicate OpenAreHeads(c: Config, s: State) {
    && (forall b :: b in s.blocks ==> |s.blocks[b].next| > 0 && (s.blocks[b].next[0] < c.pages ==> b in s.heads))
    && (forall k :: 0 <= k < |s.free| ==> |s.free[k].next| > 0)
  }

  ghost predicate Tidy(c: Config, s: State) {
    !c.tweak && Narrow(c, s) && OpenAreHeads(c, s)
  }

  /** No row comes or goes, and no block retires. */
  ghost predicate Stays(s: State, s': State) {
    s'.table.Keys == s.table.Keys && s'.dead == s.dead
  }

  lemma LastFreeBlockTidy(c: Config, s: State, flags: set<nat>)
    requires Tidy(c, s) && LastFreeBlock(c, s, flags).Running?
    ensures var s' := LastFreeBlock(c, s, flags).value.0; Tidy(c, s') && Stays(s, s')
  {
    hide Highest;
    LastFreeBlockNarrow(c, s, flags);
    var s1 := Advanced(c, s, flags);
    var i := s1.headIndex;
    var head := s1.heads[i];
    HighestIsFirst(s1.blocks[head].next);
    var (s', dst) := LastFreeBlock(c, s, flags).value;
    forall b | b in s'.blocks && s'.blocks[b].next[0] < c.pages
      ensures b in s'.heads
    {
      if c.Full(s1.blocks[head]) {
        assert s'.heads[i] == dst;
        if b != dst {
          var j :| 0 <= j < |s.heads| && s.heads[j] == b;
          assert s'.heads[j] == b;
        }
      }
    }
  }

  lemma ProgramUnitTidy(c: Config, s: State, lpn: nat, u: nat, dst: nat, d: Data)
    requires Tidy(c, s) && u < c.Lanes() && ProgramUnit(c, s, lpn, u, dst, d).Running?
    ensures var s' := ProgramUnit(c, s, lpn, u, dst, d).value; Tidy(c, s') && Stays(s, s')
  {
  }

  lemma MoveUnitTidy(c: Config, s: State, b: nat, x: Unit, lpn: nat, dst: nat)
    requires Tidy(c, s) && x.lane < c.Lanes() && MoveUnit(c, s, b, x, lpn, dst).Running?
    ensures var s' := MoveUnit(c, s, b, x, lpn, dst).value; Tidy(c, s') && Stays(s, s')
  {
    var s1 := s.(blocks := s.blocks[b := s.blocks[b].Invalidate(x)]);
    ProgramUnitTidy(c, s1, lpn, x.lane, dst, Cell(s.media, Loc(b, x.page, x.lane)));
  }

  lemma {:induction false} ProgrammedTidy(c: Config, s: State, lpn: nat, flags: set<nat>, data: nat -> Data, dst: nat, u: nat)
    requires Tidy(c, s) && Programmed(c, s, lpn, flags, data, dst, u).Running?
    ensures var s' := Programmed(c, s, lpn, flags, data, dst, u).value; Tidy(c, s') && Stays(s, s')
    decreases c.Lanes() - u
  {
    hide Tidy, ProgramUnit;
    if u < c.Lanes() {
      if !c.Touches(flags, u) {
        ProgrammedTidy(c, s, lpn, flags, data, dst, u + 1);
      } else {
        ProgramUnitTidy(c, s, lpn, u, dst, data(u));
        ProgrammedTidy(c, ProgramUnit(c, s, lpn, u, dst, data(u)).value, lpn, flags, data, dst, u + 1);
      }
    }
  }

  lemma {:induction false} MoveLanesTidy(c: Config, s: State, b: nat, p: nat, from: Block, bits: set<nat>, dst: nat, u: nat)
    requires Tidy(c, s) && MoveLanes(c, s, b, p, from, bits, dst, u).Running?
    ensures var s' := MoveLanes(c, s, b, p, from, bits, dst, u).value; Tidy(c, s') && Stays(s, s')
    decreases c.Lanes() - u
  {
    hide Tidy, MoveUnit;
    if u < c.Lanes() {
      if !c.Touches(bits, u) {
        MoveLanesTidy(c, s, b, p, from, bits, dst, u + 1);
      } else {
        var x := Unit(p, u);
        MoveUnitTidy(c, s, b, x, Label(from, x), dst);
        MoveLanesTidy(c, MoveUnit(c, s, b, x, Label(from, x), dst).value, b, p, from, bits, dst, u + 1);
      }
    }
  }

  lemma {:induction false} MovePagesTidy(c: Config, s: State, b: nat, p: nat)
    requires Tidy(c, s) && MovePages(c, s, b, p).Running?
    ensures var s' := MovePages(c, s, b, p).value; Tidy(c, s') && Stays(s, s')
    decreases c.pages - p
  {
    hide Tidy, LastFreeBlock, MoveLanes, PageInfo;
    if p < c.pages {
      var bits := PageInfo(c, s.blocks[b], p);
      if bits != {} {
        var (s1, dst) := LastFreeBlock(c, s, Moved(c, bits)).value;
        LastFreeBlockTidy(c, s, Moved(c, bits));
        MoveLanesTidy(c, s1, b, p, s.blocks[b], Moved(c, bits), dst, 0);
      }
      MovePagesTidy(c, MovePage(c, s, b, p).value, b, p + 1);
    }
  }

  lemma {:induction false} MoveBlocksTidy(c: Config, s: State, victims: seq<nat>, k: nat)
    requires Tidy(c, s) && MoveBlocks(c, s, victims, k).Running?
    ensures var s' := MoveBlocks(c, s, victims, k).value; Tidy(c, s') && Stays(s, s')
    decreases |victims| - k
  {
    hide Tidy, MovePages;
    if k < |victims| {
      MovePagesTidy(c, s, victims[k], 0);
      MoveBlocksTidy(c, MovePages(c, s, victims[k], 0).value, victims, k + 1);
    }
  }

  /** Erases whose blocks all return: one more free block for each, and nothing else moves. */
  lemma {:induction false} EraseBlocksTidy(c: Config, s: State, victims: seq<nat>, k: nat)
    requires Tidy(c, s) && EraseBlocks(c, s, victims, k).Running? && k <= |victims|
    requires forall j :: k <= j < |victims| ==> Returns(c, s, victims[j])
    requires forall i, j :: 0 <= i < j < |victims| ==> victims[i] != victims[j]
    ensures var s' := EraseBlocks(c, s, victims, k).value;
      && Tidy(c, s') && Stays(s, s') && |s'.free| == |s.free| + |victims| - k && s'.heads == s.heads
      && (forall b :: b in s'.blocks ==> b in s.blocks && s'.blocks[b] == s.blocks[b])
    decreases |victims| - k
  {
    hide Erase;
    if k < |victims| {
      var s1 := Erase(c, s, victims[k]).value;
      EraseTidy(c, s, victims[k]);
      EraseBlocksTidy(c, s1, victims, k + 1);
    }
  }

  lemma EraseTidy(c: Config, s: State, b: nat)
    requires Tidy(c, s) && Erase(c, s, b).Running? && Returns(c, s, b)
    ensures var s' := Erase(c, s, b).value;
      && Tidy(c, s') && Stays(s, s') && |s'.free| == |s.free| + 1 && s'.heads == s.heads && s'.blocks == s.blocks - {b}
  {
  }

  lemma StoreTidy(c: Config, s: State, lpn: nat, flags: set<nat>, data: nat -> Data)
    requires Tidy(c, s) && Store(c, s, lpn, flags, data).Running?
    ensures var s' := Store(c, s, lpn, flags, data).value;
      Tidy(c, s') && s'.table.Keys == s.table.Keys + {lpn} && s'.dead == s.dead
  {
    hide Tidy, Invalidated, LastFreeBlock, Programmed;
    PreparedKeepsTidy(c, s, lpn, flags);
    var s1 := Prepared(c, s, lpn, flags).value;
    LastFreeBlockTidy(c, s1, flags);
    var (s2, dst) := LastFreeBlock(c, s1, flags).value;
    ProgrammedTidy(c, s2, lpn, flags, data, dst, 0);
  }

  lemma PreparedKeepsTidy(c: Config, s: State, lpn: nat, flags: set<nat>)
    requires Tidy(c, s) && Prepared(c, s, lpn, flags).Running?
    ensures var s' := Prepared(c, s, lpn, flags).value;
      Tidy(c, s') && s'.table.Keys == s.table.Keys + {lpn} && s'.dead == s.dead
  {
    hide Invalidated, Narrow;
    PreparedTidy(c, s, lpn, flags);
    if lpn in s.table {
      InvalidatedEvolves(c, s, lpn, flags, 0);
      InvalidatedHeads(c, s, lpn, flags, 0);
      InvalidatedTable(c, s, lpn, flags, 0);
    }
  }

  lemma {:induction false} InvalidatedTable(c: Config, s: State, lpn: nat, flags: set<nat>, u: nat)
    requires Invalidated(c, s, lpn, flags, u).Running?
    ensures Invalidated(c, s, lpn, flags, u).value.table == s.table
    decreases c.Lanes() - u
  {
    if u < c.Lanes() {
      if !c.Touches(flags, u) || !c.Mapped(s.table[lpn][u]) {
        InvalidatedTable(c, s, lpn, flags, u + 1);
      } else {
        InvalidatedTable(c, ClearOld(s, s.table[lpn][u], u), lpn, flags, u + 1);
      }
    }
  }

  lemma TrimTidy(c: Config, s: State, lpn: nat)
    requires Tidy(c, s) && Trim(c, s, lpn).Running?
    ensures var s' := Trim(c, s, lpn).value; Tidy(c, s') && s'.dead == s.dead && Vacant(c, s') == Vacant(c, s)
  {
    hide Trimmed, Narrow, Vacant;
    if lpn in s.table {
      TrimmedNarrow(c, s, lpn, 0);
      TrimmedEvolves(c, s, lpn, 0);
      TrimmedHeads(c, s, lpn, 0);
      var s' := Trim(c, s, lpn).value;
      NarrowFrame(c, Trimmed(c, s, lpn, 0).value, s');
      SameWearVacant(c, s, s');
    }
  }

  lemma NarrowFrame(c: Config, s: State, s': State)
    requires Narrow(c, s) && s'.blocks == s.blocks && s'.free == s.free
    ensures Narrow(c, s')
  {
  }

  // ---------------------------------------------------------------- what is valid fits into the table

  /** Valid units of the listed blocks from k on. */
  function ValidSum(blocks: map<nat, Block>, list: seq<nat>, k: nat): nat
    requires InUse(blocks, list)
    decreases |list| - k
  {
    if k >= |list| then 0 else |blocks[list[k]].valid| + ValidSum(blocks, list, k + 1)
  }

  /** The LPNs that a block's valid units record. */
  function LpnsOf(b: Block): set<nat> {
    set x | x in b.valid :: Label(b, x)
  }

  lemma LpnsOfBlock(c: Config, s: State, b: nat)
    requires Inv(c, s) && b in s.blocks && c.Lanes() == 1
    ensures |LpnsOf(s.blocks[b])| == |s.blocks[b].valid|
    ensures LpnsOf(s.blocks[b]) <= s.table.Keys
  {
    hide Shape, Forward;
    UnitsAreLaneZero(c, s, b);
    forall x | x in s.blocks[b].valid
      ensures Label(s.blocks[b], x) in s.table
    {
      assert Owned(s, b, x);
    }
    forall x, y | x in s.blocks[b].valid && y in s.blocks[b].valid && Label(s.blocks[b], x) == Label(s.blocks[b], y)
      ensures x == y
    {
      OneValidUnitPerAddress(c, s, b, x, b, y);
    }
    ImageCount(s.blocks[b].valid, s.blocks[b]);
  }

  lemma UnitsAreLaneZero(c: Config, s: State, b: nat)
    requires Inv(c, s) && b in s.blocks && c.Lanes() == 1
    ensures forall x :: x in s.blocks[b].valid ==> x.lane == 0
  {
    assert BlockOk(c, s.blocks[b]);
  }

  lemma {:induction false} ImageCount(xs: set<Unit>, b: Block)
    requires forall x, y :: x in xs && y in xs && Label(b, x) == Label(b, y) ==> x == y
    ensures |set x | x in xs :: Label(b, x)| == |xs|
  {
    var image := set x | x in xs :: Label(b, x);
    if xs == {} {
      assert image == {};
    } else {
      var x :| x in xs;
      ImageCount(xs - {x}, b);
      var rest := set y | y in xs - {x} :: Label(b, y);
      assert image == rest + {Label(b, x)};
      assert Label(b, x) !in rest;
    }
  }

  /** LPNs of the listed blocks from k on. */
  function LpnsFrom(blocks: map<nat, Block>, list: seq<nat>, k: nat): set<nat>
    requires InUse(blocks, list)
    decreases |list| - k
  {
    if k >= |list| then {} else LpnsOf(blocks[list[k]]) + LpnsFrom(blocks, list, k + 1)
  }

  lemma {:induction false} InLpnsFrom(blocks: map<nat, Block>, list: seq<nat>, k: nat, lpn: nat)
    requires InUse(blocks, list) && lpn in LpnsFrom(blocks, list, k)
    ensures exists j :: k <= j < |list| && lpn in LpnsOf(blocks[list[j]])
    decreases |list| - k
  {
    if lpn !in LpnsOf(blocks[list[k]]) {
      InLpnsFrom(blocks, list, k + 1, lpn);
    }
  }

  lemma DifferentLpns(c: Config, s: State, a: nat, b: nat, lpn: nat)
    requires Inv(c, s) && a in s.blocks && b in s.blocks && a != b && c.Lanes() == 1
    requires lpn in LpnsOf(s.blocks[a])
    ensures lpn !in LpnsOf(s.blocks[b])
  {
    hide Inv;
    UnitsAreLaneZero(c, s, a);
    UnitsAreLaneZero(c, s, b);
    if lpn in LpnsOf(s.blocks[b]) {
      var x :| x in s.blocks[a].valid && Label(s.blocks[a], x) == lpn;
      var y :| y in s.blocks[b].valid && Label(s.blocks[b], y) == lpn;
      OneValidUnitPerAddress(c, s, a, x, b, y);
    }
  }

  lemma {:induction false} ValidIsMapped(c: Config, s: State, list: seq<nat>, k: nat)
    requires Inv(c, s) && InUse(s.blocks, list) && Different(list) && c.Lanes() == 1
    ensures |LpnsFrom(s.blocks, list, k)| == ValidSum(s.blocks, list, k)
    ensures LpnsFrom(s.blocks, list, k) <= s.table.Keys
    decreases |list| - k
  {
    hide Inv, LpnsOf;
    if k < |list| {
      LpnsOfBlock(c, s, list[k]);
      ValidIsMapped(c, s, list, k + 1);
      forall lpn | lpn in LpnsOf(s.blocks[list[k]])
        ensures lpn !in LpnsFrom(s.blocks, list, k + 1)
      {
        if lpn in LpnsFrom(s.blocks, list, k + 1) {
          InLpnsFrom(s.blocks, list, k + 1, lpn);
          var j :| k + 1 <= j < |list| && lpn in LpnsOf(s.blocks[list[j]]);
          DifferentLpns(c, s, list[k], list[j], lpn);
        }
      }
      assert LpnsOf(s.blocks[list[k]]) !! LpnsFrom(s.blocks, list, k + 1);
    }
  }

  /** Different blocks hold no more valid units than there are rows in the table. */
  lemma ValidBound(c: Config, s: State, list: seq<nat>)
    requires Inv(c, s) && InUse(s.blocks, list) && Different(list) && c.Lanes() == 1
    ensures ValidSum(s.blocks, list, 0) <= |s.table|
  {
    hide Inv;
    ValidIsMapped(c, s, list, 0);
    SubsetCount(LpnsFrom(s.blocks, list, 0), s.table.Keys);
  }

  // ---------------------------------------------------------------- the cheapest blocks are no worse than the average

  lemma {:induction false} ValidAtMost(blocks: map<nat, Block>, list: seq<nat>, k: nat, most: nat)
    requires InUse(blocks, list) && k <= |list| && forall j :: 0 <= j < |list| ==> |blocks[list[j]].valid| <= most
    ensures ValidSum(blocks, list, k) <= (|list| - k) * most
    decreases |list| - k
  {
    if k < |list| {
      ValidAtMost(blocks, list, k + 1, most);
      Distribute(1, |list| - k - 1, most);
    }
  }

  lemma {:induction false} ValidAtLeast(blocks: map<nat, Block>, list: seq<nat>, k: nat, least: nat)
    requires InUse(blocks, list) && k <= |list| && forall j :: 0 <= j < |list| ==> least <= |blocks[list[j]].valid|
    ensures (|list| - k) * least <= ValidSum(blocks, list, k)
    decreases |list| - k
  {
    if k < |list| {
      ValidAtLeast(blocks, list, k + 1, least);
      Distribute(1, |list| - k - 1, least);
    }
  }

  lemma {:induction false} ValidConcat(blocks: map<nat, Block>, a: seq<nat>, z: seq<nat>, k: nat)
    requires InUse(blocks, a) && InUse(blocks, z) && k <= |a|
    ensures InUse(blocks, a + z)
    ensures ValidSum(blocks, a + z, k) == ValidSum(blocks, a, k) + ValidSum(blocks, z, 0)
    decreases |a| - k
  {
    if k < |a| {
      ValidConcat(blocks, a, z, k + 1);
    } else {
      ValidShift(blocks, a, z, 0);
    }
  }

  lemma {:induction false} ValidShift(blocks: map<nat, Block>, a: seq<nat>, z: seq<nat>, k: nat)
    requires InUse(blocks, a) && InUse(blocks, z) && k <= |z|
    ensures InUse(blocks, a + z) && ValidSum(blocks, a + z, |a| + k) == ValidSum(blocks, z, k)
    decreases |z| - k
  {
    if k < |z| {
      ValidShift(blocks, a, z, k + 1);
    }
  }

  lemma {:induction false} Listing(xs: set<nat>) returns (list: seq<nat>)
    ensures |list| == |xs| && Different(list) && forall x :: x in list <==> x in xs
  {
    if xs == {} {
      list := [];
    } else {
      var x :| x in xs;
      var rest := Listing(xs - {x});
      list := rest + [x];
    }
  }

  lemma Products(a: nat, b: nat, v: nat, r: nat, most: nat)
    requires a <= v * most && r * most <= b
    ensures a * r <= v * b
  {
    Monotone3(a, v * most, r);
    Monotone3(r * most, b, v);
    assert v * most * r == r * most * v;
  }

  lemma Monotone3(a: nat, b: nat, n: nat)
    requires a <= b
    ensures a * n <= b * n
  {
    MulGap(b, a, n);
  }

  lemma Shares(a: nat, b: nat, v: nat, r: nat, most: nat)
    requires a <= v * most && r * most <= b
    ensures a * (v + r) <= v * (a + b)
  {
    Products(a, b, v, r, most);
    Distribute(v, r, a);
    Distribute(a, b, v);
  }

  /** The full blocks that were left out. */
  lemma LeftOut(c: Config, blocks: map<nat, Block>, out: seq<nat>) returns (rest: seq<nat>)
    requires InUse(blocks, out) && Different(out) && forall k :: 0 <= k < |out| ==> c.Full(blocks[out[k]])
    ensures InUse(blocks, rest) && forall j :: 0 <= j < |rest| ==> c.Full(blocks[rest[j]]) && rest[j] !in out
    ensures InUse(blocks, out + rest) && Different(out + rest)
    ensures forall b :: b in out + rest <==> b in blocks && c.Full(blocks[b])
  {
    hide Config.Full;
    var left := set b | b in blocks && c.Full(blocks[b]) && b !in out;
    rest := Listing(left);
    assert forall k :: 0 <= k < |rest| ==> rest[k] in rest;
    forall b | b in blocks && c.Full(blocks[b])
      ensures b in out + rest
    {
      if b !in out { assert b in rest; }
    }
  }

  /** Greedy victims: their share of the valid units of all full blocks is at most their share of the blocks. */
  lemma GreedyAverage(c: Config, blocks: map<nat, Block>, n: nat, out: seq<nat>) returns (full: seq<nat>)
    requires Selection(c, blocks, Greedy(), n, out)
    ensures InUse(blocks, out) && InUse(blocks, full) && Different(full)
    ensures forall b :: b in full <==> b in blocks && c.Full(blocks[b])
    ensures ValidSum(blocks, out, 0) * |full| <= |out| * ValidSum(blocks, full, 0)
  {
    hide Config.Full, Greedy;
    var rest := LeftOut(c, blocks, out);
    full := out + rest;
    hide Selection, Different;
    ValidConcat(blocks, out, rest, 0);
    if |out| > 0 {
      var most := |blocks[out[|out| - 1]].valid|;
      DearestIsLast(c, blocks, n, out, rest);
      ValidAtMost(blocks, out, 0, most);
      ValidAtLeast(blocks, rest, 0, most);
      Shares(ValidSum(blocks, out, 0), ValidSum(blocks, rest, 0), |out|, |rest|, most);
    }
  }

  lemma DearestIsLast(c: Config, blocks: map<nat, Block>, n: nat, out: seq<nat>, rest: seq<nat>)
    requires Selection(c, blocks, Greedy(), n, out) && |out| > 0 && InUse(blocks, rest)
    requires forall j :: 0 <= j < |rest| ==> c.Full(blocks[rest[j]]) && rest[j] !in out
    ensures forall j :: 0 <= j < |out| ==> |blocks[out[j]].valid| <= |blocks[out[|out| - 1]].valid|
    ensures forall j :: 0 <= j < |rest| ==> |blocks[out[|out| - 1]].valid| <= |blocks[rest[j]].valid|
  {
    var cost := Greedy();
    forall j | 0 <= j < |out|
      ensures |blocks[out[j]].valid| <= |blocks[out[|out| - 1]].valid|
    {
      assert cost(blocks[out[j]]) <= cost(blocks[out[|out| - 1]]);
    }
    forall j | 0 <= j < |rest|
      ensures |blocks[out[|out| - 1]].valid| <= |blocks[rest[j]].valid|
    {
      assert cost(blocks[out[|out| - 1]]) <= cost(blocks[rest[j]]);
    }
  }

  // ---------------------------------------------------------------- pages to copy are valid units

  lemma {:induction false} PagesDueIsValid(c: Config, b: Block, page: nat)
    requires c.units != 1
    ensures PagesDue(c, b, page) <= |set x | x in b.valid && x.page >= page|
    decreases c.pages - page
  {
    if page < c.pages {
      PagesDueIsValid(c, b, page + 1);
      var here := set x | x in b.valid && x.page >= page;
      var later := set x | x in b.valid && x.page >= page + 1;
      SubsetCount3(later, here);
      if PageInfo(c, b, page) != {} {
        var u :| u in PageInfo(c, b, page);
        assert Unit(page, u) in b.valid;
        SubsetCount3(later + {Unit(page, u)}, here);
      }
    }
  }

  lemma {:induction false} SubsetCount3(a: set<Unit>, b: set<Unit>)
    requires a <= b
    ensures |a| <= |b|
  {
    if a != {} {
      var x :| x in a;
      SubsetCount3(a - {x}, b - {x});
    }
  }

  lemma {:induction false} DueIsValid(c: Config, blocks: map<nat, Block>, victims: seq<nat>, k: nat)
    requires InUse(blocks, victims) && c.units != 1
    ensures Due(c, blocks, victims, k) <= ValidSum(blocks, victims, k)
    decreases |victims| - k
  {
    if k < |victims| {
      DueIsValid(c, blocks, victims, k + 1);
      var b := blocks[victims[k]];
      PagesDueIsValid(c, b, 0);
      assert (set x | x in b.valid && x.page >= 0) == b.valid;
    }
  }

  // ---------------------------------------------------------------- how many blocks are full

  lemma {:induction false} HeadsCount(heads: seq<nat>, n: nat)
    requires n <= |heads|
    ensures |set i | 0 <= i < n :: heads[i]| <= n
  {
    var all := set i | 0 <= i < n :: heads[i];
    if n > 0 {
      HeadsCount(heads, n - 1);
      assert all == (set i | 0 <= i < n - 1 :: heads[i]) + {heads[n - 1]};
    } else {
      assert all == {};
    }
  }

  /** All blocks in use are full but for one per head. */
  lemma FullBlocks(c: Config, s: State, full: seq<nat>)
    requires Shape(c, s) && HeadsOk(c, s) && Tidy(c, s) && Different(full)
    requires forall b :: b in full <==> b in s.blocks && c.Full(s.blocks[b])
    ensures |s.blocks| <= |full| + c.heads
  {
    hide Shape, Narrow;
    HeadFacts(c, s);
    var heads := set i | 0 <= i < |s.heads| :: s.heads[i];
    var listed := Front(full, |full|);
    forall b | b in s.blocks.Keys
      ensures b in listed + heads
    {
      if c.Full(s.blocks[b]) {
        assert b in full;
        var k :| 0 <= k < |full| && full[k] == b;
      } else {
        assert b in s.heads;
      }
    }
    FrontCount(full, |full|);
    HeadsCount(s.heads, |s.heads|);
    SubsetCount(s.blocks.Keys, listed + heads);
  }

  // ---------------------------------------------------------------- a collection pays for itself

  /** Alive blocks beyond the write heads and the reserve hold more pages than there are LPNs. */
  ghost predicate Provisioned(c: Config, s: State, level: nat, lpns: nat) {
    lpns < c.pages * (c.total - |s.dead| - level - c.heads + 1)
  }

  /** The reserve: collecting starts below `level` free blocks and takes at most `most` victims. */
  ghost predicate Reserve(c: Config, level: nat, most: nat) {
    c.units > 1 && most + 2 * c.heads + 1 <= level
  }

  /** In use and distinct heads, in order, open blocks behind heads only. */
  ghost predicate Sound(c: Config, s: State) {
    Inv(c, s) && Ledger(c, s) && HeadsOk(c, s) && Tidy(c, s)
  }

  lemma SoundParts(c: Config, s: State)
    requires Sound(c, s)
    ensures Inv(c, s) && Shape(c, s) && Ledger(c, s) && HeadsOk(c, s) && Tidy(c, s)
    ensures c.Ok() && c.Lanes() == 1 && Narrow(c, s) && !c.tweak && s.nFree == |s.free| && |s.heads| == c.heads
  {
  }

  lemma Less(a: nat, b: nat, n: nat)
    requires a * n < b * n
    ensures a < b
  {
    if a >= b { MulGap(a, b, n); }
  }

  /** Greedy victims have fewer pages to copy than they have pages. */
  lemma VictimsAreCheap(c: Config, s: State, victims: seq<nat>, n: nat, level: nat, lpns: nat)
    requires Sound(c, s) && c.units > 1 && |s.table| <= lpns && Provisioned(c, s, level, lpns) && |s.free| < level
    requires 0 < n && Selection(c, s.blocks, Greedy(), n, victims)
    ensures 0 < |victims| && Due(c, s.blocks, victims, 0) < |victims| * c.pages
  {
    hide Sound, Inv, Ledger, Shape, Narrow, Tidy, Selection, Due, ValidSum, Different, Greedy, HeadsOk;
    SoundParts(c, s);
    var full := GreedyAverage(c, s.blocks, n, victims);
    ValidBound(c, s, full);
    FullBlocks(c, s, full);
    DeadCount(c, s);
    DueIsValid(c, s.blocks, victims, 0);
    ManyFull(c, s, full, level, lpns);
    SelectsSome(c, s.blocks, n, victims, full);
    var v, f := |victims|, |full|;
    Monotone3(ValidSum(s.blocks, full, 0), lpns, v);
    CheapNumbers(ValidSum(s.blocks, victims, 0), ValidSum(s.blocks, full, 0), v, f, lpns, c.pages);
  }

  lemma PositiveFactor(a: nat, b: int)
    requires 0 < a * b
    ensures 0 < b
  {
  }

  lemma ManyFull(c: Config, s: State, full: seq<nat>, level: nat, lpns: nat)
    requires |s.blocks| + |s.free| + |s.dead| == c.total && |s.blocks| <= |full| + c.heads && |s.free| < level
    requires Provisioned(c, s, level, lpns)
    ensures lpns < c.pages * |full| && 0 < |full|
  {
    var least := c.total - |s.dead| - level - c.heads + 1;
    PositiveFactor(c.pages, least);
    MulGap(|full|, least, c.pages);
    assert c.pages * least == least * c.pages && c.pages * |full| == |full| * c.pages;
  }

  lemma CheapNumbers(a: nat, b: nat, v: nat, f: nat, lpns: nat, pages: nat)
    requires a * f <= v * b && b <= lpns < pages * f && 0 < v
    ensures a < v * pages
  {
    Monotone3(b, lpns, v);
    MulGap(pages * f, lpns, v);
    assert v * pages * f == pages * f * v;
    assert a * f < v * pages * f;
    Less(a, v * pages, f);
  }

  lemma SelectsSome(c: Config, blocks: map<nat, Block>, n: nat, out: seq<nat>, full: seq<nat>)
    requires 0 < n && Selection(c, blocks, Greedy(), n, out) && 0 < |full|
    requires forall b :: b in full <==> b in blocks && c.Full(blocks[b])
    ensures 0 < |out|
  {
    hide Config.Full, Greedy;
    assert full[0] in full;
  }

  lemma ReserveIsThere(c: Config, s: State, level: nat, most: nat)
    requires Sound(c, s) && Reserve(c, level, most) && level * c.pages - 1 <= Vacant(c, s)
    ensures most + c.heads <= |s.free|
  {
    hide Sound, Inv, Ledger, Shape, Narrow, Tidy, HeadsOk, OpenPages;
    SoundParts(c, s);
    OpenBound(c, s, |s.heads|);
    if |s.free| < most + c.heads {
      MulGap(level, |s.free| + c.heads + 2, c.pages);
      Distribute(|s.free|, c.heads + 2, c.pages);
      Distribute(c.heads, 2, c.pages);
    }
  }

  lemma RoundedUp(v: nat, heads: nat) returns (q: nat)
    requires 0 < heads
    ensures v <= heads * q < v + heads
  {
    q := (v + heads - 1) / heads;
  }

  /** A greedy collection that spares or serves the heads and retires no block goes through, and leaves more pages than
      it found. */
  lemma CollectionPays(c: Config, s: State, victims: seq<nat>, n: nat, level: nat, most: nat, lpns: nat)
    requires Sound(c, s) && Reserve(c, level, most) && |s.table| <= lpns && Provisioned(c, s, level, lpns)
    requires |s.free| < level && level * c.pages - 1 <= Vacant(c, s)
    requires 0 < n <= most && Selection(c, s.blocks, Greedy(), n, victims)
    requires CanPlan(c, s) ==> HeadsServed(c, s, victims)
    requires forall j :: 0 <= j < |victims| ==> Returns(c, s, victims[j])
    ensures var r := Collected(c, s, victims);
      r.Running? && Sound(c, r.value) && SameReads(c, s, r.value) && Stays(s, r.value) && Vacant(c, r.value) > Vacant(c, s)
  {
    hide Sound, Inv, Ledger, Shape, Narrow, Tidy, Selection, Due, Greedy, HeadsOk, Collected, MoveBlocks, Vacant, Returns, Stays,
         VictimsOk, VictimsSound, SameReads, Planned, HeadsServed, Evolves;
    SoundParts(c, s);
    VictimsAreCheap(c, s, victims, n, level, lpns);
    SelectionIsOk(c, s, n, victims);
    SoundWithSeveralUnits(c, s, victims);
    ReserveIsThere(c, s, level, most);
    var v := |victims|;
    var q := RoundedUp(v, c.heads);
    Cover(v, c.heads, q, c.pages);
    EnoughFreeBlocks(c, s, victims, q);
    NoDeath(c, s, victims);
    CollectedCorrect(c, s, victims);
    MoveBlocksVacant(c, s, victims);
    CollectedSound(c, s, victims);
    ErasesPay(c, s, victims);
  }

  lemma SelectionIsOk(c: Config, s: State, n: nat, victims: seq<nat>)
    requires Selection(c, s.blocks, Greedy(), n, victims)
    ensures VictimsOk(c, s, victims) && |victims| <= n
  {
  }

  lemma NoDeath(c: Config, s: State, victims: seq<nat>)
    requires forall j :: 0 <= j < |victims| ==> Returns(c, s, victims[j])
    ensures !EndsWithDeath(c, s, victims)
  {
  }

  lemma CollectedSound(c: Config, s: State, victims: seq<nat>)
    requires Sound(c, s) && VictimsOk(c, s, victims) && VictimsSound(c, s, victims, 0) && Collected(c, s, victims).Running?
    requires 0 < |victims| && (CanPlan(c, s) ==> HeadsServed(c, s, victims))
    requires forall j :: 0 <= j < |victims| ==> Returns(c, s, victims[j])
    ensures MoveBlocks(c, s, victims, 0).Running?
    ensures var s1, s' := MoveBlocks(c, s, victims, 0).value, Collected(c, s, victims).value;
      && Sound(c, s') && Stays(s, s')
      && |s'.free| == |s1.free| + |victims| && s'.heads == s1.heads && |s1.heads| == c.heads
      && forall i :: 0 <= i < c.heads ==> s'.heads[i] in s'.blocks && s'.heads[i] in s1.blocks
                                          && s'.blocks[s'.heads[i]] == s1.blocks[s1.heads[i]]
  {
    hide Sound, Inv, Ledger, Shape, Narrow, Tidy, MoveBlocks, EraseBlocks, Returns, VictimsOk, VictimsSound, SameReads, Planned,
         HeadsServed, Evolves, Emptied;
    SoundParts(c, s);
    NothingEmptied(s, victims);
    MoveBlocksKeeps(c, s, victims, 0);
    MoveBlocksTidy(c, s, victims, 0);
    var s1 := MoveBlocks(c, s, victims, 0).value;
    VictimsInUse(c, s, victims);
    VictimsInUse(c, s1, victims);
    StillReturn(c, s, s1, victims);
    EraseBlocksTidy(c, s1, victims, 0);
    CollectedHeads(c, s, victims);
    CollectedCorrect(c, s, victims);
    CollectedEvolves(c, s, victims);
    LedgerKept(c, s, Collected(c, s, victims).value, 0);
    InvParts(c, Collected(c, s, victims).value);
    HeadsListed(c, Collected(c, s, victims).value);
    SoundIs(c, Collected(c, s, victims).value);
  }

  lemma HeadsListed(c: Config, s: State)
    requires Shape(c, s)
    ensures |s.heads| == c.heads
  {
  }

  lemma SoundIs(c: Config, s: State)
    requires Inv(c, s) && Ledger(c, s) && HeadsOk(c, s) && Tidy(c, s)
    ensures Sound(c, s)
  {
  }

  lemma StillReturn(c: Config, s: State, s1: State, victims: seq<nat>)
    requires forall j :: 0 <= j < |victims| ==> Returns(c, s, victims[j])
    requires forall j :: 0 <= j < |victims| ==>
      && victims[j] in s.blocks && victims[j] in s1.blocks
      && s1.blocks[victims[j]].eraseCount == s.blocks[victims[j]].eraseCount
    ensures forall j :: 0 <= j < |victims| ==> Returns(c, s1, victims[j])
  {
  }

  lemma ErasesPay(c: Config, s: State, victims: seq<nat>)
    requires MoveBlocks(c, s, victims, 0).Running? && Collected(c, s, victims).Running?
    requires var s1, s' := MoveBlocks(c, s, victims, 0).value, Collected(c, s, victims).value;
      && |s'.free| == |s1.free| + |victims| && s'.heads == s1.heads && |s1.heads| == c.heads
      && forall i :: 0 <= i < c.heads ==> s'.heads[i] in s'.blocks && s'.heads[i] in s1.blocks
                                          && s'.blocks[s'.heads[i]] == s1.blocks[s1.heads[i]]
    ensures Vacant(c, Collected(c, s, victims).value) == Vacant(c, MoveBlocks(c, s, victims, 0).value) + |victims| * c.pages
  {
    hide MoveBlocks, Collected, OpenPages;
    var s1, s' := MoveBlocks(c, s, victims, 0).value, Collected(c, s, victims).value;
    OpenSame(c, s1.blocks, s1.heads, s'.blocks, s'.heads, c.heads);
    Distribute(|s1.free|, |victims|, c.pages);
  }

  // ---------------------------------------------------------------- runs

  /** What a write does about garbage: it collects exactly when fewer than `level` blocks are free, between one and
      `most` of the cheapest full blocks, leaves no collected block as a write head, and retires none. */
  ghost predicate WellCollected(c: Config, s: State, gc: Option<seq<nat>>, level: nat, most: nat) {
    && (gc.Some? <==> |s.free| < level)
    && (gc.Some? ==>
          && (exists n: nat :: 0 < n <= most && Selection(c, s.blocks, Greedy(), n, gc.value))
          && (CanPlan(c, s) ==> HeadsServed(c, s, gc.value))
          && forall j :: 0 <= j < |gc.value| ==> Returns(c, s, gc.value[j]))
  }

  ghost predicate OpCollects(c: Config, s: State, op: Op, level: nat, most: nat) {
    op.WriteOp? && op.flags != {} ==>
      var stored := Store(c, Counted(s, op.flags), op.lpn, op.flags, op.data);
      stored.Running? ==> WellCollected(c, stored.value, op.collect(stored.value), level, most)
  }

  /** Every write of the run collects like that. */
  ghost predicate Collects(c: Config, s: State, ops: seq<Op>, level: nat, most: nat)
    decreases |ops|
  {
    |ops| == 0 || (
      && OpCollects(c, s, ops[0], level, most)
      && (Apply(c, s, ops[0]).Running? ==> Collects(c, Apply(c, s, ops[0]).value.0, ops[1..], level, most)))
  }

  /** A write stays within the logical space. */
  predicate Within(op: Op, lpns: nat) {
    op.WriteOp? ==> op.lpn < lpns
  }

  /** Every row is mapped. */
  ghost predicate Dense(c: Config, s: State) {
    forall l: nat :: l in s.table ==> Read(c, s, l, 0) != None
  }

  ghost predicate Fit(c: Config, s: State, m: Device, level: nat, lpns: nat) {
    && Sound(c, s) && Refines(c, s, m) && Dense(c, s) && (forall l :: l in s.table ==> l < lpns)
    && level * c.pages <= Vacant(c, s) && Provisioned(c, s, level, lpns)
  }

  lemma TableCount(s: State, lpns: nat)
    requires forall l :: l in s.table ==> l < lpns
    ensures |s.table| <= lpns
  {
    BelowCount(lpns);
    SubsetCount(s.table.Keys, Below(lpns));
  }

  lemma FrameSound(c: Config, s: State, s': State)
    requires Sound(c, s) && s' == s.(reclaimMore := s'.reclaimMore, hostUnits := s'.hostUnits)
    ensures Sound(c, s') && Vacant(c, s') == Vacant(c, s) && SameReads(c, s, s')
  {
    hide Inv, OpenPages, Flat;
    IgnoresFlag(c, s, s');
  }

  /** The part of a write before garbage collection goes through, and costs one page. */
  lemma StoreFits(c: Config, s: State, m: Device, lpn: nat, flags: set<nat>, data: nat -> Data, level: nat, most: nat, lpns: nat)
    requires Fit(c, s, m, level, lpns) && Reserve(c, level, most) && lpn < lpns
    ensures Store(c, s, lpn, flags, data).Running?
    ensures var s1 := Store(c, s, lpn, flags, data).value;
      && Sound(c, s1) && Dense(c, s1) && (forall l :: l in s1.table ==> l < lpns)
      && level * c.pages - 1 <= Vacant(c, s1) && Provisioned(c, s1, level, lpns) && s1.dead == s.dead
  {
    hide Sound, Inv, Ledger, Shape, Narrow, Tidy, HeadsOk, Store, Vacant, Refines, Read;
    SoundParts(c, s);
    ReserveIsThere(c, s, level, most);
    StoreRuns(c, s, lpn, flags, data);
    StoreKeepsHeads(c, s, lpn, flags, data);
    StoreCorrect(c, s, lpn, flags, data);
    StoreTidy(c, s, lpn, flags, data);
    StoreVacant(c, s, lpn, flags, data);
    SoundIs(c, Store(c, s, lpn, flags, data).value);
  }

  lemma StoreRuns(c: Config, s: State, lpn: nat, flags: set<nat>, data: nat -> Data)
    requires Inv(c, s) && Ledger(c, s) && HeadsOk(c, s) && 0 < |s.free|
    ensures Store(c, s, lpn, flags, data).Running?
  {
    hide Inv, InvBut, Ledger, Shape, LastFreeBlock, Programmed, Invalidated, Touched, AllUnclaimed;
    StoreCorrect(c, s, lpn, flags, data);
    StoreKeepsHeads(c, s, lpn, flags, data);
    PreparedKeeps(c, s, lpn, flags);
    PreparedHeads(c, s, lpn, flags);
    PreparedFree(c, s, lpn, flags);
    var s1 := Prepared(c, s, lpn, flags).value;
    InvButParts(c, s1, lpn, Touched(c, flags, c.Lanes()));
    LastFreeBlockHaltsIff(c, s1, flags);
    HeadIsInUse(c, s1, flags);
    if LastFreeBlock(c, s1, flags).Running? {
      var (s2, dst) := LastFreeBlock(c, s1, flags).value;
      if Programmed(c, s2, lpn, flags, data, dst, 0).Halted? {
        ProgrammedNotEnd(c, s2, lpn, flags, data, dst, 0);
      }
    }
  }

  lemma PreparedFree(c: Config, s: State, lpn: nat, flags: set<nat>)
    requires Prepared(c, s, lpn, flags).Running?
    ensures Prepared(c, s, lpn, flags).value.free == s.free
  {
    hide Invalidated;
    if lpn in s.table {
      InvalidatedEvolves(c, s, lpn, flags, 0);
    }
  }

  lemma {:induction false} ProgrammedNotEnd(c: Config, s: State, lpn: nat, flags: set<nat>, data: nat -> Data, dst: nat, u: nat)
    requires Programmed(c, s, lpn, flags, data, dst, u).Halted?
    ensures Programmed(c, s, lpn, flags, data, dst, u).why !in {EndOfLife, Corrupted}
    decreases c.Lanes() - u
  {
    if !c.Touches(flags, u) {
      ProgrammedNotEnd(c, s, lpn, flags, data, dst, u + 1);
    } else if ProgramUnit(c, s, lpn, u, dst, data(u)).Running? {
      ProgrammedNotEnd(c, ProgramUnit(c, s, lpn, u, dst, data(u)).value, lpn, flags, data, dst, u + 1);
    }
  }

  /** With enough free blocks, the pages left are enough. */
  lemma EnoughLeft(c: Config, s: State, level: nat)
    requires Sound(c, s) && level <= |s.free|
    ensures level * c.pages <= Vacant(c, s)
  {
    hide Sound, Inv, Ledger, Shape, Narrow, Tidy, HeadsOk, OpenPages;
    SoundParts(c, s);
    OpenBound(c, s, |s.heads|);
    MulGap(|s.free|, level, c.pages);
  }

  lemma DenseFrame(c: Config, s: State, s': State)
    requires Dense(c, s) && SameReads(c, s, s') && s'.table.Keys == s.table.Keys
    ensures Dense(c, s')
  {
    hide Read;
  }

  lemma WriteFits(c: Config, s: State, m: Device, op: Op, level: nat, most: nat, lpns: nat)
    requires op.WriteOp? && op.flags != {} && Fit(c, s, m, level, lpns) && Reserve(c, level, most) && op.lpn < lpns
    requires OpCollects(c, s, op, level, most)
    ensures Apply(c, s, op).Running?
    ensures var (s', out) := Apply(c, s, op).value; Fit(c, s', DeviceApply(c, m, op).0, level, lpns) && out == [] && s'.dead == s.dead
  {
    hide Sound, Vacant, Refines, Store, Collected, Selection, HeadsServed, Returns, Provisioned, Stays, SameReads, DeviceWrite,
         VictimsOk, VictimsSound, Inv;
    var s0 := Counted(s, op.flags);
    FitCounted(c, s, m, op.flags, level, lpns);
    StoreFits(c, s0, m, op.lpn, op.flags, op.data, level, most, lpns);
    var s1 := Store(c, s0, op.lpn, op.flags, op.data).value;
    var gc := op.collect(s1);
    FitInv(c, s, m, level, lpns);
    if gc.Some? {
      var n: nat :| 0 < n <= most && Selection(c, s1.blocks, Greedy(), n, gc.value);
      var s2 := s1.(reclaimMore := false);
      SelectionIsOk(c, s1, n, gc.value);
      SoundWithSeveralUnits(c, s1, gc.value);
      HostWriteRefines(c, s, m, op.lpn, op.flags, op.data, gc);
      FrameSound(c, s1, s2);
      TableCount(s2, lpns);
      FlagServed(c, s1, s2, gc.value);
      ProvisionedFrame(c, s1, s2, level, lpns);
      CollectionPays(c, s2, gc.value, n, level, most, lpns);
      var s' := Collected(c, s2, gc.value).value;
      StaysFrame(c, s2, s', level, lpns);
      DenseFrame(c, s1, s2);
      DenseFrame(c, s2, s');
    } else {
      HostWriteRefines(c, s, m, op.lpn, op.flags, op.data, gc);
      EnoughLeft(c, s1, level);
    }
  }

  lemma FitInv(c: Config, s: State, m: Device, level: nat, lpns: nat)
    requires Fit(c, s, m, level, lpns)
    ensures Inv(c, s) && Refines(c, s, m)
  {
  }

  lemma FitCounted(c: Config, s: State, m: Device, flags: set<nat>, level: nat, lpns: nat)
    requires Fit(c, s, m, level, lpns)
    ensures Fit(c, Counted(s, flags), m, level, lpns)
  {
    hide Sound, Vacant, Provisioned;
    var s0 := Counted(s, flags);
    FrameSound(c, s, s0);
    ProvisionedFrame(c, s, s0, level, lpns);
  }

  lemma ProvisionedFrame(c: Config, s: State, s': State, level: nat, lpns: nat)
    requires Provisioned(c, s, level, lpns) && s'.dead == s.dead
    ensures Provisioned(c, s', level, lpns)
  {
  }

  lemma StaysFrame(c: Config, s: State, s': State, level: nat, lpns: nat)
    requires Stays(s, s') && Provisioned(c, s, level, lpns)
    ensures s'.table.Keys == s.table.Keys && Provisioned(c, s', level, lpns) && s'.dead == s.dead
  {
  }

  lemma FlagServed(c: Config, s: State, s': State, victims: seq<nat>)
    requires s' == s.(reclaimMore := false)
    requires CanPlan(c, s) ==> HeadsServed(c, s, victims)
    requires forall j :: 0 <= j < |victims| ==> Returns(c, s, victims[j])
    ensures CanPlan(c, s') ==> HeadsServed(c, s', victims)
    ensures forall j :: 0 <= j < |victims| ==> Returns(c, s', victims[j])
  {
    hide PlanBlocks;
    if CanPlan(c, s') {
      assert CanPlan(c, s);
      PlanIgnoresFlag(c, s, victims);
    }
  }

  lemma TrimFits(c: Config, s: State, m: Device, lpn: nat, level: nat, lpns: nat)
    requires Fit(c, s, m, level, lpns)
    ensures Trim(c, s, lpn).Running?
    ensures Fit(c, Trim(c, s, lpn).value, DeviceApply(c, m, TrimOp(lpn)).0, level, lpns) && Trim(c, s, lpn).value.dead == s.dead
  {
    hide Sound, Inv, Ledger, Shape, Narrow, Tidy, HeadsOk, Trim, Vacant, Refines, Evolves;
    SoundParts(c, s);
    RowsAreMapped(c, s, lpn);
    TrimCorrect(c, s, lpn);
    TrimRefines(c, s, m, lpn);
    TrimTidy(c, s, lpn);
    TrimKeepsHeads(c, s, lpn);
    TrimEvolves(c, s, lpn);
    var s' := Trim(c, s, lpn).value;
    LedgerKept(c, s, s', 0);
    SoundIs(c, s');
  }

  lemma RowsAreMapped(c: Config, s: State, lpn: nat)
    requires Shape(c, s) && Dense(c, s) && c.Lanes() == 1
    ensures lpn in s.table ==> WhollyMapped(c, s, lpn)
  {
    if lpn in s.table {
      assert Read(c, s, lpn, 0) != None && RowOk(c, s.table[lpn]);
    }
  }

  /** With the tweak off, the alive blocks beyond heads and reserve holding more pages than there are LPNs, and greedy
      collections that keep the reserve, no request ever halts and every one is answered like a map: neither end of life
      nor an empty free list nor a lost head can be met, for as long as no block retires. */
  lemma {:induction false} NeverRunsOut(c: Config, s: State, m: Device, ops: seq<Op>, level: nat, most: nat, lpns: nat)
    requires Fit(c, s, m, level, lpns) && Reserve(c, level, most)
    requires forall k :: 0 <= k < |ops| ==> Within(ops[k], lpns)
    requires Collects(c, s, ops, level, most)
    ensures Run(c, s, ops).Running?
    ensures var (s', outs) := Run(c, s, ops).value;
      Fit(c, s', DeviceRun(c, m, ops).0, level, lpns) && outs == DeviceRun(c, m, ops).1 && s'.dead == s.dead
    decreases |ops|
  {
    hide Fit, Apply, DeviceApply, OpCollects;
    if |ops| > 0 {
      assert Within(ops[0], lpns);
      ApplyFits(c, s, m, ops[0], level, most, lpns);
      NeverRunsOut(c, Apply(c, s, ops[0]).value.0, DeviceApply(c, m, ops[0]).0, ops[1..], level, most, lpns);
    }
  }

  lemma ApplyFits(c: Config, s: State, m: Device, op: Op, level: nat, most: nat, lpns: nat)
    requires Fit(c, s, m, level, lpns) && Reserve(c, level, most) && Within(op, lpns) && OpCollects(c, s, op, level, most)
    ensures Apply(c, s, op).Running?
    ensures var (s', out) := Apply(c, s, op).value;
      Fit(c, s', DeviceApply(c, m, op).0, level, lpns) && out == DeviceApply(c, m, op).1 && s'.dead == s.dead
  {
    hide Fit, OpCollects, HostRead, Trim, DeviceRead, Inv, Refines, Store, Write;
    match op
    case ReadOp(lpn, flags) =>
      FitInv(c, s, m, level, lpns);
      ReadRefines(c, s, m, lpn, flags);
    case WriteOp(lpn, flags, data, collect) =>
      if flags != {} {
        WriteFits(c, s, m, op, level, most, lpns);
      }
    case TrimOp(lpn) =>
      TrimFits(c, s, m, lpn, level, lpns);
  }

  // ---------------------------------------------------------------- from construction

  ghost predicate BlankList(free: seq<Block>) {
    forall k :: 0 <= k < |free| ==> |free[k].next| > 0 && free[k].next[0] == 0
  }

  /** The blocks in use are the first i heads, with nothing written. */
  ghost predicate BlankHeads(s: State, i: nat)
    requires i <= |s.heads|
  {
    && (forall j :: 0 <= j < i ==> s.heads[j] in s.blocks)
    && (forall b :: b in s.blocks ==> |s.blocks[b].next| > 0 && s.blocks[b].next[0] == 0 && b in s.heads[..i])
  }

  lemma ClaimBlank(c: Config, s: State, i: nat)
    requires GetFreeBlock(c, s, i).Running? && i < |s.heads| && BlankList(s.free) && BlankHeads(s, i)
    ensures var (s1, b) := GetFreeBlock(c, s, i).value; var s2 := s1.(heads := s1.heads[i := b]);
      && BlankList(s2.free) && |s2.heads| == |s.heads| && BlankHeads(s2, i + 1)
      && s2.dead == s.dead && |s2.free| == |s.free| - 1
      && OpenIn(c, s2.blocks, s2.heads[i]) == c.pages
      && forall j :: 0 <= j < i ==> s2.heads[j] == s.heads[j] && OpenIn(c, s2.blocks, s2.heads[j]) == OpenIn(c, s.blocks, s.heads[j])
  {
    var (s1, b) := GetFreeBlock(c, s, i).value;
    var s2 := s1.(heads := s1.heads[i := b]);
    assert s2.heads[..i + 1] == s.heads[..i] + [b];
    forall v | v in s2.blocks
      ensures |s2.blocks[v].next| > 0 && s2.blocks[v].next[0] == 0 && v in s2.heads[..i + 1]
    {
      if v != b { assert v in s.heads[..i]; }
    }
  }

  lemma BlankIsOpen(c: Config, s: State)
    requires BlankList(s.free) && BlankHeads(s, |s.heads|)
    ensures OpenAreHeads(c, s)
  {
    assert s.heads[..|s.heads|] == s.heads;
  }

  lemma {:induction false} ClaimVacant(c: Config, s: State, i: nat)
    requires ClaimHeads(c, s, i).Running? && i <= |s.heads| == c.heads && BlankList(s.free) && BlankHeads(s, i)
    ensures var s' := ClaimHeads(c, s, i).value;
      && |s'.heads| == c.heads && OpenAreHeads(c, s') && s'.dead == s.dead
      && |s'.free| * c.pages + OpenPages(c, s'.blocks, s'.heads, c.heads)
         == |s.free| * c.pages + OpenPages(c, s.blocks, s.heads, i)
    decreases c.heads - i
  {
    hide OpenPages, GetFreeBlock, BlankList, BlankHeads, OpenIn, OpenAreHeads;
    if i < c.heads {
      ClaimBlank(c, s, i);
      var (s1, b) := GetFreeBlock(c, s, i).value;
      var s2 := s1.(heads := s1.heads[i := b]);
      OpenSame(c, s.blocks, s.heads, s2.blocks, s2.heads, i);
      OpenNext(c, s2.blocks, s2.heads, i);
      Distribute(|s2.free|, 1, c.pages);
      ClaimVacant(c, s2, i + 1);
    } else {
      BlankIsOpen(c, s);
    }
  }

  lemma OpenNext(c: Config, blocks: map<nat, Block>, heads: seq<nat>, i: nat)
    requires i < |heads|
    ensures OpenPages(c, blocks, heads, i + 1) == OpenPages(c, blocks, heads, i) + OpenIn(c, blocks, heads[i])
  {
  }

  /** The check of the over-provisioning ratio, with what it leaves out: a new device whose blocks, less one for each
      write head and the reserve, hold more pages than there are LPNs serves every run of reads, writes and trims. Its
      collections are to start below `level` free blocks, which is above twice the heads and the most victims taken at
      once, to be greedy, and to leave no collected block as a head; and no block is to retire. */
  lemma OverProvisioned(c: Config, free: seq<Block>, ops: seq<Op>, level: nat, most: nat, lpns: nat)
    requires c.Ok() && !c.tweak && Initial(c, free) && Reserve(c, level, most) && level <= |free| == c.total
    requires lpns < c.pages * (c.total - level - c.heads + 1)
    requires forall k :: 0 <= k < |ops| ==> Within(ops[k], lpns)
    requires ClaimHeads(c, Fresh(c, free), 0).Running? ==>
      Collects(c, ClaimHeads(c, Fresh(c, free), 0).value, ops, level, most)
    ensures ClaimHeads(c, Fresh(c, free), 0).Running?
    ensures var r := Run(c, ClaimHeads(c, Fresh(c, free), 0).value, ops);
      r.Running? && r.value.1 == DeviceRun(c, map[], ops).1 && r.value.0.dead == []
  {
    hide Inv, Ledger, Narrow, Run, Collects, Fit, Vacant, Refines, HeadsOk, ClaimHeads, Within, DeviceRun, Potential, Initial;
    var s0 := Fresh(c, free);
    FreshOk(c, free);
    ClaimHeadsOk(c, s0, 0);
    FreshFits(c, free, level, lpns);
    var s1 := ClaimHeads(c, s0, 0).value;
    NeverRunsOut(c, s1, map[], ops, level, most, lpns);
  }

  lemma FreshFits(c: Config, free: seq<Block>, level: nat, lpns: nat)
    requires c.Ok() && !c.tweak && Initial(c, free) && c.heads <= level <= |free|
    requires lpns < c.pages * (c.total - level - c.heads + 1)
    ensures ClaimHeads(c, Fresh(c, free), 0).Running?
    ensures Fit(c, ClaimHeads(c, Fresh(c, free), 0).value, map[], level, lpns)
    ensures ClaimHeads(c, Fresh(c, free), 0).value.dead == []
  {
    hide Inv, Ledger, Narrow, Refines, HeadsOk, ClaimHeads, Potential, OpenPages, Read;
    var s0 := Fresh(c, free);
    FreshOk(c, free);
    FreshNarrow(c, free);
    ClaimHeadsOk(c, s0, 0);
    ClaimHeadsNarrow(c, s0, 0);
    FreshIsBlank(c, free);
    ClaimVacant(c, s0, 0);
    var s1 := ClaimHeads(c, s0, 0).value;
    EmptyTableReadsNothing(c, s1);
    MulGap(|free|, level, c.pages);
    NothingOpen(c, s0);
    SoundIs(c, s1);
  }

  lemma NothingOpen(c: Config, s: State)
    ensures OpenPages(c, s.blocks, s.heads, 0) == 0
  {
  }

  lemma FreshIsBlank(c: Config, free: seq<Block>)
    requires c.Ok() && Initial(c, free)
    ensures BlankList(free)
  {
    forall k | 0 <= k < |free|
      ensures |free[k].next| > 0 && free[k].next[0] == 0
    {
      assert BlockOk(c, free[k]) && Blank(free[k]);
    }
  }
}
