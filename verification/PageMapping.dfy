/**
 The page-mapping FTL as the source runs it: an object whose methods update the table, the block lists and the
 write heads in place, and whose garbage collection batches its physical reads, writes and erases. Every method is
 proved to take the state to the one the step functions of module Ftl prescribe.
 */
module PageMappingFtl {
  import opened Ftl
  import opened FtlGc
  import opened FtlMapping
  import opened FtlWear
  import opened FtlEndurance
  import opened FtlHeads
  import opened FtlRuns
  import opened FtlPolicies
  import opened FtlAllocation
  import opened FtlBatches

  /** A result with the units read before it put in front. */
  ghost function Onto(out: seq<Option<Data>>, rest: Outcome<seq<Option<Data>>>): Outcome<seq<Option<Data>>> {
    if rest.Halted? then rest else Running(out + rest.value)
  }

  lemma OntoNothing(rest: Outcome<seq<Option<Data>>>)
    ensures Onto([], rest) == rest
  {
    if rest.Running? { assert [] + rest.value == rest.value; }
  }

  lemma OntoStep(out: seq<Option<Data>>, x: Option<Data>, rest: Outcome<seq<Option<Data>>>)
    ensures Onto(out, if rest.Halted? then rest else Running([x] + rest.value)) == Onto(out + [x], rest)
    ensures Onto(out + [x], Running([])) == Running(out + [x])
  {
    if rest.Running? { assert out + ([x] + rest.value) == (out + [x]) + rest.value; }
    assert (out + [x]) + [] == out + [x];
  }

  lemma ReadIs(c: Config, s: State, lpn: nat, u: nat)
    requires lpn in s.table && u < |s.table[lpn]|
    ensures Ftl.Read(c, s, lpn, u) == var e := s.table[lpn][u];
      if c.Mapped(e) then Some(Cell(s.media, Loc(e.block, e.page, u))) else None
  {
  }

  // ---------------------------------------------------------------- the object

  class PageMapping {
    const c: Config
    const policy: Policy
    const cost: (map<nat, Block>, seq<Block>) -> Block -> real
    const reclaim: nat -> nat
    const gcWanted: (nat, nat) -> bool

    var table: map<nat, seq<Entry>>
    var blocks: map<nat, Block>
    var freeBlocks: seq<Block>
    var deadBlocks: seq<Block>
    var nFreeBlocks: nat
    var lastFreeBlock: seq<nat>
    var lastFreeBlockIndex: nat
    var lastFreeBlockIOMap: set<nat>
    var bReclaimMore: bool
    var draws: nat
    var validPageCopies: nat
    var hostWritePages: nat
    var flash: map<Loc, Data>

    function State(): State
      reads this
    {
      Ftl.State.State(table, blocks, freeBlocks, deadBlocks, nFreeBlocks, lastFreeBlock, lastFreeBlockIndex,
                      lastFreeBlockIOMap, bReclaimMore, draws, validPageCopies, hostWritePages, flash)
    }

    ghost predicate Valid()
      reads this
    {
      c.Ok() && c.choose == Chooser(policy, c.heads) && nFreeBlocks == |freeBlocks|
    }

    /** Table, blocks and lists agree with each other, and to the host the object is the map m. */
    ghost predicate Holds(m: Device)
      reads this
    {
      Inv(c, State()) && Ledger(c, State()) && Refines(c, State(), m)
    }

    /** What a write from s reports: garbage is collected exactly when the lists it leaves ask for it, and from full
        blocks in use, the cheapest of them, as many as asked for and one more per head after a head ran full. */
    ghost predicate Reported(s: State, lpn: nat, flags: set<nat>, data: nat -> Data, gc: Option<seq<nat>>) {
      Store(c, s, lpn, flags, data).Running? ==>
        var s1 := Store(c, s, lpn, flags, data).value;
        && (gc.Some? <==> gcWanted(s1.nFree, c.total))
        && (gc.Some? ==> VictimsOk(c, s1, gc.value))
        && (gc.Some? ==> Selection(c, s1.blocks, cost(s1.blocks, s1.free), reclaim(s1.nFree) + if s1.reclaimMore then c.heads else 0, gc.value))
    }

    /** Builds an object over the free list that applyInitialWear left. */
    constructor (c: Config, policy: Policy, cost: (map<nat, Block>, seq<Block>) -> Block -> real, reclaim: nat -> nat,
                 gcWanted: (nat, nat) -> bool, free: seq<Block>)
      requires 0 < c.total && 0 < c.pages && 0 < c.units && 0 < c.heads && c.choose == Chooser(policy, c.heads)
      ensures this.c == c && this.policy == policy && this.cost == cost && this.reclaim == reclaim && this.gcWanted == gcWanted
      ensures Valid() && State() == Fresh(c, free)
      ensures Initial(c, free) ==> Holds(map[])
    {
      this.c, this.policy, this.cost, this.reclaim, this.gcWanted := c, policy, cost, reclaim, gcWanted;
      table, blocks, freeBlocks, deadBlocks, nFreeBlocks := map[], map[], free, [], |free|;
      lastFreeBlock, lastFreeBlockIndex, lastFreeBlockIOMap := seq(c.heads, _ => 0), 0, {};
      bReclaimMore, draws, validPageCopies, hostWritePages, flash := false, 0, 0, 0, map[];
      new;
      PoliciesOk(c, policy);
      if Initial(c, free) {
        FreshOk(c, free);
      }
    }

    /** The constructor's second part: each head takes a free block; it halts when there are fewer free blocks than write
        heads. */
    method AllocateHeads() returns (r: Outcome<()>)
      requires Valid() && |lastFreeBlock| == c.heads
      modifies this
      ensures match ClaimHeads(c, old(State()), 0)
              case Running(s) => r == Running(()) && State() == s && Valid()
              case Halted(why) => r == Halted(why)
      ensures old(Holds(map[])) && old(table) == map[] ==>
                && (r.Running? <==> c.heads <= |old(freeBlocks)|)
                && (r.Running? ==> Holds(map[]) && HeadsOk(c, State()))
    {
      hide Inv, Ledger, Refines, Ftl.GetFreeBlock, Chooser;
      ghost var s0 := State();
      if Holds(map[]) && table == map[] {
        ClaimHeadsOk(c, s0, 0);
        if ClaimHeads(c, s0, 0).Running? {
          EmptyTableReadsNothing(c, ClaimHeads(c, s0, 0).value);
        }
      }
      var i := 0;
      while i < c.heads
        invariant i <= c.heads && Valid() && |lastFreeBlock| == c.heads
        invariant ClaimHeads(c, State(), i) == ClaimHeads(c, old(State()), 0)
      {
        var b := GetFreeBlock(i);
        if b.Halted? {
          return Halted(b.why);
        }
        lastFreeBlock := lastFreeBlock[i := b.value];
        i := i + 1;
      }
      return Running(());
    }

    method GetFreeBlock(idx: nat) returns (r: Outcome<nat>)
      requires Valid() && idx < c.heads
      modifies this`blocks, this`freeBlocks, this`nFreeBlocks, this`draws
      ensures match Ftl.GetFreeBlock(c, old(State()), idx)
              case Running((s, b)) => r == Running(b) && State() == s && Valid()
              case Halted(why) => r == Halted(why)
    {
      if nFreeBlocks > 0 {
        var k := Choose(policy, freeBlocks, c.heads, idx, draws);
        var b := freeBlocks[k];
        if b.idx in blocks {
          return Halted(Corrupted);
        }
        blocks := blocks[b.idx := b];
        freeBlocks := freeBlocks[..k] + freeBlocks[k + 1..];
        nFreeBlocks := nFreeBlocks - 1;
        draws := draws + 1;
        return Running(b.idx);
      } else {
        return Halted(EndOfLife);
      }
    }

    /** The loop of the no-argument getNextWritePageIndex. */
    method GetNextWritePageIndex(b: Block) returns (idx: nat)
      ensures idx == Highest(b.next)
    {
      idx := 0;
      for i := 0 to |b.next|
        invariant idx == Highest(b.next[..i])
      {
        assert b.next[..i + 1][..i] == b.next[..i];
        if idx < b.next[i] {
          idx := b.next[i];
        }
      }
      assert b.next[..|b.next|] == b.next;
    }

    /** The next write head, unless the current page has room for all the units asked for. */
    method AdvanceHead(iomap: set<nat>)
      requires Valid() && lastFreeBlockIndex < c.heads
      modifies this`lastFreeBlockIndex, this`lastFreeBlockIOMap
      ensures State() == Advanced(c, old(State()), iomap) && lastFreeBlockIndex < c.heads
    {
      if !c.tweak || lastFreeBlockIOMap * iomap != {} {
        lastFreeBlockIndex := lastFreeBlockIndex + 1;
        if lastFreeBlockIndex == c.heads {
          lastFreeBlockIndex := 0;
        }
        lastFreeBlockIOMap := iomap;
      } else {
        lastFreeBlockIOMap := lastFreeBlockIOMap + iomap;
      }
    }

    method GetLastFreeBlock(iomap: set<nat>) returns (r: Outcome<nat>)
      requires Valid() && lastFreeBlockIndex < c.heads
      modifies this`blocks, this`freeBlocks, this`nFreeBlocks, this`draws, this`lastFreeBlock,
               this`lastFreeBlockIndex, this`lastFreeBlockIOMap, this`bReclaimMore
      ensures match LastFreeBlock(c, old(State()), iomap)
              case Running((s, b)) => r == Running(b) && State() == s && Valid() && lastFreeBlockIndex < c.heads
              case Halted(why) => r == Halted(why)
    {
      hide Ftl.GetFreeBlock, Highest, Chooser, Advanced;
      AdvanceHead(iomap);
      var i := lastFreeBlockIndex;
      if i >= |lastFreeBlock| {
        return Halted(OutOfRange);
      }
      if lastFreeBlock[i] !in blocks {
        return Halted(Corrupted);
      }
      var next := GetNextWritePageIndex(blocks[lastFreeBlock[i]]);
      if next == c.pages {
        var b := GetFreeBlock(i);
        if b.Halted? {
          return Halted(b.why);
        }
        lastFreeBlock := lastFreeBlock[i := b.value];
        bReclaimMore := true;
      }
      return Running(lastFreeBlock[i]);
    }

    /** selectVictimBlock, with the sort by cost: one block more per head is reclaimed after a head ran full. */
    method SelectVictimBlock() returns (victims: seq<nat>)
      modifies this`bReclaimMore
      ensures State() == old(State()).(reclaimMore := false)
      ensures Selection(c, blocks, cost(blocks, freeBlocks), reclaim(nFreeBlocks) + if old(bReclaimMore) then c.heads else 0, victims)
      ensures VictimsOk(c, State(), victims)
    {
      var n := reclaim(nFreeBlocks);
      if bReclaimMore {
        n := n + c.heads;
        bReclaimMore := false;
      }
      victims := SelectVictims(c, blocks, cost(blocks, freeBlocks), n);
    }

    // -------------------------------------------------------------- host operations

    method ReadInternal(lpn: nat, flags: set<nat>) returns (r: Outcome<seq<Option<Data>>>)
      requires Valid()
      ensures r == ReadLanes(c, State(), lpn, flags, 0)
    {
      hide Ftl.Read;
      var out: seq<Option<Data>> := [];
      var u := 0;
      ghost var s := State();
      OntoNothing(ReadLanes(c, s, lpn, flags, 0));
      while u < c.Lanes()
        invariant u <= c.Lanes()
        invariant ReadLanes(c, s, lpn, flags, 0) == Onto(out, ReadLanes(c, s, lpn, flags, u))
      {
        var x := None;
        if lpn in table && c.Touches(flags, u) {
          if u >= |table[lpn]| {
            return Halted(OutOfRange);
          }
          var mapping := table[lpn][u];
          if c.Mapped(mapping) {
            if mapping.block !in blocks {
              return Halted(BlockNotInUse);
            }
            x := Some(Cell(flash, Loc(mapping.block, mapping.page, u)));
          }
          assert x == Ftl.Read(c, s, lpn, u) by { ReadIs(c, s, lpn, u); }
        }
        OntoStep(out, x, ReadLanes(c, s, lpn, flags, u + 1));
        out := out + [x];
        u := u + 1;
      }
      assert out + [] == out;
      return Running(out);
    }

    /** The first part of writeInternal. */
    method InvalidateOld(lpn: nat, flags: set<nat>) returns (r: Outcome<()>)
      requires Valid()
      modifies this`table, this`blocks
      ensures match Prepared(c, old(State()), lpn, flags)
              case Running(s) => r == Running(()) && State() == s && Valid()
              case Halted(why) => r == Halted(why)
    {
      if lpn in table {
        var u := 0;
        while u < c.Lanes()
          invariant u <= c.Lanes() && Valid() && table == old(table)
          invariant Invalidated(c, State(), lpn, flags, u) == Invalidated(c, old(State()), lpn, flags, 0)
        {
          if c.Touches(flags, u) {
            if u >= |table[lpn]| {
              return Halted(OutOfRange);
            }
            var mapping := table[lpn][u];
            if c.Mapped(mapping) {
              if mapping.block !in blocks {
                return Halted(Undefined);
              }
              blocks := blocks[mapping.block := blocks[mapping.block].Invalidate(Unit(mapping.page, u))];
            }
          }
          u := u + 1;
        }
      } else {
        table := table[lpn := EmptyRow(c)];
      }
      return Running(());
    }

    /** Block::write, the mapping update and the physical program of one unit. */
    method WriteUnit(lpn: nat, u: nat, dst: nat, d: Data) returns (r: Outcome<()>)
      requires Valid()
      modifies this`table, this`blocks, this`flash
      ensures match ProgramUnit(c, old(State()), lpn, u, dst, d)
              case Running(s) => r == Running(()) && State() == s && Valid()
              case Halted(why) => r == Halted(why)
    {
      if dst !in blocks {
        return Halted(NoSuchBlock);
      }
      if lpn !in table || u >= |table[lpn]| {
        return Halted(OutOfRange);
      }
      if u >= |blocks[dst].next| || blocks[dst].next[u] >= c.pages {
        return Halted(OutOfRange);
      }
      var pageIndex := blocks[dst].next[u];
      blocks := blocks[dst := blocks[dst].Program(u, lpn)];
      table := table[lpn := table[lpn][u := Entry(dst, pageIndex)]];
      flash := flash[Loc(dst, pageIndex, u) := d];
      return Running(());
    }

    /** writeInternal up to garbage collection. */
    method StoreInternal(lpn: nat, flags: set<nat>, data: nat -> Data) returns (r: Outcome<()>)
      requires Valid() && lastFreeBlockIndex < c.heads
      modifies this
      ensures match Store(c, old(State()), lpn, flags, data)
              case Running(s) => r == Running(()) && State() == s && Valid() && lastFreeBlockIndex < c.heads
              case Halted(why) => r == Halted(why)
    {
      hide Prepared, LastFreeBlock, ProgramUnit;
      var p := InvalidateOld(lpn, flags);
      if p.Halted? {
        return Halted(p.why);
      }
      var b := GetLastFreeBlock(flags);
      if b.Halted? {
        return Halted(b.why);
      }
      var dst := b.value;
      ghost var s2 := State();
      assert Store(c, old(State()), lpn, flags, data) == Programmed(c, s2, lpn, flags, data, dst, 0);
      var u := 0;
      while u < c.Lanes()
        invariant u <= c.Lanes() && Valid() && lastFreeBlockIndex < c.heads
        invariant Programmed(c, State(), lpn, flags, data, dst, u) == Programmed(c, s2, lpn, flags, data, dst, 0)
      {
        if c.Touches(flags, u) {
          var w := WriteUnit(lpn, u, dst, data(u));
          if w.Halted? {
            return Halted(w.why);
          }
        }
        u := u + 1;
      }
      return Running(());
    }

    /** writeInternal. The victims it collects, if any, are reported so that the contract can name them. */
    method WriteInternal(lpn: nat, flags: set<nat>, data: nat -> Data) returns (r: Outcome<()>, gc: Option<seq<nat>>)
      requires Valid() && lastFreeBlockIndex < c.heads
      modifies this
      ensures Reported(old(State()), lpn, flags, data, gc)
      ensures match Ftl.Write(c, old(State()), lpn, flags, data, gc)
              case Running(s) => r == Running(()) && State() == s && Valid() && lastFreeBlockIndex < c.heads
              case Halted(why) => r == Halted(why)
    {
      hide Store, Collected, Selection;
      gc := None;
      r := StoreInternal(lpn, flags, data);
      if r.Running? && gcWanted(nFreeBlocks, c.total) {
        ghost var s1 := State();
        var victims := SelectVictimBlock();
        VictimsIgnoreTheFlag(s1, State(), victims);
        gc := Some(victims);
        r := DoGarbageCollection(victims);
      }
    }

    lemma VictimsIgnoreTheFlag(s: State, s': State, victims: seq<nat>)
      requires s'.blocks == s.blocks && VictimsOk(c, s', victims)
      ensures VictimsOk(c, s, victims)
    {
    }

    /** read(): an empty request reads nothing. Every other one returns, and answers from the map that the object holds. */
    method Read(lpn: nat, flags: set<nat>, ghost m: Device) returns (r: Outcome<seq<Option<Data>>>)
      requires Valid()
      ensures r == HostRead(c, State(), lpn, flags)
      ensures Holds(m) ==> r == Running(DeviceRead(c, m, lpn, flags))
    {
      if flags != {} {
        r := ReadInternal(lpn, flags);
      } else {
        r := Running(seq(c.Lanes(), _ => None));
      }
      if Holds(m) {
        ReadRefines(c, State(), m, lpn, flags);
      }
    }

    /** write(): counts the units and writes them; an empty request changes nothing. An object that holds the map m and
        returns holds m with the named units overwritten, whatever it collected on the way; only with a single I/O unit
        per page this needs getPageInfo to be right about the victims. */
    method Write(lpn: nat, flags: set<nat>, data: nat -> Data, ghost m: Device) returns (r: Outcome<()>, gc: Option<seq<nat>>)
      requires Valid() && lastFreeBlockIndex < c.heads
      modifies this
      ensures match HostWrite(c, old(State()), lpn, flags, data, gc)
              case Running(s) => r == Running(()) && State() == s && Valid() && lastFreeBlockIndex < c.heads
              case Halted(why) => r == Halted(why)
      ensures if flags == {} then gc == None else Reported(Counted(old(State()), flags), lpn, flags, data, gc)
      ensures old(Holds(m)) && (c.units != 1 || ReportOk(c, old(State()), lpn, flags, data, gc)) ==>
                && (r.Running? ==> Holds(if flags == {} then m else DeviceWrite(c, m, lpn, flags, data)))
                && (r.Halted? ==> r.why == Corrupted || WornOut(c, r.why))
    {
      hide Inv, Ledger, Refines, Store, Ftl.Write, DeviceWrite, ReportOk, Reported;
      ghost var s := State();
      if flags != {} {
        hostWritePages := hostWritePages + |flags|;
        r, gc := WriteInternal(lpn, flags, data);
      } else {
        r, gc := Running(()), None;
      }
      WriteHolds(s, m, lpn, flags, data, gc);
    }

    lemma WriteHolds(s: State, m: Device, lpn: nat, flags: set<nat>, data: nat -> Data, gc: Option<seq<nat>>)
      requires c.Ok() && (flags != {} ==> Reported(Counted(s, flags), lpn, flags, data, gc))
      ensures Inv(c, s) && Ledger(c, s) && Refines(c, s, m) && (c.units != 1 || ReportOk(c, s, lpn, flags, data, gc)) ==>
        match HostWrite(c, s, lpn, flags, data, gc)
        case Halted(why) => why == Corrupted || WornOut(c, why)
        case Running(s') =>
          Inv(c, s') && Ledger(c, s') && Refines(c, s', if flags == {} then m else DeviceWrite(c, m, lpn, flags, data))
    {
      hide Inv, Ledger, Refines, Store, VictimsOk, VictimsSound, Ftl.Write, DeviceWrite, Selection;
      if Inv(c, s) && Ledger(c, s) && Refines(c, s, m) && (c.units != 1 || ReportOk(c, s, lpn, flags, data, gc)) {
        if flags == {} {
        } else {
          var stored := Store(c, Counted(s, flags), lpn, flags, data);
          if c.units != 1 && stored.Running? && gc.Some? {
            SoundWithSeveralUnits(c, stored.value, gc.value);
          }
          HostWriteRefines(c, s, m, lpn, flags, data, gc);
          if HostWrite(c, s, lpn, flags, data, gc).Running? {
            HostWriteLedger(c, s, lpn, flags, data, gc);
          }
        }
      }
    }

    /** trim(): the map that the object holds loses one LPN. */
    method Trim(lpn: nat, ghost m: Device) returns (r: Outcome<()>)
      requires Valid()
      modifies this`table, this`blocks
      ensures match Ftl.Trim(c, old(State()), lpn)
              case Running(s) => r == Running(()) && State() == s && Valid()
              case Halted(why) => r == Halted(why)
      ensures old(Holds(m)) ==>
                && (r.Running? ==> Holds(map k | k in m && k.0 != lpn :: m[k]))
                && (r.Halted? ==> r.why == BlockNotInUse)
    {
      hide Inv, Ledger, Refines, Ftl.Trim;
      ghost var s := State();
      ghost var held := Holds(m);
      r := TrimInternal(lpn);
      if held {
        TrimRefines(c, s, m, lpn);
        if r.Running? {
          TrimEvolves(c, s, lpn);
        }
      }
    }

    method TrimInternal(lpn: nat) returns (r: Outcome<()>)
      requires Valid()
      modifies this`table, this`blocks
      ensures match Ftl.Trim(c, old(State()), lpn)
              case Running(s) => r == Running(()) && State() == s && Valid()
              case Halted(why) => r == Halted(why)
    {
      if lpn in table {
        var u := 0;
        while u < c.Lanes()
          invariant u <= c.Lanes() && Valid() && table == old(table)
          invariant Trimmed(c, State(), lpn, u) == Trimmed(c, old(State()), lpn, 0)
        {
          if u >= |table[lpn]| {
            return Halted(OutOfRange);
          }
          var mapping := table[lpn][u];
          if mapping.block !in blocks {
            return Halted(BlockNotInUse);
          }
          blocks := blocks[mapping.block := blocks[mapping.block].Invalidate(Unit(mapping.page, u))];
          u := u + 1;
        }
        table := table - {lpn};
      }
      return Running(());
    }

    // -------------------------------------------------------------- garbage collection in three batches

    /** eraseInternal. */
    method EraseInternal(b: nat) returns (r: Outcome<()>)
      requires Valid()
      modifies this`blocks, this`freeBlocks, this`nFreeBlocks, this`deadBlocks, this`flash
      ensures match Erase(c, old(State()), b)
              case Running(s) => r == Running(()) && State() == s && Valid()
              case Halted(why) => r == Halted(why)
    {
      if b !in blocks {
        return Halted(NoSuchBlock);
      }
      if blocks[b].valid != {} {
        return Halted(ValidPagesInVictim);
      }
      var erased := blocks[b].Erased();
      if erased.eraseCount < c.threshold {
        var iter := |freeBlocks|;
        if iter == 0 {
          return Halted(EmptyFreeList);
        }
        while 0 < iter && erased.eraseCount < freeBlocks[iter - 1].eraseCount
          invariant 0 <= iter <= |freeBlocks|
          invariant InsertAt(freeBlocks, erased.eraseCount, iter) == InsertAt(freeBlocks, erased.eraseCount, |freeBlocks|)
        {
          iter := iter - 1;
        }
        freeBlocks := freeBlocks[..iter] + [erased] + freeBlocks[iter..];
        nFreeBlocks := nFreeBlocks + 1;
      } else {
        deadBlocks := deadBlocks + [erased];
        if c.stopAtDeath {
          return Halted(FirstDeath);
        }
      }
      blocks := blocks - {b};
      flash := WithoutBlock(flash, b);
      return Running(());
    }

    /** The state this object would be in had the batched writes ws been done as they were issued. */
    ghost function Eager(ws: seq<UnitWrite>): State
      reads this
    {
      State().(media := Replay(flash, ws))
    }

    /** The innermost loop body: invalidate, remap and note the physical write of one unit. */
    method MoveUnitLater(b: nat, x: Unit, lpn: nat, dst: nat, ws: seq<UnitWrite>, ghost victims: seq<nat>)
      returns (r: Outcome<()>, ws': seq<UnitWrite>)
      requires Valid() && b in victims && dst !in victims && Apart(ws, victims) && Stay(c, blocks, victims)
      modifies this`table, this`blocks, this`validPageCopies
      ensures match MoveUnit(c, old(Eager(ws)), b, x, lpn, dst)
              case Running(s) =>
                r == Running(()) && Valid() && Eager(ws') == s && Apart(ws', victims) && Stay(c, blocks, victims)
                && exists w :: ws' == ws + [w] && w.src == Loc(b, x.page, x.lane)
              case Halted(why) => r == Halted(why)
    {
      hide Apart, Stay, Replay;
      ws' := ws;
      if b !in blocks {
        return Halted(InvalidBlock), ws;
      }
      ghost var before := blocks;
      blocks := blocks[b := blocks[b].Invalidate(x)];
      if lpn !in table {
        return Halted(InvalidMapping), ws;
      }
      if dst !in blocks {
        return Halted(NoSuchBlock), ws;
      }
      var u := x.lane;
      if u >= |table[lpn]| || u >= |blocks[dst].next| || blocks[dst].next[u] >= c.pages {
        return Halted(OutOfRange), ws;
      }
      var newPageIdx := blocks[dst].next[u];
      table := table[lpn := table[lpn][u := Entry(dst, newPageIdx)]];
      blocks := blocks[dst := blocks[dst].Program(u, lpn)];
      var w := UnitWrite(Loc(dst, newPageIdx, u), Loc(b, x.page, u));
      ReplayOneMore(flash, ws, w, victims);
      ApartMore(ws, w, victims);
      MovingSparesVictims(c, before, b, x, dst, lpn, victims);
      ws' := ws + [w];
      validPageCopies := validPageCopies + 1;
      r := Running(());
    }

    /** The loop body for one page: fetch its valid units, then remap each of them. */
    method MovePageLater(b: nat, p: nat, rs: seq<PageRead>, ws: seq<UnitWrite>, ghost victims: seq<nat>)
      returns (r: Outcome<()>, rs': seq<PageRead>, ws': seq<UnitWrite>)
      requires Valid() && lastFreeBlockIndex < c.heads
      requires b in victims && Apart(ws, victims) && AllFetched(rs, ws) && Stay(c, blocks, victims)
      modifies this`table, this`blocks, this`validPageCopies, this`freeBlocks, this`nFreeBlocks, this`draws,
               this`lastFreeBlock, this`lastFreeBlockIndex, this`lastFreeBlockIOMap, this`bReclaimMore
      ensures match MovePage(c, old(Eager(ws)), b, p)
              case Running(s) =>
                r == Running(()) && Valid() && lastFreeBlockIndex < c.heads && Eager(ws') == s
                && Apart(ws', victims) && AllFetched(rs', ws') && Stay(c, blocks, victims)
              case Halted(why) => r == Halted(why)
    {
      hide Apart, Stay, AllFetched, Fetched, MoveUnit, LastFreeBlock, Replay;
      rs', ws' := rs, ws;
      if b !in blocks {
        return Halted(InvalidBlock), rs, ws;
      }
      var from := blocks[b];
      var bits := PageInfo(c, from, p);
      if bits == {} {
        return Running(()), rs, ws;
      }
      var flags := Moved(c, bits);
      AllocationIgnoresMedia(c, State(), Replay(flash, ws), flags);
      if LastFreeBlock(c, State(), flags).Running? {
        AllocationSparesVictims(c, State(), flags, victims);
      }
      var fb := GetLastFreeBlock(flags);
      if fb.Halted? {
        return Halted(fb.why), rs, ws;
      }
      var dst := fb.value;
      rs' := rs + [PageRead(b, p, flags)];
      FetchMore(rs, PageRead(b, p, flags), ws);
      ghost var e := Eager(ws);
      assert MovePage(c, old(Eager(ws)), b, p) == MoveLanes(c, e, b, p, from, flags, dst, 0);
      var u := 0;
      while u < c.Lanes()
        invariant u <= c.Lanes() && Valid() && lastFreeBlockIndex < c.heads
        invariant Apart(ws', victims) && Stay(c, blocks, victims) && AllFetched(rs', ws')
        invariant MoveLanes(c, Eager(ws'), b, p, from, flags, dst, u) == MoveLanes(c, e, b, p, from, flags, dst, 0)
      {
        if c.Touches(flags, u) {
          ghost var ws1 := ws';
          r, ws' := MoveUnitLater(b, Unit(p, u), Label(from, Unit(p, u)), dst, ws', victims);
          if r.Halted? {
            return;
          }
          FlagsCover(bits, u);
          ghost var w :| ws' == ws1 + [w] && w.src == Loc(b, p, u);
          FetchedMore(rs', ws1, w);
        }
        u := u + 1;
      }
      r := Running(());
    }

    lemma FlagsCover(bits: set<nat>, u: nat)
      requires c.Touches(Moved(c, bits), u) && c.Ok()
      ensures u in Moved(c, bits)
    {
    }

    /** Collects the requests for every victim, then performs all reads, all writes and all erases. The outcome is
        that of copying page by page. */
    method DoGarbageCollection(victims: seq<nat>) returns (r: Outcome<()>)
      requires Valid() && lastFreeBlockIndex < c.heads
      requires VictimsOk(c, State(), victims)
      modifies this
      ensures match Collected(c, old(State()), victims)
              case Running(s) => r == Running(()) && State() == s && Valid() && lastFreeBlockIndex < c.heads
              case Halted(why) => r == Halted(why)
    {
      hide VictimsOk, MoveBlocks, Apart, AllFetched, Erase, Replay;
      if |victims| == 0 {
        return Running(());
      }
      var readRequests, writeRequests, eraseRequests;
      r, readRequests, writeRequests, eraseRequests := CollectRequests(victims);
      if r.Halted? {
        return;
      }
      ghost var done := Eager(writeRequests);

      var buffer := ReadAll(readRequests);
      WriteAll(writeRequests, buffer, readRequests);
      assert State() == done;

      var k := 0;
      while k < |eraseRequests|
        invariant k <= |eraseRequests| && Valid() && lastFreeBlockIndex < c.heads
        invariant EraseBlocks(c, State(), victims, k) == EraseBlocks(c, done, victims, 0)
      {
        r := EraseInternal(eraseRequests[k]);
        if r.Halted? {
          return;
        }
        k := k + 1;
      }
      r := Running(());
    }

    /** The loop body for one victim. */
    method MoveBlockLater(b: nat, rs: seq<PageRead>, ws: seq<UnitWrite>, ghost victims: seq<nat>)
      returns (r: Outcome<()>, rs': seq<PageRead>, ws': seq<UnitWrite>)
      requires Valid() && lastFreeBlockIndex < c.heads
      requires b in victims && Apart(ws, victims) && AllFetched(rs, ws) && Stay(c, blocks, victims)
      modifies this`table, this`blocks, this`validPageCopies, this`freeBlocks, this`nFreeBlocks, this`draws,
               this`lastFreeBlock, this`lastFreeBlockIndex, this`lastFreeBlockIOMap, this`bReclaimMore
      ensures match MovePages(c, old(Eager(ws)), b, 0)
              case Running(s) =>
                r == Running(()) && Valid() && lastFreeBlockIndex < c.heads && Eager(ws') == s
                && Apart(ws', victims) && AllFetched(rs', ws') && Stay(c, blocks, victims)
              case Halted(why) => r == Halted(why)
    {
      hide Apart, Stay, AllFetched, MovePage, Replay;
      rs', ws' := rs, ws;
      ghost var here := Eager(ws);
      var p := 0;
      while p < c.pages
        invariant p <= c.pages && Valid() && lastFreeBlockIndex < c.heads
        invariant Apart(ws', victims) && AllFetched(rs', ws') && Stay(c, blocks, victims)
        invariant MovePages(c, Eager(ws'), b, p) == MovePages(c, here, b, 0)
      {
        r, rs', ws' := MovePageLater(b, p, rs', ws', victims);
        if r.Halted? {
          return;
        }
        p := p + 1;
      }
      r := Running(());
    }

    lemma StayHas(victims: seq<nat>, k: nat, ws: seq<UnitWrite>)
      requires Stay(c, blocks, victims) && k < |victims|
      ensures victims[k] in blocks && Eager(ws).blocks == blocks
    {
    }

    lemma NothingYet(victims: seq<nat>)
      requires VictimsOk(c, State(), victims)
      ensures Stay(c, blocks, victims) && Apart([], victims) && AllFetched([], []) && Eager([]) == State()
    {
    }

    method CollectRequests(victims: seq<nat>)
      returns (r: Outcome<()>, rs: seq<PageRead>, ws: seq<UnitWrite>, es: seq<nat>)
      requires Valid() && lastFreeBlockIndex < c.heads
      requires VictimsOk(c, State(), victims)
      modifies this`table, this`blocks, this`validPageCopies, this`freeBlocks, this`nFreeBlocks, this`draws,
               this`lastFreeBlock, this`lastFreeBlockIndex, this`lastFreeBlockIOMap, this`bReclaimMore
      ensures match MoveBlocks(c, old(State()), victims, 0)
              case Running(s) =>
                r == Running(()) && Valid() && lastFreeBlockIndex < c.heads && Eager(ws) == s && AllFetched(rs, ws)
                && Apart(ws, victims) && es == victims
              case Halted(why) => r == Halted(why)
    {
      hide Apart, Stay, AllFetched, MovePages, Replay, VictimsOk, Eager, Valid, State;
      rs, ws, es := [], [], [];
      ghost var start := State();
      NothingYet(victims);
      var k := 0;
      while k < |victims|
        invariant k <= |victims| && Valid() && lastFreeBlockIndex < c.heads && es == victims[..k]
        invariant Apart(ws, victims) && AllFetched(rs, ws) && Stay(c, blocks, victims)
        invariant MoveBlocks(c, Eager(ws), victims, k) == MoveBlocks(c, start, victims, 0)
      {
        var b := victims[k];
        StayHas(victims, k, ws);
        if b !in blocks {
          return Halted(InvalidBlock), rs, ws, es;
        }
        r, rs, ws := MoveBlockLater(b, rs, ws, victims);
        if r.Halted? {
          return;
        }
        es := es + [b];
        k := k + 1;
      }
      r := Running(());
    }

    /** The batch of physical reads: what each fetched unit held. */
    method ReadAll(rs: seq<PageRead>) returns (buffer: map<Loc, Data>)
      ensures forall x :: Fetched(rs, x) ==> x in buffer && buffer[x] == Cell(flash, x)
    {
      buffer := map[];
      var k := 0;
      while k < |rs|
        invariant k <= |rs|
        invariant forall x :: Fetched(rs[..k], x) ==> x in buffer && buffer[x] == Cell(flash, x)
        invariant forall x :: x in buffer ==> buffer[x] == Cell(flash, x)
      {
        var q := rs[k];
        var page := map u | u in q.lanes :: Loc(q.block, q.page, u) := Cell(flash, Loc(q.block, q.page, u));
        buffer := buffer + page;
        forall x | Fetched(rs[..k + 1], x)
          ensures x in buffer
        {
          if !Fetched(rs[..k], x) {
            var j :| 0 <= j < |rs[..k + 1]| && rs[..k + 1][j].block == x.block && rs[..k + 1][j].page == x.page && x.lane in rs[..k + 1][j].lanes;
            assert j == k;
            assert x == Loc(q.block, q.page, x.lane);
            assert x in page;
          }
        }
        k := k + 1;
      }
      assert rs[..|rs|] == rs;
    }

    /** The batch of physical writes, from the buffer the reads filled. */
    method WriteAll(ws: seq<UnitWrite>, buffer: map<Loc, Data>, ghost rs: seq<PageRead>)
      requires AllFetched(rs, ws)
      requires forall x :: Fetched(rs, x) ==> x in buffer && buffer[x] == Cell(flash, x)
      modifies this`flash
      ensures flash == Replay(old(flash), ws)
    {
      var k := 0;
      while k < |ws|
        invariant k <= |ws| && flash == Replay(old(flash), ws[..k])
      {
        assert Fetched(rs, ws[k].src);
        flash := flash[ws[k].dst := buffer[ws[k].src]];
        assert ws[..k + 1][..k] == ws[..k];
        k := k + 1;
      }
      assert ws[..|ws|] == ws;
    }
  }
}
