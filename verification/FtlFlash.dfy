/**
 What NAND flash asks for: a unit is programmed only while it is erased, the units of a lane from the first page on, and
 only whole blocks are erased. The flash holds data in exactly the programmed units of the blocks in use, and nothing that
 is programmed is overwritten before its block is erased.
 */
module FtlFlash {
  import opened Ftl
  import opened FtlMapping
  import opened FtlRuns
  import opened FtlHeads

  /** Exactly the pages below the write pointer of a lane are programmed. */
  ghost predicate InOrder(b: Block) {
    forall x :: x in b.lpns <==> x.lane < |b.next| && x.page < b.next[x.lane]
  }

  /** The unit lies in a block in use and is programmed. */
  predicate IsProgrammed(s: State, x: Loc) {
    x.block in s.blocks && Unit(x.page, x.lane) in s.blocks[x.block].lpns
  }

  ghost predicate Disciplined(s: State) {
    && (forall x: Loc :: x in s.media <==> IsProgrammed(s, x))
    && (forall b :: b in s.blocks ==> InOrder(s.blocks[b]))
    && (forall k :: 0 <= k < |s.free| ==> InOrder(s.free[k]) && s.free[k].lpns == map[])
  }

  /** Nothing that is programmed has been overwritten or erased. */
  ghost predicate Kept(s: State, s': State) {
    forall x :: x in s.media ==> x in s'.media && s'.media[x] == s.media[x]
  }

  lemma KeptTrans(s: State, s1: State, s2: State)
    requires Kept(s, s1) && Kept(s1, s2)
    ensures Kept(s, s2)
  {
  }

  /** A unit is programmed where the flash is erased. */
  lemma ProgramsErased(c: Config, s: State, lpn: nat, u: nat, dst: nat, d: Data)
    requires Disciplined(s) && ProgramUnit(c, s, lpn, u, dst, d).Running?
    ensures var s' := ProgramUnit(c, s, lpn, u, dst, d).value; var x := Loc(dst, s.blocks[dst].next[u], u);
      x !in s.media && s'.media == s.media[x := d] && Kept(s, s') && Disciplined(s')
  {
    var s' := ProgramUnit(c, s, lpn, u, dst, d).value;
    var b, x := s.blocks[dst], Loc(dst, s.blocks[dst].next[u], u);
    assert !IsProgrammed(s, x);
    assert InOrder(b.Program(u, lpn)) by { ProgramInOrder(b, u, lpn); }
    forall y: Loc
      ensures y in s'.media <==> IsProgrammed(s', y)
    {
      assert y in s.media <==> IsProgrammed(s, y);
    }
  }

  lemma ProgramInOrder(b: Block, u: nat, lpn: nat)
    requires u < |b.next| && InOrder(b)
    ensures InOrder(b.Program(u, lpn))
  {
  }

  /** What clears a valid bit or takes a free block programs nothing. */
  lemma ClearDisciplined(s: State, s': State, b: nat, x: Unit)
    requires Disciplined(s) && b in s.blocks && s' == s.(blocks := s.blocks[b := s.blocks[b].Invalidate(x)])
    ensures Disciplined(s') && s'.media == s.media
  {
    forall y: Loc
      ensures y in s'.media <==> IsProgrammed(s', y)
    {
      assert y in s.media <==> IsProgrammed(s, y);
    }
    assert InOrder(s.blocks[b].Invalidate(x));
  }

  lemma TakeAt(s: State, b: Block, y: Loc)
    requires b.idx !in s.blocks && b.lpns == map[]
    requires y in s.media <==> IsProgrammed(s, y)
    ensures var s' := s.(blocks := s.blocks[b.idx := b]); y in s'.media <==> IsProgrammed(s', y)
  {
  }

  lemma IntoUse(s: State, b: Block)
    requires Disciplined(s) && b.idx !in s.blocks && b.lpns == map[] && InOrder(b)
    ensures Disciplined(s.(blocks := s.blocks[b.idx := b]))
  {
    hide InOrder;
    forall y: Loc
      ensures y in s.media <==> IsProgrammed(s.(blocks := s.blocks[b.idx := b]), y)
    {
      TakeAt(s, b, y);
    }
    hide IsProgrammed;
  }

  lemma FewerFree(s: State, s': State, k: nat)
    requires Disciplined(s) && k < |s.free| && s'.free == s.free[..k] + s.free[k + 1..]
    requires s'.blocks == s.blocks && s'.media == s.media
    ensures Disciplined(s')
  {
    hide InOrder;
    forall y: Loc
      ensures y in s'.media <==> IsProgrammed(s', y)
    {
      assert y in s.media <==> IsProgrammed(s, y);
    }
    hide IsProgrammed;
  }

  lemma TakeDisciplined(c: Config, s: State, idx: nat)
    requires Disciplined(s) && GetFreeBlock(c, s, idx).Running?
    ensures Disciplined(GetFreeBlock(c, s, idx).value.0) && GetFreeBlock(c, s, idx).value.0.media == s.media
  {
    hide InOrder, IsProgrammed;
    var k := c.choose(s.free, idx, s.draws);
    var b := s.free[k];
    IntoUse(s, b);
    FewerFree(s.(blocks := s.blocks[b.idx := b]), GetFreeBlock(c, s, idx).value.0, k);
  }

  lemma SameFlash(s: State, s': State)
    requires Disciplined(s) && s'.blocks == s.blocks && s'.free == s.free && s'.media == s.media
    ensures Disciplined(s')
  {
    forall y: Loc
      ensures y in s'.media <==> IsProgrammed(s', y)
    {
      assert y in s.media <==> IsProgrammed(s, y);
    }
  }

  lemma LastFreeBlockDisciplined(c: Config, s: State, flags: set<nat>)
    requires Disciplined(s) && LastFreeBlock(c, s, flags).Running?
    ensures Disciplined(LastFreeBlock(c, s, flags).value.0) && LastFreeBlock(c, s, flags).value.0.media == s.media
  {
    hide Highest, Disciplined, GetFreeBlock;
    var s1 := Advanced(c, s, flags);
    SameFlash(s, s1);
    if c.Full(s1.blocks[s1.heads[s1.headIndex]]) {
      TakeDisciplined(c, s1, s1.headIndex);
      SameFlash(GetFreeBlock(c, s1, s1.headIndex).value.0, LastFreeBlock(c, s, flags).value.0);
    }
  }

  lemma {:induction false} InvalidatedDisciplined(c: Config, s: State, lpn: nat, flags: set<nat>, u: nat)
    requires Disciplined(s) && Invalidated(c, s, lpn, flags, u).Running?
    ensures var s' := Invalidated(c, s, lpn, flags, u).value; Disciplined(s') && s'.media == s.media
    decreases c.Lanes() - u
  {
    hide Disciplined;
    if u < c.Lanes() {
      if !c.Touches(flags, u) || !c.Mapped(s.table[lpn][u]) {
        InvalidatedDisciplined(c, s, lpn, flags, u + 1);
      } else {
        var e := s.table[lpn][u];
        ClearDisciplined(s, ClearOld(s, e, u), e.block, Unit(e.page, u));
        InvalidatedDisciplined(c, ClearOld(s, e, u), lpn, flags, u + 1);
      }
    }
  }

  lemma {:induction false} ProgrammedDisciplined(c: Config, s: State, lpn: nat, flags: set<nat>, data: nat -> Data, dst: nat, u: nat)
    requires Disciplined(s) && Programmed(c, s, lpn, flags, data, dst, u).Running?
    ensures var s' := Programmed(c, s, lpn, flags, data, dst, u).value; Disciplined(s') && Kept(s, s')
    decreases c.Lanes() - u
  {
    hide Disciplined, ProgramUnit;
    if u < c.Lanes() {
      if !c.Touches(flags, u) {
        ProgrammedDisciplined(c, s, lpn, flags, data, dst, u + 1);
      } else {
        var s1 := ProgramUnit(c, s, lpn, u, dst, data(u)).value;
        ProgramsErased(c, s, lpn, u, dst, data(u));
        ProgrammedDisciplined(c, s1, lpn, flags, data, dst, u + 1);
        KeptTrans(s, s1, Programmed(c, s1, lpn, flags, data, dst, u + 1).value);
      }
    }
  }

  /** A write programs erased units only. */
  lemma StoreDisciplined(c: Config, s: State, lpn: nat, flags: set<nat>, data: nat -> Data)
    requires Disciplined(s) && Store(c, s, lpn, flags, data).Running?
    ensures var s' := Store(c, s, lpn, flags, data).value; Disciplined(s') && Kept(s, s')
  {
    hide Disciplined, Invalidated, LastFreeBlock, Programmed;
    var s1 := Prepared(c, s, lpn, flags).value;
    if lpn in s.table {
      InvalidatedDisciplined(c, s, lpn, flags, 0);
    } else {
      SameFlash(s, s1);
    }
    LastFreeBlockDisciplined(c, s1, flags);
    var (s2, dst) := LastFreeBlock(c, s1, flags).value;
    ProgrammedDisciplined(c, s2, lpn, flags, data, dst, 0);
  }

  lemma MoveUnitDisciplined(c: Config, s: State, b: nat, x: Unit, lpn: nat, dst: nat)
    requires Disciplined(s) && MoveUnit(c, s, b, x, lpn, dst).Running?
    ensures var s' := MoveUnit(c, s, b, x, lpn, dst).value; Disciplined(s') && Kept(s, s')
  {
    hide Disciplined, ProgramUnit;
    var s1 := s.(blocks := s.blocks[b := s.blocks[b].Invalidate(x)]);
    ClearDisciplined(s, s1, b, x);
    var d := Cell(s.media, Loc(b, x.page, x.lane));
    ProgramsErased(c, s1, lpn, x.lane, dst, d);
    SameFlash(ProgramUnit(c, s1, lpn, x.lane, dst, d).value, MoveUnit(c, s, b, x, lpn, dst).value);
  }

  lemma {:induction false} MoveLanesDisciplined(c: Config, s: State, b: nat, p: nat, from: Block, bits: set<nat>, dst: nat, u: nat)
    requires Disciplined(s) && MoveLanes(c, s, b, p, from, bits, dst, u).Running?
    ensures var s' := MoveLanes(c, s, b, p, from, bits, dst, u).value; Disciplined(s') && Kept(s, s')
    decreases c.Lanes() - u
  {
    hide Disciplined, MoveUnit;
    if u < c.Lanes() {
      if !c.Touches(bits, u) {
        MoveLanesDisciplined(c, s, b, p, from, bits, dst, u + 1);
      } else {
        var s1 := MoveUnit(c, s, b, Unit(p, u), Label(from, Unit(p, u)), dst).value;
        MoveUnitDisciplined(c, s, b, Unit(p, u), Label(from, Unit(p, u)), dst);
        MoveLanesDisciplined(c, s1, b, p, from, bits, dst, u + 1);
        KeptTrans(s, s1, MoveLanes(c, s1, b, p, from, bits, dst, u + 1).value);
      }
    }
  }

  lemma {:induction false} MovePagesDisciplined(c: Config, s: State, b: nat, p: nat)
    requires Disciplined(s) && MovePages(c, s, b, p).Running?
    ensures var s' := MovePages(c, s, b, p).value; Disciplined(s') && Kept(s, s')
    decreases c.pages - p
  {
    hide Disciplined, LastFreeBlock, MoveLanes, PageInfo;
    if p < c.pages {
      var bits := PageInfo(c, s.blocks[b], p);
      var s1 := MovePage(c, s, b, p).value;
      if bits != {} {
        LastFreeBlockDisciplined(c, s, Moved(c, bits));
        var (s2, dst) := LastFreeBlock(c, s, Moved(c, bits)).value;
        MoveLanesDisciplined(c, s2, b, p, s.blocks[b], Moved(c, bits), dst, 0);
      }
      MovePagesDisciplined(c, s1, b, p + 1);
      KeptTrans(s, s1, MovePages(c, s1, b, p + 1).value);
    }
  }

  /** The copies of a collection program erased units only. */
  lemma {:induction false} MoveBlocksDisciplined(c: Config, s: State, victims: seq<nat>, k: nat)
    requires Disciplined(s) && MoveBlocks(c, s, victims, k).Running?
    ensures var s' := MoveBlocks(c, s, victims, k).value; Disciplined(s') && Kept(s, s')
    decreases |victims| - k
  {
    hide Disciplined, MovePages;
    if k < |victims| {
      var s1 := MovePages(c, s, victims[k], 0).value;
      MovePagesDisciplined(c, s, victims[k], 0);
      MoveBlocksDisciplined(c, s1, victims, k + 1);
      KeptTrans(s, s1, MoveBlocks(c, s1, victims, k + 1).value);
    }
  }

  lemma GoneAt(s: State, b: nat, y: Loc)
    requires y in s.media <==> IsProgrammed(s, y)
    ensures var s' := s.(blocks := s.blocks - {b}, media := WithoutBlock(s.media, b));
      y in s'.media <==> IsProgrammed(s', y)
  {
  }

  lemma GoneDisciplined(s: State, b: nat)
    requires Disciplined(s)
    ensures Disciplined(s.(blocks := s.blocks - {b}, media := WithoutBlock(s.media, b)))
  {
    hide InOrder, WithoutBlock;
    var s' := s.(blocks := s.blocks - {b}, media := WithoutBlock(s.media, b));
    forall y: Loc
      ensures y in s'.media <==> IsProgrammed(s', y)
    {
      GoneAt(s, b, y);
    }
    assert s'.blocks == s.blocks - {b} && s'.free == s.free;
    hide IsProgrammed;
  }

  lemma InsertedDisciplined(s: State, s': State, e: Block)
    requires Disciplined(s) && InOrder(e) && e.lpns == map[]
    requires s'.blocks == s.blocks && s'.media == s.media && s'.free == Inserted(s.free, e)
    ensures Disciplined(s')
  {
    forall y: Loc
      ensures y in s'.media <==> IsProgrammed(s', y)
    {
      assert y in s.media <==> IsProgrammed(s, y);
    }
  }

  /** An erase takes the data of its block and of no other. */
  lemma EraseDisciplined(c: Config, s: State, b: nat)
    requires Disciplined(s) && Erase(c, s, b).Running?
    ensures var s' := Erase(c, s, b).value;
      && Disciplined(s')
      && (forall x: Loc :: x in s'.media <==> x in s.media && x.block != b)
      && (forall x :: x in s'.media ==> s'.media[x] == s.media[x])
  {
    hide Disciplined, InsertAt, Inserted;
    var s1, s', e := s.(blocks := s.blocks - {b}, media := WithoutBlock(s.media, b)), Erase(c, s, b).value, s.blocks[b].Erased();
    GoneDisciplined(s, b);
    if e.eraseCount < c.threshold {
      InsertedDisciplined(s1, s', e);
    } else {
      SameFlash(s1, s');
    }
  }

  /** The erases of a collection take the data of its victims and no other. */
  lemma {:induction false} EraseBlocksDisciplined(c: Config, s: State, victims: seq<nat>, k: nat)
    requires Disciplined(s) && EraseBlocks(c, s, victims, k).Running? && k <= |victims|
    ensures var s' := EraseBlocks(c, s, victims, k).value;
      && Disciplined(s')
      && (forall x: Loc :: x in s'.media <==> x in s.media && x.block !in victims[k..])
      && (forall x :: x in s'.media ==> s'.media[x] == s.media[x])
    decreases |victims| - k
  {
    hide Disciplined, Erase;
    if k < |victims| {
      EraseDisciplined(c, s, victims[k]);
      EraseBlocksDisciplined(c, Erase(c, s, victims[k]).value, victims, k + 1);
      assert victims[k..] == [victims[k]] + victims[k + 1..];
    }
  }

  /** A collection leaves the flash outside its victims as it was, but for what it programs in erased units, and leaves
      nothing in the victims. */
  lemma CollectedDisciplined(c: Config, s: State, victims: seq<nat>)
    requires Disciplined(s) && Collected(c, s, victims).Running?
    ensures var s' := Collected(c, s, victims).value;
      && Disciplined(s')
      && (forall x :: x in s.media && x.block !in victims ==> x in s'.media && s'.media[x] == s.media[x])
      && (forall x :: x in s'.media ==> x.block !in victims)
  {
    hide Disciplined, MoveBlocks, EraseBlocks;
    if |victims| > 0 {
      MoveBlocksDisciplined(c, s, victims, 0);
      var s1 := MoveBlocks(c, s, victims, 0).value;
      EraseBlocksDisciplined(c, s1, victims, 0);
      assert victims[0..] == victims;
    }
  }

  lemma {:induction false} TrimmedDisciplined(c: Config, s: State, lpn: nat, u: nat)
    requires Disciplined(s) && Trimmed(c, s, lpn, u).Running?
    ensures var s' := Trimmed(c, s, lpn, u).value; Disciplined(s') && s'.media == s.media
    decreases c.Lanes() - u
  {
    hide Disciplined;
    if u < c.Lanes() {
      var e := s.table[lpn][u];
      ClearDisciplined(s, ClearOld(s, e, u), e.block, Unit(e.page, u));
      TrimmedDisciplined(c, ClearOld(s, e, u), lpn, u + 1);
    }
  }

  lemma ApplyDisciplined(c: Config, s: State, op: Op)
    requires Disciplined(s) && Apply(c, s, op).Running?
    ensures Disciplined(Apply(c, s, op).value.0)
  {
    hide Disciplined, Store, Collected, Trimmed, HostRead;
    match op
    case ReadOp(lpn, flags) =>
    case WriteOp(lpn, flags, data, collect) =>
      if flags != {} {
        var s0 := Counted(s, flags);
        SameFlash(s, s0);
        StoreDisciplined(c, s0, lpn, flags, data);
        var s1 := Store(c, s0, lpn, flags, data).value;
        if collect(s1).Some? {
          SameFlash(s1, s1.(reclaimMore := false));
          CollectedDisciplined(c, s1.(reclaimMore := false), collect(s1).value);
        }
      }
    case TrimOp(lpn) =>
      if lpn in s.table {
        TrimmedDisciplined(c, s, lpn, 0);
        SameFlash(Trimmed(c, s, lpn, 0).value, Apply(c, s, op).value.0);
      }
  }

  /** Over every run the flash holds data in exactly the programmed units of the blocks in use. */
  lemma {:induction false} RunDisciplined(c: Config, s: State, ops: seq<Op>)
    requires Disciplined(s) && Run(c, s, ops).Running?
    ensures Disciplined(Run(c, s, ops).value.0)
    decreases |ops|
  {
    hide Disciplined, Apply;
    if |ops| > 0 {
      ApplyDisciplined(c, s, ops[0]);
      RunDisciplined(c, Apply(c, s, ops[0]).value.0, ops[1..]);
    }
  }

  lemma {:induction false} ClaimsDisciplined(c: Config, s: State, i: nat)
    requires Disciplined(s) && ClaimHeads(c, s, i).Running?
    ensures Disciplined(ClaimHeads(c, s, i).value)
    decreases c.heads - i
  {
    hide Disciplined, GetFreeBlock;
    if i < c.heads {
      TakeDisciplined(c, s, i);
      var (s1, b) := GetFreeBlock(c, s, i).value;
      SameFlash(s1, s1.(heads := s1.heads[i := b]));
      ClaimsDisciplined(c, s1.(heads := s1.heads[i := b]), i + 1);
    }
  }

  /** From construction on. */
  lemma FlashIsDisciplined(c: Config, free: seq<Block>, ops: seq<Op>)
    requires Initial(c, free) && ClaimHeads(c, Fresh(c, free), 0).Running?
    requires Run(c, ClaimHeads(c, Fresh(c, free), 0).value, ops).Running?
    ensures Disciplined(Run(c, ClaimHeads(c, Fresh(c, free), 0).value, ops).value.0)
  {
    hide ClaimHeads, Run;
    assert Disciplined(Fresh(c, free));
    ClaimsDisciplined(c, Fresh(c, free), 0);
    RunDisciplined(c, ClaimHeads(c, Fresh(c, free), 0).value, ops);
  }
}
