/**
 Endurance: what whole operations, and whole runs of them, do to the lists and to the wear of the device.
 */
module FtlEndurance {
  import opened Ftl
  import opened FtlMapping
  import opened FtlWear

  // ---------------------------------------------------------------- operations

  lemma EvolvesRefl(c: Config, s: State)
    ensures Evolves(c, s, s, 0)
  {
  }

  /** The lanes from u on that a request programs. */
  function Units(c: Config, flags: set<nat>, u: nat): nat
    decreases c.Lanes() - u
  {
    if u >= c.Lanes() then 0 else Units(c, flags, u + 1) + if c.Touches(flags, u) then 1 else 0
  }

  lemma {:induction false} InvalidatedEvolves(c: Config, s: State, lpn: nat, flags: set<nat>, u: nat)
    requires Invalidated(c, s, lpn, flags, u).Running?
    ensures SameWear(s, Invalidated(c, s, lpn, flags, u).value)
    decreases c.Lanes() - u
  {
    if u < c.Lanes() {
      if !c.Touches(flags, u) || !c.Mapped(s.table[lpn][u]) {
        InvalidatedEvolves(c, s, lpn, flags, u + 1);
      } else {
        InvalidatedEvolves(c, ClearOld(s, s.table[lpn][u], u), lpn, flags, u + 1);
      }
    }
  }

  lemma {:induction false} TrimmedEvolves(c: Config, s: State, lpn: nat, u: nat)
    requires Trimmed(c, s, lpn, u).Running?
    ensures SameWear(s, Trimmed(c, s, lpn, u).value)
    decreases c.Lanes() - u
  {
    if u < c.Lanes() {
      TrimmedEvolves(c, ClearOld(s, s.table[lpn][u], u), lpn, u + 1);
    }
  }

  lemma {:induction false} ProgrammedEvolves(c: Config, s: State, lpn: nat, flags: set<nat>, data: nat -> Data, dst: nat, u: nat)
    requires Programmed(c, s, lpn, flags, data, dst, u).Running?
    ensures Evolves(c, s, Programmed(c, s, lpn, flags, data, dst, u).value, Units(c, flags, u))
    decreases c.Lanes() - u
  {
    hide Evolves, ProgramUnit;
    if u >= c.Lanes() {
      EvolvesRefl(c, s);
    } else if !c.Touches(flags, u) {
      ProgrammedEvolves(c, s, lpn, flags, data, dst, u + 1);
    } else {
      ProgramUnitEvolves(c, s, lpn, u, dst, data(u));
      var s1 := ProgramUnit(c, s, lpn, u, dst, data(u)).value;
      ProgrammedEvolves(c, s1, lpn, flags, data, dst, u + 1);
      EvolvesTrans(c, s, s1, Programmed(c, s1, lpn, flags, data, dst, u + 1).value, 1, Units(c, flags, u + 1));
    }
  }

  lemma StoreEvolves(c: Config, s: State, lpn: nat, flags: set<nat>, data: nat -> Data)
    requires c.Ok() && Store(c, s, lpn, flags, data).Running?
    ensures Evolves(c, s, Store(c, s, lpn, flags, data).value, Units(c, flags, 0))
  {
    hide Evolves, LastFreeBlock, Programmed;
    var s1 := Prepared(c, s, lpn, flags).value;
    if lpn in s.table {
      InvalidatedEvolves(c, s, lpn, flags, 0);
    }
    SameWearEvolves(c, s, s1);
    var (s2, dst) := LastFreeBlock(c, s1, flags).value;
    LastFreeBlockEvolves(c, s1, flags);
    ProgrammedEvolves(c, s2, lpn, flags, data, dst, 0);
    var s3 := Programmed(c, s2, lpn, flags, data, dst, 0).value;
    EvolvesTrans(c, s, s1, s2, 0, 0);
    EvolvesTrans(c, s, s2, s3, 0, Units(c, flags, 0));
  }

  lemma MoveUnitEvolves(c: Config, s: State, b: nat, x: Unit, lpn: nat, dst: nat)
    requires MoveUnit(c, s, b, x, lpn, dst).Running?
    ensures Evolves(c, s, MoveUnit(c, s, b, x, lpn, dst).value, 0)
  {
    hide Ledger, ProgramUnit, SumAlive;
    var s1 := s.(blocks := s.blocks[b := s.blocks[b].Invalidate(x)]);
    SameWearEvolves(c, s, s1);
    var d := Cell(s.media, Loc(b, x.page, x.lane));
    ProgramUnitEvolves(c, s1, lpn, x.lane, dst, d);
    EvolvesTrans(c, s, s1, ProgramUnit(c, s1, lpn, x.lane, dst, d).value, 0, 1);
    CountCopy(c, ProgramUnit(c, s1, lpn, x.lane, dst, d).value);
  }

  lemma CountCopy(c: Config, s: State)
    ensures Ledger(c, s) ==> Ledger(c, s.(copies := s.copies + 1))
    ensures Potential(c, s.(copies := s.copies + 1)) == Potential(c, s)
    ensures ErasesLeft(c, s.(copies := s.copies + 1)) == ErasesLeft(c, s)
  {
  }

  lemma {:induction false} MoveLanesEvolves(c: Config, s: State, b: nat, p: nat, from: Block, bits: set<nat>, dst: nat, u: nat)
    requires MoveLanes(c, s, b, p, from, bits, dst, u).Running?
    ensures Evolves(c, s, MoveLanes(c, s, b, p, from, bits, dst, u).value, 0)
    decreases c.Lanes() - u
  {
    hide Evolves, MoveUnit;
    if u >= c.Lanes() {
      EvolvesRefl(c, s);
    } else if !c.Touches(bits, u) {
      MoveLanesEvolves(c, s, b, p, from, bits, dst, u + 1);
    } else {
      var x := Unit(p, u);
      MoveUnitEvolves(c, s, b, x, Label(from, x), dst);
      var s1 := MoveUnit(c, s, b, x, Label(from, x), dst).value;
      MoveLanesEvolves(c, s1, b, p, from, bits, dst, u + 1);
      EvolvesTrans(c, s, s1, MoveLanes(c, s1, b, p, from, bits, dst, u + 1).value, 0, 0);
    }
  }

  lemma MovePageEvolves(c: Config, s: State, b: nat, p: nat)
    requires c.Ok() && MovePage(c, s, b, p).Running?
    ensures Evolves(c, s, MovePage(c, s, b, p).value, 0)
  {
    hide Evolves, LastFreeBlock, MoveLanes;
    EvolvesRefl(c, s);
    var bits := PageInfo(c, s.blocks[b], p);
    if bits != {} {
      var flags := Moved(c, bits);
      LastFreeBlockEvolves(c, s, flags);
      var (s2, dst) := LastFreeBlock(c, s, flags).value;
      MoveLanesEvolves(c, s2, b, p, s.blocks[b], flags, dst, 0);
      EvolvesTrans(c, s, s2, MovePage(c, s, b, p).value, 0, 0);
    }
  }

  lemma {:induction false} MovePagesEvolves(c: Config, s: State, b: nat, p: nat)
    requires c.Ok() && MovePages(c, s, b, p).Running?
    ensures Evolves(c, s, MovePages(c, s, b, p).value, 0)
    decreases c.pages - p
  {
    hide Evolves, MovePage;
    EvolvesRefl(c, s);
    if p < c.pages {
      var s1 := MovePage(c, s, b, p).value;
      MovePageEvolves(c, s, b, p);
      MovePagesEvolves(c, s1, b, p + 1);
      EvolvesTrans(c, s, s1, MovePages(c, s1, b, p + 1).value, 0, 0);
    }
  }

  lemma {:induction false} MoveBlocksEvolves(c: Config, s: State, victims: seq<nat>, k: nat)
    requires c.Ok() && MoveBlocks(c, s, victims, k).Running?
    ensures Evolves(c, s, MoveBlocks(c, s, victims, k).value, 0)
    decreases |victims| - k
  {
    hide Evolves, MovePages;
    if k >= |victims| {
      EvolvesRefl(c, s);
    } else {
      var s1 := MovePages(c, s, victims[k], 0).value;
      MovePagesEvolves(c, s, victims[k], 0);
      MoveBlocksEvolves(c, s1, victims, k + 1);
      EvolvesTrans(c, s, s1, MoveBlocks(c, s1, victims, k + 1).value, 0, 0);
    }
  }

  lemma {:induction false} EraseBlocksEvolves(c: Config, s: State, victims: seq<nat>, k: nat)
    requires EraseBlocks(c, s, victims, k).Running? && k <= |victims|
    ensures Evolves(c, s, EraseBlocks(c, s, victims, k).value, 0)
    ensures Ledger(c, s) ==> ErasesLeft(c, EraseBlocks(c, s, victims, k).value) == ErasesLeft(c, s) - (|victims| - k)
    decreases |victims| - k
  {
    hide Ledger, Erase, ErasesLeft, Potential;
    if k == |victims| {
      EvolvesRefl(c, s);
    } else {
      var s1 := Erase(c, s, victims[k]).value;
      EraseEvolves(c, s, victims[k]);
      EraseBlocksEvolves(c, s1, victims, k + 1);
      EvolvesTrans(c, s, s1, EraseBlocks(c, s1, victims, k + 1).value, 0, 0);
    }
  }

  /** Garbage collection keeps the lists in order, pays for every copy, and spends one erase per victim. */
  lemma CollectedEvolves(c: Config, s: State, victims: seq<nat>)
    requires c.Ok() && Collected(c, s, victims).Running?
    ensures Evolves(c, s, Collected(c, s, victims).value, 0)
    ensures Ledger(c, s) ==> ErasesLeft(c, Collected(c, s, victims).value) <= ErasesLeft(c, s) - |victims|
  {
    hide Ledger, MoveBlocks, EraseBlocks, ErasesLeft, Potential;
    EvolvesRefl(c, s);
    if |victims| > 0 {
      var s1 := MoveBlocks(c, s, victims, 0).value;
      MoveBlocksEvolves(c, s, victims, 0);
      EraseBlocksEvolves(c, s1, victims, 0);
      EvolvesTrans(c, s, s1, EraseBlocks(c, s1, victims, 0).value, 0, 0);
    }
  }

  /** A write that returns, garbage collection included, takes one unit of potential for each unit it programs
      for the host and one for each copy. */
  lemma WriteEvolves(c: Config, s: State, lpn: nat, flags: set<nat>, data: nat -> Data, gc: Option<seq<nat>>)
    requires c.Ok() && Write(c, s, lpn, flags, data, gc).Running?
    ensures Evolves(c, s, Write(c, s, lpn, flags, data, gc).value, Units(c, flags, 0))
  {
    hide Evolves, Store, Collected;
    StoreEvolves(c, s, lpn, flags, data);
    var s1 := Store(c, s, lpn, flags, data).value;
    if gc.Some? {
      var s2 := s1.(reclaimMore := false);
      SameWearEvolves(c, s1, s2);
      CollectedEvolves(c, s2, gc.value);
      EvolvesTrans(c, s, s1, s2, Units(c, flags, 0), 0);
      EvolvesTrans(c, s, s2, Collected(c, s2, gc.value).value, Units(c, flags, 0), 0);
    }
  }

  lemma TrimEvolves(c: Config, s: State, lpn: nat)
    requires Trim(c, s, lpn).Running?
    ensures Evolves(c, s, Trim(c, s, lpn).value, 0)
  {
    if lpn in s.table {
      TrimmedEvolves(c, s, lpn, 0);
    }
    SameWearEvolves(c, s, Trim(c, s, lpn).value);
  }

  // ---------------------------------------------------------------- allocation never goes wrong

  /** With the lists in order, taking a free block can only fail at end of life. */
  lemma GetFreeBlockHalts(c: Config, s: State, idx: nat)
    requires c.Ok() && Ledger(c, s)
    ensures GetFreeBlock(c, s, idx).Halted? <==> |s.free| == 0
    ensures GetFreeBlock(c, s, idx).Halted? ==> GetFreeBlock(c, s, idx).why == EndOfLife
  {
    if |s.free| > 0 {
      TakeKeepsPartition(c.total, s.blocks.Keys, s.free, s.dead, c.choose(s.free, idx, s.draws));
    }
  }

  function Indices(list: seq<Block>): set<nat> {
    set k | 0 <= k < |list| :: list[k].idx
  }

  lemma {:induction false} IndicesCount(list: seq<Block>)
    requires Distinct(list)
    ensures |Indices(list)| == |list|
  {
    if |list| == 0 {
      assert Indices(list) == {};
    } else {
      var init, last := list[..|list| - 1], list[|list| - 1];
      IndicesCount(init);
      assert last.idx !in Indices(init);
      forall i | i in Indices(list)
        ensures i in Indices(init) + {last.idx}
      {
        var k :| 0 <= k < |list| && list[k].idx == i;
        if k < |list| - 1 { assert init[k].idx == i; }
      }
      assert Indices(list) == Indices(init) + {last.idx};
    }
  }

  lemma {:induction false} BelowCount(n: nat)
    ensures |Below(n)| == n
  {
    if n > 0 {
      BelowCount(n - 1);
      assert Below(n) == Below(n - 1) + {n - 1};
    }
  }

  lemma IndicesListed(list: seq<Block>, i: nat)
    ensures i in Indices(list) <==> Listed(list, i)
  {
  }

  lemma SplitCount(n: nat, a: set<nat>, f: set<nat>, d: set<nat>)
    requires forall i: nat :: i < n <==> i in a || i in f || i in d
    requires a !! f && a !! d && f !! d
    ensures |a| + |f| + |d| == n
  {
    BelowCount(n);
    assert Below(n) == a + f + d;
  }

  /** In use, free and dead add up to the whole device, so the dead-block count the reports derive is right. */
  lemma DeadCount(c: Config, s: State)
    requires Ledger(c, s)
    ensures |s.blocks| + s.nFree + |s.dead| == c.total
  {
    var F, D := Indices(s.free), Indices(s.dead);
    IndicesCount(s.free);
    IndicesCount(s.dead);
    hide Indices, Listed, Ascending, Lifespans, Pointers, Distinct;
    forall i: nat
      ensures (i in F <==> Listed(s.free, i)) && (i in D <==> Listed(s.dead, i))
    {
      IndicesListed(s.free, i);
      IndicesListed(s.dead, i);
    }
    SplitCount(c.total, s.blocks.Keys, F, D);
  }
}
