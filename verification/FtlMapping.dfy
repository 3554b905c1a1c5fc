/**
 The forward table and the reverse information in the blocks agree in every reachable state, and garbage
 collection does not change what the host reads.
 */
module FtlMapping {
  import opened Ftl

  // ---------------------------------------------------------------- the invariant

  ghost predicate BlockOk(c: Config, b: Block) {
    && |b.next| == c.units
    && (forall u :: 0 <= u < c.units ==> b.next[u] <= c.pages)
    && (forall x :: x in b.lpns <==> x.lane < c.units && x.page < b.next[x.lane])
    && b.valid <= b.lpns.Keys
    && (forall x :: x in b.valid ==> x.lane < c.Lanes())
  }

  ghost predicate Blank(b: Block) {
    b.valid == {} && b.lpns == map[] && forall u :: 0 <= u < |b.next| ==> b.next[u] == 0
  }

  ghost predicate InUseOk(c: Config, blocks: map<nat, Block>) {
    forall b :: b in blocks ==> b < c.total && blocks[b].idx == b && BlockOk(c, blocks[b])
  }

  ghost predicate ErasedOk(c: Config, list: seq<Block>) {
    forall k :: 0 <= k < |list| ==> list[k].idx < c.total && BlockOk(c, list[k]) && Blank(list[k])
  }

  /** A row has one cell per lane; an unmapped cell is the "not mapped" pair. */
  ghost predicate RowOk(c: Config, row: seq<Entry>) {
    |row| == c.Lanes() && forall u :: 0 <= u < |row| ==> c.Mapped(row[u]) || row[u] == Entry(c.total, c.pages)
  }

  ghost predicate Shape(c: Config, s: State) {
    && c.Ok()
    && |s.heads| == c.heads && s.headIndex < c.heads
    && s.nFree == |s.free|
    && (forall l :: l in s.table ==> RowOk(c, s.table[l]))
    && InUseOk(c, s.blocks)
    && ErasedOk(c, s.free)
  }

  /** The unit that `e` names is valid and records l. */
  ghost predicate Holds(s: State, e: Entry, l: nat, u: nat) {
    && e.block in s.blocks
    && Unit(e.page, u) in s.blocks[e.block].valid
    && Unit(e.page, u) in s.blocks[e.block].lpns
    && s.blocks[e.block].lpns[Unit(e.page, u)] == l
  }

  ghost predicate Points(c: Config, s: State, l: nat, u: nat) {
    l in s.table && u < |s.table[l]| && c.Mapped(s.table[l][u]) ==> Holds(s, s.table[l][u], l, u)
  }

  /** Every mapped (l, u) points to a valid unit that records l, the lanes `holes` of `l0` apart. */
  ghost predicate Forward(c: Config, s: State, l0: nat, holes: set<nat>) {
    forall l: nat, u: nat {:trigger Points(c, s, l, u)} :: (l == l0 ==> u !in holes) ==> Points(c, s, l, u)
  }

  ghost predicate Owned(s: State, b: nat, x: Unit)
    requires b in s.blocks
  {
    && x in s.blocks[b].lpns
    && var l := s.blocks[b].lpns[x];
    l in s.table && x.lane < |s.table[l]| && s.table[l][x.lane] == Entry(b, x.page)
  }

  /** Every valid unit is the target of the table entry of the LPN it records. */
  ghost predicate Reverse(s: State) {
    forall b, x :: b in s.blocks && x in s.blocks[b].valid ==> Owned(s, b, x)
  }

  ghost predicate Inv(c: Config, s: State) {
    Shape(c, s) && Forward(c, s, 0, {}) && Reverse(s)
  }

  /** The same with the lanes `holes` of l in mid-update. */
  ghost predicate InvBut(c: Config, s: State, l: nat, holes: set<nat>) {
    Shape(c, s) && Forward(c, s, l, holes) && Reverse(s)
  }

  /** No two valid units stand for the same (LPN, lane): the table entry names just one. */
  lemma OneValidUnitPerAddress(c: Config, s: State, b1: nat, x1: Unit, b2: nat, x2: Unit)
    requires Inv(c, s)
    requires b1 in s.blocks && x1 in s.blocks[b1].valid
    requires b2 in s.blocks && x2 in s.blocks[b2].valid
    requires x1.lane == x2.lane && Label(s.blocks[b1], x1) == Label(s.blocks[b2], x2)
    ensures b1 == b2 && x1 == x2
  {
    assert Owned(s, b1, x1) && Owned(s, b2, x2);
  }

  // ---------------------------------------------------------------- allocation

  /** Blocks that were in use stay as they are; nothing the host can see changes. */
  ghost predicate Extends(s: State, s': State) {
    && s'.table == s.table && s'.media == s.media && s'.copies == s.copies && s'.hostUnits == s.hostUnits
    && s'.dead == s.dead
    && (forall b :: b in s.blocks ==> b in s'.blocks && s'.blocks[b] == s.blocks[b])
  }

  lemma GetFreeBlockShape(c: Config, s: State, idx: nat)
    requires Shape(c, s)
    requires GetFreeBlock(c, s, idx).Running?
    ensures var (s', b) := GetFreeBlock(c, s, idx).value;
      && Shape(c, s') && Extends(s, s')
      && b !in s.blocks && s'.blocks.Keys == s.blocks.Keys + {b} && Blank(s'.blocks[b])
      && s'.heads == s.heads && s'.headIndex == s.headIndex
  {
  }

  /** The block that will be written next is in use, has room in every lane, and is either new or was not full. */
  lemma LastFreeBlockShape(c: Config, s: State, ioMap: set<nat>)
    requires Shape(c, s)
    requires LastFreeBlock(c, s, ioMap).Running?
    ensures var (s', dst) := LastFreeBlock(c, s, ioMap).value;
      && Shape(c, s') && Extends(s, s')
      && dst in s'.blocks && (forall u :: 0 <= u < c.units ==> s'.blocks[dst].next[u] < c.pages)
      && (dst in s.blocks ==> !c.Full(s.blocks[dst]))
      && s'.blocks.Keys == s.blocks.Keys + {dst}
      && (dst !in s.blocks ==> Blank(s'.blocks[dst]))
  {
    var s1 := Advanced(c, s, ioMap);
    assert Shape(c, s1);
    var i := s1.headIndex;
    if c.Full(s1.blocks[s1.heads[i]]) {
      GetFreeBlockShape(c, s1, i);
    }
  }

  lemma LastFreeBlockHalts(c: Config, s: State, ioMap: set<nat>)
    requires Shape(c, s) && LastFreeBlock(c, s, ioMap).Halted?
    ensures LastFreeBlock(c, s, ioMap).why in {EndOfLife, Corrupted}
  {
  }

  lemma ExtendsKeepsMapping(c: Config, s: State, s': State, l: nat, holes: set<nat>)
    requires InvBut(c, s, l, holes) && Shape(c, s') && Extends(s, s')
    requires forall b :: b in s'.blocks && b !in s.blocks ==> Blank(s'.blocks[b])
    ensures InvBut(c, s', l, holes)
  {
    forall v: nat, u: nat | v == l ==> u !in holes
      ensures Points(c, s', v, u)
    {
      assert Points(c, s, v, u);
    }
    forall b, x | b in s'.blocks && x in s'.blocks[b].valid
      ensures Owned(s', b, x)
    {
      assert b in s.blocks;
      assert Owned(s, b, x);
    }
  }

  lemma LastFreeBlockKeepsMapping(c: Config, s: State, ioMap: set<nat>, l: nat, holes: set<nat>)
    requires InvBut(c, s, l, holes)
    requires LastFreeBlock(c, s, ioMap).Running?
    ensures InvBut(c, LastFreeBlock(c, s, ioMap).value.0, l, holes)
  {
    LastFreeBlockShape(c, s, ioMap);
    ExtendsKeepsMapping(c, s, LastFreeBlock(c, s, ioMap).value.0, l, holes);
  }

  // ---------------------------------------------------------------- one unit

  lemma ProgramKeepsBlock(c: Config, b: Block, u: nat, lpn: nat)
    requires BlockOk(c, b) && u < c.Lanes() && u < c.units && b.next[u] < c.pages
    ensures BlockOk(c, b.Program(u, lpn))
    ensures Unit(b.next[u], u) !in b.lpns
  {
  }

  lemma ProgramUnitShape(c: Config, s: State, lpn: nat, u: nat, dst: nat, d: Data)
    requires Shape(c, s) && u < c.Lanes() <= c.units
    requires dst in s.blocks && lpn in s.table && s.blocks[dst].next[u] < c.pages
    ensures ProgramUnit(c, s, lpn, u, dst, d).Running?
    ensures Shape(c, ProgramUnit(c, s, lpn, u, dst, d).value)
  {
    ProgramKeepsBlock(c, s.blocks[dst], u, lpn);
  }

  lemma ProgramUnitForward(c: Config, s: State, lpn: nat, u: nat, dst: nat, d: Data, holes: set<nat>, l: nat, v: nat)
    requires InvBut(c, s, lpn, holes) && u in holes && u < c.Lanes() <= c.units
    requires dst in s.blocks && lpn in s.table && s.blocks[dst].next[u] < c.pages
    requires l == lpn ==> v !in holes - {u}
    ensures Points(c, ProgramUnit(c, s, lpn, u, dst, d).value, l, v)
  {
    if !(l == lpn && v == u) {
      assert Points(c, s, l, v);
    }
  }

  /** No valid unit of lane u records lpn: the old copy was invalidated before the new one is programmed. */
  ghost predicate Unclaimed(s: State, lpn: nat, u: nat) {
    forall b, x :: b in s.blocks && x in s.blocks[b].valid && x.lane == u && x in s.blocks[b].lpns ==>
      s.blocks[b].lpns[x] != lpn
  }

  lemma ProgramUnitReverse(c: Config, s: State, lpn: nat, u: nat, dst: nat, d: Data, b: nat, x: Unit)
    requires Shape(c, s) && Reverse(s) && u < c.Lanes() <= c.units && Unclaimed(s, lpn, u)
    requires dst in s.blocks && lpn in s.table && s.blocks[dst].next[u] < c.pages
    requires b in s.blocks && x in ProgramUnit(c, s, lpn, u, dst, d).value.blocks[b].valid
    ensures Owned(ProgramUnit(c, s, lpn, u, dst, d).value, b, x)
  {
    if !(b == dst && x == Unit(s.blocks[dst].next[u], u)) {
      assert x in s.blocks[b].valid;
      assert Owned(s, b, x);
    }
  }

  /** Programming fills the hole (lpn, u): the mapping agrees again there and nothing else is disturbed. */
  lemma ProgramUnitKeepsMapping(c: Config, s: State, lpn: nat, u: nat, dst: nat, d: Data, holes: set<nat>)
    requires InvBut(c, s, lpn, holes) && u in holes && u < c.Lanes() <= c.units && Unclaimed(s, lpn, u)
    requires dst in s.blocks && lpn in s.table && s.blocks[dst].next[u] < c.pages
    ensures ProgramUnit(c, s, lpn, u, dst, d).Running?
    ensures InvBut(c, ProgramUnit(c, s, lpn, u, dst, d).value, lpn, holes - {u})
  {
    ProgramUnitShape(c, s, lpn, u, dst, d);
    var s' := ProgramUnit(c, s, lpn, u, dst, d).value;
    forall l: nat, v: nat | l == lpn ==> v !in holes - {u}
      ensures Points(c, s', l, v)
    {
      ProgramUnitForward(c, s, lpn, u, dst, d, holes, l, v);
    }
    forall b, x | b in s'.blocks && x in s'.blocks[b].valid
      ensures Owned(s', b, x)
    {
      ProgramUnitReverse(c, s, lpn, u, dst, d, b, x);
    }
  }

  /** What a read sees after one unit was programmed. */
  lemma ProgramUnitReads(c: Config, s: State, lpn: nat, u: nat, dst: nat, d: Data, holes: set<nat>, l: nat, v: nat)
    requires InvBut(c, s, lpn, holes) && u in holes && u < c.Lanes() <= c.units
    requires dst in s.blocks && lpn in s.table && s.blocks[dst].next[u] < c.pages
    requires l == lpn ==> v == u || v !in holes
    ensures Read(c, ProgramUnit(c, s, lpn, u, dst, d).value, l, v)
         == if l == lpn && v == u then Some(d) else Read(c, s, l, v)
  {
    if !(l == lpn && v == u) {
      assert Points(c, s, l, v);
    }
  }

  // ---------------------------------------------------------------- host writes

  /** The lanes below n that a request works on. */
  function Touched(c: Config, flags: set<nat>, n: nat): set<nat> {
    set u: nat | u < n && c.Touches(flags, u)
  }

  /** Only valid bits were cleared. */
  ghost predicate Cleared(s: State, s': State) {
    && s' == s.(blocks := s'.blocks)
    && s'.blocks.Keys == s.blocks.Keys
    && (forall b :: b in s.blocks ==>
          s'.blocks[b].valid <= s.blocks[b].valid && s'.blocks[b] == s.blocks[b].(valid := s'.blocks[b].valid))
  }

  lemma ClearedKeeps(c: Config, s: State, s': State, lpn: nat, holes: set<nat>)
    requires Cleared(s, s') && Shape(c, s) && Reverse(s)
    ensures Shape(c, s') && Reverse(s')
    ensures forall u :: Unclaimed(s, lpn, u) ==> Unclaimed(s', lpn, u)
    ensures forall l, v :: Read(c, s', l, v) == Read(c, s, l, v)
  {
    forall b, x | b in s'.blocks && x in s'.blocks[b].valid
      ensures Owned(s', b, x)
    {
      assert x in s.blocks[b].valid;
      assert Owned(s, b, x);
    }
  }

  /** The valid bit of the old copy of (lpn, u) is cleared. */
  function ClearOld(s: State, e: Entry, u: nat): State
    requires e.block in s.blocks
  {
    s.(blocks := s.blocks[e.block := s.blocks[e.block].Invalidate(Unit(e.page, u))])
  }

  lemma ClearOldForward(c: Config, s: State, lpn: nat, u: nat, holes: set<nat>, l: nat, v: nat)
    requires InvBut(c, s, lpn, holes) && u !in holes
    requires lpn in s.table && u < |s.table[lpn]| && c.Mapped(s.table[lpn][u]) && s.table[lpn][u].block in s.blocks
    requires l == lpn ==> v !in holes + {u}
    ensures Points(c, ClearOld(s, s.table[lpn][u], u), l, v)
  {
    assert Points(c, s, l, v);
    assert Points(c, s, lpn, u);
  }

  lemma InvalidateStep(c: Config, s: State, lpn: nat, u: nat, holes: set<nat>)
    requires InvBut(c, s, lpn, holes) && u !in holes
    requires lpn in s.table && u < |s.table[lpn]| && c.Mapped(s.table[lpn][u])
    ensures s.table[lpn][u].block in s.blocks
    ensures var s' := ClearOld(s, s.table[lpn][u], u);
      InvBut(c, s', lpn, holes + {u}) && Unclaimed(s', lpn, u) && Cleared(s, s')
  {
    assert Points(c, s, lpn, u);
    var s' := ClearOld(s, s.table[lpn][u], u);
    ClearedKeeps(c, s, s', lpn, holes);
    forall l: nat, v: nat | l == lpn ==> v !in holes + {u}
      ensures Points(c, s', l, v)
    {
      ClearOldForward(c, s, lpn, u, holes, l, v);
    }
    forall b, x | b in s'.blocks && x in s'.blocks[b].valid && x.lane == u && x in s'.blocks[b].lpns
      ensures s'.blocks[b].lpns[x] != lpn
    {
      assert Owned(s, b, x);
    }
  }

  /** An unmapped lane has no valid unit anywhere. */
  lemma UnmappedIsUnclaimed(c: Config, s: State, lpn: nat, u: nat)
    requires Shape(c, s) && Reverse(s)
    requires lpn in s.table ==> u < |s.table[lpn]| && !c.Mapped(s.table[lpn][u])
    ensures Unclaimed(s, lpn, u)
  {
    forall b, x | b in s.blocks && x in s.blocks[b].valid && x.lane == u && x in s.blocks[b].lpns
      ensures s.blocks[b].lpns[x] != lpn
    {
      assert Owned(s, b, x);
      assert BlockOk(c, s.blocks[b]);
    }
  }

  lemma WidenHoles(c: Config, s: State, lpn: nat, holes: set<nat>, more: set<nat>)
    requires InvBut(c, s, lpn, holes) && holes <= more
    ensures InvBut(c, s, lpn, more)
  {
  }

  ghost predicate AllUnclaimed(s: State, lpn: nat, lanes: set<nat>) {
    forall u :: u in lanes ==> Unclaimed(s, lpn, u)
  }

  lemma InvButParts(c: Config, s: State, lpn: nat, holes: set<nat>)
    requires InvBut(c, s, lpn, holes)
    ensures Shape(c, s) && Reverse(s)
  {
  }

  lemma ClearedRefl(s: State)
    ensures Cleared(s, s)
  {
  }

  lemma ClearedTrans(s: State, s1: State, s2: State)
    requires Cleared(s, s1) && Cleared(s1, s2)
    ensures Cleared(s, s2)
  {
  }

  /** One turn of the loop on a lane that the request touches. */
  lemma ClearTurn(c: Config, s: State, lpn: nat, flags: set<nat>, u: nat)
    requires InvBut(c, s, lpn, Touched(c, flags, u)) && AllUnclaimed(s, lpn, Touched(c, flags, u))
    requires lpn in s.table && u < c.Lanes() && |s.table[lpn]| == c.Lanes() && c.Touches(flags, u)
    ensures c.Mapped(s.table[lpn][u]) ==> s.table[lpn][u].block in s.blocks
    ensures var e := s.table[lpn][u];
      var s1 := if c.Mapped(e) then ClearOld(s, e, u) else s;
      && Cleared(s, s1) && s1.table == s.table
      && InvBut(c, s1, lpn, Touched(c, flags, u + 1)) && AllUnclaimed(s1, lpn, Touched(c, flags, u + 1))
  {
    hide InvBut, Unclaimed, Cleared;
    assert Touched(c, flags, u + 1) == Touched(c, flags, u) + {u};
    var e := s.table[lpn][u];
    InvButParts(c, s, lpn, Touched(c, flags, u));
    if !c.Mapped(e) {
      ClearedRefl(s);
      UnmappedIsUnclaimed(c, s, lpn, u);
      WidenHoles(c, s, lpn, Touched(c, flags, u), Touched(c, flags, u + 1));
    } else {
      InvalidateStep(c, s, lpn, u, Touched(c, flags, u));
      var s1 := ClearOld(s, e, u);
      ClearedKeeps(c, s, s1, lpn, {});
      forall v | v in Touched(c, flags, u + 1)
        ensures Unclaimed(s1, lpn, v)
      {
        if v != u { assert Unclaimed(s, lpn, v); }
      }
    }
  }

  lemma {:induction false} InvalidatedKeeps(c: Config, s: State, lpn: nat, flags: set<nat>, u: nat)
    requires InvBut(c, s, lpn, Touched(c, flags, u)) && AllUnclaimed(s, lpn, Touched(c, flags, u))
    requires lpn in s.table && u <= c.Lanes() && |s.table[lpn]| == c.Lanes()
    ensures Invalidated(c, s, lpn, flags, u).Running?
    ensures var s' := Invalidated(c, s, lpn, flags, u).value;
      && Cleared(s, s')
      && InvBut(c, s', lpn, Touched(c, flags, c.Lanes()))
      && AllUnclaimed(s', lpn, Touched(c, flags, c.Lanes()))
    decreases c.Lanes() - u
  {
    hide InvBut, AllUnclaimed, Cleared;
    ClearedRefl(s);
    if u == c.Lanes() {
    } else if !c.Touches(flags, u) {
      assert Touched(c, flags, u + 1) == Touched(c, flags, u);
      InvalidatedKeeps(c, s, lpn, flags, u + 1);
    } else {
      hide Touched;
      ClearTurn(c, s, lpn, flags, u);
      var e := s.table[lpn][u];
      var s1 := if c.Mapped(e) then ClearOld(s, e, u) else s;
      InvalidatedKeeps(c, s1, lpn, flags, u + 1);
      ClearedTrans(s, s1, Invalidated(c, s1, lpn, flags, u + 1).value);
    }
  }

  /** The lanes from n on that a request works on. */
  function TouchedFrom(c: Config, flags: set<nat>, n: nat): set<nat> {
    set u: nat | n <= u < c.Lanes() && c.Touches(flags, u)
  }

  lemma InvIsInvBut(c: Config, s: State, l: nat)
    requires Inv(c, s)
    ensures InvBut(c, s, l, {})
  {
    forall l': nat, u: nat
      ensures Points(c, s, l', u)
    {
    }
  }

  lemma NoHoles(c: Config, s: State, l: nat)
    requires InvBut(c, s, l, {})
    ensures Inv(c, s)
  {
  }

  lemma ProgramUnitFrame(c: Config, s: State, lpn: nat, u: nat, dst: nat, d: Data)
    requires ProgramUnit(c, s, lpn, u, dst, d).Running?
    ensures var s' := ProgramUnit(c, s, lpn, u, dst, d).value;
      && s'.table.Keys == s.table.Keys && s'.blocks.Keys == s.blocks.Keys
      && dst in s.blocks && |s'.blocks[dst].next| == |s.blocks[dst].next|
      && (forall v :: 0 <= v < |s.blocks[dst].next| && v != u ==> s'.blocks[dst].next[v] == s.blocks[dst].next[v])
      && (forall b :: b in s.blocks && b != dst ==> s'.blocks[b] == s.blocks[b])
    ensures forall v :: v != u && Unclaimed(s, lpn, v) ==> Unclaimed(ProgramUnit(c, s, lpn, u, dst, d).value, lpn, v)
  {
  }

  lemma {:induction false} ProgrammedKeeps(c: Config, s: State, lpn: nat, flags: set<nat>, data: nat -> Data, dst: nat, u: nat)
    requires InvBut(c, s, lpn, TouchedFrom(c, flags, u)) && AllUnclaimed(s, lpn, TouchedFrom(c, flags, u))
    requires lpn in s.table && dst in s.blocks && u <= c.Lanes() <= c.units
    requires |s.blocks[dst].next| == c.units
    requires forall v :: u <= v < c.units ==> s.blocks[dst].next[v] < c.pages
    ensures Programmed(c, s, lpn, flags, data, dst, u).Running?
    ensures var s' := Programmed(c, s, lpn, flags, data, dst, u).value;
      && Inv(c, s')
      && forall l, v :: (l == lpn ==> v !in TouchedFrom(c, flags, u)) ==> Read(c, s', l, v) == Read(c, s, l, v)
    ensures var s' := Programmed(c, s, lpn, flags, data, dst, u).value;
      forall v :: v in TouchedFrom(c, flags, u) ==> Read(c, s', lpn, v) == Some(data(v))
    decreases c.Lanes() - u
  {
    hide Inv, InvBut, Unclaimed, ProgramUnit, Read;
    if u == c.Lanes() {
      assert TouchedFrom(c, flags, u) == {};
      NoHoles(c, s, lpn);
    } else if !c.Touches(flags, u) {
      assert TouchedFrom(c, flags, u + 1) == TouchedFrom(c, flags, u);
      ProgrammedKeeps(c, s, lpn, flags, data, dst, u + 1);
    } else {
      var holes := TouchedFrom(c, flags, u);
      assert TouchedFrom(c, flags, u + 1) == holes - {u};
      ProgramUnitKeepsMapping(c, s, lpn, u, dst, data(u), holes);
      var s1 := ProgramUnit(c, s, lpn, u, dst, data(u)).value;
      ProgramUnitFrame(c, s, lpn, u, dst, data(u));
      forall v | v in holes - {u}
        ensures Unclaimed(s1, lpn, v)
      {
        assert Unclaimed(s, lpn, v);
      }
      ProgrammedKeeps(c, s1, lpn, flags, data, dst, u + 1);
      forall l, v | l == lpn ==> v == u || v !in holes
        ensures Read(c, s1, l, v) == if l == lpn && v == u then Some(data(u)) else Read(c, s, l, v)
      {
        ProgramUnitReads(c, s, lpn, u, dst, data(u), holes, l, v);
      }
    }
  }

  lemma OpenRow(c: Config, s: State, lpn: nat)
    requires Inv(c, s) && lpn !in s.table
    ensures Inv(c, s.(table := s.table[lpn := EmptyRow(c)]))
    ensures forall u: nat {:trigger Unclaimed(s.(table := s.table[lpn := EmptyRow(c)]), lpn, u)} :: u < c.Lanes() ==> Unclaimed(s.(table := s.table[lpn := EmptyRow(c)]), lpn, u)
    ensures forall l, v :: Read(c, s.(table := s.table[lpn := EmptyRow(c)]), l, v) == Read(c, s, l, v)
  {
    var s' := s.(table := s.table[lpn := EmptyRow(c)]);
    forall l: nat, v: nat
      ensures Points(c, s', l, v)
    {
      assert Points(c, s, l, v);
    }
    forall b, x | b in s'.blocks && x in s'.blocks[b].valid
      ensures Owned(s', b, x)
    {
      assert Owned(s, b, x);
    }
    forall u: nat | u < c.Lanes()
      ensures Unclaimed(s', lpn, u)
    {
      UnmappedIsUnclaimed(c, s', lpn, u);
    }
  }

  /** After the old copies are gone only the lanes about to be written are out of agreement. */
  lemma PreparedKeeps(c: Config, s: State, lpn: nat, flags: set<nat>)
    requires Inv(c, s)
    ensures Prepared(c, s, lpn, flags).Running?
    ensures var s1 := Prepared(c, s, lpn, flags).value; var all := Touched(c, flags, c.Lanes());
      && InvBut(c, s1, lpn, all) && AllUnclaimed(s1, lpn, all) && lpn in s1.table
      && forall l, v :: Read(c, s1, l, v) == Read(c, s, l, v)
  {
    var all := Touched(c, flags, c.Lanes());
    InvIsInvBut(c, s, lpn);
    if lpn in s.table {
      assert Touched(c, flags, 0) == {};
      InvalidatedKeeps(c, s, lpn, flags, 0);
      ClearedKeeps(c, s, Prepared(c, s, lpn, flags).value, lpn, {});
    } else {
      OpenRow(c, s, lpn);
      var s1 := s.(table := s.table[lpn := EmptyRow(c)]);
      InvIsInvBut(c, s1, lpn);
      WidenHoles(c, s1, lpn, {}, all);
    }
  }

  lemma ExtendsKeepsUnclaimed(s: State, s': State, dst: nat, lpn: nat, lanes: set<nat>)
    requires Extends(s, s') && s'.blocks.Keys == s.blocks.Keys + {dst} && (dst !in s.blocks ==> Blank(s'.blocks[dst]))
    requires AllUnclaimed(s, lpn, lanes)
    ensures AllUnclaimed(s', lpn, lanes)
  {
    forall u | u in lanes
      ensures Unclaimed(s', lpn, u)
    {
      assert Unclaimed(s, lpn, u);
    }
  }

  lemma ExtendsTable(s: State, s': State)
    requires Extends(s, s')
    ensures s'.table == s.table && s'.media == s.media
  {
  }

  lemma ExtendsReads(c: Config, s: State, s': State)
    requires Extends(s, s')
    ensures forall l, v :: Read(c, s', l, v) == Read(c, s, l, v)
  {
  }

  lemma LanesOf(c: Config, s: State, b: nat)
    requires Shape(c, s) && b in s.blocks
    ensures |s.blocks[b].next| == c.units && c.Lanes() <= c.units
  {
  }

  /** A host write that returns changes exactly the units its flags name, and keeps the mapping in agreement.
      Before garbage collection it can only stop at end of life or at a write head that is not in use. */
  lemma StoreCorrect(c: Config, s: State, lpn: nat, flags: set<nat>, data: nat -> Data)
    requires Inv(c, s)
    ensures var r := Store(c, s, lpn, flags, data);
      match r
      case Halted(why) => why == EndOfLife || why == Corrupted
      case Running(s') =>
        && Inv(c, s')
        && forall l, v :: Read(c, s', l, v) == if l == lpn && c.Touches(flags, v) then Some(data(v)) else Read(c, s, l, v)
  {
    hide Inv, InvBut, Unclaimed, AllUnclaimed, Read, Extends, LastFreeBlock, Prepared, Programmed, Shape, Blank, Config.Full;
    var all := Touched(c, flags, c.Lanes());
    assert TouchedFrom(c, flags, 0) == all;
    PreparedKeeps(c, s, lpn, flags);
    var s1 := Prepared(c, s, lpn, flags).value;
    InvButParts(c, s1, lpn, all);
    if LastFreeBlock(c, s1, flags).Running? {
      LastFreeBlockShape(c, s1, flags);
      LastFreeBlockKeepsMapping(c, s1, flags, lpn, all);
      var (s2, dst) := LastFreeBlock(c, s1, flags).value;
      ExtendsKeepsUnclaimed(s1, s2, dst, lpn, all);
      ExtendsReads(c, s1, s2);
      ExtendsTable(s1, s2);
      LanesOf(c, s2, dst);
      ProgrammedKeeps(c, s2, lpn, flags, data, dst, 0);
    } else {
      LastFreeBlockHalts(c, s1, flags);
    }
  }
}
