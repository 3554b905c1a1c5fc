/**
 Trim and garbage collection: what they do to the agreement of the two mappings and to what the host reads.
 */
module FtlGc {
  import opened Ftl
  import opened FtlMapping

  // ---------------------------------------------------------------- trim

  ghost predicate MappedFrom(c: Config, row: seq<Entry>, u: nat) {
    forall v :: u <= v < |row| ==> c.Mapped(row[v])
  }

  ghost predicate WhollyMapped(c: Config, s: State, lpn: nat) {
    lpn in s.table && MappedFrom(c, s.table[lpn], 0)
  }

  lemma StillUnclaimed(c: Config, s: State, s': State, lpn: nat, u: nat, lanes: set<nat>)
    requires InvBut(c, s, lpn, lanes) && Cleared(s, s')
    requires AllUnclaimed(s, lpn, lanes) && Unclaimed(s', lpn, u)
    ensures AllUnclaimed(s', lpn, lanes + {u})
  {
    hide Unclaimed;
    ClearedKeeps(c, s, s', lpn, lanes);
    forall v | v in lanes
      ensures Unclaimed(s', lpn, v)
    {
      assert Unclaimed(s, lpn, v);
    }
  }

  lemma {:induction false} TrimmedKeeps(c: Config, s: State, lpn: nat, u: nat)
    requires InvBut(c, s, lpn, Below(u)) && AllUnclaimed(s, lpn, Below(u))
    requires lpn in s.table && u <= c.Lanes() && RowOk(c, s.table[lpn])
    requires forall b :: b in s.blocks ==> b < c.total
    ensures Trimmed(c, s, lpn, u).Running? <==> MappedFrom(c, s.table[lpn], u)
    ensures var r := Trimmed(c, s, lpn, u);
      match r
      case Halted(why) => why == BlockNotInUse
      case Running(s') =>
        && Cleared(s, s')
        && InvBut(c, s', lpn, Below(c.Lanes())) && AllUnclaimed(s', lpn, Below(c.Lanes()))
    decreases c.Lanes() - u
  {
    hide InvBut, AllUnclaimed, Unclaimed, Cleared;
    ClearedRefl(s);
    if u == c.Lanes() {
    } else {
      var e := s.table[lpn][u];
      if e.block in s.blocks {
        assert c.Mapped(e);
        InvalidateStep(c, s, lpn, u, Below(u));
        var s1 := ClearOld(s, e, u);
        assert Below(u + 1) == Below(u) + {u};
        StillUnclaimed(c, s, s1, lpn, u, Below(u));
        TrimmedKeeps(c, s1, lpn, u + 1);
        if Trimmed(c, s1, lpn, u + 1).Running? {
          ClearedTrans(s, s1, Trimmed(c, s1, lpn, u + 1).value);
        }
      } else {
        InUseBelow(c, s, lpn, u, Below(u));
      }
    }
  }

  lemma InUseBelow(c: Config, s: State, lpn: nat, u: nat, holes: set<nat>)
    requires InvBut(c, s, lpn, holes) && u !in holes
    requires lpn in s.table && u < |s.table[lpn]| && s.table[lpn][u].block !in s.blocks
    ensures !c.Mapped(s.table[lpn][u])
  {
    assert Points(c, s, lpn, u);
  }

  lemma ClearedFacts(c: Config, s: State, s': State)
    requires Cleared(s, s')
    ensures s'.table == s.table && s'.media == s.media && s'.blocks.Keys == s.blocks.Keys
    ensures forall l, v :: Read(c, s', l, v) == Read(c, s, l, v)
  {
  }

  lemma DropRow(c: Config, s: State, lpn: nat)
    requires InvBut(c, s, lpn, Below(c.Lanes())) && AllUnclaimed(s, lpn, Below(c.Lanes()))
    ensures Inv(c, s.(table := s.table - {lpn}))
  {
    var s' := s.(table := s.table - {lpn});
    forall l: nat, v: nat
      ensures Points(c, s', l, v)
    {
      if l != lpn { assert Points(c, s, l, v); }
    }
    forall b, x | b in s'.blocks && x in s'.blocks[b].valid
      ensures Owned(s', b, x)
    {
      assert Owned(s, b, x);
      assert BlockOk(c, s.blocks[b]);
      assert Unclaimed(s, lpn, x.lane);
    }
  }

  /** Trim removes exactly one LPN. It halts on an LPN that has a row with an unmapped lane, and only then. */
  lemma TrimCorrect(c: Config, s: State, lpn: nat)
    requires Inv(c, s)
    ensures Trim(c, s, lpn).Running? <==> (lpn in s.table ==> WhollyMapped(c, s, lpn))
    ensures Trim(c, s, lpn).Halted? ==> Trim(c, s, lpn).why == BlockNotInUse
    ensures Trim(c, s, lpn).Running? ==>
      var s' := Trim(c, s, lpn).value;
      && Inv(c, s')
      && s'.table == s.table - {lpn}
      && forall l, v :: Read(c, s', l, v) == if l == lpn then None else Read(c, s, l, v)
  {
    hide Inv, InvBut, Unclaimed, Cleared, Trimmed;
    InvParts(c, s);
    if lpn in s.table {
      InvIsInvBut(c, s, lpn);
      assert Below(0) == {};
      assert AllUnclaimed(s, lpn, Below(0));
      TrimmedKeeps(c, s, lpn, 0);
      if Trimmed(c, s, lpn, 0).Running? {
        var s1 := Trimmed(c, s, lpn, 0).value;
        DropRow(c, s1, lpn);
        ClearedFacts(c, s, s1);
      }
    } else {
      assert s.table - {lpn} == s.table;
    }
  }

  // ---------------------------------------------------------------- moving one unit

  ghost predicate SameReads(c: Config, s: State, s': State) {
    forall l: nat, v: nat {:trigger Read(c, s', l, v)} :: Read(c, s', l, v) == Read(c, s, l, v)
  }

  lemma SameReadsTrans(c: Config, s: State, s1: State, s2: State)
    requires SameReads(c, s, s1) && SameReads(c, s1, s2)
    ensures SameReads(c, s, s2)
  {
    forall l: nat, v: nat
      ensures Read(c, s2, l, v) == Read(c, s, l, v)
    {
      assert Read(c, s1, l, v) == Read(c, s, l, v);
    }
  }

  /** A valid unit can always be moved to a block with room; its recorded LPN always has a table entry. */
  lemma MoveUnitKeeps(c: Config, s: State, b: nat, x: Unit, dst: nat)
    requires Inv(c, s)
    requires b in s.blocks && x in s.blocks[b].valid
    requires dst in s.blocks && dst != b && s.blocks[dst].next[x.lane] < c.pages
    ensures MoveUnit(c, s, b, x, Label(s.blocks[b], x), dst).Running?
    ensures var s' := MoveUnit(c, s, b, x, Label(s.blocks[b], x), dst).value;
      Inv(c, s') && SameReads(c, s, s')
  {
    hide Inv, InvBut, Unclaimed, Read, Shape, Reverse, Cleared, ProgramUnit;
    ValidUnitFacts(c, s, b, x);
    var lpn := s.blocks[b].lpns[x];
    var u := x.lane;
    InvIsInvBut(c, s, lpn);
    InvalidateStep(c, s, lpn, u, {});
    var s1 := ClearOld(s, Entry(b, x.page), u);
    InvButParts(c, s, lpn, {});
    ClearedKeeps(c, s, s1, lpn, {});
    var d := Cell(s.media, Loc(b, x.page, u));
    assert {} + {u} == {u} && {u} - {u} == {};
    ProgramUnitKeepsMapping(c, s1, lpn, u, dst, d, {u});
    var s2 := ProgramUnit(c, s1, lpn, u, dst, d).value;
    NoHoles(c, s2, lpn);
    var s' := s2.(copies := s2.copies + 1);
    IgnoresCopies(c, s2, s2.copies + 1);
    forall l: nat, v: nat
      ensures Read(c, s', l, v) == Read(c, s, l, v)
    {
      ProgramUnitReads(c, s1, lpn, u, dst, d, {u}, l, v);
      ReadMapped(c, s, lpn, u);
    }
  }

  lemma ReadMapped(c: Config, s: State, l: nat, u: nat)
    requires l in s.table && u < |s.table[l]| && c.Mapped(s.table[l][u])
    ensures Read(c, s, l, u) == Some(Cell(s.media, Loc(s.table[l][u].block, s.table[l][u].page, u)))
  {
  }

  lemma IgnoresCopies(c: Config, s: State, n: nat)
    requires Inv(c, s)
    ensures Inv(c, s.(copies := n))
    ensures forall l, v :: Read(c, s.(copies := n), l, v) == Read(c, s, l, v)
  {
    var s' := s.(copies := n);
    forall l: nat, v: nat
      ensures Points(c, s', l, v)
    {
      assert Points(c, s, l, v);
    }
    forall b, x | b in s'.blocks && x in s'.blocks[b].valid
      ensures Owned(s', b, x)
    {
      assert Owned(s, b, x);
    }
  }

  lemma ValidUnitFacts(c: Config, s: State, b: nat, x: Unit)
    requires Inv(c, s)
    requires b in s.blocks && x in s.blocks[b].valid
    ensures x in s.blocks[b].lpns && x.lane < c.Lanes() <= c.units && x.page < c.pages && |s.blocks[b].next| == c.units
    ensures var lpn := s.blocks[b].lpns[x];
      lpn in s.table && x.lane < |s.table[lpn]| && s.table[lpn][x.lane] == Entry(b, x.page) && c.Mapped(Entry(b, x.page))
    ensures Shape(c, s)
  {
    assert Owned(s, b, x);
    assert BlockOk(c, s.blocks[b]);
  }

  // ---------------------------------------------------------------- moving a page

  /** The blocks other than b that were full are untouched: a copy never goes to a victim. */
  ghost predicate FullStay(c: Config, s: State, s': State, b: nat) {
    forall v :: v in s.blocks && c.Full(s.blocks[v]) && v != b ==> v in s'.blocks && s'.blocks[v] == s.blocks[v]
  }

  lemma MoveUnitFrame(c: Config, s: State, b: nat, x: Unit, lpn: nat, dst: nat)
    requires MoveUnit(c, s, b, x, lpn, dst).Running? && b != dst
    ensures var s' := MoveUnit(c, s, b, x, lpn, dst).value;
      && b in s.blocks && dst in s.blocks && s'.blocks.Keys == s.blocks.Keys
      && s'.blocks[b] == s.blocks[b].Invalidate(x)
      && |s'.blocks[dst].next| == |s.blocks[dst].next|
      && (forall v :: 0 <= v < |s.blocks[dst].next| && v != x.lane ==> s'.blocks[dst].next[v] == s.blocks[dst].next[v])
      && (forall v :: v in s.blocks && v != b && v != dst ==> s'.blocks[v] == s.blocks[v])
      && s'.free == s.free && s'.dead == s.dead
  {
  }

  /** The units of page p in the lanes from u on that are about to be moved are valid. */
  ghost predicate Pending(c: Config, b: Block, p: nat, bits: set<nat>, u: nat) {
    forall v: nat {:trigger Unit(p, v)} :: u <= v && c.Touches(bits, v) ==> Unit(p, v) in b.valid
  }

  /** The valid units that stay when those lanes of page p are moved. */
  ghost function Left(c: Config, valid: set<Unit>, p: nat, bits: set<nat>, u: nat): set<Unit> {
    set x | x in valid && (x.page == p ==> x.lane < u || !c.Touches(bits, x.lane))
  }

  lemma LeftStep(c: Config, valid: set<Unit>, p: nat, bits: set<nat>, u: nat)
    ensures u >= c.Lanes() ==> Left(c, valid, p, bits, u) == valid
    ensures !c.Touches(bits, u) ==> Left(c, valid, p, bits, u + 1) == Left(c, valid, p, bits, u)
    ensures c.Touches(bits, u) ==> Left(c, valid - {Unit(p, u)}, p, bits, u + 1) == Left(c, valid, p, bits, u)
  {
  }

  lemma PendingStep(c: Config, b: Block, b': Block, p: nat, bits: set<nat>, u: nat)
    requires Pending(c, b, p, bits, u) && (b'.valid == b.valid || b'.valid == b.valid - {Unit(p, u)})
    ensures Pending(c, b', p, bits, u + 1)
    ensures c.Touches(bits, u) ==> Unit(p, u) in b.valid
  {
  }

  lemma {:induction false} MoveLanesKeeps(c: Config, s: State, b: nat, p: nat, from: Block, bits: set<nat>, dst: nat, u: nat)
    requires Inv(c, s)
    requires b in s.blocks && dst in s.blocks && b != dst && s.blocks[b].lpns == from.lpns
    requires |s.blocks[dst].next| == c.units && u <= c.Lanes() <= c.units
    requires forall v :: u <= v < c.units ==> s.blocks[dst].next[v] < c.pages
    requires Pending(c, s.blocks[b], p, bits, u)
    ensures MoveLanes(c, s, b, p, from, bits, dst, u).Running?
    ensures var s' := MoveLanes(c, s, b, p, from, bits, dst, u).value;
      && Inv(c, s') && SameReads(c, s, s')
      && s'.blocks.Keys == s.blocks.Keys
      && s'.blocks[b] == s.blocks[b].(valid := s'.blocks[b].valid)
      && s'.blocks[b].valid == Left(c, s.blocks[b].valid, p, bits, u)
      && (forall v :: v in s.blocks && v != b && v != dst ==> s'.blocks[v] == s.blocks[v])
    decreases c.Lanes() - u
  {
    hide Inv, Read, MoveUnit, SameReads, Left, Pending, Shape, Forward, Reverse;
    LeftStep(c, s.blocks[b].valid, p, bits, u);
    PendingStep(c, s.blocks[b], s.blocks[b].Invalidate(Unit(p, u)), p, bits, u);
    PendingStep(c, s.blocks[b], s.blocks[b], p, bits, u);
    if u == c.Lanes() {
      SameReadsRefl(c, s);
    } else if !c.Touches(bits, u) {
      MoveLanesKeeps(c, s, b, p, from, bits, dst, u + 1);
    } else {
      var x := Unit(p, u);
      ValidUnitFacts(c, s, b, x);
      MoveUnitKeeps(c, s, b, x, dst);
      assert Label(from, x) == Label(s.blocks[b], x);
      MoveUnitFrame(c, s, b, x, Label(from, x), dst);
      var s1 := MoveUnit(c, s, b, x, Label(from, x), dst).value;
      MoveLanesKeeps(c, s1, b, p, from, bits, dst, u + 1);
      SameReadsTrans(c, s, s1, MoveLanes(c, s1, b, p, from, bits, dst, u + 1).value);
    }
  }

  /** getPageInfo tells the truth about page p. It always does with more than one I/O unit per page; with a
      single one it claims every page valid. */
  ghost predicate PageSound(c: Config, b: Block, p: nat) {
    c.units == 1 ==> Unit(p, 0) in b.valid
  }

  lemma BitsAreValid(c: Config, b: Block, p: nat)
    requires BlockOk(c, b) && PageSound(c, b, p) && PageInfo(c, b, p) != {}
    ensures Pending(c, b, p, Moved(c, PageInfo(c, b, p)), 0)
    ensures forall x :: x in b.valid && x.page == p ==> c.Touches(Moved(c, PageInfo(c, b, p)), x.lane)
  {
    var bits := PageInfo(c, b, p);
    if !c.tweak && c.units != 1 {
      var w :| w in bits;
      assert Unit(p, w) in b.valid;
    }
  }

  lemma NoBits(c: Config, b: Block, p: nat)
    requires PageInfo(c, b, p) == {}
    ensures b.valid == set x | x in b.valid && x.page != p
  {
    assert forall x :: x in b.valid && x.page == p ==> x.lane in PageInfo(c, b, p);
  }

  lemma ShapeFacts(c: Config, s: State, b: nat)
    requires Shape(c, s) && b in s.blocks
    ensures BlockOk(c, s.blocks[b]) && |s.blocks[b].next| == c.units && c.Lanes() <= c.units
  {
  }

  lemma ExtendsBlock(s: State, s': State, b: nat)
    requires Extends(s, s') && b in s.blocks
    ensures b in s'.blocks && s'.blocks[b] == s.blocks[b]
  {
  }

  lemma ExtendsSameReads(c: Config, s: State, s': State)
    requires Extends(s, s')
    ensures SameReads(c, s, s')
  {
  }

  lemma MovePageKeeps(c: Config, s: State, b: nat, p: nat)
    requires Inv(c, s)
    requires b in s.blocks && c.Full(s.blocks[b]) && PageSound(c, s.blocks[b], p)
    ensures var r := MovePage(c, s, b, p);
      match r
      case Halted(why) => why in {EndOfLife, Corrupted}
      case Running(s') =>
        && Inv(c, s') && SameReads(c, s, s')
        && b in s'.blocks && FullStay(c, s, s', b)
        && s'.blocks[b] == s.blocks[b].(valid := set x | x in s.blocks[b].valid && x.page != p)
  {
    hide Inv, Read, LastFreeBlock, MoveLanes, Shape, Pending, PageInfo, Moved, BlockOk, PageSound, SameReads, Extends;
    InvParts(c, s);
    ShapeFacts(c, s, b);
    var bits := PageInfo(c, s.blocks[b], p);
    if bits == {} {
      SameReadsRefl(c, s);
      NoBits(c, s.blocks[b], p);
    } else {
      BitsAreValid(c, s.blocks[b], p);
      var flags := Moved(c, bits);
      if LastFreeBlock(c, s, flags).Running? {
        LastFreeBlockShape(c, s, flags);
        var (s1, dst) := LastFreeBlock(c, s, flags).value;
        InvIsInvBut(c, s, 0);
        LastFreeBlockKeepsMapping(c, s, flags, 0, {});
        NoHoles(c, s1, 0);
        ExtendsSameReads(c, s, s1);
        ShapeFacts(c, s1, dst);
        ExtendsBlock(s, s1, b);
        MoveLanesKeeps(c, s1, b, p, s.blocks[b], flags, dst, 0);
        var s2 := MoveLanes(c, s1, b, p, s.blocks[b], flags, dst, 0).value;
        SameReadsTrans(c, s, s1, s2);
        forall v | v in s.blocks && c.Full(s.blocks[v]) && v != b
          ensures v in s2.blocks && s2.blocks[v] == s.blocks[v]
        {
          ExtendsBlock(s, s1, v);
        }
      } else {
        LastFreeBlockHalts(c, s, flags);
      }
    }
  }

  lemma InvParts(c: Config, s: State)
    requires Inv(c, s)
    ensures Shape(c, s)
  {
  }

  // ---------------------------------------------------------------- moving blocks

  /** What garbage collection needs from a block for getPageInfo to be right about each of its pages. */
  ghost predicate BlockSound(c: Config, b: Block) {
    forall p: nat :: p < c.pages ==> PageSound(c, b, p)
  }

  lemma {:induction false} MovePagesKeeps(c: Config, s: State, b: nat, p: nat)
    requires Inv(c, s)
    requires b in s.blocks && c.Full(s.blocks[b]) && p <= c.pages
    requires forall q: nat {:trigger PageSound(c, s.blocks[b], q)} :: p <= q < c.pages ==> PageSound(c, s.blocks[b], q)
    requires forall x :: x in s.blocks[b].valid ==> p <= x.page
    ensures var r := MovePages(c, s, b, p);
      match r
      case Halted(why) => why in {EndOfLife, Corrupted}
      case Running(s') =>
        && Inv(c, s') && SameReads(c, s, s')
        && b in s'.blocks && FullStay(c, s, s', b)
        && s'.blocks[b] == s.blocks[b].(valid := {})
    decreases c.pages - p
  {
    hide Inv, SameReads, MovePage;
    if p == c.pages {
      InvParts(c, s);
      assert forall x :: x in s.blocks[b].valid ==> x in s.blocks[b].lpns;
      assert s.blocks[b].valid == {};
      SameReadsRefl(c, s);
    } else {
      MovePageKeeps(c, s, b, p);
      if MovePage(c, s, b, p).Running? {
        var s1 := MovePage(c, s, b, p).value;
        forall q: nat | p + 1 <= q < c.pages
          ensures PageSound(c, s1.blocks[b], q)
        {
          assert PageSound(c, s.blocks[b], q);
        }
        MovePagesKeeps(c, s1, b, p + 1);
        if MovePages(c, s1, b, p + 1).Running? {
          SameReadsTrans(c, s, s1, MovePages(c, s1, b, p + 1).value);
        }
      }
    }
  }

  lemma SameReadsRefl(c: Config, s: State)
    ensures SameReads(c, s, s)
  {
  }

  /** What selectVictimBlock returns: distinct blocks in use, every one of them full. */
  ghost predicate VictimsOk(c: Config, s: State, victims: seq<nat>) {
    && (forall k :: 0 <= k < |victims| ==> victims[k] in s.blocks && c.Full(s.blocks[victims[k]]))
    && (forall j, k :: 0 <= j < k < |victims| ==> victims[j] != victims[k])
  }

  ghost predicate Emptied(s: State, victims: seq<nat>, k: nat) {
    forall j :: 0 <= j < k && j < |victims| ==> victims[j] in s.blocks && s.blocks[victims[j]].valid == {}
  }

  ghost predicate VictimsSound(c: Config, s: State, victims: seq<nat>, k: nat) {
    forall j :: k <= j < |victims| ==> victims[j] in s.blocks && BlockSound(c, s.blocks[victims[j]])
  }

  lemma {:induction false} MoveBlocksKeeps(c: Config, s: State, victims: seq<nat>, k: nat)
    requires Inv(c, s) && k <= |victims|
    requires VictimsOk(c, s, victims) && VictimsSound(c, s, victims, k) && Emptied(s, victims, k)
    ensures var r := MoveBlocks(c, s, victims, k);
      match r
      case Halted(why) => why in {EndOfLife, Corrupted}
      case Running(s') =>
        && Inv(c, s') && SameReads(c, s, s')
        && VictimsOk(c, s', victims) && Emptied(s', victims, |victims|)
        && forall j :: 0 <= j < |victims| ==> s'.blocks[victims[j]].eraseCount == s.blocks[victims[j]].eraseCount
    decreases |victims| - k
  {
    hide Inv, SameReads, MovePages, VictimsOk, VictimsSound, Emptied, FullStay, BlockSound;
    if k == |victims| {
      SameReadsRefl(c, s);
    } else {
      var b := victims[k];
      VictimFacts(c, s, victims, k);
      MovePagesKeeps(c, s, b, 0);
      if MovePages(c, s, b, 0).Running? {
        var s1 := MovePages(c, s, b, 0).value;
        VictimMoved(c, s, s1, victims, k);
        MoveBlocksKeeps(c, s1, victims, k + 1);
        if MoveBlocks(c, s1, victims, k + 1).Running? {
          SameReadsTrans(c, s, s1, MoveBlocks(c, s1, victims, k + 1).value);
        }
      }
    }
  }

  lemma VictimFacts(c: Config, s: State, victims: seq<nat>, k: nat)
    requires VictimsOk(c, s, victims) && VictimsSound(c, s, victims, k) && k < |victims|
    ensures victims[k] in s.blocks && c.Full(s.blocks[victims[k]])
    ensures forall q: nat :: 0 <= q < c.pages ==> PageSound(c, s.blocks[victims[k]], q)
  {
    SoundFrom(c, s, victims[k]);
  }

  /** Moving one victim empties it and leaves the others alone. */
  lemma VictimMoved(c: Config, s: State, s1: State, victims: seq<nat>, k: nat)
    requires VictimsOk(c, s, victims) && k < |victims| && victims[k] in s1.blocks
    requires FullStay(c, s, s1, victims[k])
    requires s1.blocks[victims[k]] == s.blocks[victims[k]].(valid := {})
    ensures VictimsOk(c, s1, victims)
    ensures VictimsSound(c, s, victims, k) ==> VictimsSound(c, s1, victims, k + 1)
    ensures Emptied(s, victims, k) ==> Emptied(s1, victims, k + 1)
    ensures forall j :: 0 <= j < |victims| ==> victims[j] in s.blocks && victims[j] in s1.blocks
    ensures forall j :: 0 <= j < |victims| && j != k ==> s1.blocks[victims[j]] == s.blocks[victims[j]]
    ensures forall j :: 0 <= j < |victims| ==> s1.blocks[victims[j]].eraseCount == s.blocks[victims[j]].eraseCount
  {
    forall j | 0 <= j < |victims| && j != k
      ensures victims[j] in s1.blocks && s1.blocks[victims[j]] == s.blocks[victims[j]]
    {
      assert victims[j] != victims[k];
    }
  }

  lemma SoundFrom(c: Config, s: State, b: nat)
    requires b in s.blocks && BlockSound(c, s.blocks[b])
    ensures forall q: nat :: 0 <= q < c.pages ==> PageSound(c, s.blocks[b], q)
  {
  }

  // ---------------------------------------------------------------- erasing

  lemma ErasedIsBlank(c: Config, b: Block)
    requires BlockOk(c, b)
    ensures BlockOk(c, b.Erased()) && Blank(b.Erased())
  {
  }

  lemma InsertedOk(c: Config, free: seq<Block>, b: Block)
    requires ErasedOk(c, free) && b.idx < c.total && BlockOk(c, b) && Blank(b)
    ensures ErasedOk(c, Inserted(free, b)) && |Inserted(free, b)| == |free| + 1
  {
  }

  lemma EraseShape(c: Config, s: State, b: nat)
    requires Shape(c, s) && b in s.blocks && Erase(c, s, b).Running?
    ensures Shape(c, Erase(c, s, b).value)
  {
    hide Inserted;
    ErasedIsBlank(c, s.blocks[b]);
    InsertedOk(c, s.free, s.blocks[b].Erased());
  }

  lemma EraseMaps(c: Config, s: State, b: nat)
    requires Forward(c, s, 0, {}) && Reverse(s)
    requires b in s.blocks && s.blocks[b].valid == {} && Erase(c, s, b).Running?
    ensures var s' := Erase(c, s, b).value;
      Forward(c, s', 0, {}) && Reverse(s') && SameReads(c, s, s')
  {
    hide Inserted;
    var s' := Erase(c, s, b).value;
    forall l: nat, v: nat
      ensures Points(c, s', l, v) && Read(c, s', l, v) == Read(c, s, l, v)
    {
      assert Points(c, s, l, v);
    }
    forall a, x | a in s'.blocks && x in s'.blocks[a].valid
      ensures Owned(s', a, x)
    {
      assert Owned(s, a, x);
    }
  }

  /** Erasing a block without valid units hides nothing from the host. */
  lemma EraseKeeps(c: Config, s: State, b: nat)
    requires Inv(c, s)
    requires b in s.blocks && s.blocks[b].valid == {}
    ensures var r := Erase(c, s, b);
      match r
      case Halted(why) =>
        || (why == EmptyFreeList && |s.free| == 0 && Returns(c, s, b))
        || (why == FirstDeath && c.stopAtDeath && !Returns(c, s, b))
      case Running(s') =>
        && (if Returns(c, s, b) then |s.free| > 0 else !c.stopAtDeath)
        && Inv(c, s') && SameReads(c, s, s') && s'.blocks == s.blocks - {b}
  {
    hide Shape, Forward, Reverse, SameReads, Inserted;
    if Erase(c, s, b).Running? {
      EraseShape(c, s, b);
      EraseMaps(c, s, b);
    }
  }

  lemma {:induction false} EraseBlocksKeeps(c: Config, s: State, victims: seq<nat>, k: nat)
    requires Inv(c, s) && k <= |victims|
    requires forall j :: k <= j < |victims| ==> victims[j] in s.blocks && s.blocks[victims[j]].valid == {}
    requires forall i, j :: 0 <= i < j < |victims| ==> victims[i] != victims[j]
    ensures var r := EraseBlocks(c, s, victims, k);
      match r
      case Halted(why) => why == EmptyFreeList || (why == FirstDeath && c.stopAtDeath)
      case Running(s') =>
        && Inv(c, s') && SameReads(c, s, s')
        && s'.blocks.Keys == s.blocks.Keys - (set j | k <= j < |victims| :: victims[j])
    decreases |victims| - k
  {
    hide Inv, SameReads, Erase;
    if k == |victims| {
      SameReadsRefl(c, s);
    } else {
      EraseKeeps(c, s, victims[k]);
      if Erase(c, s, victims[k]).Running? {
        var s1 := Erase(c, s, victims[k]).value;
        EraseBlocksKeeps(c, s1, victims, k + 1);
        if EraseBlocks(c, s1, victims, k + 1).Running? {
          SameReadsTrans(c, s, s1, EraseBlocks(c, s1, victims, k + 1).value);
        }
      }
    }
  }

  /** A victim that goes back to the free list; the others reach the threshold and retire. */
  ghost predicate Returns(c: Config, s: State, b: nat) {
    b in s.blocks && s.blocks[b].eraseCount + 1 < c.threshold
  }

  /** The erases halt exactly when the free list is empty and some victim has to go back to it, or when some victim
      retires and the run is to end with that. Retiring needs no free block, and the first block that returns fills the
      list for those behind it; so when both can happen the first victim decides. */
  lemma {:induction false} EraseBlocksHaltsIff(c: Config, s: State, victims: seq<nat>, k: nat)
    requires Inv(c, s) && k <= |victims|
    requires forall j :: k <= j < |victims| ==> victims[j] in s.blocks && s.blocks[victims[j]].valid == {}
    requires forall i, j :: 0 <= i < j < |victims| ==> victims[i] != victims[j]
    ensures var r := EraseBlocks(c, s, victims, k);
      && (r.Halted? && r.why == EmptyFreeList <==>
            && |s.free| == 0 && (exists j :: k <= j < |victims| && Returns(c, s, victims[j]))
            && (c.stopAtDeath ==> Returns(c, s, victims[k])))
      && (r.Halted? && r.why == FirstDeath <==>
            && c.stopAtDeath && (exists j :: k <= j < |victims| && !Returns(c, s, victims[j]))
            && (|s.free| == 0 ==> !Returns(c, s, victims[k])))
      && (r.Halted? ==> r.why in {EmptyFreeList, FirstDeath})
    decreases |victims| - k
  {
    hide Inv, SameReads;
    if k < |victims| {
      var b := victims[k];
      EraseKeeps(c, s, b);
      EraseFills(c, s, b);
      if Erase(c, s, b).Running? {
        var s1 := Erase(c, s, b).value;
        EraseBlocksHaltsIff(c, s1, victims, k + 1);
        forall j | k < j < |victims|
          ensures Returns(c, s1, victims[j]) <==> Returns(c, s, victims[j])
        {
        }
      }
    }
  }

  lemma EraseFills(c: Config, s: State, b: nat)
    requires b in s.blocks && s.blocks[b].valid == {}
    ensures Erase(c, s, b).Halted? && Erase(c, s, b).why == EmptyFreeList <==> |s.free| == 0 && Returns(c, s, b)
    ensures Erase(c, s, b).Halted? && Erase(c, s, b).why == FirstDeath <==> c.stopAtDeath && !Returns(c, s, b)
    ensures Erase(c, s, b).Halted? ==> Erase(c, s, b).why in {EmptyFreeList, FirstDeath}
    ensures Erase(c, s, b).Running? ==>
      |Erase(c, s, b).value.free| == |s.free| + (if Returns(c, s, b) then 1 else 0)
  {
  }

  /** How many victims from k on go back to the free list. */
  function Returning(c: Config, s: State, victims: seq<nat>, k: nat): nat
    decreases |victims| - k
  {
    if k >= |victims| then 0
    else (if victims[k] in s.blocks && s.blocks[victims[k]].eraseCount + 1 < c.threshold then 1 else 0)
         + Returning(c, s, victims, k + 1)
  }

  lemma {:induction false} ReturningSame(c: Config, s: State, s': State, victims: seq<nat>, k: nat)
    requires forall j :: k <= j < |victims| ==> (Returns(c, s', victims[j]) <==> Returns(c, s, victims[j]))
    ensures Returning(c, s', victims, k) == Returning(c, s, victims, k)
    decreases |victims| - k
  {
    if k < |victims| {
      assert Returns(c, s', victims[k]) <==> Returns(c, s, victims[k]);
      ReturningSame(c, s, s', victims, k + 1);
    }
  }

  lemma {:induction false} EraseBlocksGain(c: Config, s: State, victims: seq<nat>, k: nat)
    requires EraseBlocks(c, s, victims, k).Running?
    requires forall i, j :: 0 <= i < j < |victims| ==> victims[i] != victims[j]
    ensures |EraseBlocks(c, s, victims, k).value.free| == |s.free| + Returning(c, s, victims, k)
    decreases |victims| - k
  {
    if k < |victims| {
      var s1 := Erase(c, s, victims[k]).value;
      EraseFills(c, s, victims[k]);
      EraseBlocksGain(c, s1, victims, k + 1);
      ReturningSame(c, s, s1, victims, k + 1);
    }
  }

  /** Garbage collection over full blocks is invisible to the host and keeps both mappings in agreement. It never
      looks up an LPN without a row, never erases valid data and never runs past a block; the only ways to halt
      are end of life, a write head that is not in use, and at the erases an empty free list or, where the run is to end
      with it, the first block that retires. */
  lemma CollectedCorrect(c: Config, s: State, victims: seq<nat>)
    requires Inv(c, s) && VictimsOk(c, s, victims) && VictimsSound(c, s, victims, 0)
    ensures var r := Collected(c, s, victims);
      match r
      case Halted(why) => why == Corrupted || WornOut(c, why)
      case Running(s') =>
        && Inv(c, s') && SameReads(c, s, s')
        && forall k :: 0 <= k < |victims| ==> victims[k] !in s'.blocks
  {
    hide Inv, SameReads, MoveBlocks, EraseBlocks;
    SameReadsRefl(c, s);
    if |victims| > 0 {
      MoveBlocksKeeps(c, s, victims, 0);
      if MoveBlocks(c, s, victims, 0).Running? {
        var s1 := MoveBlocks(c, s, victims, 0).value;
        EraseBlocksKeeps(c, s1, victims, 0);
        if EraseBlocks(c, s1, victims, 0).Running? {
          SameReadsTrans(c, s, s1, EraseBlocks(c, s1, victims, 0).value);
        }
      }
    }
  }
}
