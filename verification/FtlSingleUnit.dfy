/**
 With one I/O unit per page, getPageInfo reports every page of a victim as valid. This module proves exactly
 what that costs: garbage collection is right if and only if no page of a victim was stale.
 */
module FtlSingleUnit {
  import opened Ftl
  import opened FtlMapping
  import opened FtlGc

  /** Two different valid units record the same LPN. */
  ghost predicate Twins(s: State, b1: nat, p1: nat, b2: nat, p2: nat) {
    && b1 in s.blocks && Unit(p1, 0) in s.blocks[b1].valid
    && b2 in s.blocks && Unit(p2, 0) in s.blocks[b2].valid
    && (b1 != b2 || p1 != p2)
    && Label(s.blocks[b1], Unit(p1, 0)) == Label(s.blocks[b2], Unit(p2, 0))
  }

  ghost predicate Doubled(s: State) {
    exists b1: nat, p1: nat, b2: nat, p2: nat :: Twins(s, b1, p1, b2, p2)
  }

  /** Something the host could not read before became readable. */
  ghost predicate Resurrected(c: Config, s0: State, s: State) {
    exists l: nat :: Read(c, s0, l, 0) == None && Read(c, s, l, 0) != None
  }

  ghost predicate Broken(c: Config, s0: State, s: State) {
    Doubled(s) || Resurrected(c, s0, s)
  }

  lemma TwinsAreWrong(c: Config, s: State, b1: nat, p1: nat, b2: nat, p2: nat)
    requires Twins(s, b1, p1, b2, p2)
    ensures !Inv(c, s)
  {
    hide Inv;
    if Inv(c, s) {
      OneValidUnitPerAddress(c, s, b1, Unit(p1, 0), b2, Unit(p2, 0));
    }
  }

  lemma BrokenIsWrong(c: Config, s0: State, s: State)
    requires Broken(c, s0, s)
    ensures !(Inv(c, s) && SameReads(c, s0, s))
  {
    hide Inv;
    if Doubled(s) {
      var b1: nat, p1: nat, b2: nat, p2: nat :| Twins(s, b1, p1, b2, p2);
      TwinsAreWrong(c, s, b1, p1, b2, p2);
    } else {
      var l: nat :| Read(c, s0, l, 0) == None && Read(c, s, l, 0) != None;
    }
  }

  /** The half of the invariant that survives a stale copy, and the reads that only ever grow. */
  ghost predicate Half(c: Config, s0: State, s: State) {
    && Shape(c, s) && Forward(c, s, 0, {})
    && forall l: nat {:trigger Read(c, s, l, 0)} :: Read(c, s0, l, 0) != None ==> Read(c, s, l, 0) != None
  }

  lemma MoveForward(c: Config, s: State, b: nat, p: nat, dst: nat, l: nat, v: nat)
    requires Shape(c, s) && Forward(c, s, 0, {}) && c.units == 1
    requires b in s.blocks && p < c.pages && Unit(p, 0) in s.blocks[b].lpns
    requires dst in s.blocks && dst != b && s.blocks[dst].next[0] < c.pages
    requires MoveUnit(c, s, b, Unit(p, 0), Label(s.blocks[b], Unit(p, 0)), dst).Running?
    ensures Points(c, MoveUnit(c, s, b, Unit(p, 0), Label(s.blocks[b], Unit(p, 0)), dst).value, l, v)
  {
    hide Shape, Forward, Highest;
    assert Points(c, s, l, v) by { PointsThere(c, s, l, v); }
    RoomAhead(c, s, dst);
  }

  lemma PointsThere(c: Config, s: State, l: nat, v: nat)
    requires Forward(c, s, 0, {})
    ensures Points(c, s, l, v)
  {
  }

  /** The unit that the write pointer names has never been programmed. */
  lemma RoomAhead(c: Config, s: State, dst: nat)
    requires Shape(c, s) && c.units == 1 && dst in s.blocks
    ensures |s.blocks[dst].next| == 1
    ensures var x := Unit(s.blocks[dst].next[0], 0); x !in s.blocks[dst].lpns && x !in s.blocks[dst].valid
  {
    assert BlockOk(c, s.blocks[dst]);
  }

  /** One copy of page p of b to a block with room, whether or not the page was valid. */
  lemma MoveHalf(c: Config, s: State, b: nat, p: nat, dst: nat)
    requires Shape(c, s) && Forward(c, s, 0, {}) && c.units == 1
    requires b in s.blocks && p < c.pages && Unit(p, 0) in s.blocks[b].lpns
    requires dst in s.blocks && dst != b && s.blocks[dst].next[0] < c.pages
    requires MoveUnit(c, s, b, Unit(p, 0), Label(s.blocks[b], Unit(p, 0)), dst).Running?
    ensures var s' := MoveUnit(c, s, b, Unit(p, 0), Label(s.blocks[b], Unit(p, 0)), dst).value;
      && Shape(c, s') && Forward(c, s', 0, {})
  {
    var x := Unit(p, 0);
    var lpn := Label(s.blocks[b], x);
    var s' := MoveUnit(c, s, b, x, lpn, dst).value;
    forall l: nat, v: nat
      ensures Points(c, s', l, v)
    {
      MoveForward(c, s, b, p, dst, l, v);
    }
    var s1 := ClearOld(s, Entry(b, p), 0);
    assert BlockOk(c, s1.blocks[b]);
    ProgramUnitShape(c, s1, lpn, 0, dst, Cell(s.media, Loc(b, p, 0)));
  }

  lemma MoveReads(c: Config, s0: State, s: State, b: nat, p: nat, dst: nat)
    requires Half(c, s0, s) && c.units == 1
    requires b in s.blocks && p < c.pages && Unit(p, 0) in s.blocks[b].lpns
    requires dst in s.blocks && dst != b && s.blocks[dst].next[0] < c.pages
    requires MoveUnit(c, s, b, Unit(p, 0), Label(s.blocks[b], Unit(p, 0)), dst).Running?
    ensures var s' := MoveUnit(c, s, b, Unit(p, 0), Label(s.blocks[b], Unit(p, 0)), dst).value;
      && (forall l: nat :: Read(c, s, l, 0) != None ==> Read(c, s', l, 0) != None)
      && Read(c, s', Label(s.blocks[b], Unit(p, 0)), 0) != None
      && (Resurrected(c, s0, s) ==> Resurrected(c, s0, s'))
  {
    hide Shape, Forward, Highest;
    InUseBelow(c, s, dst);
  }

  lemma InUseBelow(c: Config, s: State, a: nat)
    requires Shape(c, s) && c.units == 1 && a in s.blocks
    ensures a < c.total && |s.blocks[a].next| == 1 && s.blocks[a].valid <= s.blocks[a].lpns.Keys
  {
    assert BlockOk(c, s.blocks[a]);
  }

  lemma MoveKeepsValid(c: Config, s: State, b: nat, p: nat, dst: nat, a: nat, q: nat)
    requires Shape(c, s) && c.units == 1
    requires b in s.blocks && p < c.pages
    requires dst in s.blocks && dst != b && s.blocks[dst].next[0] < c.pages
    requires MoveUnit(c, s, b, Unit(p, 0), Label(s.blocks[b], Unit(p, 0)), dst).Running?
    requires a in s.blocks && Unit(q, 0) in s.blocks[a].valid
    ensures var s' := MoveUnit(c, s, b, Unit(p, 0), Label(s.blocks[b], Unit(p, 0)), dst).value;
      var (a', q') := if a == b && q == p then (dst, s.blocks[dst].next[0]) else (a, q);
      && a' in s'.blocks && Unit(q', 0) in s'.blocks[a'].valid
      && Label(s'.blocks[a'], Unit(q', 0)) == Label(s.blocks[a], Unit(q, 0))
      && (a == dst ==> q != s.blocks[dst].next[0])
  {
    hide Shape, Highest;
    InUseBelow(c, s, a);
    InUseBelow(c, s, b);
    RoomAhead(c, s, dst);
  }

  /** A pair of valid units with one LPN stays a pair when either is moved. */
  lemma MoveKeepsDoubled(c: Config, s: State, b: nat, p: nat, dst: nat)
    requires Shape(c, s) && c.units == 1 && Doubled(s)
    requires b in s.blocks && p < c.pages
    requires dst in s.blocks && dst != b && s.blocks[dst].next[0] < c.pages
    requires MoveUnit(c, s, b, Unit(p, 0), Label(s.blocks[b], Unit(p, 0)), dst).Running?
    ensures Doubled(MoveUnit(c, s, b, Unit(p, 0), Label(s.blocks[b], Unit(p, 0)), dst).value)
  {
    hide MoveUnit, Shape;
    var s' := MoveUnit(c, s, b, Unit(p, 0), Label(s.blocks[b], Unit(p, 0)), dst).value;
    var b1: nat, p1: nat, b2: nat, p2: nat :| Twins(s, b1, p1, b2, p2);
    MoveKeepsValid(c, s, b, p, dst, b1, p1);
    MoveKeepsValid(c, s, b, p, dst, b2, p2);
    ShapeFacts(c, s, dst);
    var q := s.blocks[dst].next[0];
    var (c1, q1) := if b1 == b && p1 == p then (dst, q) else (b1, p1);
    var (c2, q2) := if b2 == b && p2 == p then (dst, q) else (b2, p2);
    assert Twins(s', c1, q1, c2, q2);
  }

  /** Copying a stale page makes a second copy of its LPN, or brings back an LPN the host cannot read. */
  lemma StaleMoveBreaks(c: Config, s0: State, s: State, b: nat, p: nat, dst: nat)
    requires Half(c, s0, s) && c.units == 1
    requires b in s.blocks && p < c.pages && Unit(p, 0) !in s.blocks[b].valid && Unit(p, 0) in s.blocks[b].lpns
    requires dst in s.blocks && dst != b && s.blocks[dst].next[0] < c.pages
    requires MoveUnit(c, s, b, Unit(p, 0), Label(s.blocks[b], Unit(p, 0)), dst).Running?
    ensures Broken(c, s0, MoveUnit(c, s, b, Unit(p, 0), Label(s.blocks[b], Unit(p, 0)), dst).value)
  {
    hide Shape, Forward, MoveUnit, Read, Doubled;
    var s' := MoveUnit(c, s, b, Unit(p, 0), Label(s.blocks[b], Unit(p, 0)), dst).value;
    var l := Label(s.blocks[b], Unit(p, 0));
    MoveReads(c, s0, s, b, p, dst);
    if Read(c, s0, l, 0) == None {
      assert Resurrected(c, s0, s');
    } else {
      assert Read(c, s, l, 0) != None;
      StaleMoveDoubles(c, s, b, p, dst);
    }
  }

  /** Copying a stale page of an LPN that the host can read makes a second copy. */
  lemma StaleMoveDoubles(c: Config, s: State, b: nat, p: nat, dst: nat)
    requires Shape(c, s) && Forward(c, s, 0, {}) && c.units == 1
    requires b in s.blocks && p < c.pages && Unit(p, 0) !in s.blocks[b].valid && Unit(p, 0) in s.blocks[b].lpns
    requires dst in s.blocks && dst != b && s.blocks[dst].next[0] < c.pages
    requires MoveUnit(c, s, b, Unit(p, 0), Label(s.blocks[b], Unit(p, 0)), dst).Running?
    requires Read(c, s, Label(s.blocks[b], Unit(p, 0)), 0) != None
    ensures Doubled(MoveUnit(c, s, b, Unit(p, 0), Label(s.blocks[b], Unit(p, 0)), dst).value)
  {
    hide Shape, Forward;
    var s' := MoveUnit(c, s, b, Unit(p, 0), Label(s.blocks[b], Unit(p, 0)), dst).value;
    var l := Label(s.blocks[b], Unit(p, 0));
    PointsThere(c, s, l, 0);
    RoomAhead(c, s, dst);
    var e := s.table[l][0];
    assert Twins(s', e.block, e.page, dst, s.blocks[dst].next[0]);
  }

  lemma FullIsLabelled(c: Config, b: Block, p: nat)
    requires BlockOk(c, b) && c.Full(b) && c.units == 1 && p < c.pages
    ensures Unit(p, 0) in b.lpns
  {
  }

  lemma ExtendsKeepsHalf(c: Config, s0: State, s: State, s': State, dst: nat)
    requires Half(c, s0, s) && Shape(c, s') && Extends(s, s')
    ensures Half(c, s0, s')
    ensures Broken(c, s0, s) ==> Broken(c, s0, s')
  {
    ExtendsReads(c, s, s');
    forall l: nat, v: nat
      ensures Points(c, s', l, v)
    {
      assert Points(c, s, l, v);
    }
    if Doubled(s) {
      var b1: nat, p1: nat, b2: nat, p2: nat :| Twins(s, b1, p1, b2, p2);
      assert Twins(s', b1, p1, b2, p2);
    }
    if Resurrected(c, s0, s) {
      var l: nat :| Read(c, s0, l, 0) == None && Read(c, s, l, 0) != None;
      assert Read(c, s', l, 0) != None;
    }
  }

  lemma MovePageHalf(c: Config, s0: State, s: State, b: nat, p: nat)
    requires Half(c, s0, s) && c.units == 1
    requires b in s.blocks && c.Full(s.blocks[b]) && p < c.pages
    requires MovePage(c, s, b, p).Running?
    ensures var s' := MovePage(c, s, b, p).value;
      && Half(c, s0, s')
      && b in s'.blocks && FullStay(c, s, s', b)
      && s'.blocks[b] == s.blocks[b].(valid := s.blocks[b].valid - {Unit(p, 0)})
      && (Broken(c, s0, s) || Unit(p, 0) !in s.blocks[b].valid ==> Broken(c, s0, s'))
  {
    hide Shape, Forward, Doubled, Resurrected, Read, LastFreeBlock, MoveUnit, Extends;
    HalfShape(c, s0, s);
    var bits := PageInfo(c, s.blocks[b], p);
    assert bits == {0};
    var flags := Moved(c, bits);
    LastFreeBlockShape(c, s, flags);
    var (s1, dst) := LastFreeBlock(c, s, flags).value;
    ExtendsKeepsHalf(c, s0, s, s1, dst);
    ExtendsBlock(s, s1, b);
    ShapeFacts(c, s1, dst);
    ShapeFacts(c, s1, b);
    FullIsLabelled(c, s1.blocks[b], p);
    var x := Unit(p, 0);
    assert 0 in flags && c.Touches(flags, 0);
    var s2 := MoveUnit(c, s1, b, x, Label(s.blocks[b], x), dst);
    assert MoveLanes(c, s1, b, p, s.blocks[b], flags, dst, 0)
        == if s2.Halted? then s2 else MoveLanes(c, s2.value, b, p, s.blocks[b], flags, dst, 1);
    assert s2.Running?;
    MoveUnitFrame(c, s1, b, x, Label(s.blocks[b], x), dst);
    MoveHalf(c, s1, b, p, dst);
    MoveReads(c, s0, s1, b, p, dst);
    if Doubled(s1) {
      MoveKeepsDoubled(c, s1, b, p, dst);
    }
    if x !in s.blocks[b].valid {
      StaleMoveBreaks(c, s0, s1, b, p, dst);
    }
    forall v | v in s.blocks && c.Full(s.blocks[v]) && v != b
      ensures v in s2.value.blocks && s2.value.blocks[v] == s.blocks[v]
    {
      ExtendsBlock(s, s1, v);
    }
  }

  lemma HalfShape(c: Config, s0: State, s: State)
    requires Half(c, s0, s)
    ensures Shape(c, s)
  {
  }

  lemma {:induction false} MovePagesHalf(c: Config, s0: State, s: State, b: nat, p: nat)
    requires Half(c, s0, s) && c.units == 1
    requires b in s.blocks && c.Full(s.blocks[b]) && p <= c.pages
    requires MovePages(c, s, b, p).Running?
    ensures var s' := MovePages(c, s, b, p).value;
      && Half(c, s0, s')
      && b in s'.blocks && FullStay(c, s, s', b) && s'.blocks[b] == s.blocks[b].(valid := s'.blocks[b].valid)
      && (Broken(c, s0, s) || (exists q: nat :: p <= q < c.pages && Unit(q, 0) !in s.blocks[b].valid) ==> Broken(c, s0, s'))
    decreases c.pages - p
  {
    hide Half, Broken, MovePage;
    if p < c.pages {
      MovePageHalf(c, s0, s, b, p);
      var s1 := MovePage(c, s, b, p).value;
      MovePagesHalf(c, s0, s1, b, p + 1);
      if q: nat :| p <= q < c.pages && Unit(q, 0) !in s.blocks[b].valid {
        if q != p {
          assert p + 1 <= q < c.pages && Unit(q, 0) !in s1.blocks[b].valid;
        }
      }
    }
  }

  lemma {:induction false} MoveBlocksHalf(c: Config, s0: State, s: State, victims: seq<nat>, k: nat)
    requires Half(c, s0, s) && c.units == 1 && k <= |victims| && VictimsOk(c, s, victims)
    requires MoveBlocks(c, s, victims, k).Running?
    ensures var s' := MoveBlocks(c, s, victims, k).value;
      && Half(c, s0, s')
      && (Broken(c, s0, s) || !VictimsSound(c, s, victims, k) ==> Broken(c, s0, s'))
    decreases |victims| - k
  {
    hide Half, Broken, MovePages;
    if k < |victims| {
      var b := victims[k];
      MovePagesHalf(c, s0, s, b, 0);
      var s1 := MovePages(c, s, b, 0).value;
      MoveBlocksHalf(c, s0, s1, victims, k + 1);
      if !VictimsSound(c, s, victims, k) {
        var j :| k <= j < |victims| && !BlockSound(c, s.blocks[victims[j]]);
        if j == k {
          var q: nat :| q < c.pages && !PageSound(c, s.blocks[b], q);
          assert Unit(q, 0) !in s.blocks[b].valid;
        } else {
          assert s1.blocks[victims[j]] == s.blocks[victims[j]];
        }
      }
    }
  }

  lemma EraseHalf(c: Config, s0: State, s: State, b: nat)
    requires Broken(c, s0, s)
    requires Erase(c, s, b).Running?
    ensures Broken(c, s0, Erase(c, s, b).value)
  {
    var s1 := Erase(c, s, b).value;
    if Doubled(s) {
      var b1: nat, p1: nat, b2: nat, p2: nat :| Twins(s, b1, p1, b2, p2);
      assert Twins(s1, b1, p1, b2, p2);
    } else {
      var l: nat :| Read(c, s0, l, 0) == None && Read(c, s, l, 0) != None;
      assert Read(c, s1, l, 0) != None;
    }
  }

  lemma {:induction false} EraseBlocksHalf(c: Config, s0: State, s: State, victims: seq<nat>, k: nat)
    requires Broken(c, s0, s)
    requires EraseBlocks(c, s, victims, k).Running?
    ensures Broken(c, s0, EraseBlocks(c, s, victims, k).value)
    decreases |victims| - k
  {
    hide Broken, Erase;
    if k < |victims| {
      var s1 := Erase(c, s, victims[k]).value;
      EraseHalf(c, s0, s, victims[k]);
      EraseBlocksHalf(c, s0, s1, victims, k + 1);
    }
  }

  /** Garbage collection that returns has kept both mappings in agreement and every read unchanged exactly when
      getPageInfo was right about every page of every victim: always with more than one I/O unit per page, and
      with a single one only if no victim page was stale. */
  lemma CollectedCorrectIff(c: Config, s: State, victims: seq<nat>)
    requires Inv(c, s) && VictimsOk(c, s, victims) && Collected(c, s, victims).Running?
    ensures var s' := Collected(c, s, victims).value;
      Inv(c, s') && SameReads(c, s, s') <==> VictimsSound(c, s, victims, 0)
  {
    if VictimsSound(c, s, victims, 0) {
      CollectedCorrect(c, s, victims);
    } else {
      assert c.units == 1;
      MoveBlocksHalf(c, s, s, victims, 0);
      EraseBlocksHalf(c, s, MoveBlocks(c, s, victims, 0).value, victims, 0);
      BrokenIsWrong(c, s, Collected(c, s, victims).value);
    }
  }
}
