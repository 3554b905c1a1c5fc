/**
 Three short runs, each on a small device, that reach behaviour the design does not intend, and one choice of victims.
 */
module FtlFindings {
  import opened Ftl
  import opened FtlMapping
  import opened FtlPolicies

  function Blank1(i: nat): Block {
    Block(i, 0, [0], map[], {})
  }

  /** The ratio of free blocks calls for garbage collection. */
  predicate Wanted(c: Config, s: State, ratio: real)
    requires 0 < c.total
  {
    s.nFree as real < ratio * c.total as real
  }

  /** A selection of one: the only full block. */
  lemma SelectsOnly(c: Config, blocks: map<nat, Block>, cost: Block -> real, n: nat, a: nat)
    requires 0 < n && a in blocks && forall b :: b in blocks ==> (c.Full(blocks[b]) <==> b == a)
    ensures Selection(c, blocks, cost, n, [a])
  {
  }

  /** A selection of two out of three full blocks, neither of them dearer than the third. */
  lemma SelectsTwo(c: Config, blocks: map<nat, Block>, cost: Block -> real, a: nat, b: nat, left: nat)
    requires blocks.Keys == {a, b, left} && a != b && c.Full(blocks[a]) && c.Full(blocks[b])
    requires cost(blocks[a]) <= cost(blocks[b]) <= cost(blocks[left])
    ensures Selection(c, blocks, cost, 2, [a, b])
  {
  }

  // ---------------------------------------------------------------- a stale page comes back

  function OneUnit(): Config {
    Config(4, 2, 1, 1, 100, true, false, (free, idx, draw) => 0)
  }

  function S0(): State {
    State(map[], map[0 := Blank1(0)], [Blank1(1), Blank1(2), Blank1(3)], [], 3, [0], 0, {}, false, 1, 0, 0, map[])
  }

  function S1(): State {
    S0().(table := map[0 := [Entry(0, 0)]],
          blocks := map[0 := Block(0, 0, [1], map[Unit(0, 0) := 0], {Unit(0, 0)})],
          ioMap := {0}, media := map[Loc(0, 0, 0) := 7])
  }

  function S2(): State {
    S1().(table := map[0 := [Entry(0, 0)], 1 := [Entry(0, 1)]],
          blocks := map[0 := Block(0, 0, [2], map[Unit(0, 0) := 0, Unit(1, 0) := 1], {Unit(0, 0), Unit(1, 0)})],
          media := map[Loc(0, 0, 0) := 7, Loc(0, 1, 0) := 8])
  }

  function S3(): State {
    S2().(table := map[0 := [Entry(1, 0)], 1 := [Entry(0, 1)]],
          blocks := map[0 := Block(0, 0, [2], map[Unit(0, 0) := 0, Unit(1, 0) := 1], {Unit(1, 0)}),
                        1 := Block(1, 0, [1], map[Unit(0, 0) := 0], {Unit(0, 0)})],
          free := [Blank1(2), Blank1(3)], nFree := 2, heads := [1], reclaimMore := true, draws := 2,
          media := map[Loc(0, 0, 0) := 7, Loc(0, 1, 0) := 8, Loc(1, 0, 0) := 9])
  }

  lemma Step0()
    ensures ClaimHeads(OneUnit(), Fresh(OneUnit(), [Blank1(0), Blank1(1), Blank1(2), Blank1(3)]), 0) == Running(S0())
  {
    var c := OneUnit();
    var s := Fresh(c, [Blank1(0), Blank1(1), Blank1(2), Blank1(3)]);
    var (s1, b) := GetFreeBlock(c, s, 0).value;
    assert s1.heads[0 := b] == [0];
    assert s1.(heads := [0]) == S0();
    assert ClaimHeads(c, S0(), 1) == Running(S0());
  }

  function Always(d: Data): nat -> Data {
    (u: nat) => d
  }

  lemma HighestOne(x: nat)
    ensures Highest([x]) == x
  {
  }

  /** Equality of blocks, part by part. */
  ghost predicate SameBlock(a: Block, b: Block)
    ensures SameBlock(a, b) ==> a == b
  {
    a.idx == b.idx && a.eraseCount == b.eraseCount && a.next == b.next && a.lpns == b.lpns && a.valid == b.valid
  }

  lemma Step1()
    ensures Store(OneUnit(), S0(), 0, {0}, Always(7)) == Running(S1())
  {
    var c := OneUnit();
    HighestOne(0);
    var s := Prepared(c, S0(), 0, {0}).value;
    assert EmptyRow(c) == [Entry(4, 2)];
    assert s.ioMap * {0} == {} && s.ioMap + {0} == {0};
    var s' := s.(ioMap := {0});
    assert LastFreeBlock(c, s, {0}) == Running((s', 0));
    var p := ProgramUnit(c, s', 0, 0, 0, 7).value;
    assert SameBlock(p.blocks[0], S1().blocks[0]);
    assert p.table[0] == S1().table[0];
    assert p.table == S1().table && p.blocks == S1().blocks && p.media == S1().media;
    assert p == S1();
    assert Programmed(c, s', 0, {0}, Always(7), 0, 0) == Programmed(c, p, 0, {0}, Always(7), 0, 1);
  }

  lemma Step2()
    ensures Store(OneUnit(), S1(), 1, {0}, Always(8)) == Running(S2())
  {
    var c := OneUnit();
    HighestOne(1);
    var s := Prepared(c, S1(), 1, {0}).value;
    assert EmptyRow(c) == [Entry(4, 2)];
    assert 0 in s.ioMap * {0};
    assert Advanced(c, s, {0}) == s;
    assert LastFreeBlock(c, s, {0}) == Running((s, 0));
    var p := ProgramUnit(c, s, 1, 0, 0, 8).value;
    assert SameBlock(p.blocks[0], S2().blocks[0]);
    assert p.table[0] == S2().table[0] && p.table[1] == S2().table[1];
    assert p.table == S2().table && p.blocks == S2().blocks && p.media == S2().media;
    assert p == S2();
    assert Programmed(c, s, 1, {0}, Always(8), 0, 0) == Programmed(c, p, 1, {0}, Always(8), 0, 1);
  }

  lemma Step3()
    ensures Store(OneUnit(), S2(), 0, {0}, Always(9)) == Running(S3())
  {
    var c := OneUnit();
    HighestOne(2);
    var cleared := ClearOld(S2(), Entry(0, 0), 0);
    assert Prepared(c, S2(), 0, {0}) == Invalidated(c, cleared, 0, {0}, 1);
    var s := Prepared(c, S2(), 0, {0}).value;
    assert s == cleared;
    assert 0 in s.ioMap * {0};
    assert Advanced(c, s, {0}) == s;
    var (s1, b) := GetFreeBlock(c, s, 0).value;
    assert b == 1 && s1.free == [Blank1(2), Blank1(3)];
    var s2 := s1.(heads := [1], reclaimMore := true);
    assert s1.heads[0 := 1] == [1];
    assert LastFreeBlock(c, s, {0}) == Running((s2, 1));
    var p := ProgramUnit(c, s2, 0, 0, 1, 9).value;
    assert SameBlock(p.blocks[0], S3().blocks[0]);
    assert SameBlock(p.blocks[1], S3().blocks[1]);
    assert p.table[0] == S3().table[0] && p.table[1] == S3().table[1];
    assert p.table == S3().table && p.blocks == S3().blocks && p.media == S3().media;
    assert p == S3();
    assert Programmed(c, s2, 0, {0}, Always(9), 1, 0) == Programmed(c, p, 0, {0}, Always(9), 1, 1);
  }

  function S4(): State {
    S3().(table := map[0 := [Entry(1, 1)], 1 := [Entry(0, 1)]],
          blocks := map[0 := Block(0, 0, [2], map[Unit(0, 0) := 0, Unit(1, 0) := 1], {Unit(1, 0)}),
                        1 := Block(1, 0, [2], map[Unit(0, 0) := 0, Unit(1, 0) := 0], {Unit(0, 0), Unit(1, 0)})],
          copies := 1,
          media := map[Loc(0, 0, 0) := 7, Loc(0, 1, 0) := 8, Loc(1, 0, 0) := 9, Loc(1, 1, 0) := 7])
  }

  /** The stale page is copied behind the newer one and takes over the table entry. */
  lemma Step4()
    ensures MovePage(OneUnit(), S3(), 0, 0) == Running(S4())
  {
    var c := OneUnit();
    HighestOne(1);
    var s := S3();
    assert PageInfo(c, s.blocks[0], 0) == {0} && Moved(c, {0}) == {0};
    assert 0 in s.ioMap * {0};
    assert Advanced(c, s, {0}) == s;
    assert LastFreeBlock(c, s, {0}) == Running((s, 1));
    var p := MoveUnit(c, s, 0, Unit(0, 0), 0, 1).value;
    assert SameBlock(p.blocks[0], S4().blocks[0]);
    assert SameBlock(p.blocks[1], S4().blocks[1]);
    assert p.table[0] == S4().table[0] && p.table[1] == S4().table[1];
    assert p.table == S4().table && p.blocks == S4().blocks && p.media == S4().media;
    assert p == S4();
    assert MoveLanes(c, s, 0, 0, s.blocks[0], {0}, 1, 0) == MoveLanes(c, p, 0, 0, s.blocks[0], {0}, 1, 1);
  }

  function S5(): State {
    S4().(table := map[0 := [Entry(1, 1)], 1 := [Entry(2, 0)]],
          blocks := map[0 := Block(0, 0, [2], map[Unit(0, 0) := 0, Unit(1, 0) := 1], {}),
                        1 := Block(1, 0, [2], map[Unit(0, 0) := 0, Unit(1, 0) := 0], {Unit(0, 0), Unit(1, 0)}),
                        2 := Block(2, 0, [1], map[Unit(0, 0) := 1], {Unit(0, 0)})],
          free := [Blank1(3)], nFree := 1, heads := [2], draws := 3, copies := 2,
          media := map[Loc(0, 0, 0) := 7, Loc(0, 1, 0) := 8, Loc(1, 0, 0) := 9, Loc(1, 1, 0) := 7, Loc(2, 0, 0) := 8])
  }

  function S4Claimed(): State {
    S4().(blocks := S4().blocks[2 := Blank1(2)], free := [Blank1(3)], nFree := 1, draws := S4().draws + 1, heads := [2],
          reclaimMore := true)
  }

  lemma Step5Head()
    ensures LastFreeBlock(OneUnit(), S4(), {0}) == Running((S4Claimed(), 2))
  {
    var c := OneUnit();
    HighestOne(2);
    var s := S4();
    assert 0 in s.ioMap * {0};
    assert Advanced(c, s, {0}) == s;
    var (s1, b) := GetFreeBlock(c, s, 0).value;
    assert b == 2 && s1.free == [Blank1(3)];
    assert s1.heads[0 := 2] == [2];
  }

  lemma Step5()
    ensures MovePage(OneUnit(), S4(), 0, 1) == Running(S5())
  {
    hide LastFreeBlock;
    var c := OneUnit();
    HighestOne(2);
    var s := S4();
    assert PageInfo(c, s.blocks[0], 1) == {0} && Moved(c, {0}) == {0};
    Step5Head();
    var s2 := S4Claimed();
    var p := MoveUnit(c, s2, 0, Unit(1, 0), 1, 2).value;
    assert SameBlock(p.blocks[0], S5().blocks[0]);
    assert SameBlock(p.blocks[1], S5().blocks[1]);
    assert SameBlock(p.blocks[2], S5().blocks[2]);
    assert p.table[0] == S5().table[0] && p.table[1] == S5().table[1];
    assert p.table == S5().table && p.blocks == S5().blocks && p.media == S5().media;
    assert p == S5();
    assert MoveLanes(c, s2, 0, 1, s.blocks[0], {0}, 2, 0) == MoveLanes(c, p, 0, 1, s.blocks[0], {0}, 2, 1);
  }

  /** One I/O unit per page, one write head, four blocks of two pages, a threshold ratio of 0.6. LPN 0 is written twice
      with LPN 1 in between, which fills block 0 and calls for garbage collection; the greedy policy selects the one full
      block, the stale page of LPN 0 is copied behind the newer one, and the host reads its first payload again. */
  lemma StalePageComesBack()
    ensures ClaimHeads(OneUnit(), Fresh(OneUnit(), [Blank1(0), Blank1(1), Blank1(2), Blank1(3)]), 0) == Running(S0())
    ensures Store(OneUnit(), S0(), 0, {0}, Always(7)) == Running(S1())
    ensures Store(OneUnit(), S1(), 1, {0}, Always(8)) == Running(S2())
    ensures Store(OneUnit(), S2(), 0, {0}, Always(9)) == Running(S3())
    ensures Read(OneUnit(), S3(), 0, 0) == Some(9)
    ensures !Wanted(OneUnit(), S1(), 0.6) && !Wanted(OneUnit(), S2(), 0.6) && Wanted(OneUnit(), S3(), 0.6)
    ensures S3().reclaimMore && Selection(OneUnit(), S3().blocks, Greedy(), 1 + OneUnit().heads, [0])
    ensures Collected(OneUnit(), S3(), [0]).Running?
    ensures Read(OneUnit(), Collected(OneUnit(), S3(), [0]).value, 0, 0) == Some(7)
  {
    hide S0, S1, S2, S3, Store, Selection, Collected, ClaimHeads, Read, Wanted, Erase;
    Step0(); Step1(); Step2(); Step3();
    BeforeCollection();
    Collection();
    AfterCollection();
  }

  lemma BeforeCollection()
    ensures Read(OneUnit(), S3(), 0, 0) == Some(9)
    ensures !Wanted(OneUnit(), S1(), 0.6) && !Wanted(OneUnit(), S2(), 0.6) && Wanted(OneUnit(), S3(), 0.6)
    ensures S3().reclaimMore && Selection(OneUnit(), S3().blocks, Greedy(), 2, [0])
  {
    hide Greedy;
    HighestOne(2);
    HighestOne(1);
    SelectsOnly(OneUnit(), S3().blocks, Greedy(), 2, 0);
  }

  lemma AfterCollection()
    requires Erase(OneUnit(), S5(), 0).Running?
    ensures Read(OneUnit(), Erase(OneUnit(), S5(), 0).value, 0, 0) == Some(7)
  {
    var e := Erase(OneUnit(), S5(), 0).value;
    assert e.table[0] == [Entry(1, 1)] && e.media[Loc(1, 1, 0)] == 7;
  }

  lemma Collection()
    ensures Erase(OneUnit(), S5(), 0).Running?
    ensures Collected(OneUnit(), S3(), [0]) == Erase(OneUnit(), S5(), 0)
  {
    var c := OneUnit();
    Step4(); Step5();
    assert MovePages(c, S5(), 0, 2) == Running(S5());
    assert MovePages(c, S4(), 0, 1) == Running(S5());
    assert MovePages(c, S3(), 0, 0) == Running(S5());
    assert MoveBlocks(c, S5(), [0], 1) == Running(S5());
    assert MoveBlocks(c, S3(), [0], 0) == Running(S5());
    var e := Erase(c, S5(), 0);
    assert EraseBlocks(c, e.value, [0], 1) == e;
  }

  // ---------------------------------------------------------------- a write head is collected

  function TwoHeads(): Config {
    Config(4, 1, 2, 2, 100, true, false, (free, idx, draw) => 0)
  }

  function Blank2(i: nat): Block {
    Block(i, 0, [0, 0], map[], {})
  }

  function T0(): State {
    State(map[], map[0 := Blank2(0), 1 := Blank2(1)], [Blank2(2), Blank2(3)], [], 2, [0, 1], 0, {}, false, 2, 0, 0, map[])
  }

  /** A block with one unit of LPN 0 in lane 0: still valid, or no longer. */
  function Newest(i: nat): Block {
    Block(i, 0, [1, 0], map[Unit(0, 0) := 0], {Unit(0, 0)})
  }

  function Stale(i: nat): Block {
    Block(i, 0, [1, 0], map[Unit(0, 0) := 0], {})
  }

  function T1(): State {
    T0().(table := map[0 := [Entry(0, 0), Entry(4, 1)]], blocks := map[0 := Newest(0), 1 := Blank2(1)],
          ioMap := {0}, media := map[Loc(0, 0, 0) := 7])
  }

  function T2(): State {
    T1().(table := map[0 := [Entry(1, 0), Entry(4, 1)]], blocks := map[0 := Stale(0), 1 := Newest(1)],
          headIndex := 1, copies := 1, media := map[Loc(0, 0, 0) := 7, Loc(1, 0, 0) := 7])
  }

  lemma HighestTwo(x: nat, y: nat)
    ensures Highest([x, y]) == if x < y then y else x
  {
    assert [x, y][..1] == [x];
    HighestOne(x);
  }

  lemma HeadStep0()
    ensures ClaimHeads(TwoHeads(), Fresh(TwoHeads(), [Blank2(0), Blank2(1), Blank2(2), Blank2(3)]), 0) == Running(T0())
  {
    var c := TwoHeads();
    var s := Fresh(c, [Blank2(0), Blank2(1), Blank2(2), Blank2(3)]);
    var (s1, b1) := GetFreeBlock(c, s, 0).value;
    assert b1 == 0 && s1.free == [Blank2(1), Blank2(2), Blank2(3)] && s1.heads == [0, 0];
    var s2 := s1.(heads := s1.heads[0 := 0]);
    var (s3, b3) := GetFreeBlock(c, s2, 1).value;
    assert b3 == 1 && s3.free == [Blank2(2), Blank2(3)];
    assert s3.heads[1 := 1] == [0, 1];
    assert s3.(heads := [0, 1]) == T0();
    assert ClaimHeads(c, T0(), 2) == Running(T0());
    assert ClaimHeads(c, s2, 1) == Running(T0());
  }

  lemma HeadStep1()
    ensures Store(TwoHeads(), T0(), 0, {0}, Always(7)) == Running(T1())
  {
    var c := TwoHeads();
    HighestTwo(0, 0);
    var s := Prepared(c, T0(), 0, {0}).value;
    assert EmptyRow(c) == [Entry(4, 1), Entry(4, 1)];
    assert s.ioMap * {0} == {} && s.ioMap + {0} == {0};
    var s' := s.(ioMap := {0});
    assert LastFreeBlock(c, s, {0}) == Running((s', 0));
    var p := ProgramUnit(c, s', 0, 0, 0, 7).value;
    assert SameBlock(p.blocks[0], T1().blocks[0]);
    assert p.table[0] == T1().table[0];
    assert p.table == T1().table && p.blocks == T1().blocks && p.media == T1().media;
    assert p == T1();
    assert Programmed(c, p, 0, {0}, Always(7), 0, 2) == Running(p);
    assert Programmed(c, p, 0, {0}, Always(7), 0, 1) == Running(p);
  }

  /** The only valid unit of the collected head moves to the other head. */
  lemma HeadStep2()
    ensures MovePage(TwoHeads(), T1(), 0, 0) == Running(T2())
  {
    var c := TwoHeads();
    HighestTwo(0, 0);
    var s := T1();
    assert PageInfo(c, s.blocks[0], 0) == {0} && Moved(c, {0}) == {0};
    assert 0 in s.ioMap * {0};
    var s1 := s.(headIndex := 1);
    assert Advanced(c, s, {0}) == s1;
    assert LastFreeBlock(c, s, {0}) == Running((s1, 1));
    var p := MoveUnit(c, s1, 0, Unit(0, 0), 0, 1).value;
    assert SameBlock(p.blocks[0], T2().blocks[0]);
    assert SameBlock(p.blocks[1], T2().blocks[1]);
    assert p.table[0] == T2().table[0];
    assert p.table == T2().table && p.blocks == T2().blocks && p.media == T2().media;
    assert p == T2();
    assert MoveLanes(c, p, 0, 0, s.blocks[0], {0}, 1, 2) == Running(p);
    assert MoveLanes(c, p, 0, 0, s.blocks[0], {0}, 1, 1) == Running(p);
  }

  lemma HeadVictim()
    ensures Collected(TwoHeads(), T1(), [0]).Running?
    ensures var s := Collected(TwoHeads(), T1(), [0]).value;
      s.blocks.Keys == {1} && s.heads == [0, 1] && s.headIndex == 1 && s.ioMap == {0} && 0 in s.table
      && s.table[0] == [Entry(1, 0), Entry(4, 1)]
  {
    hide MovePage;
    var c := TwoHeads();
    HeadStep2();
    assert MovePages(c, T2(), 0, 1) == Running(T2());
    assert MovePages(c, T1(), 0, 0) == Running(T2());
    assert MoveBlocks(c, T2(), [0], 1) == Running(T2());
    assert MoveBlocks(c, T1(), [0], 0) == Running(T2());
    var e := Erase(c, T2(), 0);
    assert EraseBlocks(c, e.value, [0], 1) == e;
  }

  lemma HeadSelected()
    ensures Wanted(TwoHeads(), T1(), 0.6) && !T1().reclaimMore && Selection(TwoHeads(), T1().blocks, Greedy(), 1, [0])
  {
    hide Greedy;
    HighestTwo(1, 0);
    HighestTwo(0, 0);
    SelectsOnly(TwoHeads(), T1().blocks, Greedy(), 1, 0);
  }

  /** Two write heads, four blocks of one page, a threshold ratio of 0.6. The first write, one unit of LPN 0, fills the
      first head and calls for garbage collection. The greedy policy selects the one full block there is, that head; its
      unit moves to the second head, and the first is left a block that is not in use. The next write turns to it and
      halts as "Corrupted". */
  lemma CollectedHeadHalts()
    ensures ClaimHeads(TwoHeads(), Fresh(TwoHeads(), [Blank2(0), Blank2(1), Blank2(2), Blank2(3)]), 0) == Running(T0())
    ensures Store(TwoHeads(), T0(), 0, {0}, Always(7)) == Running(T1())
    ensures Wanted(TwoHeads(), T1(), 0.6) && !T1().reclaimMore && Selection(TwoHeads(), T1().blocks, Greedy(), 1, [0])
    ensures Collected(TwoHeads(), T1(), [0]).Running?
    ensures Store(TwoHeads(), Collected(TwoHeads(), T1(), [0]).value, 0, {0}, Always(9)) == Halted(Corrupted)
  {
    hide T0, T1, Store, Selection, Collected, ClaimHeads, Wanted;
    HeadStep0(); HeadStep1(); HeadSelected(); HeadVictim();
    CollectedHeadIsMissed();
  }

  lemma CollectedHeadIsMissed()
    requires Collected(TwoHeads(), T1(), [0]).Running?
    ensures Store(TwoHeads(), Collected(TwoHeads(), T1(), [0]).value, 0, {0}, Always(9)) == Halted(Corrupted)
  {
    hide Collected;
    var c := TwoHeads();
    HeadVictim();
    var s := Collected(c, T1(), [0]).value;
    var cleared := ClearOld(s, Entry(1, 0), 0);
    assert Invalidated(c, cleared, 0, {0}, 2) == Running(cleared);
    assert Invalidated(c, cleared, 0, {0}, 1) == Running(cleared);
    assert Prepared(c, s, 0, {0}) == Running(cleared);
    assert 0 in cleared.ioMap * {0};
    assert Advanced(c, cleared, {0}).headIndex == 0;
  }

  // ---------------------------------------------------------------- the last free block is used up

  function OneHead(): Config {
    Config(3, 1, 2, 1, 100, true, false, (free, idx, draw) => 0)
  }

  function U0(): State {
    State(map[], map[0 := Blank2(0)], [Blank2(1), Blank2(2)], [], 2, [0], 0, {}, false, 1, 0, 0, map[])
  }

  function U1(): State {
    U0().(table := map[0 := [Entry(0, 0), Entry(3, 1)]], blocks := map[0 := Newest(0)],
          ioMap := {0}, media := map[Loc(0, 0, 0) := 7])
  }

  function U2(): State {
    U1().(table := map[0 := [Entry(1, 0), Entry(3, 1)]], blocks := map[0 := Stale(0), 1 := Newest(1)],
          free := [Blank2(2)], nFree := 1, heads := [1], reclaimMore := true, draws := 2,
          media := map[Loc(0, 0, 0) := 7, Loc(1, 0, 0) := 8])
  }

  function U3(): State {
    U2().(table := map[0 := [Entry(2, 0), Entry(3, 1)]], blocks := map[0 := Stale(0), 1 := Stale(1), 2 := Newest(2)],
          free := [], nFree := 0, heads := [2], draws := 3,
          media := map[Loc(0, 0, 0) := 7, Loc(1, 0, 0) := 8, Loc(2, 0, 0) := 9])
  }

  lemma LastStep0()
    ensures ClaimHeads(OneHead(), Fresh(OneHead(), [Blank2(0), Blank2(1), Blank2(2)]), 0) == Running(U0())
  {
    var c := OneHead();
    var s := Fresh(c, [Blank2(0), Blank2(1), Blank2(2)]);
    var (s1, b) := GetFreeBlock(c, s, 0).value;
    assert s1.free == [Blank2(1), Blank2(2)] && s1.heads[0 := b] == [0];
    assert s1.(heads := [0]) == U0();
    assert ClaimHeads(c, U0(), 1) == Running(U0());
  }

  lemma LastStep1()
    ensures Store(OneHead(), U0(), 0, {0}, Always(7)) == Running(U1())
  {
    var c := OneHead();
    HighestTwo(0, 0);
    var s := Prepared(c, U0(), 0, {0}).value;
    assert EmptyRow(c) == [Entry(3, 1), Entry(3, 1)];
    assert s.ioMap * {0} == {} && s.ioMap + {0} == {0};
    var s' := s.(ioMap := {0});
    assert LastFreeBlock(c, s, {0}) == Running((s', 0));
    assert s'.table[0][0 := Entry(0, 0)] == U1().table[0];
    assert s'.table[0 := U1().table[0]] == U1().table && s'.blocks[0 := Newest(0)] == U1().blocks;
    assert s'.media[Loc(0, 0, 0) := 7] == U1().media;
    LastProgram(s', U1(), 0, 7);
  }

  /** One unit of LPN 0, written to lane 0 of a blank block. */
  lemma LastProgram(s: State, s': State, dst: nat, d: Data)
    requires 0 in s.table && |s.table[0]| == 2 && dst in s.blocks && s.blocks[dst] == Blank2(dst)
    requires s' == s.(table := s.table[0 := s.table[0][0 := Entry(dst, 0)]], blocks := s.blocks[dst := Newest(dst)],
                      media := s.media[Loc(dst, 0, 0) := d])
    ensures Programmed(OneHead(), s, 0, {0}, Always(d), dst, 0) == Running(s')
  {
    var c := OneHead();
    var p := ProgramUnit(c, s, 0, 0, dst, d).value;
    assert SameBlock(p.blocks[dst], Newest(dst));
    assert p == s';
    assert Programmed(c, p, 0, {0}, Always(d), dst, 2) == Running(p);
    assert Programmed(c, p, 0, {0}, Always(d), dst, 1) == Running(p);
  }

  /** Rewriting the unit: its old copy in block dst - 1, the head, goes stale and the head moves on. */
  lemma LastRewrite(s: State, cleared: State, s2: State, s': State, dst: nat, d: Data)
    requires 0 in s.table && |s.table[0]| == 2 && 1 <= dst < 3 && s.table[0][0] == Entry(dst - 1, 0)
    requires dst - 1 in s.blocks && s.blocks[dst - 1] == Newest(dst - 1) && dst !in s.blocks
    requires cleared == s.(blocks := s.blocks[dst - 1 := Stale(dst - 1)])
    requires s.heads == [dst - 1] && s.headIndex == 0 && s.ioMap == {0}
    requires |s.free| > 0 && s.nFree == |s.free| && s.free[0] == Blank2(dst)
    requires s2 == cleared.(blocks := cleared.blocks[dst := Blank2(dst)], free := s.free[1..], nFree := s.nFree - 1,
                            draws := s.draws + 1, heads := [dst], reclaimMore := true)
    requires s' == s2.(table := s2.table[0 := s2.table[0][0 := Entry(dst, 0)]], blocks := s2.blocks[dst := Newest(dst)],
                       media := s2.media[Loc(dst, 0, 0) := d])
    ensures Store(OneHead(), s, 0, {0}, Always(d)) == Running(s')
  {
    hide Programmed;
    var c := OneHead();
    HighestTwo(1, 0);
    assert SameBlock(Newest(dst - 1).Invalidate(Unit(0, 0)), Stale(dst - 1));
    assert ClearOld(s, Entry(dst - 1, 0), 0) == cleared;
    assert Invalidated(c, cleared, 0, {0}, 2) == Running(cleared);
    assert Invalidated(c, cleared, 0, {0}, 1) == Running(cleared);
    assert Prepared(c, s, 0, {0}) == Running(cleared);
    assert 0 in cleared.ioMap * {0};
    assert Advanced(c, cleared, {0}) == cleared;
    var (s1, b) := GetFreeBlock(c, cleared, 0).value;
    assert b == dst && s1.free == s.free[1..];
    assert s1.heads[0 := dst] == [dst];
    assert LastFreeBlock(c, cleared, {0}) == Running((s2, dst));
    LastProgram(s2, s', dst, d);
  }

  lemma LastStep2()
    ensures Store(OneHead(), U1(), 0, {0}, Always(8)) == Running(U2())
  {
    hide Store;
    var cleared := U1().(blocks := map[0 := Stale(0)]);
    assert U1().blocks[0 := Stale(0)] == cleared.blocks;
    var s2 := cleared.(blocks := map[0 := Stale(0), 1 := Blank2(1)], free := [Blank2(2)], nFree := 1, draws := 2, heads := [1],
                       reclaimMore := true);
    assert cleared.blocks[1 := Blank2(1)] == s2.blocks && U1().free[1..] == s2.free;
    assert s2.table[0][0 := Entry(1, 0)] == U2().table[0];
    assert s2.blocks[1 := Newest(1)] == U2().blocks && s2.media[Loc(1, 0, 0) := 8] == U2().media;
    LastRewrite(U1(), cleared, s2, U2(), 1, 8);
  }

  lemma LastStep3()
    ensures Store(OneHead(), U2(), 0, {0}, Always(9)) == Running(U3())
  {
    hide Store;
    var cleared := U2().(blocks := map[0 := Stale(0), 1 := Stale(1)]);
    assert U2().blocks[1 := Stale(1)] == cleared.blocks;
    var s2 := cleared.(blocks := map[0 := Stale(0), 1 := Stale(1), 2 := Blank2(2)], free := [], nFree := 0, draws := 3,
                       heads := [2], reclaimMore := true);
    assert cleared.blocks[2 := Blank2(2)] == s2.blocks && U2().free[1..] == s2.free;
    assert s2.table[0][0 := Entry(2, 0)] == U3().table[0];
    assert s2.blocks[2 := Newest(2)] == U3().blocks && s2.media[Loc(2, 0, 0) := 9] == U3().media;
    LastRewrite(U2(), cleared, s2, U3(), 2, 9);
  }

  /** One write head, one page per block, three blocks, a threshold ratio of 0.2. Writing one unit of LPN 0 three times
      takes the last free block, and only then calls for garbage collection; the greedy policy, asked for one block and one more for the head that ran full, selects the two blocks without a
      valid unit. Both are far from their threshold, nothing is copied, and the collection halts: the first erased block
      finds no list to be sorted into. */
  lemma LastFreeBlockHalts()
    ensures ClaimHeads(OneHead(), Fresh(OneHead(), [Blank2(0), Blank2(1), Blank2(2)]), 0) == Running(U0())
    ensures Store(OneHead(), U0(), 0, {0}, Always(7)) == Running(U1())
    ensures Store(OneHead(), U1(), 0, {0}, Always(8)) == Running(U2())
    ensures Store(OneHead(), U2(), 0, {0}, Always(9)) == Running(U3())
    ensures !Wanted(OneHead(), U1(), 0.2) && !Wanted(OneHead(), U2(), 0.2) && Wanted(OneHead(), U3(), 0.2)
    ensures U3().reclaimMore && Selection(OneHead(), U3().blocks, Greedy(), 1 + OneHead().heads, [0, 1])
    ensures MoveBlocks(OneHead(), U3(), [0, 1], 0) == Running(U3())
    ensures Collected(OneHead(), U3(), [0, 1]) == Halted(EmptyFreeList)
  {
    hide U0, U1, U2, U3, Store, Selection, Collected, MoveBlocks, ClaimHeads, Wanted;
    LastStep0(); LastStep1(); LastStep2(); LastStep3();
    LastSelection();
    LastCollection();
  }

  lemma LastSelection()
    ensures !Wanted(OneHead(), U1(), 0.2) && !Wanted(OneHead(), U2(), 0.2) && Wanted(OneHead(), U3(), 0.2)
    ensures U3().reclaimMore && Selection(OneHead(), U3().blocks, Greedy(), 1 + OneHead().heads, [0, 1])
  {
    HighestTwo(1, 0);
    SelectsTwo(OneHead(), U3().blocks, Greedy(), 0, 1, 2);
  }

  lemma LastCollection()
    ensures MoveBlocks(OneHead(), U3(), [0, 1], 0) == Running(U3())
    ensures Collected(OneHead(), U3(), [0, 1]) == Halted(EmptyFreeList)
  {
    var c := OneHead();
    forall b | b == 0 || b == 1
      ensures MovePages(c, U3(), b, 0) == Running(U3())
    {
      assert PageInfo(c, U3().blocks[b], 0) == {};
      assert MovePages(c, U3(), b, 1) == Running(U3());
    }
    assert MoveBlocks(c, U3(), [0, 1], 2) == Running(U3());
    assert MoveBlocks(c, U3(), [0, 1], 1) == Running(U3());
    assert Erase(c, U3(), 0) == Halted(EmptyFreeList);
  }

  // ---------------------------------------------------------------- the threshold is cut to 32 bits

  function Huge(): Config {
    OneHead().(threshold := 0x1_0000_0000)
  }

  /** Two full blocks without a valid unit, the first one erased once. */
  function Unequal(): map<nat, Block> {
    map[0 := Stale(0).(eraseCount := 1), 1 := Stale(1)]
  }

  lemma UnequalCosts(scale: real)
    requires 0.0 < scale
    ensures var c, bs := Huge(), Unequal();
      && WearAware(scale, c.pages, c.threshold)(bs[0]) > 0.0 == WearAware(scale, c.pages, c.threshold)(bs[1])
      && BudgetAware(scale, c.pages, c.threshold)(bs[0]) == 0.0 == BudgetAware(scale, c.pages, c.threshold)(bs[1])
      && c.Full(bs[0]) && c.Full(bs[1])
  {
    HighestTwo(1, 0);
    Share(scale, 0x1_0000_0000 as real);
  }

  lemma Share(scale: real, threshold: real)
    requires 0.0 < scale && 0.0 < threshold
    ensures 0.0 < scale * 1.0 / threshold
  {
  }

  /** With a threshold of 2 to the 32 the budget-aware cost sees no wear at all: asked for one of two full blocks without
      valid units it may take the one that is worn more, which the wear-aware cost never does. */
  lemma CutIgnoresWear(scale: real)
    requires 0.0 < scale
    ensures !WithinCut(Huge(), Unequal())
    ensures Selection(Huge(), Unequal(), BudgetAware(scale, 1, Huge().threshold), 1, [0])
    ensures !Selection(Huge(), Unequal(), WearAware(scale, 1, Huge().threshold), 1, [0])
    ensures Selection(Huge(), Unequal(), WearAware(scale, 1, Huge().threshold), 1, [1])
  {
    hide WearAware, BudgetAware, Highest;
    UnequalCosts(scale);
    assert 1 in Unequal() && 1 !in [0] && [0][0] == 0;
  }
}
