/**
 The page-mapping flash translation layer as a step function on values.

 Every `panic`, `exit`, out-of-range `at` and dereference of a failed lookup in the source is an explicit
 `Halted` outcome here, so that the functions are total and the theorems can say which halts cannot happen.
 */
module Ftl {

  // The payload of one I/O unit. The simulator keeps no payload; the model adds it so that
  // "a read returns the last write" can be said.
  type Data = int
  const BLANK: Data := 0

  datatype Halt =
    | EndOfLife            // no free block left: exit(0) in getFreeBlock
    | Corrupted            // a write head, or an allocated block, is not where it must be
    | InvalidBlock         // GC was handed a block that is not in use
    | InvalidMapping       // GC found a recorded LPN without a table entry
    | BlockNotInUse        // trim met a table entry that points nowhere
    | NoSuchBlock          // an erase named a block that is not in use
    | ValidPagesInVictim   // an erase would lose valid data
    | EmptyFreeList        // the backward search of eraseInternal starts on an empty list
    | FirstDeath           // a block reached the erase threshold: exit(0) with StopAtFirstDeath
    | OutOfRange           // vector::at or Block::write outside the block
    | Undefined            // an unchecked lookup failed

  datatype Outcome<+T> = Running(value: T) | Halted(why: Halt) {
    predicate IsFailure() { Halted? }

    function PropagateFailure<U>(): Outcome<U>
      requires Halted?
    {
      Halted(why)
    }

    function Extract(): T
      requires Running?
    {
      value
    }
  }

  // ---------------------------------------------------------------- blocks

  /** One I/O unit inside a block: `lane` is the unit's index inside its super page. */
  datatype Unit = Unit(page: nat, lane: nat)

  /** `next[u]` is the write pointer of lane u, `lpns` the LPN recorded with each programmed unit. */
  datatype Block = Block(idx: nat, eraseCount: nat, next: seq<nat>, lpns: map<Unit, nat>, valid: set<Unit>) {

    function Program(u: nat, lpn: nat): Block
      requires u < |next|
    {
      var x := Unit(next[u], u);
      this.(next := next[u := next[u] + 1], lpns := lpns[x := lpn], valid := valid + {x})
    }

    function Invalidate(x: Unit): Block {
      this.(valid := valid - {x})
    }

    function Erased(): Block {
      this.(eraseCount := eraseCount + 1, next := seq(|next|, _ => 0), lpns := map[], valid := {})
    }
  }

  /** The no-argument getNextWritePageIndex: the largest write pointer of any lane. */
  function Highest(next: seq<nat>): (r: nat)
    ensures forall u :: 0 <= u < |next| ==> next[u] <= r
    ensures |next| > 0 ==> exists u :: 0 <= u < |next| && next[u] == r
  {
    if |next| == 0 then 0
    else
      var init := Highest(next[..|next| - 1]);
      if init < next[|next| - 1] then next[|next| - 1] else init
  }

  // ---------------------------------------------------------------- state

  /** A table cell. The pair (totalPhysicalBlocks, pagesInBlock) stands for "not mapped". */
  datatype Entry = Entry(block: nat, page: nat)

  /** A physical I/O unit of the whole device. */
  datatype Loc = Loc(block: nat, page: nat, lane: nat)

  /** `choose(free, idx, draw)` is the position in the free list that the allocation policy takes for
      write head `idx`; `draw` numbers the calls, so that a policy may also depend on randomness. */
  datatype Config = Config(
    total: nat, pages: nat, units: nat, heads: nat, threshold: nat, tweak: bool, stopAtDeath: bool,
    choose: (seq<Block>, nat, nat) -> nat)
  {
    /** bitsetSize: how many lanes the table distinguishes. */
    function Lanes(): nat {
      if tweak then units else 1
    }

    /** What the constructor relies on. */
    ghost predicate Ok() {
      && 0 < total && 0 < pages && 0 < units && 0 < heads
      && (forall free, idx, draw :: 0 < |free| ==> choose(free, idx, draw) < |free|)
    }

    predicate Mapped(e: Entry) {
      e.block < total && e.page < pages
    }

    predicate Full(b: Block) {
      Highest(b.next) == pages
    }

    /** The lanes a request with I/O flags `flags` works on. */
    predicate Touches(flags: set<nat>, u: nat) {
      u < Lanes() && (u in flags || !tweak)
    }
  }

  /** The halts of a device that has worn out, as far as it is to be worn. */
  predicate WornOut(c: Config, why: Halt) {
    why in {EndOfLife, EmptyFreeList} || (why == FirstDeath && c.stopAtDeath)
  }

  datatype State = State(
    table: map<nat, seq<Entry>>,
    blocks: map<nat, Block>, free: seq<Block>, dead: seq<Block>, nFree: nat,
    heads: seq<nat>, headIndex: nat, ioMap: set<nat>, reclaimMore: bool, draws: nat,
    copies: nat, hostUnits: nat,
    media: map<Loc, Data>)

  function Cell(media: map<Loc, Data>, x: Loc): Data {
    if x in media then media[x] else BLANK
  }

  // ---------------------------------------------------------------- allocation

  function GetFreeBlock(c: Config, s: State, idx: nat): Outcome<(State, nat)> {
    if s.nFree > 0 then
      var k := c.choose(s.free, idx, s.draws);
      if k >= |s.free| then Halted(Undefined)
      else
        var b := s.free[k];
        if b.idx in s.blocks then Halted(Corrupted)
        else
          Running((s.(blocks := s.blocks[b.idx := b], free := s.free[..k] + s.free[k + 1..],
                      nFree := s.nFree - 1, draws := s.draws + 1),
                   b.idx))
    else
      Halted(EndOfLife)
  }

  /** The write head advances when the request overlaps what the current head already took. */
  function Advanced(c: Config, s: State, ioMap: set<nat>): State {
    if !c.tweak || s.ioMap * ioMap != {} then
      s.(headIndex := if s.headIndex + 1 == c.heads then 0 else s.headIndex + 1, ioMap := ioMap)
    else
      s.(ioMap := s.ioMap + ioMap)
  }

  function LastFreeBlock(c: Config, s: State, ioMap: set<nat>): Outcome<(State, nat)> {
    var s1 := Advanced(c, s, ioMap);
    var i := s1.headIndex;
    if i >= |s1.heads| then Halted(OutOfRange)
    else if s1.heads[i] !in s1.blocks then Halted(Corrupted)
    else if c.Full(s1.blocks[s1.heads[i]]) then
      var (s2, b) :- GetFreeBlock(c, s1, i);
      if i >= |s2.heads| then Halted(OutOfRange)
      else Running((s2.(heads := s2.heads[i := b], reclaimMore := true), b))
    else
      Running((s1, s1.heads[i]))
  }

  // ---------------------------------------------------------------- host operations

  /** What the host reads at (lpn, u): None when nothing is mapped there. */
  datatype Option<+T> = None | Some(value: T)

  function Read(c: Config, s: State, lpn: nat, u: nat): Option<Data> {
    if lpn in s.table && u < |s.table[lpn]| && c.Mapped(s.table[lpn][u]) then
      var e := s.table[lpn][u];
      Some(Cell(s.media, Loc(e.block, e.page, u)))
    else
      None
  }

  /** readInternal: the units asked for, lane by lane; a mapped unit must lie in a block in use. */
  function ReadLanes(c: Config, s: State, lpn: nat, flags: set<nat>, u: nat): Outcome<seq<Option<Data>>>
    decreases c.Lanes() - u
  {
    if u >= c.Lanes() then Running([])
    else if !c.Touches(flags, u) || lpn !in s.table then
      var rest :- ReadLanes(c, s, lpn, flags, u + 1);
      Running([None] + rest)
    else if u >= |s.table[lpn]| then Halted(OutOfRange)
    else if c.Mapped(s.table[lpn][u]) && s.table[lpn][u].block !in s.blocks then Halted(BlockNotInUse)
    else
      var rest :- ReadLanes(c, s, lpn, flags, u + 1);
      Running([Read(c, s, lpn, u)] + rest)
  }

  /** First loop of writeInternal: clear the valid bits of what is about to be overwritten. */
  function Invalidated(c: Config, s: State, lpn: nat, flags: set<nat>, u: nat): Outcome<State>
    decreases c.Lanes() - u
  {
    if u >= c.Lanes() then Running(s)
    else if !c.Touches(flags, u) then Invalidated(c, s, lpn, flags, u + 1)
    else if lpn !in s.table || u >= |s.table[lpn]| then Halted(OutOfRange)
    else
      var e := s.table[lpn][u];
      if !c.Mapped(e) then Invalidated(c, s, lpn, flags, u + 1)
      else if e.block !in s.blocks then Halted(Undefined)
      else
        Invalidated(c, s.(blocks := s.blocks[e.block := s.blocks[e.block].Invalidate(Unit(e.page, u))]),
                    lpn, flags, u + 1)
  }

  /** Block::write, the table update and the physical program of one unit. */
  function ProgramUnit(c: Config, s: State, lpn: nat, u: nat, dst: nat, d: Data): Outcome<State> {
    if dst !in s.blocks then Halted(NoSuchBlock)
    else if lpn !in s.table || u >= |s.table[lpn]| then Halted(OutOfRange)
    else if u >= |s.blocks[dst].next| || s.blocks[dst].next[u] >= c.pages then Halted(OutOfRange)
    else
      var p := s.blocks[dst].next[u];
      Running(s.(blocks := s.blocks[dst := s.blocks[dst].Program(u, lpn)],
                 table := s.table[lpn := s.table[lpn][u := Entry(dst, p)]],
                 media := s.media[Loc(dst, p, u) := d]))
  }

  /** Second loop of writeInternal. */
  function Programmed(c: Config, s: State, lpn: nat, flags: set<nat>, data: nat -> Data, dst: nat, u: nat): Outcome<State>
    decreases c.Lanes() - u
  {
    if u >= c.Lanes() then Running(s)
    else if !c.Touches(flags, u) then Programmed(c, s, lpn, flags, data, dst, u + 1)
    else
      var s1 :- ProgramUnit(c, s, lpn, u, dst, data(u));
      Programmed(c, s1, lpn, flags, data, dst, u + 1)
  }

  /** The row `table.emplace` creates: every lane holds the "not mapped" pair. */
  function EmptyRow(c: Config): seq<Entry> {
    seq(c.Lanes(), _ => Entry(c.total, c.pages))
  }

  /** The old copies are invalidated, or an empty row is made. */
  function Prepared(c: Config, s: State, lpn: nat, flags: set<nat>): Outcome<State> {
    if lpn in s.table then Invalidated(c, s, lpn, flags, 0)
    else Running(s.(table := s.table[lpn := EmptyRow(c)]))
  }

  /** writeInternal up to garbage collection. */
  function Store(c: Config, s: State, lpn: nat, flags: set<nat>, data: nat -> Data): Outcome<State> {
    var s1 :- Prepared(c, s, lpn, flags);
    var (s2, dst) :- LastFreeBlock(c, s1, flags);
    Programmed(c, s2, lpn, flags, data, dst, 0)
  }

  /** writeInternal; `gc` is the victim list when the free-block ratio asked for garbage collection. */
  function Write(c: Config, s: State, lpn: nat, flags: set<nat>, data: nat -> Data, gc: Option<seq<nat>>): Outcome<State> {
    var s1 :- Store(c, s, lpn, flags, data);
    match gc
    case None => Running(s1)
    case Some(victims) => Collected(c, s1.(reclaimMore := false), victims)
  }

  /** trimInternal's loop: every lane must point to a block in use. */
  function Trimmed(c: Config, s: State, lpn: nat, u: nat): Outcome<State>
    decreases c.Lanes() - u
  {
    if u >= c.Lanes() then Running(s)
    else if lpn !in s.table || u >= |s.table[lpn]| then Halted(OutOfRange)
    else
      var e := s.table[lpn][u];
      if e.block !in s.blocks then Halted(BlockNotInUse)
      else
        Trimmed(c, s.(blocks := s.blocks[e.block := s.blocks[e.block].Invalidate(Unit(e.page, u))]), lpn, u + 1)
  }

  function Trim(c: Config, s: State, lpn: nat): Outcome<State> {
    if lpn !in s.table then Running(s)
    else
      var s1 :- Trimmed(c, s, lpn, 0);
      Running(s1.(table := s1.table - {lpn}))
  }

  // ---------------------------------------------------------------- garbage collection, page by page

  /** getPageInfo: the lanes of page p that GC takes for valid. With a single I/O unit per page the
      source sets the flag without consulting the valid bit. */
  function PageInfo(c: Config, b: Block, p: nat): set<nat> {
    if c.units == 1 then {0} else set x | x in b.valid && x.page == p :: x.lane
  }

  /** The recorded LPN; the source's array is zero where nothing was ever programmed. */
  function Label(b: Block, x: Unit): nat {
    if x in b.lpns then b.lpns[x] else 0
  }

  /** Move one unit of victim b to block dst, payload included. */
  function MoveUnit(c: Config, s: State, b: nat, x: Unit, lpn: nat, dst: nat): Outcome<State> {
    if b !in s.blocks then Halted(InvalidBlock)
    else
      var s1 := s.(blocks := s.blocks[b := s.blocks[b].Invalidate(x)]);
      if lpn !in s1.table then Halted(InvalidMapping)
      else
        var s2 :- ProgramUnit(c, s1, lpn, x.lane, dst, Cell(s.media, Loc(b, x.page, x.lane)));
        Running(s2.(copies := s2.copies + 1))
  }

  function MoveLanes(c: Config, s: State, b: nat, p: nat, from: Block, bits: set<nat>, dst: nat, u: nat): Outcome<State>
    decreases c.Lanes() - u
  {
    if u >= c.Lanes() then Running(s)
    else if !c.Touches(bits, u) then MoveLanes(c, s, b, p, from, bits, dst, u + 1)
    else
      var s1 :- MoveUnit(c, s, b, Unit(p, u), Label(from, Unit(p, u)), dst);
      MoveLanes(c, s1, b, p, from, bits, dst, u + 1)
  }

  function Below(n: nat): (r: set<nat>)
    ensures forall u: nat :: u in r <==> u < n
  {
    if n == 0 then {} else Below(n - 1) + {n - 1}
  }

  /** With the tweak off a whole super page is always moved. */
  function Moved(c: Config, bits: set<nat>): set<nat> {
    if c.tweak then bits else Below(c.units)
  }

  function MovePage(c: Config, s: State, b: nat, p: nat): Outcome<State> {
    if b !in s.blocks then Halted(InvalidBlock)
    else
      var bits := PageInfo(c, s.blocks[b], p);
      if bits == {} then Running(s)
      else
        var (s1, dst) :- LastFreeBlock(c, s, Moved(c, bits));
        MoveLanes(c, s1, b, p, s.blocks[b], Moved(c, bits), dst, 0)
  }

  function MovePages(c: Config, s: State, b: nat, p: nat): Outcome<State>
    decreases c.pages - p
  {
    if p >= c.pages then Running(s)
    else
      var s1 :- MovePage(c, s, b, p);
      MovePages(c, s1, b, p + 1)
  }

  function MoveBlocks(c: Config, s: State, victims: seq<nat>, k: nat): Outcome<State>
    decreases |victims| - k
  {
    if k >= |victims| then Running(s)
    else if victims[k] !in s.blocks then Halted(InvalidBlock)
    else
      var s1 :- MovePages(c, s, victims[k], 0);
      MoveBlocks(c, s1, victims, k + 1)
  }

  /** The backward search of eraseInternal: the insertion point among the first n blocks. */
  function InsertAt(free: seq<Block>, eraseCount: nat, n: nat): (k: nat)
    requires n <= |free|
    ensures k <= n
  {
    if n == 0 || free[n - 1].eraseCount <= eraseCount then n else InsertAt(free, eraseCount, n - 1)
  }

  function Inserted(free: seq<Block>, b: Block): seq<Block> {
    var k := InsertAt(free, b.eraseCount, |free|);
    free[..k] + [b] + free[k..]
  }

  function WithoutBlock(media: map<Loc, Data>, b: nat): map<Loc, Data> {
    map x | x in media && x.block != b :: media[x]
  }

  function Erase(c: Config, s: State, b: nat): Outcome<State> {
    if b !in s.blocks then Halted(NoSuchBlock)
    else if s.blocks[b].valid != {} then Halted(ValidPagesInVictim)
    else
      var e := s.blocks[b].Erased();
      var s1 := s.(blocks := s.blocks - {b}, media := WithoutBlock(s.media, b));
      if e.eraseCount < c.threshold then
        if |s.free| == 0 then Halted(EmptyFreeList)
        else Running(s1.(free := Inserted(s.free, e), nFree := s.nFree + 1))
      else if c.stopAtDeath then Halted(FirstDeath)
      else Running(s1.(dead := s.dead + [e]))
  }

  function EraseBlocks(c: Config, s: State, victims: seq<nat>, k: nat): Outcome<State>
    decreases |victims| - k
  {
    if k >= |victims| then Running(s)
    else
      var s1 :- Erase(c, s, victims[k]);
      EraseBlocks(c, s1, victims, k + 1)
  }

  /** Garbage collection as one would write it down: copy page by page, then erase. */
  function Collected(c: Config, s: State, victims: seq<nat>): Outcome<State> {
    if |victims| == 0 then Running(s)
    else
      var s1 :- MoveBlocks(c, s, victims, 0);
      EraseBlocks(c, s1, victims, 0)
  }

  // ---------------------------------------------------------------- what the host calls

  /** read(): an empty request is only warned about. */
  function HostRead(c: Config, s: State, lpn: nat, flags: set<nat>): Outcome<seq<Option<Data>>> {
    if flags == {} then Running(seq(c.Lanes(), _ => None)) else ReadLanes(c, s, lpn, flags, 0)
  }

  /** write(): an empty request is only warned about; otherwise the units are counted and written. */
  function HostWrite(c: Config, s: State, lpn: nat, flags: set<nat>, data: nat -> Data, gc: Option<seq<nat>>): Outcome<State> {
    if flags == {} then Running(s)
    else Write(c, s.(hostUnits := s.hostUnits + |flags|), lpn, flags, data, gc)
  }

  // ---------------------------------------------------------------- construction

  /** The constructor's loop: head i takes a free block, starting from nothing in use. */
  function ClaimHeads(c: Config, s: State, i: nat): Outcome<State>
    decreases c.heads - i
  {
    if i >= c.heads then Running(s)
    else
      var (s1, b) :- GetFreeBlock(c, s, i);
      if i >= |s1.heads| then Halted(OutOfRange)
      else ClaimHeads(c, s1.(heads := s1.heads[i := b]), i + 1)
  }

  /** The state before the heads are claimed; `free` is the list after applyInitialWear. */
  function Fresh(c: Config, free: seq<Block>): State {
    State(map[], map[], free, [], |free|, seq(c.heads, _ => 0), 0, {}, false, 0, 0, 0, map[])
  }
}
