/**
 How many fresh blocks a garbage collection can take when the random-I/O tweak is off, and so how many free blocks are
 enough for it not to halt.
 */
module FtlSpace {
  import opened Ftl
  import opened FtlMapping
  import opened FtlGc
  import opened FtlWear
  import opened FtlHeads
  import opened FtlPlan
  import opened FtlRuns

  // ---------------------------------------------------------------- one page, one turn

  /** With the tweak off a plan writes lane 0 only, and every head has a block of its own. */
  ghost predicate Level(c: Config, p: Plan) {
    && PlanOk(c, p) && !c.tweak && 0 < c.units && 0 < c.pages && 0 < c.heads
    && (forall i, j :: 0 <= i < j < c.heads ==> p.heads[i] != p.heads[j])
    && (forall h :: h in p.next ==> p.next[h][0] <= c.pages && forall u :: 1 <= u < c.units ==> p.next[h][u] == 0)
  }

  /** Pages written so far in the block of head i. */
  function Written(c: Config, p: Plan, i: nat): nat
    requires Level(c, p) && i < c.heads
  {
    p.next[p.heads[i]][0]
  }

  function NextHead(c: Config, i: nat): nat {
    if i + 1 == c.heads then 0 else i + 1
  }

  /** One page copy: the next head in turn takes one more page, out of a fresh block if its own was full. */
  ghost predicate TakesTurn(c: Config, p: Plan, p': Plan)
    requires Level(c, p) && Level(c, p')
  {
    var i := NextHead(c, p.headIndex);
    && p'.headIndex == i && p'.copies == p.copies + 1
    && p.taken <= p'.taken <= p.taken + 1
    && (p'.taken == p.taken ==> Written(c, p', i) == Written(c, p, i) + 1)
    && (p'.taken > p.taken ==> Written(c, p, i) == c.pages && Written(c, p', i) == 1)
    && forall j: nat :: j < c.heads && j != i ==> Written(c, p', j) == Written(c, p, j)
  }

  lemma HighestIsFirst(next: seq<nat>)
    requires 0 < |next| && forall u :: 1 <= u < |next| ==> next[u] == 0
    ensures Highest(next) == next[0]
  {
  }

  lemma HeadTurn(c: Config, p: Plan, bits: set<nat>)
    requires Level(c, p)
    ensures var p' := Claim(c, p, bits); var i := NextHead(c, p.headIndex);
      && Level(c, p') && p'.headIndex == i && p'.copies == p.copies
      && (p'.taken == p.taken ==> Written(c, p', i) == Written(c, p, i))
      && (p'.taken > p.taken ==> Written(c, p, i) == c.pages && Written(c, p', i) == 0)
      && Written(c, p', i) < c.pages
      && forall j: nat :: j < c.heads && j != i ==> Written(c, p', j) == Written(c, p, j)
  {
    HighestIsFirst(p.next[p.heads[NextHead(c, p.headIndex)]]);
  }

  lemma FillTurn(c: Config, p: Plan, bits: set<nat>)
    requires Level(c, p) && Written(c, p, p.headIndex) < c.pages
    ensures var p' := Fill(c, p, bits, 0);
      && Level(c, p') && p'.headIndex == p.headIndex && p'.taken == p.taken && p'.copies == p.copies + 1
      && Written(c, p', p.headIndex) == Written(c, p, p.headIndex) + 1
      && forall j: nat :: j < c.heads && j != p.headIndex ==> Written(c, p', j) == Written(c, p, j)
  {
    var h := p.heads[p.headIndex];
    var p' := p.(next := p.next[h := p.next[h][0 := p.next[h][0] + 1]], copies := p.copies + 1);
    assert Fill(c, p, bits, 0) == Fill(c, p', bits, 1) == p';
  }

  lemma PageTurn(c: Config, p: Plan, bits: set<nat>)
    requires Level(c, p) && bits != {}
    ensures var p' := PlanPage(c, p, bits); Level(c, p') && TakesTurn(c, p, p')
  {
    hide Claim, Fill, Level;
    LevelOk(c, p);
    HeadTurn(c, p, Moved(c, bits));
    FillTurn(c, Claim(c, p, Moved(c, bits)), Moved(c, bits));
  }

  lemma LevelOk(c: Config, p: Plan)
    requires Level(c, p)
    ensures PlanOk(c, p) && p.headIndex < c.heads && 0 < c.heads && 0 < c.pages && !c.tweak
    ensures forall i: nat :: i < c.heads ==> Written(c, p, i) <= c.pages
  {
  }

  // ---------------------------------------------------------------- counting turns

  function Total(a: seq<nat>): nat {
    if |a| == 0 then 0 else a[0] + Total(a[1..])
  }

  lemma {:induction false} TotalBump(a: seq<nat>, i: nat)
    requires i < |a|
    ensures Total(a[i := a[i] + 1]) == Total(a) + 1
  {
    var more := a[i := a[i] + 1];
    if i == 0 {
      assert more[1..] == a[1..];
    } else {
      assert more[1..] == a[1..][i - 1 := a[1..][i - 1] + 1];
      TotalBump(a[1..], i - 1);
    }
  }

  lemma {:induction false} TotalBound(a: seq<nat>, q: nat)
    requires forall i :: 0 <= i < |a| ==> a[i] <= q
    ensures Total(a) <= |a| * q
  {
    if |a| > 0 {
      TotalBound(a[1..], q);
      assert |a| * q == (|a| - 1) * q + q;
    }
  }

  /** How many turns after h0 head i comes first, counting from 0. */
  function Distance(c: Config, h0: nat, i: nat): int {
    if i > h0 then i - h0 - 1 else i + c.heads - h0 - 1
  }

  /** After `rounds` full rounds and `extra` turns more: head i had turns[i] turns and took blocks[i] fresh blocks. */
  datatype Tally = Tally(rounds: nat, extra: nat, turns: seq<nat>, taken: seq<nat>)

  /** The head that had the last of `extra` turns after h0. */
  function HeadAfter(c: Config, h0: nat, extra: nat): int {
    if h0 + extra < c.heads then h0 + extra else h0 + extra - c.heads
  }

  ghost predicate Tallied(c: Config, p0: Plan, p: Plan, t: Tally)
    requires Level(c, p0) && Level(c, p)
  {
    && |t.turns| == c.heads && |t.taken| == c.heads && t.extra < c.heads
    && p.headIndex == HeadAfter(c, p0.headIndex, t.extra)
    && p.copies == p0.copies + t.rounds * c.heads + t.extra
    && p.taken == p0.taken + Total(t.taken)
    && forall i: nat :: i < c.heads ==>
         && t.turns[i] == t.rounds + (if Distance(c, p0.headIndex, i) < t.extra then 1 else 0)
         && HeadTally(c.pages, Written(c, p0, i), Written(c, p, i), t.turns[i], t.taken[i])
  }

  /** A head that had `turns` turns and took `taken` fresh blocks went from `before` to `after` pages. */
  ghost predicate HeadTally(pages: nat, before: nat, after: nat, turns: nat, taken: nat) {
    && after + taken * pages == before + turns
    && (turns > 0 ==> after > 0)
    && (turns == 0 ==> taken == 0)
  }

  lemma HeadTallyStep(pages: nat, before: nat, after: nat, turns: nat, taken: nat)
    requires HeadTally(pages, before, after, turns, taken)
    ensures HeadTally(pages, before, after + 1, turns + 1, taken)
    ensures after == pages ==> HeadTally(pages, before, 1, turns + 1, taken + 1)
  {
    assert (taken + 1) * pages == taken * pages + pages;
  }

  lemma HeadTallyBound(pages: nat, before: nat, after: nat, turns: nat, taken: nat, q: nat)
    requires HeadTally(pages, before, after, turns, taken) && before <= pages && turns <= q * pages && 0 < pages
    ensures taken <= q
  {
    if turns > 0 {
      assert taken * pages < pages + q * pages == (q + 1) * pages;
      TakenBound(pages, taken, q);
    }
  }

  lemma StartTally(c: Config, p: Plan) returns (t: Tally)
    requires Level(c, p)
    ensures Tallied(c, p, p, t)
  {
    t := Tally(0, 0, seq(c.heads, _ => 0), seq(c.heads, _ => 0));
    TotalBound(t.taken, 0);
  }

  lemma Turn(c: Config, p0: Plan, p: Plan, p': Plan, t: Tally) returns (t': Tally)
    requires Level(c, p0) && Level(c, p) && Level(c, p')
    requires Tallied(c, p0, p, t) && TakesTurn(c, p, p')
    ensures Tallied(c, p0, p', t')
  {
    hide Level, HeadTally, Distance, HeadAfter, NextHead, Total;
    var i := NextHead(c, p.headIndex);
    LevelOk(c, p0);
    NextInTurn(c, p0.headIndex, t.extra);
    var taken := if p'.taken > p.taken then t.taken[i := t.taken[i] + 1] else t.taken;
    TotalBump(t.taken, i);
    RoundUp(t.rounds, c.heads);
    t' := (if t.extra + 1 == c.heads then t.(rounds := t.rounds + 1, extra := 0) else t.(extra := t.extra + 1))
          .(turns := t.turns[i := t.turns[i] + 1], taken := taken);
    TurnsShared(c, p0.headIndex, t, t', i);
    HeadTallyStep(c.pages, Written(c, p0, i), Written(c, p, i), t.turns[i], t.taken[i]);
  }

  lemma NextInTurn(c: Config, h0: nat, extra: nat)
    requires h0 < c.heads && extra < c.heads
    ensures 0 <= HeadAfter(c, h0, extra) < c.heads
    ensures var i := NextHead(c, HeadAfter(c, h0, extra));
      && i < c.heads && Distance(c, h0, i) == extra
      && i == HeadAfter(c, h0, if extra + 1 == c.heads then 0 else extra + 1)
  {
  }

  /** The turn goes to the head that has waited longest, so all heads stay within one turn of each other. */
  lemma TurnsShared(c: Config, h0: nat, t: Tally, t': Tally, i: nat)
    requires |t.turns| == c.heads && t.extra < c.heads && h0 < c.heads && i < c.heads && Distance(c, h0, i) == t.extra
    requires t'.rounds == t.rounds + (if t.extra + 1 == c.heads then 1 else 0)
    requires t'.extra == if t.extra + 1 == c.heads then 0 else t.extra + 1
    requires t'.turns == t.turns[i := t.turns[i] + 1]
    requires forall j: nat :: j < c.heads ==> t.turns[j] == t.rounds + (if Distance(c, h0, j) < t.extra then 1 else 0)
    ensures forall j: nat :: j < c.heads ==> t'.turns[j] == t'.rounds + (if Distance(c, h0, j) < t'.extra then 1 else 0)
  {
  }

  lemma RoundUp(rounds: nat, heads: nat)
    ensures (rounds + 1) * heads == rounds * heads + heads
  {
  }

  /** Pages of a block that getPageInfo reports from `page` on, each of which costs one copy. */
  function PagesDue(c: Config, b: Block, page: nat): (n: nat)
    ensures n <= if page < c.pages then c.pages - page else 0
    decreases c.pages - page
  {
    if page >= c.pages then 0 else (if PageInfo(c, b, page) == {} then 0 else 1) + PagesDue(c, b, page + 1)
  }

  /** Pages that collecting the victims from k on has to copy. */
  function Due(c: Config, blocks: map<nat, Block>, victims: seq<nat>, k: nat): nat
    decreases |victims| - k
  {
    if k >= |victims| then 0
    else (if victims[k] in blocks then PagesDue(c, blocks[victims[k]], 0) else 0) + Due(c, blocks, victims, k + 1)
  }

  lemma {:induction false} DueBound(c: Config, blocks: map<nat, Block>, victims: seq<nat>, k: nat)
    requires k <= |victims|
    ensures Due(c, blocks, victims, k) <= (|victims| - k) * c.pages
    decreases |victims| - k
  {
    if k < |victims| {
      DueBound(c, blocks, victims, k + 1);
      Distribute(1, |victims| - k - 1, c.pages);
    }
  }

  lemma {:induction false} PagesTally(c: Config, p0: Plan, p: Plan, b: Block, page: nat, t: Tally) returns (t': Tally)
    requires Level(c, p0) && Level(c, p) && Tallied(c, p0, p, t)
    ensures PlanOk(c, p)
    ensures var p' := PlanPages(c, p, b, page);
      Level(c, p') && Tallied(c, p0, p', t') && p'.copies == p.copies + PagesDue(c, b, page)
    decreases c.pages - page
  {
    hide Level, Tallied, Claim, Fill, PageInfo;
    LevelOk(c, p);
    t' := t;
    if page < c.pages {
      var bits := PageInfo(c, b, page);
      if bits != {} {
        PageTurn(c, p, bits);
        t' := Turn(c, p0, p, PlanPage(c, p, bits), t);
      }
      t' := PagesTally(c, p0, PlanPage(c, p, bits), b, page + 1, t');
    }
  }

  lemma {:induction false} BlocksTally(c: Config, p0: Plan, p: Plan, blocks: map<nat, Block>, victims: seq<nat>, k: nat, t: Tally)
    returns (t': Tally)
    requires Level(c, p0) && Level(c, p) && Tallied(c, p0, p, t)
    ensures PlanOk(c, p)
    ensures var p' := PlanBlocks(c, p, blocks, victims, k);
      Level(c, p') && Tallied(c, p0, p', t') && p'.copies == p.copies + Due(c, blocks, victims, k)
    decreases |victims| - k
  {
    hide Level, Tallied, PlanPages, PagesDue;
    LevelOk(c, p);
    t' := t;
    if k < |victims| {
      var p1 := p;
      if victims[k] in blocks {
        t' := PagesTally(c, p0, p, blocks[victims[k]], 0, t);
        p1 := PlanPages(c, p, blocks[victims[k]], 0);
      }
      t' := BlocksTally(c, p0, p1, blocks, victims, k + 1, t');
    }
  }

  lemma TurnsBound(heads: nat, rounds: nat, extra: nat, most: nat)
    requires rounds * heads + extra <= most * heads && extra < heads
    ensures rounds + (if extra > 0 then 1 else 0) <= most
  {
    if rounds > most {
      MulGap(rounds, most + 1, heads);
      MulGap(most + 1, most, heads);
    }
  }

  lemma MulGap(a: nat, b: nat, n: nat)
    requires a >= b
    ensures a * n == b * n + (a - b) * n && 0 <= (a - b) * n
    ensures a > b ==> n <= (a - b) * n
  {
    var d := a - b;
    Distribute(b, d, n);
    if d > 0 { Distribute(1, d - 1, n); }
  }

  lemma Distribute(a: nat, b: nat, n: nat)
    ensures (a + b) * n == a * n + b * n && 0 <= b * n
  {
  }

  lemma TakenBound(pages: nat, taken: nat, q: nat)
    requires taken * pages < (q + 1) * pages
    ensures taken <= q
  {
    if taken > q {
      MulGap(taken, q + 1, pages);
    }
  }

  /** v page copies over P write heads take at most P * q fresh blocks as soon as v <= q * P * pagesInBlock, that is at
      most P * ceil(v / (P * pagesInBlock)). */
  lemma FewBlocksTaken(c: Config, p: Plan, blocks: map<nat, Block>, victims: seq<nat>, q: nat)
    requires Level(c, p) && Due(c, blocks, victims, 0) <= q * c.pages * c.heads
    ensures PlanOk(c, p)
    ensures PlanBlocks(c, p, blocks, victims, 0).taken <= p.taken + c.heads * q
  {
    hide Level, PlanBlocks, Due;
    LevelOk(c, p);
    var t := StartTally(c, p);
    t := BlocksTally(c, p, p, blocks, victims, 0, t);
    var p' := PlanBlocks(c, p, blocks, victims, 0);
    TurnsBound(c.heads, t.rounds, t.extra, q * c.pages);
    forall i: nat | i < c.heads
      ensures t.taken[i] <= q
    {
      HeadTallyBound(c.pages, Written(c, p, i), Written(c, p', i), t.turns[i], t.taken[i], q);
    }
    TotalBound(t.taken, q);
  }

  // ---------------------------------------------------------------- only the table's lanes are ever written

  ghost predicate Flat(c: Config, b: Block) {
    forall u :: c.Lanes() <= u < |b.next| ==> b.next[u] == 0
  }

  ghost predicate Narrow(c: Config, s: State) {
    && (forall b :: b in s.blocks ==> Flat(c, s.blocks[b]))
    && (forall k :: 0 <= k < |s.free| ==> Flat(c, s.free[k]))
  }

  lemma FreshNarrow(c: Config, free: seq<Block>)
    requires ErasedOk(c, free)
    ensures Narrow(c, Fresh(c, free))
  {
  }

  lemma GetFreeBlockNarrow(c: Config, s: State, idx: nat)
    requires Narrow(c, s) && GetFreeBlock(c, s, idx).Running?
    ensures Narrow(c, GetFreeBlock(c, s, idx).value.0)
  {
  }

  lemma {:induction false} ClaimHeadsNarrow(c: Config, s: State, i: nat)
    requires Narrow(c, s) && ClaimHeads(c, s, i).Running?
    ensures Narrow(c, ClaimHeads(c, s, i).value)
    decreases c.heads - i
  {
    hide GetFreeBlock;
    if i < c.heads {
      GetFreeBlockNarrow(c, s, i);
      var (s1, b) := GetFreeBlock(c, s, i).value;
      ClaimHeadsNarrow(c, s1.(heads := s1.heads[i := b]), i + 1);
    }
  }

  lemma LastFreeBlockNarrow(c: Config, s: State, flags: set<nat>)
    requires Narrow(c, s) && LastFreeBlock(c, s, flags).Running?
    ensures Narrow(c, LastFreeBlock(c, s, flags).value.0)
  {
    hide GetFreeBlock, Highest;
    var s1 := Advanced(c, s, flags);
    if c.Full(s1.blocks[s1.heads[s1.headIndex]]) {
      GetFreeBlockNarrow(c, s1, s1.headIndex);
    }
  }

  lemma {:induction false} InvalidatedNarrow(c: Config, s: State, lpn: nat, flags: set<nat>, u: nat)
    requires Narrow(c, s) && Invalidated(c, s, lpn, flags, u).Running?
    ensures Narrow(c, Invalidated(c, s, lpn, flags, u).value)
    decreases c.Lanes() - u
  {
    if u < c.Lanes() {
      if !c.Touches(flags, u) || !c.Mapped(s.table[lpn][u]) {
        InvalidatedNarrow(c, s, lpn, flags, u + 1);
      } else {
        InvalidatedNarrow(c, ClearOld(s, s.table[lpn][u], u), lpn, flags, u + 1);
      }
    }
  }

  lemma {:induction false} TrimmedNarrow(c: Config, s: State, lpn: nat, u: nat)
    requires Narrow(c, s) && Trimmed(c, s, lpn, u).Running?
    ensures Narrow(c, Trimmed(c, s, lpn, u).value)
    decreases c.Lanes() - u
  {
    if u < c.Lanes() {
      TrimmedNarrow(c, ClearOld(s, s.table[lpn][u], u), lpn, u + 1);
    }
  }

  lemma {:induction false} ProgrammedNarrow(c: Config, s: State, lpn: nat, flags: set<nat>, data: nat -> Data, dst: nat, u: nat)
    requires Narrow(c, s) && Programmed(c, s, lpn, flags, data, dst, u).Running?
    ensures Narrow(c, Programmed(c, s, lpn, flags, data, dst, u).value)
    decreases c.Lanes() - u
  {
    if u < c.Lanes() {
      if !c.Touches(flags, u) {
        ProgrammedNarrow(c, s, lpn, flags, data, dst, u + 1);
      } else {
        ProgrammedNarrow(c, ProgramUnit(c, s, lpn, u, dst, data(u)).value, lpn, flags, data, dst, u + 1);
      }
    }
  }

  lemma StoreNarrow(c: Config, s: State, lpn: nat, flags: set<nat>, data: nat -> Data)
    requires Narrow(c, s) && Store(c, s, lpn, flags, data).Running?
    ensures Narrow(c, Store(c, s, lpn, flags, data).value)
  {
    hide Invalidated, LastFreeBlock, Programmed;
    if lpn in s.table {
      InvalidatedNarrow(c, s, lpn, flags, 0);
    }
    var s1 := Prepared(c, s, lpn, flags).value;
    LastFreeBlockNarrow(c, s1, flags);
    var (s2, dst) := LastFreeBlock(c, s1, flags).value;
    ProgrammedNarrow(c, s2, lpn, flags, data, dst, 0);
  }

  lemma {:induction false} MoveLanesNarrow(c: Config, s: State, b: nat, p: nat, from: Block, bits: set<nat>, dst: nat, u: nat)
    requires Narrow(c, s) && MoveLanes(c, s, b, p, from, bits, dst, u).Running?
    ensures Narrow(c, MoveLanes(c, s, b, p, from, bits, dst, u).value)
    decreases c.Lanes() - u
  {
    hide Narrow, MoveUnit;
    if u < c.Lanes() {
      if !c.Touches(bits, u) {
        MoveLanesNarrow(c, s, b, p, from, bits, dst, u + 1);
      } else {
        MoveUnitNarrow(c, s, b, Unit(p, u), Label(from, Unit(p, u)), dst);
        MoveLanesNarrow(c, MoveUnit(c, s, b, Unit(p, u), Label(from, Unit(p, u)), dst).value, b, p, from, bits, dst, u + 1);
      }
    }
  }

  lemma MoveUnitNarrow(c: Config, s: State, b: nat, x: Unit, lpn: nat, dst: nat)
    requires Narrow(c, s) && x.lane < c.Lanes() && MoveUnit(c, s, b, x, lpn, dst).Running?
    ensures Narrow(c, MoveUnit(c, s, b, x, lpn, dst).value)
  {
  }

  lemma {:induction false} MovePagesNarrow(c: Config, s: State, b: nat, p: nat)
    requires Narrow(c, s) && MovePages(c, s, b, p).Running?
    ensures Narrow(c, MovePages(c, s, b, p).value)
    decreases c.pages - p
  {
    hide Narrow, LastFreeBlock, MoveLanes, PageInfo;
    if p < c.pages {
      var bits := PageInfo(c, s.blocks[b], p);
      if bits != {} {
        var (s1, dst) := LastFreeBlock(c, s, Moved(c, bits)).value;
        LastFreeBlockNarrow(c, s, Moved(c, bits));
        MoveLanesNarrow(c, s1, b, p, s.blocks[b], Moved(c, bits), dst, 0);
      }
      MovePagesNarrow(c, MovePage(c, s, b, p).value, b, p + 1);
    }
  }

  lemma {:induction false} MoveBlocksNarrow(c: Config, s: State, victims: seq<nat>, k: nat)
    requires Narrow(c, s) && MoveBlocks(c, s, victims, k).Running?
    ensures Narrow(c, MoveBlocks(c, s, victims, k).value)
    decreases |victims| - k
  {
    hide Narrow, MovePages;
    if k < |victims| {
      MovePagesNarrow(c, s, victims[k], 0);
      MoveBlocksNarrow(c, MovePages(c, s, victims[k], 0).value, victims, k + 1);
    }
  }

  lemma {:induction false} EraseBlocksNarrow(c: Config, s: State, victims: seq<nat>, k: nat)
    requires Narrow(c, s) && EraseBlocks(c, s, victims, k).Running?
    ensures Narrow(c, EraseBlocks(c, s, victims, k).value)
    decreases |victims| - k
  {
    if k < |victims| {
      EraseBlocksNarrow(c, Erase(c, s, victims[k]).value, victims, k + 1);
    }
  }

  lemma ApplyNarrow(c: Config, s: State, op: Op)
    requires Narrow(c, s) && Apply(c, s, op).Running?
    ensures Narrow(c, Apply(c, s, op).value.0)
  {
    hide Store, MoveBlocks, EraseBlocks, Trimmed, ReadLanes, Flat;
    match op
    case ReadOp(lpn, flags) =>
    case WriteOp(lpn, flags, data, collect) =>
      if flags != {} {
        var s0 := Counted(s, flags);
        StoreNarrow(c, s0, lpn, flags, data);
        var s1 := Store(c, s0, lpn, flags, data).value;
        var gc := collect(s1);
        if gc.Some? && |gc.value| > 0 {
          var s2 := s1.(reclaimMore := false);
          MoveBlocksNarrow(c, s2, gc.value, 0);
          EraseBlocksNarrow(c, MoveBlocks(c, s2, gc.value, 0).value, gc.value, 0);
        }
      }
    case TrimOp(lpn) =>
      if lpn in s.table {
        TrimmedNarrow(c, s, lpn, 0);
      }
  }

  /** Over any run, only the lanes that the table distinguishes are ever written; with the tweak off, lane 0. */
  lemma {:induction false} RunNarrow(c: Config, s: State, ops: seq<Op>)
    requires Narrow(c, s) && Run(c, s, ops).Running?
    ensures Narrow(c, Run(c, s, ops).value.0)
    decreases |ops|
  {
    hide Narrow, Apply;
    if |ops| > 0 {
      ApplyNarrow(c, s, ops[0]);
      RunNarrow(c, Apply(c, s, ops[0]).value.0, ops[1..]);
    }
  }

  // ---------------------------------------------------------------- enough free blocks

  /** The run is to end with the first block that retires, and one of these will. */
  ghost predicate EndsWithDeath(c: Config, s: State, victims: seq<nat>) {
    c.stopAtDeath && exists j :: 0 <= j < |victims| && !Returns(c, s, victims[j])
  }

  lemma StartIsLevel(c: Config, s: State)
    requires Shape(c, s) && HeadsOk(c, s) && Narrow(c, s) && !c.tweak
    ensures CanPlan(c, s) && Level(c, Start(c, s))
  {
    var p := Start(c, s);
    forall h | h in p.next
      ensures p.next[h][0] <= c.pages && forall u :: 1 <= u < c.units ==> p.next[h][u] == 0
    {
      assert BlockOk(c, s.blocks[h.block]) && Flat(c, s.blocks[h.block]);
    }
  }

  /** With the tweak off, the copies of a collection that has v pages to copy over P heads need no more than P * q free
      blocks if v <= q * P * pagesInBlock; with one more the whole collection goes
      through, unless the run is to end with the first block that retires. */
  lemma EnoughFreeBlocks(c: Config, s: State, victims: seq<nat>, q: nat)
    requires Inv(c, s) && Ledger(c, s) && HeadsOk(c, s) && Narrow(c, s) && !c.tweak
    requires VictimsOk(c, s, victims) && VictimsSound(c, s, victims, 0)
    requires Due(c, s.blocks, victims, 0) <= q * c.pages * c.heads && c.heads * q <= |s.free|
    ensures MoveBlocks(c, s, victims, 0).Running?
    ensures |MoveBlocks(c, s, victims, 0).value.free| >= |s.free| - c.heads * q
    ensures c.heads * q < |s.free| ==> (Collected(c, s, victims).Halted? <==> EndsWithDeath(c, s, victims))
  {
    hide Inv, Ledger, Narrow, VictimsOk, VictimsSound, Start, PlanBlocks, Level, MoveBlocks, Collected, Due, Shape, Returns;
    InvParts(c, s);
    StartIsLevel(c, s);
    FewBlocksTaken(c, Start(c, s), s.blocks, victims, q);
    StartsWithNone(c, s);
    CopiesHaltIff(c, s, victims);
    CollectedHaltsIff(c, s, victims);
  }

  lemma StartsWithNone(c: Config, s: State)
    requires CanPlan(c, s)
    ensures Start(c, s).taken == 0
  {
  }

  /** From the factory on, with the tweak off and victims never left as heads: whenever there are more than P * q free
      blocks, collecting up to P * q victims cannot halt, whatever was written before, unless the run is to end with the
      first block that retires. */
  lemma CollectionsGoThrough(c: Config, free: seq<Block>, ops: seq<Op>, victims: seq<nat>, q: nat)
    requires c.Ok() && !c.tweak && Initial(c, free) && c.heads <= |free|
    requires forall k :: 0 <= k < |ops| ==> OpOk(c, ops[k]) && OpServes(c, ops[k])
    ensures ClaimHeads(c, Fresh(c, free), 0).Running?
    ensures var r := Run(c, ClaimHeads(c, Fresh(c, free), 0).value, ops); r.Running? ==>
      var s := r.value.0;
      VictimsOk(c, s, victims) && VictimsSound(c, s, victims, 0) && |victims| <= c.heads * q && c.heads * q < |s.free| ==>
        (Collected(c, s, victims).Halted? <==> EndsWithDeath(c, s, victims))
  {
    hide Inv, Ledger, Narrow, OpOk, OpServes, Run, VictimsOk, VictimsSound, Collected, MoveBlocks, Refines, Due, ClaimHeads;
    hide Potential, ErasesLeft, SpendsAll, Asked;
    var s0 := Fresh(c, free);
    FreshOk(c, free);
    FreshNarrow(c, free);
    ClaimHeadsOk(c, s0, 0);
    ClaimHeadsNarrow(c, s0, 0);
    var s1 := ClaimHeads(c, s0, 0).value;
    if Run(c, s1, ops).Running? {
      var s := Run(c, s1, ops).value.0;
      RunKeepsHeads(c, s1, ops);
      RunNarrow(c, s1, ops);
      if VictimsOk(c, s, victims) && VictimsSound(c, s, victims, 0) && |victims| <= c.heads * q && c.heads * q < |s.free| {
        DueBound(c, s.blocks, victims, 0);
        Cover(|victims|, c.heads, q, c.pages);
        EnoughFreeBlocks(c, s, victims, q);
      }
    }
  }

  lemma Cover(v: nat, heads: nat, q: nat, pages: nat)
    requires v <= heads * q
    ensures v * pages <= q * pages * heads
  {
    MulGap(heads * q, v, pages);
    assert heads * q * pages == q * pages * heads;
  }
}
