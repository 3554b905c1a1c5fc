/**
 The block lists and the wear of the device: in-use, free and dead blocks partition the device, the free list
 stays sorted by erase count, and a potential bounds how many units can ever be programmed.
 */
module FtlWear {
  import opened Ftl

  // ---------------------------------------------------------------- the three lists

  predicate Listed(list: seq<Block>, i: nat) {
    exists k :: 0 <= k < |list| && list[k].idx == i
  }

  ghost predicate Distinct(list: seq<Block>) {
    forall j, k :: 0 <= j < k < |list| ==> list[j].idx != list[k].idx
  }

  /** Every block of the device is in use, free or dead, and in one of these only. */
  ghost predicate Partition(total: nat, inUse: set<nat>, free: seq<Block>, dead: seq<Block>) {
    && Distinct(free) && Distinct(dead)
    && (forall i: nat :: i < total <==> i in inUse || Listed(free, i) || Listed(dead, i))
    && (forall i: nat :: Listed(free, i) ==> i !in inUse && !Listed(dead, i))
    && (forall i: nat :: Listed(dead, i) ==> i !in inUse)
  }

  ghost predicate Ascending(free: seq<Block>) {
    forall j, k :: 0 <= j <= k < |free| ==> free[j].eraseCount <= free[k].eraseCount
  }

  /** Alive blocks are below the erase threshold; a dead block is one that reached it. */
  ghost predicate Lifespans(c: Config, s: State) {
    && (forall b :: b in s.blocks ==> s.blocks[b].eraseCount < c.threshold)
    && (forall k :: 0 <= k < |s.free| ==> s.free[k].eraseCount < c.threshold)
    && (forall k :: 0 <= k < |s.dead| ==> s.dead[k].eraseCount == c.threshold)
  }

  ghost predicate Pointers(c: Config, s: State) {
    && (forall b :: b in s.blocks ==> s.blocks[b].idx == b && PointersOk(c, s.blocks[b]))
    && (forall k :: 0 <= k < |s.free| ==> PointersOk(c, s.free[k]))
  }

  ghost predicate Ledger(c: Config, s: State) {
    && s.nFree == |s.free|
    && Partition(c.total, s.blocks.Keys, s.free, s.dead)
    && Ascending(s.free)
    && Lifespans(c, s)
    && Pointers(c, s)
  }

  lemma ListedRemove(list: seq<Block>, k: nat, i: nat)
    requires Distinct(list) && k < |list|
    ensures Distinct(list[..k] + list[k + 1..])
    ensures Listed(list[..k] + list[k + 1..], i) <==> Listed(list, i) && i != list[k].idx
  {
    var rest := list[..k] + list[k + 1..];
    if Listed(list, i) && i != list[k].idx {
      var j :| 0 <= j < |list| && list[j].idx == i;
      assert rest[if j < k then j else j - 1].idx == i;
    }
    if Listed(rest, i) {
      var j :| 0 <= j < |rest| && rest[j].idx == i;
      assert list[if j < k then j else j + 1].idx == i;
    }
  }

  lemma ListedInsert(list: seq<Block>, k: nat, b: Block, i: nat)
    requires Distinct(list) && k <= |list| && !Listed(list, b.idx)
    ensures Distinct(list[..k] + [b] + list[k..])
    ensures Listed(list[..k] + [b] + list[k..], i) <==> Listed(list, i) || i == b.idx
  {
    var more := list[..k] + [b] + list[k..];
    if Listed(list, i) {
      var j :| 0 <= j < |list| && list[j].idx == i;
      assert more[if j < k then j else j + 1].idx == i;
    }
    assert more[k] == b;
    if Listed(more, i) && i != b.idx {
      var j :| 0 <= j < |more| && more[j].idx == i;
      assert list[if j < k then j else j - 1].idx == i;
    }
  }

  lemma TakeKeepsPartition(total: nat, inUse: set<nat>, free: seq<Block>, dead: seq<Block>, k: nat)
    requires Partition(total, inUse, free, dead) && k < |free|
    ensures free[k].idx !in inUse
    ensures Partition(total, inUse + {free[k].idx}, free[..k] + free[k + 1..], dead)
  {
    assert Listed(free, free[k].idx);
    hide Listed, Distinct;
    ListedRemove(free, k, 0);
    forall i: nat
      ensures Listed(free[..k] + free[k + 1..], i) <==> Listed(free, i) && i != free[k].idx
    {
      ListedRemove(free, k, i);
    }
  }

  lemma ReturnKeepsPartition(total: nat, inUse: set<nat>, free: seq<Block>, dead: seq<Block>, b: Block, k: nat)
    requires Partition(total, inUse, free, dead) && b.idx in inUse && k <= |free|
    ensures Partition(total, inUse - {b.idx}, free[..k] + [b] + free[k..], dead)
  {
    forall i: nat
      ensures Listed(free[..k] + [b] + free[k..], i) <==> Listed(free, i) || i == b.idx
    {
      ListedInsert(free, k, b, i);
    }
    ListedInsert(free, k, b, 0);
  }

  lemma RetireKeepsPartition(total: nat, inUse: set<nat>, free: seq<Block>, dead: seq<Block>, b: Block)
    requires Partition(total, inUse, free, dead) && b.idx in inUse
    ensures Partition(total, inUse - {b.idx}, free, dead + [b])
  {
    assert dead[..|dead|] + [b] + dead[|dead|..] == dead + [b];
    forall i: nat
      ensures Listed(dead + [b], i) <==> Listed(dead, i) || i == b.idx
    {
      ListedInsert(dead, |dead|, b, i);
    }
    ListedInsert(dead, |dead|, b, 0);
  }

  /** The backward search finds the place that keeps the list sorted. */
  lemma {:induction false} InsertAtSplits(free: seq<Block>, eraseCount: nat, n: nat)
    requires Ascending(free) && n <= |free|
    requires forall j :: n <= j < |free| ==> eraseCount < free[j].eraseCount
    ensures var k := InsertAt(free, eraseCount, n);
      && (forall j :: 0 <= j < k ==> free[j].eraseCount <= eraseCount)
      && (forall j :: k <= j < |free| ==> eraseCount < free[j].eraseCount)
  {
    if n > 0 && eraseCount < free[n - 1].eraseCount {
      InsertAtSplits(free, eraseCount, n - 1);
    }
  }

  lemma InsertedAscending(free: seq<Block>, b: Block)
    requires Ascending(free)
    ensures Ascending(Inserted(free, b))
  {
    InsertAtSplits(free, b.eraseCount, |free|);
  }

  // ---------------------------------------------------------------- sums over the blocks that are alive

  function SumInUse(f: Block -> int, m: map<nat, Block>, n: nat): int {
    if n == 0 then 0 else SumInUse(f, m, n - 1) + if n - 1 in m then f(m[n - 1]) else 0
  }

  function SumList(f: Block -> int, list: seq<Block>): int {
    if |list| == 0 then 0 else f(list[0]) + SumList(f, list[1..])
  }

  function SumAlive(f: Block -> int, c: Config, s: State): int {
    SumInUse(f, s.blocks, c.total) + SumList(f, s.free)
  }

  lemma {:induction false} SumInUsePut(f: Block -> int, m: map<nat, Block>, n: nat, k: nat, b: Block)
    ensures SumInUse(f, m[k := b], n)
         == SumInUse(f, m, n) + if k < n then f(b) - (if k in m then f(m[k]) else 0) else 0
  {
    if n > 0 { SumInUsePut(f, m, n - 1, k, b); }
  }

  lemma {:induction false} SumInUseDrop(f: Block -> int, m: map<nat, Block>, n: nat, k: nat)
    requires k in m
    ensures SumInUse(f, m - {k}, n) == SumInUse(f, m, n) - if k < n then f(m[k]) else 0
  {
    if n > 0 { SumInUseDrop(f, m, n - 1, k); }
  }

  lemma {:induction false} SumListConcat(f: Block -> int, a: seq<Block>, b: seq<Block>)
    ensures SumList(f, a + b) == SumList(f, a) + SumList(f, b)
  {
    if |a| == 0 {
      assert a + b == b;
    } else {
      assert (a + b)[1..] == a[1..] + b;
      SumListConcat(f, a[1..], b);
    }
  }

  lemma SumListSplit(f: Block -> int, a: seq<Block>, b: Block, z: seq<Block>)
    ensures SumList(f, a + [b] + z) == SumList(f, a + z) + f(b)
  {
    SumListConcat(f, a + [b], z);
    SumListConcat(f, a, [b]);
    SumListConcat(f, a, z);
  }

  // ---------------------------------------------------------------- the potential

  function SumNext(next: seq<nat>): nat {
    if |next| == 0 then 0 else next[0] + SumNext(next[1..])
  }

  lemma {:induction false} SumNextBump(next: seq<nat>, u: nat)
    requires u < |next|
    ensures SumNext(next[u := next[u] + 1]) == SumNext(next) + 1
  {
    var bumped := next[u := next[u] + 1];
    if u == 0 {
      assert bumped[1..] == next[1..];
    } else {
      assert bumped[1..] == next[1..][u - 1 := next[1..][u - 1] + 1];
      SumNextBump(next[1..], u - 1);
    }
  }

  lemma {:induction false} SumNextBound(next: seq<nat>, most: nat)
    requires forall u :: 0 <= u < |next| ==> next[u] <= most
    ensures SumNext(next) <= |next| * most
    ensures (forall u :: 0 <= u < |next| ==> next[u] == 0) ==> SumNext(next) == 0
  {
    if |next| > 0 {
      SumNextBound(next[1..], most);
      assert (|next| - 1) * most + most == |next| * most;
    }
  }

  /** Units a block can still take before it dies: whole lives left minus what this life has used. */
  function Room(c: Config, b: Block): int {
    (c.threshold - b.eraseCount) * (c.units * c.pages) - SumNext(b.next)
  }

  function Potential(c: Config, s: State): int {
    SumAlive((b: Block) => Room(c, b), c, s)
  }

  /** Erases the device has left. */
  function ErasesLeft(c: Config, s: State): int {
    SumAlive((b: Block) => c.threshold - b.eraseCount, c, s)
  }

  lemma {:induction false} SumInUseNonNegative(f: Block -> int, m: map<nat, Block>, n: nat)
    requires forall k :: k in m ==> 0 <= f(m[k])
    ensures 0 <= SumInUse(f, m, n)
  {
    if n > 0 { SumInUseNonNegative(f, m, n - 1); }
  }

  lemma {:induction false} SumListNonNegative(f: Block -> int, list: seq<Block>)
    requires forall k :: 0 <= k < |list| ==> 0 <= f(list[k])
    ensures 0 <= SumList(f, list)
  {
    if |list| > 0 { SumListNonNegative(f, list[1..]); }
  }

  lemma OneLifeLess(lives: int, cap: nat)
    ensures lives * cap == (lives - 1) * cap + cap
    ensures 1 <= lives ==> 0 <= (lives - 1) * cap
  {
  }

  ghost predicate PointersOk(c: Config, b: Block) {
    |b.next| == c.units && forall u :: 0 <= u < c.units ==> b.next[u] <= c.pages
  }

  /** A new life has room for every unit; the life that ends may have left some unused. */
  lemma ErasedRoom(c: Config, b: Block)
    requires PointersOk(c, b)
    ensures Room(c, b.Erased()) <= Room(c, b)
    ensures b.eraseCount < c.threshold ==> 0 <= Room(c, b)
  {
    var cap := c.units * c.pages;
    var lives := c.threshold - b.eraseCount;
    OneLifeLess(lives, cap);
    SumNextBound(b.next, c.pages);
    SumNextBound(b.Erased().next, 0);
    var used, rest := SumNext(b.next), (lives - 1) * cap;
    assert used <= cap;
    assert Room(c, b) == rest + cap - used;
    assert Room(c, b.Erased()) == rest - SumNext(b.Erased().next);
  }

  lemma PotentialNonNegative(c: Config, s: State)
    requires Ledger(c, s)
    ensures 0 <= Potential(c, s)
  {
    var f := (b: Block) => Room(c, b);
    forall k | k in s.blocks
      ensures 0 <= f(s.blocks[k])
    {
      ErasedRoom(c, s.blocks[k]);
    }
    forall k | 0 <= k < |s.free|
      ensures 0 <= f(s.free[k])
    {
      ErasedRoom(c, s.free[k]);
    }
    SumInUseNonNegative(f, s.blocks, c.total);
    SumListNonNegative(f, s.free);
  }

  // ---------------------------------------------------------------- what every step does to the ledger

  /** From s to s' the lists stay in order, dead blocks stay dead, and `host` units programmed for the host plus
      the copies made are paid for by the potential. */
  ghost predicate Evolves(c: Config, s: State, s': State, host: nat) {
    && s'.hostUnits == s.hostUnits
    && (Ledger(c, s) ==>
      && Ledger(c, s')
      && s.dead <= s'.dead
      && s.copies <= s'.copies
      && Potential(c, s') + s'.copies + host <= Potential(c, s) + s.copies
      && ErasesLeft(c, s') <= ErasesLeft(c, s))
  }

  lemma EvolvesTrans(c: Config, s: State, s1: State, s2: State, m: nat, n: nat)
    requires Evolves(c, s, s1, m) && Evolves(c, s1, s2, n)
    ensures Evolves(c, s, s2, m + n)
  {
    hide Ledger, Potential, ErasesLeft;
  }

  lemma TakeKeepsSum(f: Block -> int, c: Config, s: State, idx: nat)
    requires GetFreeBlock(c, s, idx).Running?
    requires GetFreeBlock(c, s, idx).value.1 < c.total
    ensures SumAlive(f, c, GetFreeBlock(c, s, idx).value.0) == SumAlive(f, c, s)
  {
    var k := c.choose(s.free, idx, s.draws);
    var b := s.free[k];
    assert s.free == s.free[..k] + [b] + s.free[k + 1..];
    SumInUsePut(f, s.blocks, c.total, b.idx, b);
    SumListSplit(f, s.free[..k], b, s.free[k + 1..]);
  }

  lemma GetFreeBlockLedger(c: Config, s: State, idx: nat)
    requires c.Ok() && GetFreeBlock(c, s, idx).Running? && Ledger(c, s)
    ensures Ledger(c, GetFreeBlock(c, s, idx).value.0)
    ensures GetFreeBlock(c, s, idx).value.1 < c.total
  {
    var k := c.choose(s.free, idx, s.draws);
    var b := s.free[k];
    TakeKeepsPartition(c.total, s.blocks.Keys, s.free, s.dead, k);
    var s' := GetFreeBlock(c, s, idx).value.0;
    assert s'.blocks.Keys == s.blocks.Keys + {b.idx};
    assert Listed(s.free, b.idx);
  }

  lemma GetFreeBlockEvolves(c: Config, s: State, idx: nat)
    requires c.Ok() && GetFreeBlock(c, s, idx).Running?
    ensures Evolves(c, s, GetFreeBlock(c, s, idx).value.0, 0)
  {
    hide Ledger, SumAlive;
    if Ledger(c, s) {
      GetFreeBlockLedger(c, s, idx);
      TakeKeepsSum((b: Block) => Room(c, b), c, s, idx);
      TakeKeepsSum((b: Block) => c.threshold - b.eraseCount, c, s, idx);
    }
  }

  lemma LastFreeBlockEvolves(c: Config, s: State, ioMap: set<nat>)
    requires c.Ok() && LastFreeBlock(c, s, ioMap).Running?
    ensures Evolves(c, s, LastFreeBlock(c, s, ioMap).value.0, 0)
  {
    hide GetFreeBlock, Evolves;
    var s1 := Advanced(c, s, ioMap);
    var s' := LastFreeBlock(c, s, ioMap).value.0;
    SameAccountsEvolve(c, s, s1);
    if c.Full(s1.blocks[s1.heads[s1.headIndex]]) {
      var s2 := GetFreeBlock(c, s1, s1.headIndex).value.0;
      GetFreeBlockEvolves(c, s1, s1.headIndex);
      SameAccountsEvolve(c, s2, s');
      EvolvesTrans(c, s1, s2, s', 0, 0);
      EvolvesTrans(c, s, s1, s', 0, 0);
    }
  }

  lemma SameAccountsEvolve(c: Config, s: State, s': State)
    requires SameAccounts(s, s')
    ensures Evolves(c, s, s', 0)
  {
  }

  ghost predicate SameAccounts(s: State, s': State) {
    s'.blocks == s.blocks && s'.free == s.free && s'.dead == s.dead && s'.nFree == s.nFree && s'.copies == s.copies
    && s'.hostUnits == s.hostUnits
  }

  /** Bookkeeping changes nothing about wear: same lists, and each block in use keeps idx, erase count and pointers. */
  ghost predicate SameWear(s: State, s': State) {
    && s'.free == s.free && s'.dead == s.dead && s'.nFree == s.nFree && s'.copies == s.copies
    && s'.hostUnits == s.hostUnits
    && s'.blocks.Keys == s.blocks.Keys
    && forall b :: b in s.blocks ==>
         && s'.blocks[b].idx == s.blocks[b].idx && s'.blocks[b].eraseCount == s.blocks[b].eraseCount
         && s'.blocks[b].next == s.blocks[b].next
  }

  lemma {:induction false} SumInUseSame(f: Block -> int, m: map<nat, Block>, m': map<nat, Block>, n: nat)
    requires m.Keys == m'.Keys && forall k :: k in m ==> f(m'[k]) == f(m[k])
    ensures SumInUse(f, m', n) == SumInUse(f, m, n)
  {
    if n > 0 { SumInUseSame(f, m, m', n - 1); }
  }

  lemma SameWearEvolves(c: Config, s: State, s': State)
    requires SameWear(s, s')
    ensures Evolves(c, s, s', 0)
  {
    SumInUseSame((b: Block) => Room(c, b), s.blocks, s'.blocks, c.total);
    SumInUseSame((b: Block) => c.threshold - b.eraseCount, s.blocks, s'.blocks, c.total);
  }

  lemma ProgramUnitLedger(c: Config, s: State, lpn: nat, u: nat, dst: nat, d: Data)
    requires ProgramUnit(c, s, lpn, u, dst, d).Running? && Ledger(c, s)
    ensures Ledger(c, ProgramUnit(c, s, lpn, u, dst, d).value) && dst < c.total
  {
    var s' := ProgramUnit(c, s, lpn, u, dst, d).value;
    assert s'.blocks.Keys == s.blocks.Keys;
  }

  lemma ProgramUnitSum(f: Block -> int, c: Config, s: State, lpn: nat, u: nat, dst: nat, d: Data)
    requires ProgramUnit(c, s, lpn, u, dst, d).Running? && dst < c.total
    ensures SumAlive(f, c, ProgramUnit(c, s, lpn, u, dst, d).value)
         == SumAlive(f, c, s) - f(s.blocks[dst]) + f(s.blocks[dst].Program(u, lpn))
  {
    SumInUsePut(f, s.blocks, c.total, dst, s.blocks[dst].Program(u, lpn));
  }

  /** One program costs exactly one unit of potential. */
  lemma ProgramUnitEvolves(c: Config, s: State, lpn: nat, u: nat, dst: nat, d: Data)
    requires ProgramUnit(c, s, lpn, u, dst, d).Running?
    ensures Evolves(c, s, ProgramUnit(c, s, lpn, u, dst, d).value, 1)
    ensures Ledger(c, s) ==> Potential(c, ProgramUnit(c, s, lpn, u, dst, d).value) == Potential(c, s) - 1
  {
    hide Ledger, SumAlive;
    if Ledger(c, s) {
      ProgramUnitLedger(c, s, lpn, u, dst, d);
      SumNextBump(s.blocks[dst].next, u);
      ProgramUnitSum((b: Block) => Room(c, b), c, s, lpn, u, dst, d);
      ProgramUnitSum((b: Block) => c.threshold - b.eraseCount, c, s, lpn, u, dst, d);
    }
  }

  lemma EraseSum(f: Block -> int, c: Config, s: State, b: nat)
    requires Erase(c, s, b).Running? && b < c.total
    ensures SumAlive(f, c, Erase(c, s, b).value)
         == SumAlive(f, c, s) - f(s.blocks[b])
            + if s.blocks[b].eraseCount + 1 < c.threshold then f(s.blocks[b].Erased()) else 0
  {
    var e := s.blocks[b].Erased();
    SumInUseDrop(f, s.blocks, c.total, b);
    if e.eraseCount < c.threshold {
      var k := InsertAt(s.free, e.eraseCount, |s.free|);
      assert s.free == s.free[..k] + s.free[k..];
      SumListSplit(f, s.free[..k], e, s.free[k..]);
    }
  }

  lemma InUseIsNotListed(c: Config, s: State, b: nat)
    requires Partition(c.total, s.blocks.Keys, s.free, s.dead) && b in s.blocks
    ensures b < c.total && !Listed(s.dead, b)
  {
  }

  lemma EraseLedger(c: Config, s: State, b: nat)
    requires Erase(c, s, b).Running? && Ledger(c, s)
    ensures Ledger(c, Erase(c, s, b).value) && b < c.total
    ensures Listed(Erase(c, s, b).value.dead, b) <==> s.blocks[b].eraseCount + 1 == c.threshold
  {
    hide Partition, Ascending;
    var e := s.blocks[b].Erased();
    var s' := Erase(c, s, b).value;
    assert s'.blocks.Keys == s.blocks.Keys - {b};
    assert PointersOk(c, e) && e.idx == b;
    InUseIsNotListed(c, s, b);
    if e.eraseCount < c.threshold {
      ReturnKeepsPartition(c.total, s.blocks.Keys, s.free, s.dead, e, InsertAt(s.free, e.eraseCount, |s.free|));
      InsertedAscending(s.free, e);
      assert !Listed(s'.dead, b);
    } else {
      RetireKeepsPartition(c.total, s.blocks.Keys, s.free, s.dead, e);
      assert s'.dead[|s.dead|] == e;
    }
  }

  /** An erase costs exactly one of the erases the device has left and never raises the potential; the block
      is dead from the erase that reaches the threshold on. */
  lemma EraseEvolves(c: Config, s: State, b: nat)
    requires Erase(c, s, b).Running?
    ensures Evolves(c, s, Erase(c, s, b).value, 0)
    ensures Ledger(c, s) ==>
      var s' := Erase(c, s, b).value;
      && ErasesLeft(c, s') == ErasesLeft(c, s) - 1
      && (Listed(s'.dead, b) <==> s.blocks[b].eraseCount + 1 == c.threshold)
  {
    if Ledger(c, s) {
      EraseLedger(c, s, b);
      EraseSum((b: Block) => Room(c, b), c, s, b);
      EraseSum((b: Block) => c.threshold - b.eraseCount, c, s, b);
      EraseFacts(c, s, b);
      hide Ledger, SumAlive, Room;
    }
  }

  lemma EraseFacts(c: Config, s: State, b: nat)
    requires Erase(c, s, b).Running? && Ledger(c, s)
    ensures Room(c, s.blocks[b].Erased()) <= Room(c, s.blocks[b]) && 0 <= Room(c, s.blocks[b])
    ensures s.blocks[b].eraseCount < c.threshold
  {
    ErasedRoom(c, s.blocks[b]);
  }
}
