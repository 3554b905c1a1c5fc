/**
 A device from its construction on: whatever is asked of it, it answers like a map, and it programs no more units than
 the erases its blocks came with allow.
 */
module FtlDevice {
  import opened Ftl
  import opened FtlMapping
  import opened FtlWear
  import opened FtlHeads
  import opened FtlRuns

  lemma {:induction false} FreshSums(c: Config, free: seq<Block>)
    requires forall k :: 0 <= k < |free| ==> |free[k].next| == c.units && forall u :: 0 <= u < c.units ==> free[k].next[u] == 0
    ensures SumList((b: Block) => Room(c, b), free)
         == c.units * c.pages * SumList((b: Block) => c.threshold - b.eraseCount, free)
  {
    if |free| > 0 {
      UnwrittenIsZero(free[0].next);
      FreshSums(c, free[1..]);
      Factor(c.threshold - free[0].eraseCount, c.units * c.pages,
             SumList((b: Block) => c.threshold - b.eraseCount, free[1..]));
    }
  }

  lemma Factor(a: int, k: int, rest: int)
    ensures a * k + k * rest == k * (a + rest)
  {
  }

  lemma UnwrittenIsZero(next: seq<nat>)
    requires forall u :: 0 <= u < |next| ==> next[u] == 0
    ensures SumNext(next) == 0
  {
    if |next| > 0 {
      SumNextBound(next, 0);
      assert |next| * 0 == 0;
    }
  }

  lemma {:induction false} NothingInUse(f: Block -> int, n: nat)
    ensures SumInUse(f, map[], n) == 0
  {
    if n > 0 {
      NothingInUse(f, n - 1);
    }
  }

  /** A new device can take exactly ioUnitInPage * pagesInBlock units for every erase its blocks have left. */
  lemma FreshPotential(c: Config, free: seq<Block>)
    requires c.Ok() && Initial(c, free)
    ensures Potential(c, Fresh(c, free)) == c.units * c.pages * ErasesLeft(c, Fresh(c, free))
  {
    NothingInUse((b: Block) => Room(c, b), c.total);
    NothingInUse((b: Block) => c.threshold - b.eraseCount, c.total);
    FreshSums(c, free);
  }

  lemma {:induction false} ClaimingIsFree(c: Config, s: State, i: nat)
    requires ClaimHeads(c, s, i).Running?
    ensures var s' := ClaimHeads(c, s, i).value; s'.hostUnits == s.hostUnits && s'.copies == s.copies
    decreases c.heads - i
  {
    if i < c.heads {
      var (s1, b) := GetFreeBlock(c, s, i).value;
      ClaimingIsFree(c, s1.(heads := s1.heads[i := b]), i + 1);
    }
  }

  /** From the factory: the constructor succeeds, and then every run that returns gives the host what a map would, the
      block lists are in order at its end, and the units programmed for the host together with those garbage collection
      copied never exceed ioUnitInPage * pagesInBlock * (sum over the blocks of threshold - initial erase count). With
      the random-I/O tweak on, the units programmed for the host are those it asked for. If no collected block is left as
      a write head, no request ever halts as "Corrupted". */
  lemma FromTheFactory(c: Config, free: seq<Block>, ops: seq<Op>)
    requires c.Ok() && Initial(c, free) && c.heads <= |free|
    requires forall k :: 0 <= k < |ops| ==> OpOk(c, ops[k])
    ensures ClaimHeads(c, Fresh(c, free), 0).Running?
    ensures var r := Run(c, ClaimHeads(c, Fresh(c, free), 0).value, ops);
      && (r.Halted? ==> r.why in {Corrupted, BlockNotInUse} || WornOut(c, r.why))
      && (r.Running? ==>
        && r.value.1 == DeviceRun(c, map[], ops).1
        && Inv(c, r.value.0) && Ledger(c, r.value.0)
        && SpendsAll(c, ops) + r.value.0.copies <= c.units * c.pages * ErasesLeft(c, Fresh(c, free))
        && ((forall k :: 0 <= k < |ops| ==> Requests(c, ops[k])) ==> r.value.0.hostUnits == SpendsAll(c, ops)))
      && ((forall k :: 0 <= k < |ops| ==> OpServes(c, ops[k])) ==>
        && (r.Halted? ==> r.why != Corrupted)
        && (r.Running? ==> HeadsOk(c, r.value.0)))
  {
    hide Inv, Ledger, Potential, ErasesLeft, Refines, OpOk, OpServes, Requests, Run, Initial, SpendsAll, Asked;
    var s0 := Fresh(c, free);
    FreshOk(c, free);
    FreshPotential(c, free);
    ClaimHeadsOk(c, s0, 0);
    ClaimingIsFree(c, s0, 0);
    var s1 := ClaimHeads(c, s0, 0).value;
    EmptyTableReadsNothing(c, s1);
    RunRefines(c, s1, map[], ops);
    if forall k :: 0 <= k < |ops| ==> OpServes(c, ops[k]) {
      RunKeepsHeads(c, s1, ops);
    }
    if Run(c, s1, ops).Running? {
      RunEndures(c, s1, ops);
      if forall k :: 0 <= k < |ops| ==> Requests(c, ops[k]) {
        AskedIsSpent(c, ops);
      }
    }
  }
}
