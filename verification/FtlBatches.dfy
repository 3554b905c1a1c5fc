/**
 Physical operations collected now and done later: why a batch of reads followed by a batch of writes leaves what copying
 unit by unit would.
 */
module FtlBatches {
  import opened Ftl

  // ---------------------------------------------------------------- batched physical operations

  /** A physical read of some lanes of one page. */
  datatype PageRead = PageRead(block: nat, page: nat, lanes: set<nat>)

  /** A physical write of one unit; `src` says which unit that was read supplies the payload. */
  datatype UnitWrite = UnitWrite(dst: Loc, src: Loc)

  /** The writes of the batch, each with the payload its source had in m. */
  function Replay(m: map<Loc, Data>, ws: seq<UnitWrite>): map<Loc, Data> {
    if |ws| == 0 then m
    else Replay(m, ws[..|ws| - 1])[ws[|ws| - 1].dst := Cell(m, ws[|ws| - 1].src)]
  }

  /** No write of the batch goes to a block that the batch reads from. */
  ghost predicate Apart(ws: seq<UnitWrite>, victims: seq<nat>) {
    forall k :: 0 <= k < |ws| ==> ws[k].dst.block !in victims && ws[k].src.block in victims
  }

  lemma ApartMore(ws: seq<UnitWrite>, w: UnitWrite, victims: seq<nat>)
    requires Apart(ws, victims) && w.dst.block !in victims && w.src.block in victims
    ensures Apart(ws + [w], victims)
  {
  }

  ghost predicate Fetched(rs: seq<PageRead>, x: Loc) {
    exists k :: 0 <= k < |rs| && rs[k].block == x.block && rs[k].page == x.page && x.lane in rs[k].lanes
  }

  ghost predicate AllFetched(rs: seq<PageRead>, ws: seq<UnitWrite>) {
    forall k :: 0 <= k < |ws| ==> Fetched(rs, ws[k].src)
  }

  lemma FetchedMore(rs: seq<PageRead>, ws: seq<UnitWrite>, w: UnitWrite)
    requires AllFetched(rs, ws) && Fetched(rs, w.src)
    ensures AllFetched(rs, ws + [w])
  {
  }

  lemma FetchMore(rs: seq<PageRead>, q: PageRead, ws: seq<UnitWrite>)
    requires AllFetched(rs, ws)
    ensures AllFetched(rs + [q], ws)
    ensures forall u :: u in q.lanes ==> Fetched(rs + [q], Loc(q.block, q.page, u))
  {
    forall k | 0 <= k < |ws|
      ensures Fetched(rs + [q], ws[k].src)
    {
      assert Fetched(rs, ws[k].src);
      var x := ws[k].src;
      var j :| 0 <= j < |rs| && rs[j].block == x.block && rs[j].page == x.page && x.lane in rs[j].lanes;
      assert (rs + [q])[j] == rs[j];
    }
    assert (rs + [q])[|rs|] == q;
  }

  lemma {:induction false} ReplayOther(m: map<Loc, Data>, ws: seq<UnitWrite>, x: Loc)
    requires forall k :: 0 <= k < |ws| ==> ws[k].dst != x
    ensures Cell(Replay(m, ws), x) == Cell(m, x)
  {
    if |ws| > 0 { ReplayOther(m, ws[..|ws| - 1], x); }
  }

  /** Reading first does not matter: no source is ever overwritten, so one more deferred write is one more
      immediate copy. */
  lemma ReplayOneMore(m: map<Loc, Data>, ws: seq<UnitWrite>, w: UnitWrite, victims: seq<nat>)
    requires Apart(ws, victims) && w.src.block in victims
    ensures Replay(m, ws + [w]) == Replay(m, ws)[w.dst := Cell(Replay(m, ws), w.src)]
  {
    assert (ws + [w])[..|ws|] == ws;
    ReplayOther(m, ws, w.src);
  }

  /** Allocation does not look at payloads. */
  lemma AllocationIgnoresMedia(c: Config, s: State, m: map<Loc, Data>, flags: set<nat>)
    ensures match LastFreeBlock(c, s, flags)
            case Running((s', b)) => LastFreeBlock(c, s.(media := m), flags) == Running((s'.(media := m), b)) && s'.media == s.media
            case Halted(why) => LastFreeBlock(c, s.(media := m), flags) == Halted(why)
  {
    hide GetFreeBlock;
    var s1 := Advanced(c, s, flags);
    assert Advanced(c, s.(media := m), flags) == s1.(media := m);
    GetFreeBlockIgnoresMedia(c, s1, m, s1.headIndex);
  }

  lemma GetFreeBlockIgnoresMedia(c: Config, s: State, m: map<Loc, Data>, i: nat)
    ensures match GetFreeBlock(c, s, i)
            case Running((s', b)) => GetFreeBlock(c, s.(media := m), i) == Running((s'.(media := m), b)) && s'.media == s.media
            case Halted(why) => GetFreeBlock(c, s.(media := m), i) == Halted(why)
  {
  }

  ghost predicate Stay(c: Config, blocks: map<nat, Block>, victims: seq<nat>) {
    forall k :: 0 <= k < |victims| ==> victims[k] in blocks && c.Full(blocks[victims[k]])
  }

  /** Allocation leaves blocks in use alone and never names a victim: victims are full. */
  lemma AllocationSparesVictims(c: Config, s: State, flags: set<nat>, victims: seq<nat>)
    requires LastFreeBlock(c, s, flags).Running? && Stay(c, s.blocks, victims)
    ensures var (s', b) := LastFreeBlock(c, s, flags).value; b !in victims && Stay(c, s'.blocks, victims)
  {
    var (s', b) := LastFreeBlock(c, s, flags).value;
    assert forall v :: v in s.blocks ==> v in s'.blocks && s'.blocks[v] == s.blocks[v];
    assert b in s.blocks ==> !c.Full(s.blocks[b]);
  }

  lemma MovingSparesVictims(c: Config, blocks: map<nat, Block>, b: nat, x: Unit, dst: nat, lpn: nat, victims: seq<nat>)
    requires Stay(c, blocks, victims) && b in victims && dst !in victims && b in blocks && dst in blocks
    requires x.lane < |blocks[dst].next|
    ensures var blocks1 := blocks[b := blocks[b].Invalidate(x)];
      Stay(c, blocks1[dst := blocks1[dst].Program(x.lane, lpn)], victims)
  {
  }
}
