/**
 What a garbage collection will ask of the allocator, foreseen from the state before it: the order in which the write
 heads take the copied pages, and the fresh blocks they need on the way. A plan looks at the valid bits of the victims
 and the write pointers of the heads only; it copies nothing. From it, exactly when a collection halts and exactly
 which write heads outlive it.
 */
module FtlPlan {
  import opened Ftl
  import opened FtlMapping
  import opened FtlGc
  import opened FtlWear
  import opened FtlEndurance
  import opened FtlHeads

  /** Where a head writes: a block in use before the collection, or the number-th fresh block that it takes. */
  datatype Home = Old(block: nat) | New(number: nat)

  datatype Plan = Plan(headIndex: nat, ioMap: set<nat>, heads: seq<Home>, next: map<Home, seq<nat>>, taken: nat, copies: nat)

  ghost predicate PlanOk(c: Config, p: Plan) {
    && c.Lanes() <= c.units
    && |p.heads| == c.heads && p.headIndex < c.heads
    && (forall i :: 0 <= i < c.heads ==> p.heads[i] in p.next)
    && (forall h :: h in p.next ==> |p.next[h]| == c.units && (h.New? ==> h.number < p.taken))
    && (forall i, j :: 0 <= i < j < c.heads && p.heads[i].New? ==> p.heads[i] != p.heads[j])
  }

  // ---------------------------------------------------------------- planning

  /** The head that the next page goes to: as in getLastFreeBlock. */
  function Turned(c: Config, p: Plan, bits: set<nat>): Plan
    requires PlanOk(c, p)
  {
    var turn := !c.tweak || p.ioMap * bits != {};
    p.(headIndex := if !turn then p.headIndex else if p.headIndex + 1 == c.heads then 0 else p.headIndex + 1,
       ioMap := if turn then bits else p.ioMap + bits)
  }

  /** That head takes the page, in a fresh block if its own is full. */
  function Claim(c: Config, p: Plan, bits: set<nat>): (r: Plan)
    requires PlanOk(c, p)
    ensures PlanOk(c, r) && p.taken <= r.taken <= p.taken + 1
  {
    var q := Turned(c, p, bits);
    if Highest(q.next[q.heads[q.headIndex]]) == c.pages then
      q.(heads := q.heads[q.headIndex := New(q.taken)], next := q.next[New(q.taken) := seq(c.units, _ => 0)],
         taken := q.taken + 1)
    else q
  }

  /** The lanes from u on that are copied move the write pointers of the current head. */
  function Fill(c: Config, p: Plan, bits: set<nat>, u: nat): (r: Plan)
    requires PlanOk(c, p)
    ensures PlanOk(c, r) && r == p.(next := r.next, copies := r.copies)
    decreases c.Lanes() - u
  {
    if u >= c.Lanes() then p
    else if !c.Touches(bits, u) then Fill(c, p, bits, u + 1)
    else
      var h := p.heads[p.headIndex];
      Fill(c, p.(next := p.next[h := p.next[h][u := p.next[h][u] + 1]], copies := p.copies + 1), bits, u + 1)
  }

  /** The plan after one page. */
  function PlanPage(c: Config, p: Plan, bits: set<nat>): (r: Plan)
    requires PlanOk(c, p)
    ensures PlanOk(c, r) && p.taken <= r.taken
  {
    if bits == {} then p else Fill(c, Claim(c, p, Moved(c, bits)), Moved(c, bits), 0)
  }

  function PlanPages(c: Config, p: Plan, b: Block, page: nat): (r: Plan)
    requires PlanOk(c, p)
    ensures PlanOk(c, r) && p.taken <= r.taken
    decreases c.pages - page
  {
    if page >= c.pages then p else PlanPages(c, PlanPage(c, p, PageInfo(c, b, page)), b, page + 1)
  }

  function PlanBlocks(c: Config, p: Plan, blocks: map<nat, Block>, victims: seq<nat>, k: nat): (r: Plan)
    requires PlanOk(c, p)
    ensures PlanOk(c, r) && p.taken <= r.taken
    decreases |victims| - k
  {
    if k >= |victims| then p
    else PlanBlocks(c, if victims[k] in blocks then PlanPages(c, p, blocks[victims[k]], 0) else p, blocks, victims, k + 1)
  }

  function Homes(s: State): set<Home> {
    set i | 0 <= i < |s.heads| :: Old(s.heads[i])
  }

  ghost predicate CanPlan(c: Config, s: State) {
    Shape(c, s) && HeadsInUse(s, c.heads)
  }

  function Start(c: Config, s: State): (p: Plan)
    requires CanPlan(c, s)
    ensures PlanOk(c, p)
  {
    Plan(s.headIndex, s.ioMap, seq(|s.heads|, i requires 0 <= i < |s.heads| => Old(s.heads[i])),
         map h | h in Homes(s) :: s.blocks[h.block].next, 0, 0)
  }

  /** What collecting these victims will ask of the allocator. */
  function Planned(c: Config, s: State, victims: seq<nat>): Plan
    requires CanPlan(c, s)
  {
    PlanBlocks(c, Start(c, s), s.blocks, victims, 0)
  }

  // ---------------------------------------------------------------- the plan is followed

  /** The block that a home stands for; t lists the fresh blocks in the order they were taken. */
  function At(h: Home, t: seq<nat>): nat
    requires h.New? ==> h.number < |t|
  {
    match h
    case Old(b) => b
    case New(k) => t[k]
  }

  /** The fresh blocks: different ones, not in use at s0, in use at s. */
  ghost predicate FreshBlocks(s0: State, s: State, t: seq<nat>) {
    && (forall k :: 0 <= k < |t| ==> t[k] !in s0.blocks && t[k] in s.blocks)
    && (forall j, k :: 0 <= j < k < |t| ==> t[j] != t[k])
    && s0.blocks.Keys <= s.blocks.Keys
  }

  /** The homes of the plan have the write pointers of the blocks they stand for. */
  ghost predicate HomesAre(c: Config, s0: State, s: State, p: Plan, t: seq<nat>)
    requires PlanOk(c, p) && p.taken == |t|
  {
    forall h :: h in p.next ==>
      && (h.Old? ==> h.block in s0.blocks)
      && At(h, t) in s.blocks && s.blocks[At(h, t)].next == p.next[h]
  }

  ghost predicate HeadsAre(c: Config, s0: State, s: State, p: Plan, t: seq<nat>)
    requires PlanOk(c, p) && p.taken == |t|
  {
    && |s0.heads| == |s.heads| == c.heads
    && forall i :: 0 <= i < c.heads ==>
         s.heads[i] == At(p.heads[i], t) && (p.heads[i].New? || p.heads[i] == Old(s0.heads[i]))
  }

  /** s, reached from s0 by copying, is where the plan says. */
  ghost predicate Follows(c: Config, s0: State, s: State, p: Plan, t: seq<nat>) {
    && PlanOk(c, p) && p.taken == |t|
    && p.headIndex == s.headIndex && p.ioMap == s.ioMap
    && s.copies == s0.copies + p.copies
    && |s.free| + p.taken == |s0.free|
    && FreshBlocks(s0, s, t) && HomesAre(c, s0, s, p, t) && HeadsAre(c, s0, s, p, t)
  }

  lemma StartFollows(c: Config, s: State)
    requires CanPlan(c, s)
    ensures Follows(c, s, s, Start(c, s), [])
  {
  }

  /** Different homes are different blocks. */
  lemma HomesDiffer(c: Config, s0: State, s: State, p: Plan, t: seq<nat>, g: Home, h: Home)
    requires PlanOk(c, p) && p.taken == |t| && FreshBlocks(s0, s, t) && HomesAre(c, s0, s, p, t)
    requires g in p.next && h in p.next && g != h
    ensures At(g, t) != At(h, t)
  {
  }

  lemma HeadNow(c: Config, s0: State, s: State, p: Plan, t: seq<nat>, i: nat)
    requires Follows(c, s0, s, p, t) && i < c.heads
    ensures |s.heads| == c.heads && PlanOk(c, p) && p.taken == |t|
    ensures p.heads[i] in p.next && (p.heads[i].New? ==> p.heads[i].number < |t|) && s.heads[i] == At(p.heads[i], t)
    ensures s.heads[i] in s.blocks && s.blocks[s.heads[i]].next == p.next[p.heads[i]]
  {
  }

  lemma TurnFollows(c: Config, s0: State, s: State, p: Plan, t: seq<nat>, bits: set<nat>)
    requires Follows(c, s0, s, p, t)
    ensures PlanOk(c, p) && Follows(c, s0, Advanced(c, s, bits), Turned(c, p, bits), t)
    ensures Turned(c, p, bits).headIndex == Advanced(c, s, bits).headIndex < c.heads
  {
  }

  /** A fresh block for the current head. */
  lemma FreshFollows(c: Config, s0: State, s: State, p: Plan, t: seq<nat>, s2: State, b: nat)
    requires Follows(c, s0, s, p, t)
    requires b !in s.blocks && s2.blocks.Keys == s.blocks.Keys + {b} && s2.blocks[b].next == seq(c.units, _ => 0)
    requires forall v :: v in s.blocks ==> s2.blocks[v] == s.blocks[v]
    requires |s2.free| == |s.free| - 1 && s2.copies == s.copies
    requires s2.headIndex == s.headIndex && s2.ioMap == s.ioMap && |s.heads| == c.heads && s2.heads == s.heads[s.headIndex := b]
    ensures PlanOk(c, p)
    ensures var p' := p.(heads := p.heads[p.headIndex := New(p.taken)],
                         next := p.next[New(p.taken) := seq(c.units, _ => 0)], taken := p.taken + 1);
      Follows(c, s0, s2, p', t + [b])
  {
    var p' := p.(heads := p.heads[p.headIndex := New(p.taken)],
                 next := p.next[New(p.taken) := seq(c.units, _ => 0)], taken := p.taken + 1);
    var t' := t + [b];
    assert PlanOk(c, p');
    assert FreshBlocks(s0, s2, t');
    forall h | h in p'.next
      ensures h.Old? ==> h.block in s0.blocks
      ensures At(h, t') in s2.blocks && s2.blocks[At(h, t')].next == p'.next[h]
    {
      if h != New(p.taken) { assert At(h, t') == At(h, t); }
    }
    forall i | 0 <= i < c.heads
      ensures s2.heads[i] == At(p'.heads[i], t') && (p'.heads[i].New? || p'.heads[i] == Old(s0.heads[i]))
    {
      if i != p.headIndex { assert At(p.heads[i], t') == At(p.heads[i], t); }
    }
  }

  /** Allocation goes as planned. */
  lemma ClaimFollows(c: Config, s0: State, s: State, p: Plan, t: seq<nat>, bits: set<nat>) returns (t': seq<nat>)
    requires Shape(c, s) && Follows(c, s0, s, p, t) && LastFreeBlock(c, s, bits).Running?
    ensures PlanOk(c, p)
    ensures var (s', dst) := LastFreeBlock(c, s, bits).value; var p' := Claim(c, p, bits);
      && Follows(c, s0, s', p', t')
      && var h := p'.heads[p'.headIndex]; (h.New? ==> h.number < |t'|) && dst == At(h, t')
  {
    hide Shape, GetFreeBlock, Follows, PlanOk, Advanced;
    TurnFollows(c, s0, s, p, t, bits);
    var s1, p1 := Advanced(c, s, bits), Turned(c, p, bits);
    var i := s1.headIndex;
    HeadNow(c, s0, s1, p1, t, i);
    AdvancedFrame(c, s, bits);
    if c.Full(s1.blocks[s1.heads[i]]) {
      TakesBlank(c, s, s1, i);
      var (s2, b) := GetFreeBlock(c, s1, i).value;
      t' := t + [b];
      FreshFollows(c, s0, s1, p1, t, s2.(heads := s2.heads[i := b], reclaimMore := true), b);
    } else {
      t' := t;
    }
  }

  lemma AdvancedFrame(c: Config, s: State, bits: set<nat>)
    ensures var s1 := Advanced(c, s, bits); s1 == s.(headIndex := s1.headIndex, ioMap := s1.ioMap)
  {
  }

  lemma TakesBlank(c: Config, s: State, s1: State, i: nat)
    requires Shape(c, s) && s1 == s.(headIndex := s1.headIndex, ioMap := s1.ioMap) && GetFreeBlock(c, s1, i).Running?
    ensures var (s2, b) := GetFreeBlock(c, s1, i).value;
      && b !in s.blocks && s2.blocks.Keys == s.blocks.Keys + {b}
      && (forall v :: v in s.blocks ==> s2.blocks[v] == s.blocks[v])
      && s2.blocks[b].next == seq(c.units, _ => 0)
      && |s2.free| == |s.free| - 1 && s2.copies == s.copies
      && s2.heads == s.heads && s2.headIndex == s1.headIndex && s2.ioMap == s1.ioMap
  {
    var (s2, b) := GetFreeBlock(c, s1, i).value;
    assert Blank(s2.blocks[b]) && BlockOk(c, s2.blocks[b]);
    assert s2.blocks[b].next == seq(c.units, _ => 0);
  }

  lemma FreeLeft(c: Config, s0: State, s: State, p: Plan, t: seq<nat>)
    requires Follows(c, s0, s, p, t)
    ensures |s.free| + p.taken == |s0.free|
  {
  }

  /** It fails exactly when the plan needs one block more than there were, and then the device has reached its end. */
  lemma ClaimHalts(c: Config, s0: State, s: State, p: Plan, t: seq<nat>, bits: set<nat>)
    requires Shape(c, s) && Ledger(c, s) && Follows(c, s0, s, p, t)
    ensures PlanOk(c, p)
    ensures LastFreeBlock(c, s, bits).Halted? <==> Claim(c, p, bits).taken > |s0.free|
    ensures LastFreeBlock(c, s, bits).Halted? ==> LastFreeBlock(c, s, bits).why == EndOfLife
  {
    hide Shape, Ledger, LastFreeBlock, Follows, Advanced;
    LastFreeBlockHaltsIff(c, s, bits);
    TurnFollows(c, s0, s, p, t, bits);
    var s1, p1 := Advanced(c, s, bits), Turned(c, p, bits);
    HeadNow(c, s0, s1, p1, t, s1.headIndex);
    AdvancedFrame(c, s, bits);
    FreeLeft(c, s0, s, p, t);
  }

  lemma {:induction false} FillFollows(c: Config, s0: State, s: State, p: Plan, t: seq<nat>, b: nat, page: nat, from: Block,
                                       bits: set<nat>, u: nat)
    requires Follows(c, s0, s, p, t)
    requires var dst := At(p.heads[p.headIndex], t); MoveLanes(c, s, b, page, from, bits, dst, u).Running?
    ensures var dst := At(p.heads[p.headIndex], t);
      Follows(c, s0, MoveLanes(c, s, b, page, from, bits, dst, u).value, Fill(c, p, bits, u), t)
    decreases c.Lanes() - u
  {
    hide Follows, PlanOk, MoveUnit;
    FollowsOk(c, s0, s, p, t);
    var dst := At(p.heads[p.headIndex], t);
    if u >= c.Lanes() {
    } else if !c.Touches(bits, u) {
      FillFollows(c, s0, s, p, t, b, page, from, bits, u + 1);
    } else {
      var x := Unit(page, u);
      var s1 := MoveUnit(c, s, b, x, Label(from, x), dst).value;
      FillOne(c, s0, s, p, t, b, x, Label(from, x));
      var h := p.heads[p.headIndex];
      var p1 := p.(next := p.next[h := p.next[h][u := p.next[h][u] + 1]], copies := p.copies + 1);
      FillFollows(c, s0, s1, p1, t, b, page, from, bits, u + 1);
    }
  }

  lemma FollowsOk(c: Config, s0: State, s: State, p: Plan, t: seq<nat>)
    requires Follows(c, s0, s, p, t)
    ensures PlanOk(c, p) && p.taken == |t| && p.headIndex < |p.heads| && c.Lanes() <= c.units
    ensures var h := p.heads[p.headIndex]; h in p.next && |p.next[h]| == c.units && (h.New? ==> h.number < |t|)
  {
  }

  lemma FillOne(c: Config, s0: State, s: State, p: Plan, t: seq<nat>, b: nat, x: Unit, lpn: nat)
    requires Follows(c, s0, s, p, t) && x.lane < c.units
    requires MoveUnit(c, s, b, x, lpn, At(p.heads[p.headIndex], t)).Running?
    ensures var h := p.heads[p.headIndex];
      Follows(c, s0, MoveUnit(c, s, b, x, lpn, At(h, t)).value,
              p.(next := p.next[h := p.next[h][x.lane := p.next[h][x.lane] + 1]], copies := p.copies + 1), t)
  {
    hide MoveUnit, Follows, PlanOk;
    FollowsOk(c, s0, s, p, t);
    var h := p.heads[p.headIndex];
    var dst := At(h, t);
    MovedNext(c, s, b, x, lpn, dst);
    HeadsApart(c, s0, s, p, t);
    FilledHomes(c, s0, s, MoveUnit(c, s, b, x, lpn, dst).value, p, t, x.lane);
  }

  /** A copied unit moves the write pointer of its lane in the destination, and no other. */
  lemma MovedNext(c: Config, s: State, b: nat, x: Unit, lpn: nat, dst: nat)
    requires MoveUnit(c, s, b, x, lpn, dst).Running?
    ensures var s1 := MoveUnit(c, s, b, x, lpn, dst).value;
      && dst in s.blocks && x.lane < |s.blocks[dst].next|
      && s1.blocks.Keys == s.blocks.Keys
      && s1.heads == s.heads && s1.headIndex == s.headIndex && s1.ioMap == s.ioMap
      && s1.free == s.free && s1.copies == s.copies + 1
      && forall v :: v in s.blocks ==>
           s1.blocks[v].next == if v == dst then s.blocks[dst].next[x.lane := s.blocks[dst].next[x.lane] + 1] else s.blocks[v].next
  {
  }

  lemma HeadsApart(c: Config, s0: State, s: State, p: Plan, t: seq<nat>)
    requires Follows(c, s0, s, p, t)
    ensures var h := p.heads[p.headIndex]; var dst := At(h, t);
      && dst in s.blocks && s.blocks[dst].next == p.next[h]
      && forall g :: g in p.next && g != h ==> (g.New? ==> g.number < |t|) && At(g, t) != dst
  {
    var h := p.heads[p.headIndex];
    forall g | g in p.next && g != h
      ensures At(g, t) != At(h, t)
    {
      HomesDiffer(c, s0, s, p, t, g, h);
    }
  }

  lemma FilledHomes(c: Config, s0: State, s: State, s1: State, p: Plan, t: seq<nat>, u: nat)
    requires Follows(c, s0, s, p, t) && u < c.units
    requires s1.blocks.Keys == s.blocks.Keys
    requires s1.heads == s.heads && s1.headIndex == s.headIndex && s1.ioMap == s.ioMap
    requires s1.free == s.free && s1.copies == s.copies + 1
    requires var h := p.heads[p.headIndex]; var dst := At(h, t);
      && (forall v :: v in s.blocks ==>
            s1.blocks[v].next == if v == dst then p.next[h][u := p.next[h][u] + 1] else s.blocks[v].next)
      && (forall g :: g in p.next && g != h ==> (g.New? ==> g.number < |t|) && At(g, t) != dst)
    ensures var h := p.heads[p.headIndex];
      Follows(c, s0, s1, p.(next := p.next[h := p.next[h][u := p.next[h][u] + 1]], copies := p.copies + 1), t)
  {
  }

  // ---------------------------------------------------------------- pages and blocks

  lemma {:induction false} MoveLanesHalts(c: Config, s: State, b: nat, p: nat, from: Block, bits: set<nat>, dst: nat, u: nat)
    requires MoveLanes(c, s, b, p, from, bits, dst, u).Halted?
    ensures MoveLanes(c, s, b, p, from, bits, dst, u).why !in {EndOfLife, Corrupted}
    decreases c.Lanes() - u
  {
    if !c.Touches(bits, u) {
      MoveLanesHalts(c, s, b, p, from, bits, dst, u + 1);
    } else {
      var r := MoveUnit(c, s, b, Unit(p, u), Label(from, Unit(p, u)), dst);
      if r.Running? {
        MoveLanesHalts(c, r.value, b, p, from, bits, dst, u + 1);
      }
    }
  }

  /** Allocation is the only step of a page copy that can halt. */
  lemma PageHalts(c: Config, s: State, b: nat, q: nat)
    requires Inv(c, s) && b in s.blocks && c.Full(s.blocks[b]) && PageSound(c, s.blocks[b], q)
    ensures var bits := PageInfo(c, s.blocks[b], q);
      MovePage(c, s, b, q).Halted? <==> bits != {} && LastFreeBlock(c, s, Moved(c, bits)).Halted?
  {
    hide Inv, PageInfo, LastFreeBlock, MoveLanes, PageSound;
    MovePageKeeps(c, s, b, q);
    var bits := PageInfo(c, s.blocks[b], q);
    if bits != {} && LastFreeBlock(c, s, Moved(c, bits)).Running? && MovePage(c, s, b, q).Halted? {
      var (s1, dst) := LastFreeBlock(c, s, Moved(c, bits)).value;
      MoveLanesHalts(c, s1, b, q, s.blocks[b], Moved(c, bits), dst, 0);
    }
  }

  lemma PageFollows(c: Config, s0: State, s: State, b: nat, q: nat, p: Plan, t: seq<nat>) returns (t': seq<nat>)
    requires Inv(c, s) && b in s.blocks && c.Full(s.blocks[b]) && PageSound(c, s.blocks[b], q) && Follows(c, s0, s, p, t)
    ensures PlanOk(c, p)
    ensures var p' := PlanPage(c, p, PageInfo(c, s.blocks[b], q)); var r := MovePage(c, s, b, q);
      && (r.Running? ==> Follows(c, s0, r.value, p', t'))
      && (Ledger(c, s) ==> (r.Halted? <==> p'.taken > |s0.free|) && (r.Halted? ==> r.why == EndOfLife))
  {
    hide Inv, PageInfo, LastFreeBlock, MoveLanes, PageSound, Follows, Claim, Fill, PlanOk, Ledger, Shape, Moved;
    PageHalts(c, s, b, q);
    InvParts(c, s);
    FollowsOk(c, s0, s, p, t);
    FreeLeft(c, s0, s, p, t);
    t' := t;
    var bits := PageInfo(c, s.blocks[b], q);
    if bits != {} {
      var flags := Moved(c, bits);
      if Ledger(c, s) {
        ClaimHalts(c, s0, s, p, t, flags);
      }
      if LastFreeBlock(c, s, flags).Running? {
        t' := ClaimFollows(c, s0, s, p, t, flags);
        var (s1, dst) := LastFreeBlock(c, s, flags).value;
        FillFollows(c, s0, s1, Claim(c, p, flags), t', b, q, s.blocks[b], flags, 0);
      }
    }
  }

  /** A plan looks only at the pages that are still to come. */
  lemma {:induction false} PlanPagesSame(c: Config, p: Plan, b: Block, b': Block, page: nat)
    requires PlanOk(c, p)
    requires forall q: nat :: page <= q ==> PageInfo(c, b, q) == PageInfo(c, b', q)
    ensures PlanPages(c, p, b, page) == PlanPages(c, p, b', page)
    decreases c.pages - page
  {
    hide PlanOk, PageInfo, Claim, Fill;
    if page < c.pages {
      PlanPagesSame(c, PlanPage(c, p, PageInfo(c, b, page)), b, b', page + 1);
    }
  }

  lemma LaterPagesStay(c: Config, b: Block, q: nat)
    ensures var b' := b.(valid := set x | x in b.valid && x.page != q);
      forall r: nat :: r != q ==> PageInfo(c, b', r) == PageInfo(c, b, r)
  {
    var b' := b.(valid := set x | x in b.valid && x.page != q);
    forall r: nat | r != q
      ensures PageInfo(c, b', r) == PageInfo(c, b, r)
    {
      assert forall x :: x in b'.valid && x.page == r <==> x in b.valid && x.page == r;
    }
  }

  lemma ShapeOk(c: Config, s: State)
    requires Shape(c, s)
    ensures c.Ok()
  {
  }

  lemma LaterPagesSound(c: Config, b: Block, b': Block, q: nat)
    requires b' == b.(valid := set x | x in b.valid && x.page != q)
    requires forall r: nat {:trigger PageSound(c, b, r)} :: q <= r < c.pages ==> PageSound(c, b, r)
    ensures forall r: nat {:trigger PageSound(c, b', r)} :: q + 1 <= r < c.pages ==> PageSound(c, b', r)
  {
    forall r: nat | q + 1 <= r < c.pages
      ensures PageSound(c, b', r)
    {
      assert PageSound(c, b, r);
    }
  }

  lemma {:induction false} PagesFollow(c: Config, s0: State, s: State, b: nat, q: nat, p: Plan, t: seq<nat>) returns (t': seq<nat>)
    requires Inv(c, s) && b in s.blocks && c.Full(s.blocks[b]) && q <= c.pages && Follows(c, s0, s, p, t)
    requires forall r: nat {:trigger PageSound(c, s.blocks[b], r)} :: q <= r < c.pages ==> PageSound(c, s.blocks[b], r)
    ensures PlanOk(c, p)
    ensures var p' := PlanPages(c, p, s.blocks[b], q); var r := MovePages(c, s, b, q);
      && (r.Running? ==> Follows(c, s0, r.value, p', t'))
      && (Ledger(c, s) ==> (r.Halted? <==> p'.taken > |s0.free|) && (r.Halted? ==> r.why == EndOfLife))
    decreases c.pages - q
  {
    hide Inv, PageInfo, MovePage, Follows, PlanOk, Ledger, Evolves, Claim, Fill, PageSound, SameReads, FullStay, Shape;
    FollowsOk(c, s0, s, p, t);
    FreeLeft(c, s0, s, p, t);
    t' := t;
    if q < c.pages {
      var bl := s.blocks[b];
      var p1 := PlanPage(c, p, PageInfo(c, bl, q));
      t' := PageFollows(c, s0, s, b, q, p, t);
      MovePageKeeps(c, s, b, q);
      if MovePage(c, s, b, q).Running? {
        var s1 := MovePage(c, s, b, q).value;
        LaterPagesSound(c, bl, s1.blocks[b], q);
        InvParts(c, s);
        ShapeOk(c, s);
        MovePageEvolves(c, s, b, q);
        LedgerKept(c, s, s1, 0);
        LaterPagesStay(c, bl, q);
        PlanPagesSame(c, p1, bl, s1.blocks[b], q + 1);
        t' := PagesFollow(c, s0, s1, b, q + 1, p1, t');
      }
    }
  }

  lemma LedgerKept(c: Config, s: State, s': State, n: nat)
    requires Evolves(c, s, s', n)
    ensures Ledger(c, s) ==> Ledger(c, s')
  {
  }

  lemma {:induction false} BlocksFollow(c: Config, s0: State, s: State, victims: seq<nat>, k: nat, p: Plan, t: seq<nat>)
    returns (t': seq<nat>)
    requires Inv(c, s) && k <= |victims| && VictimsOk(c, s, victims) && VictimsSound(c, s, victims, k) && Follows(c, s0, s, p, t)
    requires forall j :: k <= j < |victims| ==> victims[j] in s0.blocks && s.blocks[victims[j]] == s0.blocks[victims[j]]
    ensures PlanOk(c, p)
    ensures var p' := PlanBlocks(c, p, s0.blocks, victims, k); var r := MoveBlocks(c, s, victims, k);
      && (r.Running? ==> Follows(c, s0, r.value, p', t'))
      && (Ledger(c, s) ==> (r.Halted? <==> p'.taken > |s0.free|) && (r.Halted? ==> r.why == EndOfLife))
    decreases |victims| - k
  {
    hide Inv, MovePages, Follows, PlanOk, Ledger, Evolves, PlanPages, VictimsOk, VictimsSound, FullStay, SameReads;
    FollowsOk(c, s0, s, p, t);
    FreeLeft(c, s0, s, p, t);
    t' := t;
    if k < |victims| {
      var b := victims[k];
      VictimFacts(c, s, victims, k);
      t' := PagesFollow(c, s0, s, b, 0, p, t);
      MovePagesKeeps(c, s, b, 0);
      if MovePages(c, s, b, 0).Running? {
        var s1 := MovePages(c, s, b, 0).value;
        VictimMoved(c, s, s1, victims, k);
        InvParts(c, s);
        MovePagesEvolves(c, s, b, 0);
        LedgerKept(c, s, s1, 0);
        t' := BlocksFollow(c, s0, s1, victims, k + 1, PlanPages(c, p, s0.blocks[b], 0), t');
      }
    }
  }

  // ---------------------------------------------------------------- when a collection halts

  /** The copies of a collection go through exactly when the plan needs no more fresh blocks than there are; then they
      take exactly as many, and copy exactly as many units. */
  lemma CopiesHaltIff(c: Config, s: State, victims: seq<nat>)
    requires Inv(c, s) && Ledger(c, s) && HeadsInUse(s, c.heads)
    requires VictimsOk(c, s, victims) && VictimsSound(c, s, victims, 0)
    ensures CanPlan(c, s)
    ensures var p := Planned(c, s, victims); var r := MoveBlocks(c, s, victims, 0);
      && (r.Halted? <==> p.taken > |s.free|)
      && (r.Halted? ==> r.why == EndOfLife)
      && (r.Running? ==> |r.value.free| == |s.free| - p.taken && r.value.copies == s.copies + p.copies)
  {
    hide Inv, Ledger, MoveBlocks, PlanBlocks, Start, VictimsOk, VictimsSound;
    InvParts(c, s);
    StartFollows(c, s);
    VictimsInUse(c, s, victims);
    var t := BlocksFollow(c, s, s, victims, 0, Start(c, s), []);
  }

  lemma VictimsInUse(c: Config, s: State, victims: seq<nat>)
    requires VictimsOk(c, s, victims)
    ensures forall j :: 0 <= j < |victims| ==> victims[j] in s.blocks
    ensures forall i, j :: 0 <= i < j < |victims| ==> victims[i] != victims[j]
  {
  }

  /** A collection halts exactly when the copies need more fresh blocks than there are, at the end of the device's life;
      or when they use up the very last one and some victim has to go back to the free list; or when some victim retires
      and the run is to end with that. Where the last two meet, the first victim decides. */
  lemma CollectedHaltsIff(c: Config, s: State, victims: seq<nat>)
    requires Inv(c, s) && Ledger(c, s) && HeadsInUse(s, c.heads)
    requires VictimsOk(c, s, victims) && VictimsSound(c, s, victims, 0)
    ensures CanPlan(c, s)
    ensures var taken := Planned(c, s, victims).taken; var r := Collected(c, s, victims);
      && (r.Halted? && r.why == EndOfLife <==> taken > |s.free|)
      && (r.Halted? && r.why == EmptyFreeList <==>
            && taken == |s.free| && (exists j :: 0 <= j < |victims| && Returns(c, s, victims[j]))
            && (c.stopAtDeath ==> Returns(c, s, victims[0])))
      && (r.Halted? && r.why == FirstDeath <==>
            && taken <= |s.free| && c.stopAtDeath && (exists j :: 0 <= j < |victims| && !Returns(c, s, victims[j]))
            && (taken == |s.free| ==> !Returns(c, s, victims[0])))
      && (r.Halted? ==> WornOut(c, r.why))
  {
    hide Inv, Ledger, MoveBlocks, EraseBlocks, PlanBlocks, Start, SameReads, VictimsOk, VictimsSound, HeadsInUse;
    CopiesHaltIff(c, s, victims);
    VictimsInUse(c, s, victims);
    if |victims| > 0 {
      NothingEmptied(s, victims);
      MoveBlocksKeeps(c, s, victims, 0);
      if MoveBlocks(c, s, victims, 0).Running? {
        var s1 := MoveBlocks(c, s, victims, 0).value;
        VictimsInUse(c, s1, victims);
        EraseBlocksHaltsIff(c, s1, victims, 0);
        assert forall j :: 0 <= j < |victims| ==> (Returns(c, s1, victims[j]) <==> Returns(c, s, victims[j]));
      }
    } else {
      NothingToMove(c, s, victims);
    }
  }

  /** What a collection gains: a free block for every victim that does not retire, less the fresh blocks its copies take. */
  lemma CollectedGain(c: Config, s: State, victims: seq<nat>)
    requires Inv(c, s) && Ledger(c, s) && HeadsInUse(s, c.heads)
    requires VictimsOk(c, s, victims) && VictimsSound(c, s, victims, 0) && Collected(c, s, victims).Running?
    ensures CanPlan(c, s)
    ensures var s' := Collected(c, s, victims).value; var p := Planned(c, s, victims);
      |s'.free| == |s.free| - p.taken + Returning(c, s, victims, 0) && s'.copies == s.copies + p.copies
  {
    hide Inv, Ledger, MoveBlocks, EraseBlocks, PlanBlocks, Start, SameReads, VictimsOk, VictimsSound, HeadsInUse, Returning;
    CopiesHaltIff(c, s, victims);
    VictimsInUse(c, s, victims);
    if |victims| > 0 {
      NothingEmptied(s, victims);
      MoveBlocksKeeps(c, s, victims, 0);
      var s1 := MoveBlocks(c, s, victims, 0).value;
      VictimsInUse(c, s1, victims);
      EraseBlocksGain(c, s1, victims, 0);
      EraseBlocksCopies(c, s1, victims, 0);
      ReturningSame(c, s, s1, victims, 0);
    } else {
      NothingToMove(c, s, victims);
      NothingReturns(c, s, victims);
    }
  }

  lemma NothingReturns(c: Config, s: State, victims: seq<nat>)
    requires |victims| == 0
    ensures Returning(c, s, victims, 0) == 0
  {
  }

  lemma {:induction false} EraseBlocksCopies(c: Config, s: State, victims: seq<nat>, k: nat)
    requires EraseBlocks(c, s, victims, k).Running?
    ensures EraseBlocks(c, s, victims, k).value.copies == s.copies
    decreases |victims| - k
  {
    if k < |victims| {
      EraseBlocksCopies(c, Erase(c, s, victims[k]).value, victims, k + 1);
    }
  }

  lemma NothingToMove(c: Config, s: State, victims: seq<nat>)
    requires |victims| == 0
    ensures MoveBlocks(c, s, victims, 0) == Collected(c, s, victims) == Running(s)
  {
  }

  lemma NothingEmptied(s: State, victims: seq<nat>)
    ensures Emptied(s, victims, 0)
  {
  }

  // ---------------------------------------------------------------- which write heads outlive a collection

  /** No victim is left as a write head: every head whose block is collected moves to a fresh block on the way. This is
      read off the state before the collection. */
  ghost predicate HeadsServed(c: Config, s: State, victims: seq<nat>)
    requires CanPlan(c, s)
  {
    forall i :: 0 <= i < c.heads && s.heads[i] in victims ==> Planned(c, s, victims).heads[i].New?
  }

  lemma SparedIsServed(c: Config, s: State, victims: seq<nat>)
    requires CanPlan(c, s) && forall k :: 0 <= k < |victims| ==> victims[k] !in s.heads
    ensures HeadsServed(c, s, victims)
  {
  }

  /** After a collection all write heads are in use exactly when every collected head moves on the way; and then heads
      that were different are different still. */
  lemma CollectedHeads(c: Config, s: State, victims: seq<nat>)
    requires Inv(c, s) && HeadsInUse(s, c.heads)
    requires VictimsOk(c, s, victims) && VictimsSound(c, s, victims, 0) && Collected(c, s, victims).Running?
    ensures CanPlan(c, s)
    ensures HeadsInUse(Collected(c, s, victims).value, c.heads) <==> HeadsServed(c, s, victims)
    ensures HeadsDistinct(s, c.heads) ==> HeadsDistinct(Collected(c, s, victims).value, c.heads)
  {
    hide Inv, MoveBlocks, EraseBlocks, PlanBlocks, Follows, Start, VictimsSound, VictimsOk;
    InvParts(c, s);
    StartFollows(c, s);
    VictimsInUse(c, s, victims);
    if |victims| > 0 {
      var t := BlocksFollow(c, s, s, victims, 0, Start(c, s), []);
      var s1 := MoveBlocks(c, s, victims, 0).value;
      EraseBlocksHeads(c, s1, victims, 0);
      var s2 := EraseBlocks(c, s1, victims, 0).value;
      var gone := set j | 0 <= j < |victims| :: victims[j];
      assert forall b :: b in gone <==> b in victims;
      FollowedHeads(c, s, s1, Planned(c, s, victims), t, victims);
    }
  }

  /** Where the heads are once the plan has been followed. */
  lemma FollowedHeads(c: Config, s0: State, s: State, p: Plan, t: seq<nat>, victims: seq<nat>)
    requires Follows(c, s0, s, p, t) && forall j :: 0 <= j < |victims| ==> victims[j] in s0.blocks
    ensures |s0.heads| == |s.heads| == |p.heads| == c.heads
    ensures forall i :: 0 <= i < c.heads ==> s.heads[i] in s.blocks
    ensures forall i :: 0 <= i < c.heads ==> (s.heads[i] in victims <==> s0.heads[i] in victims && !p.heads[i].New?)
    ensures HeadsDistinct(s0, c.heads) ==> HeadsDistinct(s, c.heads)
  {
    forall i | 0 <= i < c.heads
      ensures s.heads[i] in s.blocks
      ensures s.heads[i] in victims <==> s0.heads[i] in victims && !p.heads[i].New?
    {
      HeadNow(c, s0, s, p, t, i);
      if p.heads[i].New? {
        assert t[p.heads[i].number] !in s0.blocks;
      }
    }
    if HeadsDistinct(s0, c.heads) {
      forall i, j | 0 <= i < j < c.heads
        ensures s.heads[i] != s.heads[j]
      {
        assert p.heads[i] != p.heads[j];
        HomesDiffer(c, s0, s, p, t, p.heads[i], p.heads[j]);
      }
    }
  }
}
