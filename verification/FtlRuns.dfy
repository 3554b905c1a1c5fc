/**
 Whole runs: over any sequence of reads, writes and trims, with garbage collection firing anywhere, for any
 allocation and victim policy, the device behaves as a map from (LPN, unit) to the last payload written.
 */
module FtlRuns {
  import opened Ftl
  import opened FtlMapping
  import opened FtlGc
  import opened FtlWear
  import opened FtlEndurance
  import opened FtlHeads
  import opened FtlPlan

  /** `collect` decides, from the state right after the write, whether to collect garbage and which victims to take. */
  datatype Op =
    | ReadOp(lpn: nat, flags: set<nat>)
    | WriteOp(lpn: nat, flags: set<nat>, data: nat -> Data, collect: State -> Option<seq<nat>>)
    | TrimOp(lpn: nat)

  function Counted(s: State, flags: set<nat>): State {
    s.(hostUnits := s.hostUnits + |flags|)
  }

  function Apply(c: Config, s: State, op: Op): Outcome<(State, seq<Option<Data>>)> {
    match op
    case ReadOp(lpn, flags) =>
      var r :- HostRead(c, s, lpn, flags);
      Running((s, r))
    case WriteOp(lpn, flags, data, collect) =>
      var stored := Store(c, Counted(s, flags), lpn, flags, data);
      var s1 :- HostWrite(c, s, lpn, flags, data, if stored.Running? then collect(stored.value) else None);
      Running((s1, []))
    case TrimOp(lpn) =>
      var s1 :- Trim(c, s, lpn);
      Running((s1, []))
  }

  function Run(c: Config, s: State, ops: seq<Op>): Outcome<(State, seq<seq<Option<Data>>>)>
    decreases |ops|
  {
    if |ops| == 0 then Running((s, []))
    else
      var (s1, r) :- Apply(c, s, ops[0]);
      var (s2, rest) :- Run(c, s1, ops[1..]);
      Running((s2, [r] + rest))
  }

  // ---------------------------------------------------------------- the reference device

  type Device = map<(nat, nat), Data>

  function DeviceRead(c: Config, m: Device, lpn: nat, flags: set<nat>): seq<Option<Data>> {
    seq(c.Lanes(), u requires 0 <= u => if flags != {} && c.Touches(flags, u) && (lpn, u) in m then Some(m[(lpn, u)]) else None)
  }

  function DeviceWrite(c: Config, m: Device, lpn: nat, flags: set<nat>, data: nat -> Data): Device {
    m + map u | u in Touched(c, flags, c.Lanes()) :: (lpn, u) := data(u)
  }

  function DeviceApply(c: Config, m: Device, op: Op): (Device, seq<Option<Data>>) {
    match op
    case ReadOp(lpn, flags) => (m, DeviceRead(c, m, lpn, flags))
    case WriteOp(lpn, flags, data, _) =>
      (if flags == {} then m else DeviceWrite(c, m, lpn, flags, data), [])
    case TrimOp(lpn) => (map k | k in m && k.0 != lpn :: m[k], [])
  }

  function DeviceRun(c: Config, m: Device, ops: seq<Op>): (Device, seq<seq<Option<Data>>>)
    decreases |ops|
  {
    if |ops| == 0 then (m, [])
    else
      var (m1, r) := DeviceApply(c, m, ops[0]);
      var (m2, rest) := DeviceRun(c, m1, ops[1..]);
      (m2, [r] + rest)
  }

  ghost predicate Refines(c: Config, s: State, m: Device) {
    forall l: nat, u: nat {:trigger Read(c, s, l, u)} ::
      Read(c, s, l, u) == if (l, u) in m then Some(m[(l, u)]) else None
  }

  lemma EmptyTableReadsNothing(c: Config, s: State)
    requires s.table == map[]
    ensures Refines(c, s, map[])
  {
  }

  // ---------------------------------------------------------------- single operations

  lemma {:induction false} ReadLanesCorrect(c: Config, s: State, lpn: nat, flags: set<nat>, u: nat)
    requires Inv(c, s) && u <= c.Lanes()
    ensures ReadLanes(c, s, lpn, flags, u).Running?
    ensures var r := ReadLanes(c, s, lpn, flags, u).value;
      && |r| == c.Lanes() - u
      && forall v: nat :: u <= v < c.Lanes() ==> r[v - u] == if c.Touches(flags, v) then Read(c, s, lpn, v) else None
    decreases c.Lanes() - u
  {
    if u < c.Lanes() {
      ReadLanesCorrect(c, s, lpn, flags, u + 1);
      assert Points(c, s, lpn, u);
    }
  }

  /** A victim policy that returns distinct full blocks in use, about whose pages getPageInfo is right. */
  ghost predicate PolicyOk(c: Config, collect: State -> Option<seq<nat>>) {
    forall s :: Inv(c, s) && collect(s).Some? ==>
      VictimsOk(c, s, collect(s).value) && VictimsSound(c, s, collect(s).value, 0)
  }

  /** With more than one I/O unit per page the second half costs nothing. */
  lemma SoundWithSeveralUnits(c: Config, s: State, victims: seq<nat>)
    requires VictimsOk(c, s, victims) && c.units != 1
    ensures VictimsSound(c, s, victims, 0)
  {
  }

  ghost predicate OpOk(c: Config, op: Op) {
    op.WriteOp? ==> PolicyOk(c, op.collect)
  }

  lemma IgnoresFlag(c: Config, s: State, s': State)
    requires Inv(c, s) && s'.table == s.table && s'.blocks == s.blocks && s'.free == s.free && s'.nFree == s.nFree
    requires s'.heads == s.heads && s'.headIndex == s.headIndex && s'.media == s.media
    ensures Inv(c, s') && SameReads(c, s, s')
  {
    forall l: nat, v: nat
      ensures Points(c, s', l, v)
    {
      assert Points(c, s, l, v);
    }
    forall b, x | b in s'.blocks && x in s'.blocks[b].valid
      ensures Owned(s', b, x)
    {
      assert Owned(s, b, x);
    }
  }

  /** A write, with or without garbage collection behind it, changes exactly the units its flags name. */
  lemma WriteCorrect(c: Config, s: State, lpn: nat, flags: set<nat>, data: nat -> Data, gc: Option<seq<nat>>)
    requires Inv(c, s)
    requires Store(c, s, lpn, flags, data).Running? && gc.Some? ==>
      var s1 := Store(c, s, lpn, flags, data).value;
      VictimsOk(c, s1, gc.value) && VictimsSound(c, s1, gc.value, 0)
    ensures var r := Write(c, s, lpn, flags, data, gc);
      match r
      case Halted(why) => why == Corrupted || WornOut(c, why)
      case Running(s') =>
        && Inv(c, s')
        && forall l: nat, v: nat :: Read(c, s', l, v) == if l == lpn && c.Touches(flags, v) then Some(data(v)) else Read(c, s, l, v)
  {
    hide Inv, Read, Store, Collected, VictimsOk, VictimsSound;
    StoreCorrect(c, s, lpn, flags, data);
    if Store(c, s, lpn, flags, data).Running? && gc.Some? {
      var s1 := Store(c, s, lpn, flags, data).value;
      var s2 := s1.(reclaimMore := false);
      IgnoresFlag(c, s1, s2);
      VictimsIgnoreFlag(c, s1, s2, gc.value);
      CollectedCorrect(c, s2, gc.value);
      if Collected(c, s2, gc.value).Running? {
        SameReadsTrans(c, s1, s2, Collected(c, s2, gc.value).value);
      }
    }
  }

  lemma VictimsIgnoreFlag(c: Config, s: State, s': State, victims: seq<nat>)
    requires s'.blocks == s.blocks && VictimsOk(c, s, victims) && VictimsSound(c, s, victims, 0)
    ensures VictimsOk(c, s', victims) && VictimsSound(c, s', victims, 0)
  {
  }

  lemma ApplyRefines(c: Config, s: State, m: Device, op: Op)
    requires Inv(c, s) && Refines(c, s, m) && OpOk(c, op)
    ensures var r := Apply(c, s, op);
      match r
      case Halted(why) => why in {Corrupted, BlockNotInUse} || WornOut(c, why)
      case Running((s', out)) =>
        Inv(c, s') && Refines(c, s', DeviceApply(c, m, op).0) && out == DeviceApply(c, m, op).1
  {
    match op
    case ReadOp(lpn, flags) =>
      hide Inv, Refines, ReadLanes;
      ReadRefines(c, s, m, lpn, flags);
    case WriteOp(lpn, flags, data, collect) =>
      WriteRefines(c, s, m, lpn, flags, data, collect);
    case TrimOp(lpn) =>
      TrimRefines(c, s, m, lpn);
  }

  /** A read always returns, and answers from the map. */
  lemma ReadRefines(c: Config, s: State, m: Device, lpn: nat, flags: set<nat>)
    requires Inv(c, s) && Refines(c, s, m)
    ensures HostRead(c, s, lpn, flags) == Running(DeviceRead(c, m, lpn, flags))
  {
    hide Inv, Read;
    var r' := DeviceRead(c, m, lpn, flags);
    if flags == {} {
      assert seq(c.Lanes(), _ => None) == r';
    } else {
      ReadLanesCorrect(c, s, lpn, flags, 0);
      var r := ReadLanes(c, s, lpn, flags, 0).value;
      forall u: nat | u < c.Lanes()
        ensures r[u] == r'[u]
      {
        assert r[u - 0] == if c.Touches(flags, u) then Read(c, s, lpn, u) else None;
      }
      assert r == r';
    }
  }

  lemma DeviceWriteAt(c: Config, m: Device, lpn: nat, flags: set<nat>, data: nat -> Data, l: nat, u: nat)
    ensures var m' := DeviceWrite(c, m, lpn, flags, data);
      if l == lpn && c.Touches(flags, u) then (l, u) in m' && m'[(l, u)] == data(u)
      else ((l, u) in m' <==> (l, u) in m) && ((l, u) in m ==> m'[(l, u)] == m[(l, u)])
  {
    var patch := map v | v in Touched(c, flags, c.Lanes()) :: (lpn, v) := data(v);
    assert DeviceWrite(c, m, lpn, flags, data) == m + patch;
    if l == lpn && c.Touches(flags, u) {
      assert u in Touched(c, flags, c.Lanes());
      assert (lpn, u) in patch;
    } else {
      assert (l, u) !in patch;
    }
  }

  /** The condition of WriteCorrect, for a host write that reports these victims. */
  ghost predicate ReportOk(c: Config, s: State, lpn: nat, flags: set<nat>, data: nat -> Data, gc: Option<seq<nat>>) {
    var stored := Store(c, Counted(s, flags), lpn, flags, data);
    stored.Running? && gc.Some? ==> VictimsOk(c, stored.value, gc.value) && VictimsSound(c, stored.value, gc.value, 0)
  }

  /** A host write that returns leaves the device holding the map with just the named units overwritten. */
  lemma HostWriteRefines(c: Config, s: State, m: Device, lpn: nat, flags: set<nat>, data: nat -> Data, gc: Option<seq<nat>>)
    requires Inv(c, s) && Refines(c, s, m) && ReportOk(c, s, lpn, flags, data, gc)
    ensures var r := HostWrite(c, s, lpn, flags, data, gc);
      match r
      case Halted(why) => why == Corrupted || WornOut(c, why)
      case Running(s') => Inv(c, s') && Refines(c, s', if flags == {} then m else DeviceWrite(c, m, lpn, flags, data))
  {
    hide Inv, Read, Store, Write, DeviceWrite, VictimsOk, VictimsSound;
    if flags != {} {
      var s0 := Counted(s, flags);
      IgnoresFlag(c, s, s0);
      WriteCorrect(c, s0, lpn, flags, data, gc);
      if Write(c, s0, lpn, flags, data, gc).Running? {
        var s' := Write(c, s0, lpn, flags, data, gc).value;
        var m' := DeviceWrite(c, m, lpn, flags, data);
        forall l: nat, u: nat
          ensures Read(c, s', l, u) == if (l, u) in m' then Some(m'[(l, u)]) else None
        {
          assert Read(c, s0, l, u) == Read(c, s, l, u);
          DeviceWriteAt(c, m, lpn, flags, data, l, u);
        }
      }
    }
  }

  lemma WriteRefines(c: Config, s: State, m: Device, lpn: nat, flags: set<nat>, data: nat -> Data, collect: State -> Option<seq<nat>>)
    requires Inv(c, s) && Refines(c, s, m) && PolicyOk(c, collect)
    ensures var op := WriteOp(lpn, flags, data, collect); var r := Apply(c, s, op);
      match r
      case Halted(why) => why == Corrupted || WornOut(c, why)
      case Running((s', out)) =>
        Inv(c, s') && Refines(c, s', DeviceApply(c, m, op).0) && out == []
  {
    hide Inv, Store, HostWrite, DeviceWrite, Refines, SameReads, Touched, VictimsOk, VictimsSound;
    var s0 := Counted(s, flags);
    IgnoresFlag(c, s, s0);
    StoreCorrect(c, s0, lpn, flags, data);
    var stored := Store(c, s0, lpn, flags, data);
    HostWriteRefines(c, s, m, lpn, flags, data, if stored.Running? then collect(stored.value) else None);
  }

  lemma TrimRefines(c: Config, s: State, m: Device, lpn: nat)
    requires Inv(c, s) && Refines(c, s, m)
    ensures var r := Trim(c, s, lpn);
      match r
      case Halted(why) => why == BlockNotInUse
      case Running(s') => Inv(c, s') && Refines(c, s', DeviceApply(c, m, TrimOp(lpn)).0)
  {
    hide Inv, Trim;
    TrimCorrect(c, s, lpn);
    if Trim(c, s, lpn).Running? {
      var s' := Trim(c, s, lpn).value;
      var m' := DeviceApply(c, m, TrimOp(lpn)).0;
      forall l: nat, u: nat
        ensures Read(c, s', l, u) == if (l, u) in m' then Some(m'[(l, u)]) else None
      {
        assert Read(c, s, l, u) == if (l, u) in m then Some(m[(l, u)]) else None;
      }
    }
  }

  // ---------------------------------------------------------------- runs

  /** The flash translation layer refines a plain map: a run that returns gives the host exactly what the map
      gives, and a run can only halt on a worn-out device, at a write head that is not in use,
      or at a trim of a partly mapped LPN. */
  lemma {:induction false} RunRefines(c: Config, s: State, m: Device, ops: seq<Op>)
    requires Inv(c, s) && Refines(c, s, m)
    requires forall k :: 0 <= k < |ops| ==> OpOk(c, ops[k])
    ensures var r := Run(c, s, ops);
      match r
      case Halted(why) => why in {Corrupted, BlockNotInUse} || WornOut(c, why)
      case Running((s', outs)) =>
        Inv(c, s') && Refines(c, s', DeviceRun(c, m, ops).0) && outs == DeviceRun(c, m, ops).1
    decreases |ops|
  {
    hide Inv, Refines, OpOk, Apply, DeviceApply;
    if |ops| > 0 {
      ApplyRefines(c, s, m, ops[0]);
      if Apply(c, s, ops[0]).Running? {
        RunRefines(c, Apply(c, s, ops[0]).value.0, DeviceApply(c, m, ops[0]).0, ops[1..]);
      }
    }
  }

  // ---------------------------------------------------------------- endurance over runs

  lemma HostUnitsFrame(c: Config, s: State, s': State)
    requires s'.blocks == s.blocks && s'.free == s.free && s'.dead == s.dead && s'.nFree == s.nFree && s'.copies == s.copies
    ensures Potential(c, s') == Potential(c, s) && ErasesLeft(c, s') == ErasesLeft(c, s)
    ensures Ledger(c, s) ==> Ledger(c, s')
  {
  }

  lemma {:induction false} UnitsCount(c: Config, flags: set<nat>, u: nat)
    requires u <= c.Lanes()
    ensures Units(c, flags, u) == |TouchedFrom(c, flags, u)|
    decreases c.Lanes() - u
  {
    if u == c.Lanes() {
      assert TouchedFrom(c, flags, u) == {};
    } else {
      UnitsCount(c, flags, u + 1);
      if c.Touches(flags, u) {
        assert TouchedFrom(c, flags, u) == TouchedFrom(c, flags, u + 1) + {u};
      } else {
        assert TouchedFrom(c, flags, u) == TouchedFrom(c, flags, u + 1);
      }
    }
  }

  /** With the random-I/O tweak on, a request's flags are exactly the units it programs. */
  ghost predicate Requests(c: Config, op: Op) {
    op.WriteOp? ==> c.tweak && forall u :: u in op.flags ==> u < c.units
  }

  /** Units a request programs for the host. */
  function Spends(c: Config, op: Op): nat {
    if op.WriteOp? && op.flags != {} then Units(c, op.flags, 0) else 0
  }

  function SpendsAll(c: Config, ops: seq<Op>): nat {
    if |ops| == 0 then 0 else Spends(c, ops[0]) + SpendsAll(c, ops[1..])
  }

  lemma ApplyEndures(c: Config, s: State, op: Op)
    requires c.Ok() && Ledger(c, s) && Apply(c, s, op).Running?
    ensures var s' := Apply(c, s, op).value.0;
      && Ledger(c, s') && s.dead <= s'.dead && s.copies <= s'.copies
      && Potential(c, s') + s'.copies + Spends(c, op) <= Potential(c, s) + s.copies
      && ErasesLeft(c, s') <= ErasesLeft(c, s)
      && s'.hostUnits == s.hostUnits + (if op.WriteOp? then |op.flags| else 0)
  {
    hide Ledger, Potential, ErasesLeft, Store, Write, Trim, Units;
    match op
    case ReadOp(lpn, flags) =>
    case WriteOp(lpn, flags, data, collect) =>
      if flags != {} {
        var s0 := Counted(s, flags);
        HostUnitsFrame(c, s, s0);
        var stored := Store(c, s0, lpn, flags, data);
        var gc := if stored.Running? then collect(stored.value) else None;
        WriteEvolves(c, s0, lpn, flags, data, gc);
      }
    case TrimOp(lpn) =>
      TrimEvolves(c, s, lpn);
  }

  lemma HostWriteLedger(c: Config, s: State, lpn: nat, flags: set<nat>, data: nat -> Data, gc: Option<seq<nat>>)
    requires c.Ok() && Ledger(c, s) && HostWrite(c, s, lpn, flags, data, gc).Running?
    ensures Ledger(c, HostWrite(c, s, lpn, flags, data, gc).value)
  {
    hide Ledger, Potential, ErasesLeft, Write, Units;
    if flags != {} {
      HostUnitsFrame(c, s, Counted(s, flags));
      WriteEvolves(c, Counted(s, flags), lpn, flags, data, gc);
    }
  }

  /** Endurance: over any run the block lists stay in order, dead blocks stay dead, and what the requests program plus
      what garbage collection copies is paid out of the potential the run starts with. */
  lemma {:induction false} RunEndures(c: Config, s: State, ops: seq<Op>)
    requires c.Ok() && Ledger(c, s)
    requires Run(c, s, ops).Running?
    ensures var s' := Run(c, s, ops).value.0;
      && Ledger(c, s') && s.dead <= s'.dead && s.copies <= s'.copies
      && Potential(c, s') + s'.copies + SpendsAll(c, ops) <= Potential(c, s) + s.copies
      && 0 <= Potential(c, s') && ErasesLeft(c, s') <= ErasesLeft(c, s)
      && s'.hostUnits == s.hostUnits + Asked(ops)
    decreases |ops|
  {
    hide Ledger, Potential, ErasesLeft, Apply, Spends;
    if |ops| == 0 {
      PotentialNonNegative(c, s);
    } else {
      ApplyEndures(c, s, ops[0]);
      RunEndures(c, Apply(c, s, ops[0]).value.0, ops[1..]);
    }
  }

  /** Units the writes of a run ask for. */
  function Asked(ops: seq<Op>): nat {
    if |ops| == 0 then 0 else (if ops[0].WriteOp? then |ops[0].flags| else 0) + Asked(ops[1..])
  }

  /** With the random-I/O tweak on, the units asked for are the units programmed. */
  lemma {:induction false} AskedIsSpent(c: Config, ops: seq<Op>)
    requires forall k :: 0 <= k < |ops| ==> Requests(c, ops[k])
    ensures Asked(ops) == SpendsAll(c, ops)
    decreases |ops|
  {
    if |ops| > 0 {
      assert Requests(c, ops[0]);
      AskedIsSpent(c, ops[1..]);
      if ops[0].WriteOp? {
        UnitsCount(c, ops[0].flags, 0);
        assert TouchedFrom(c, ops[0].flags, 0) == ops[0].flags;
      }
    }
  }

  lemma {:induction false} SpendsAtLeast(c: Config, ops: seq<Op>)
    requires forall k :: 0 <= k < |ops| ==> Spends(c, ops[k]) > 0
    ensures |ops| <= SpendsAll(c, ops)
    decreases |ops|
  {
    if |ops| > 0 {
      SpendsAtLeast(c, ops[1..]);
    }
  }

  /** Every writing run ends: no run of writes that program something is longer than the potential it starts with. */
  lemma WritingRunsEnd(c: Config, s: State, ops: seq<Op>)
    requires c.Ok() && Ledger(c, s)
    requires forall k :: 0 <= k < |ops| ==> Spends(c, ops[k]) > 0
    requires |ops| > Potential(c, s)
    ensures Run(c, s, ops).Halted?
  {
    hide Potential, Spends, SpendsAll;
    if Run(c, s, ops).Running? {
      RunEndures(c, s, ops);
      SpendsAtLeast(c, ops);
    }
  }

  // ---------------------------------------------------------------- write heads over runs

  /** A victim policy under which every collected head moves on; a policy that never returns a head is one. */
  ghost predicate ServesHeads(c: Config, collect: State -> Option<seq<nat>>) {
    forall s :: Inv(c, s) && CanPlan(c, s) && collect(s).Some? ==> HeadsServed(c, s, collect(s).value)
  }

  lemma SparingServes(c: Config, collect: State -> Option<seq<nat>>)
    requires forall s :: collect(s).Some? ==> forall k :: 0 <= k < |collect(s).value| ==> collect(s).value[k] !in s.heads
    ensures ServesHeads(c, collect)
  {
    forall s | Inv(c, s) && CanPlan(c, s) && collect(s).Some?
      ensures HeadsServed(c, s, collect(s).value)
    {
      SparedIsServed(c, s, collect(s).value);
    }
  }

  /** Every write head is a block in use of its own. */
  ghost predicate HeadsOk(c: Config, s: State) {
    HeadsInUse(s, c.heads) && HeadsDistinct(s, c.heads)
  }

  /** Same heads, same blocks in use. */
  ghost predicate SameHeads(s: State, s': State) {
    s'.heads == s.heads && s'.blocks.Keys == s.blocks.Keys
  }

  lemma {:induction false} InvalidatedHeads(c: Config, s: State, lpn: nat, flags: set<nat>, u: nat)
    requires Invalidated(c, s, lpn, flags, u).Running?
    ensures SameHeads(s, Invalidated(c, s, lpn, flags, u).value)
    decreases c.Lanes() - u
  {
    if u < c.Lanes() {
      if !c.Touches(flags, u) || !c.Mapped(s.table[lpn][u]) {
        InvalidatedHeads(c, s, lpn, flags, u + 1);
      } else {
        InvalidatedHeads(c, ClearOld(s, s.table[lpn][u], u), lpn, flags, u + 1);
      }
    }
  }

  lemma {:induction false} TrimmedHeads(c: Config, s: State, lpn: nat, u: nat)
    requires Trimmed(c, s, lpn, u).Running?
    ensures SameHeads(s, Trimmed(c, s, lpn, u).value)
    decreases c.Lanes() - u
  {
    if u < c.Lanes() {
      TrimmedHeads(c, ClearOld(s, s.table[lpn][u], u), lpn, u + 1);
    }
  }

  lemma {:induction false} ProgrammedHeads(c: Config, s: State, lpn: nat, flags: set<nat>, data: nat -> Data, dst: nat, u: nat)
    requires Programmed(c, s, lpn, flags, data, dst, u).Running?
    ensures SameHeads(s, Programmed(c, s, lpn, flags, data, dst, u).value)
    decreases c.Lanes() - u
  {
    if u < c.Lanes() {
      if !c.Touches(flags, u) {
        ProgrammedHeads(c, s, lpn, flags, data, dst, u + 1);
      } else {
        ProgrammedHeads(c, ProgramUnit(c, s, lpn, u, dst, data(u)).value, lpn, flags, data, dst, u + 1);
      }
    }
  }

  lemma {:induction false} ProgrammedHalts(c: Config, s: State, lpn: nat, flags: set<nat>, data: nat -> Data, dst: nat, u: nat)
    requires Programmed(c, s, lpn, flags, data, dst, u).Halted?
    ensures Programmed(c, s, lpn, flags, data, dst, u).why != Corrupted
    decreases c.Lanes() - u
  {
    if !c.Touches(flags, u) {
      ProgrammedHalts(c, s, lpn, flags, data, dst, u + 1);
    } else if ProgramUnit(c, s, lpn, u, dst, data(u)).Running? {
      ProgrammedHalts(c, ProgramUnit(c, s, lpn, u, dst, data(u)).value, lpn, flags, data, dst, u + 1);
    }
  }

  lemma LastFreeBlockKeepsHeads(c: Config, s: State, flags: set<nat>)
    requires Shape(c, s) && HeadsOk(c, s) && LastFreeBlock(c, s, flags).Running?
    ensures HeadsOk(c, LastFreeBlock(c, s, flags).value.0)
  {
    hide Shape, GetFreeBlock;
    var s1 := Advanced(c, s, flags);
    if c.Full(s1.blocks[s1.heads[s1.headIndex]]) {
      AdvancedFrame(c, s, flags);
      TakesBlank(c, s, s1, s1.headIndex);
    }
  }

  /** A write, up to garbage collection, keeps the heads and never meets a head that is not in use. */
  lemma StoreKeepsHeads(c: Config, s: State, lpn: nat, flags: set<nat>, data: nat -> Data)
    requires Inv(c, s) && Ledger(c, s) && HeadsOk(c, s)
    ensures var r := Store(c, s, lpn, flags, data);
      && (r.Running? ==> HeadsOk(c, r.value) && Ledger(c, r.value))
      && (r.Halted? ==> r.why != Corrupted)
  {
    hide Inv, InvBut, Ledger, Shape, LastFreeBlock, Programmed, Invalidated, Evolves, Touched, AllUnclaimed;
    PreparedKeeps(c, s, lpn, flags);
    PreparedHeads(c, s, lpn, flags);
    var s1 := Prepared(c, s, lpn, flags).value;
    InvButParts(c, s1, lpn, Touched(c, flags, c.Lanes()));
    LastFreeBlockHaltsIff(c, s1, flags);
    HeadIsInUse(c, s1, flags);
    if LastFreeBlock(c, s1, flags).Running? {
      LastFreeBlockKeepsHeads(c, s1, flags);
      var (s2, dst) := LastFreeBlock(c, s1, flags).value;
      if Programmed(c, s2, lpn, flags, data, dst, 0).Running? {
        ProgrammedHeads(c, s2, lpn, flags, data, dst, 0);
        InvParts(c, s);
        ShapeOk(c, s);
        StoreEvolves(c, s, lpn, flags, data);
        LedgerKept(c, s, Store(c, s, lpn, flags, data).value, Units(c, flags, 0));
      } else {
        ProgrammedHalts(c, s2, lpn, flags, data, dst, 0);
      }
    }
  }

  lemma PreparedHeads(c: Config, s: State, lpn: nat, flags: set<nat>)
    requires Prepared(c, s, lpn, flags).Running? && HeadsOk(c, s)
    ensures HeadsOk(c, Prepared(c, s, lpn, flags).value)
    ensures Ledger(c, s) ==> Ledger(c, Prepared(c, s, lpn, flags).value)
  {
    hide Ledger, Invalidated, Evolves;
    var s1 := Prepared(c, s, lpn, flags).value;
    if lpn in s.table {
      InvalidatedHeads(c, s, lpn, flags, 0);
      InvalidatedEvolves(c, s, lpn, flags, 0);
    }
    SameWearEvolves(c, s, s1);
    LedgerKept(c, s, s1, 0);
  }

  lemma HeadIsInUse(c: Config, s: State, flags: set<nat>)
    requires Shape(c, s) && HeadsOk(c, s)
    ensures s.heads[Advanced(c, s, flags).headIndex] in s.blocks
  {
  }

  /** The flag that asks for more victims is not planned with. */
  lemma PlanIgnoresFlag(c: Config, s: State, victims: seq<nat>)
    requires CanPlan(c, s)
    ensures var s' := s.(reclaimMore := false);
      CanPlan(c, s') && Planned(c, s', victims) == Planned(c, s, victims)
  {
    hide PlanBlocks;
    var s' := s.(reclaimMore := false);
    assert CanPlan(c, s');
    assert Homes(s') == Homes(s);
    assert Start(c, s') == Start(c, s);
  }

  lemma WriteKeepsHeads(c: Config, s: State, lpn: nat, flags: set<nat>, data: nat -> Data, gc: Option<seq<nat>>)
    requires Inv(c, s) && Ledger(c, s) && HeadsOk(c, s)
    requires Store(c, s, lpn, flags, data).Running? && gc.Some? ==>
      var s1 := Store(c, s, lpn, flags, data).value;
      VictimsOk(c, s1, gc.value) && VictimsSound(c, s1, gc.value, 0) && (CanPlan(c, s1) ==> HeadsServed(c, s1, gc.value))
    ensures var r := Write(c, s, lpn, flags, data, gc);
      && (r.Running? ==> HeadsOk(c, r.value))
      && (r.Halted? ==> WornOut(c, r.why))
  {
    hide Inv, Store, Ledger, Shape, Collected, VictimsOk, VictimsSound, Planned, Returns;
    StoreKeepsHeads(c, s, lpn, flags, data);
    StoreCorrect(c, s, lpn, flags, data);
    if Store(c, s, lpn, flags, data).Running? && gc.Some? {
      var s1 := Store(c, s, lpn, flags, data).value;
      var s2 := s1.(reclaimMore := false);
      InvParts(c, s1);
      IgnoresFlag(c, s1, s2);
      VictimsIgnoreFlag(c, s1, s2, gc.value);
      PlanIgnoresFlag(c, s1, gc.value);
      SameWearEvolves(c, s1, s2);
      LedgerKept(c, s1, s2, 0);
      CollectedHaltsIff(c, s2, gc.value);
      if Collected(c, s2, gc.value).Running? {
        CollectedHeads(c, s2, gc.value);
      }
    }
  }

  /** What a request needs for the heads to last. */
  ghost predicate OpServes(c: Config, op: Op) {
    op.WriteOp? ==> ServesHeads(c, op.collect)
  }

  lemma ApplyKeepsHeads(c: Config, s: State, op: Op)
    requires Inv(c, s) && Ledger(c, s) && HeadsOk(c, s) && OpOk(c, op) && OpServes(c, op)
    ensures var r := Apply(c, s, op);
      && (r.Running? ==> HeadsOk(c, r.value.0))
      && (r.Halted? ==> r.why == BlockNotInUse || WornOut(c, r.why))
  {
    hide Inv, Ledger, Store, Write, Trimmed, Shape, HeadsServed, VictimsOk, VictimsSound;
    match op
    case ReadOp(lpn, flags) =>
      if flags != {} {
        ReadLanesCorrect(c, s, lpn, flags, 0);
      }
    case WriteOp(lpn, flags, data, collect) =>
      if flags != {} {
        var s0 := Counted(s, flags);
        IgnoresFlag(c, s, s0);
        HostUnitsFrame(c, s, s0);
        var stored := Store(c, s0, lpn, flags, data);
        StoreCorrect(c, s0, lpn, flags, data);
        var gc := if stored.Running? then collect(stored.value) else None;
        WriteKeepsHeads(c, s0, lpn, flags, data, gc);
      }
    case TrimOp(lpn) =>
      TrimKeepsHeads(c, s, lpn);
  }

  lemma TrimKeepsHeads(c: Config, s: State, lpn: nat)
    requires Inv(c, s) && HeadsOk(c, s)
    ensures var r := Trim(c, s, lpn);
      && (r.Running? ==> HeadsOk(c, r.value))
      && (r.Halted? ==> r.why == BlockNotInUse)
  {
    hide Inv, Trimmed;
    TrimCorrect(c, s, lpn);
    if Trim(c, s, lpn).Running? && lpn in s.table {
      TrimmedHeads(c, s, lpn, 0);
    }
  }

  /** Over any run whose victims are never left as heads, all heads stay blocks in use of their own, and no write meets
      "Corrupted": a run can only halt on a worn-out device or at a trim of a partly
      mapped LPN. */
  lemma {:induction false} RunKeepsHeads(c: Config, s: State, ops: seq<Op>)
    requires Inv(c, s) && Ledger(c, s) && HeadsOk(c, s)
    requires forall k :: 0 <= k < |ops| ==> OpOk(c, ops[k]) && OpServes(c, ops[k])
    ensures var r := Run(c, s, ops);
      && (r.Running? ==> Inv(c, r.value.0) && Ledger(c, r.value.0) && HeadsOk(c, r.value.0))
      && (r.Halted? ==> r.why == BlockNotInUse || WornOut(c, r.why))
    decreases |ops|
  {
    hide Inv, Ledger, HeadsOk, OpOk, OpServes, Apply, SameReads;
    if |ops| > 0 {
      ApplyKeepsHeads(c, s, ops[0]);
      if Apply(c, s, ops[0]).Running? {
        var s1 := Apply(c, s, ops[0]).value.0;
        ApplyKeepsInv(c, s, ops[0]);
        InvParts(c, s);
        ShapeOk(c, s);
        ApplyEndures(c, s, ops[0]);
        RunKeepsHeads(c, s1, ops[1..]);
      }
    }
  }

  /** The map that the device holds. */
  function Contents(c: Config, s: State): Device {
    map l: nat, u: nat | l in s.table && 0 <= u < |s.table[l]| && c.Mapped(s.table[l][u])
      :: (l, u) := Cell(s.media, Loc(s.table[l][u].block, s.table[l][u].page, u))
  }

  lemma ContentsRefined(c: Config, s: State)
    ensures Refines(c, s, Contents(c, s))
  {
  }

  lemma ApplyKeepsInv(c: Config, s: State, op: Op)
    requires Inv(c, s) && OpOk(c, op) && Apply(c, s, op).Running?
    ensures Inv(c, Apply(c, s, op).value.0)
  {
    hide Inv, OpOk, Apply, Contents, Refines;
    ContentsRefined(c, s);
    ApplyRefines(c, s, Contents(c, s), op);
  }
}
