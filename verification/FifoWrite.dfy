/**
 The write queue of the DMA FIFO: host writes wait, are inserted chunk by chunk, and are transferred upstream, driven
 by three events and one asynchronous upstream completion. No wake-up is lost, and every run without new requests ends
 with everything transferred.
 */
module FifoWrite {
  import opened FifoSplit

  /** The write queue with what is under way: which of its events are scheduled and whether the upstream is at work on
      the front of the transfer queue. `done` lists the transferred chunks, oldest first. */
  datatype Side = Side(wait: seq<Entry>, transfer: seq<Entry>, usage: int, insertPending: bool, transferPending: bool,
                       insertScheduled: bool, beginScheduled: bool, submitScheduled: bool, inFlight: bool,
                       done: seq<Entry>)

  const EMPTY := Side([], [], 0, false, false, false, false, false, false, [])

  // ---------------------------------------------------------------- the code, step by step

  function InsertWrite(p: Param, s: Side): Side
    requires p.Ok() && |s.wait| > 0
  {
    var size := CalcSize(p, s.wait[0].size);
    if (s.insertPending || s.usage + size > p.wqSize) && size <= p.wqSize then s
    else
      CalcSizeRounds(p, s.wait[0].size);
      var wait := if size > p.wqSize then Split(s.wait, p.transferUnit) else s.wait;
      s.(wait := wait, insertPending := true, usage := s.usage + CalcSize(p, wait[0].size),
         insertScheduled := true, beginScheduled := true, transfer := s.transfer + [wait[0]])
  }

  function InsertIfWaiting(p: Param, s: Side): Side
    requires p.Ok()
  {
    if |s.wait| > 0 then InsertWrite(p, s) else s
  }

  function InsertWriteDone(p: Param, s: Side): Side
    requires p.Ok() && |s.wait| > 0
  {
    InsertIfWaiting(p, s.(wait := s.wait[1..], insertPending := false))
  }

  function TransferWrite(s: Side): Side {
    if s.transferPending then s else s.(transferPending := true, inFlight := true)
  }

  function TransferWriteDoneNext(p: Param, s: Side): Side
    requires p.Ok() && |s.transfer| > 0
  {
    var front := s.transfer[0];
    var s1 := s.(usage := s.usage - CalcSize(p, front.size), transferPending := false, transfer := s.transfer[1..],
                 done := s.done + [front]);
    InsertIfWaiting(p, if |s1.transfer| > 0 && !s1.beginScheduled then TransferWrite(s1) else s1)
  }

  /** `late`: the transfer ended after the chunk was inserted and the unit latency passed. */
  function TransferWriteDone(p: Param, s: Side, late: bool): Side
    requires p.Ok() && |s.transfer| > 0
  {
    if late then TransferWriteDoneNext(p, s) else s.(submitScheduled := true)
  }

  function DmaWrite(p: Param, s: Side, r: Request): Side
    requires p.Ok()
  {
    if r.size == 0 then s else InsertWrite(p, s.(wait := s.wait + [Whole(r)]))
  }

  // ---------------------------------------------------------------- steps, in any interleaving

  datatype Step = Arrive(r: Request) | InsertDone | Begin | UpstreamDone(late: bool) | Submit

  predicate Enabled(s: Side, e: Step) {
    match e
    case Arrive(_) => true
    case InsertDone => s.insertScheduled
    case Begin => s.beginScheduled
    case UpstreamDone(_) => s.inFlight
    case Submit => s.submitScheduled
  }

  /** An event that fires is no longer scheduled. Where the code would take the front of an empty queue, nothing is
      said about what it does: Take states that it never happens. */
  function Take(p: Param, s: Side, e: Step): Side
    requires p.Ok()
    requires e.InsertDone? ==> |s.wait| > 0
    requires e.UpstreamDone? || e.Submit? ==> |s.transfer| > 0
  {
    match e
    case Arrive(r) => DmaWrite(p, s, r)
    case InsertDone => InsertWriteDone(p, s.(insertScheduled := false))
    case Begin => TransferWrite(s.(beginScheduled := false))
    case UpstreamDone(late) => TransferWriteDone(p, s.(inFlight := false), late)
    case Submit => TransferWriteDoneNext(p, s.(submitScheduled := false))
  }

  function Arrivals(e: Step): seq<Request> {
    if e.Arrive? && e.r.size > 0 then [e.r] else []
  }

  // ---------------------------------------------------------------- what every step keeps

  /** Waiting entries not yet copied to the transfer queue. */
  function Unpushed(s: Side): seq<Entry> {
    if s.insertPending && |s.wait| > 0 then s.wait[1..] else s.wait
  }

  predicate Queues(p: Param, s: Side, arrived: seq<Request>)
    requires p.Ok()
  {
    && (forall i :: 0 <= i < |s.wait| ==> s.wait[i].size > 0)
    && (forall i :: 0 <= i < |Unpushed(s)| ==> Unpushed(s)[i].last)
    && (forall i :: 0 <= i < |s.transfer| ==> s.transfer[i].size > 0)
    && s.usage == Usage(p, s.transfer)
    && (s.insertPending ==> |s.wait| > 0 && CalcSize(p, s.wait[0].size) <= p.wqSize)
    && Tiles(s.done + s.transfer + Unpushed(s), arrived)
  }

  /** The wake-up invariant, apart from the waiting queue. */
  predicate Wakes(s: Side) {
    && (s.insertPending <==> s.insertScheduled)
    && (s.transferPending <==> (s.inFlight || s.submitScheduled)) && !(s.inFlight && s.submitScheduled)
    && (|s.transfer| > 0 ==> s.transferPending || s.beginScheduled)
    && (s.transferPending ==> |s.transfer| > 0)
    && (s.beginScheduled ==> |s.transfer| > if s.transferPending then 1 else 0)
  }

  predicate Served(s: Side) {
    |s.wait| > 0 ==> s.insertPending || |s.transfer| > 0
  }

  predicate Inv(p: Param, s: Side, arrived: seq<Request>)
    requires p.Ok()
  {
    Queues(p, s, arrived) && Wakes(s) && Served(s)
  }

  predicate Blocked(p: Param, s: Side)
    requires p.Ok() && |s.wait| > 0
  {
    (s.insertPending || s.usage + CalcSize(p, s.wait[0].size) > p.wqSize) && CalcSize(p, s.wait[0].size) <= p.wqSize
  }

  /** The waiting queue once its front fits: cut if it is larger than the whole queue. */
  function Cut(p: Param, wait: seq<Entry>): (r: seq<Entry>)
    requires p.Ok() && |wait| > 0
    ensures |r| > 0
  {
    CalcSizeRounds(p, wait[0].size);
    if CalcSize(p, wait[0].size) > p.wqSize then Split(wait, p.transferUnit) else wait
  }

  lemma CutKeeps(p: Param, before: seq<Entry>, wait: seq<Entry>, arrived: seq<Request>)
    requires p.Ok() && |wait| > 0 && Tiles(before + wait, arrived)
    requires forall i :: 0 <= i < |wait| ==> wait[i].size > 0 && wait[i].last
    ensures Tiles(before + Cut(p, wait), arrived)
    ensures forall i :: 0 <= i < |Cut(p, wait)| ==> Cut(p, wait)[i].size > 0
    ensures forall i :: 0 < i < |Cut(p, wait)| ==> Cut(p, wait)[i].last
    ensures CalcSize(p, Cut(p, wait)[0].size) <= p.wqSize
    ensures Bytes(Cut(p, wait)[1..]) < Bytes(wait)
  {
    hide Tiles;
    var e := wait[0];
    CalcSizeRounds(p, e.size);
    assert wait == [e] + wait[1..];
    if CalcSize(p, e.size) > p.wqSize {
      var t := Cut(p, wait);
      CalcSizeRounds(p, p.transferUnit);
      TilesSplit(before, e, wait[1..], arrived, p.transferUnit);
      assert t[1..] == [Tail(e, p.transferUnit)] + wait[1..];
      assert t[1..][1..] == wait[1..];
    }
  }

  lemma InsertQueues(p: Param, s: Side, arrived: seq<Request>)
    requires p.Ok() && |s.wait| > 0 && Queues(p, s, arrived) && !Blocked(p, s)
    ensures Queues(p, InsertWrite(p, s), arrived)
    ensures !s.insertPending && Unpushed(s) == s.wait
    ensures Bytes(Unpushed(InsertWrite(p, s))) < Bytes(s.wait)
  {
    hide Tiles, Bytes, CalcSize;
    var t := InsertWrite(p, s);
    assert Unpushed(s) == s.wait;
    CutKeeps(p, s.done + s.transfer, s.wait, arrived);
    assert t.wait == Cut(p, s.wait);
    UsageAppend(p, s.transfer, t.wait[0]);
    assert t.done + t.transfer + Unpushed(t) == s.done + s.transfer + t.wait;
  }

  /** Inserting keeps everything and leaves the front of the waiting queue served. */
  lemma InsertKeeps(p: Param, s: Side, arrived: seq<Request>)
    requires p.Ok() && |s.wait| > 0 && Queues(p, s, arrived) && Wakes(s)
    ensures Inv(p, InsertWrite(p, s), arrived)
    ensures InsertWrite(p, s).done == s.done
    ensures Weight(InsertWrite(p, s)) <= Weight(s)
  {
    hide Tiles, Bytes, CalcSize;
    if Blocked(p, s) {
      assert Usage(p, []) == 0;
    } else {
      InsertQueues(p, s, arrived);
      hide Queues;
    }
  }

  lemma InsertIfWaitingKeeps(p: Param, s: Side, arrived: seq<Request>)
    requires p.Ok() && Queues(p, s, arrived) && Wakes(s)
    ensures Inv(p, InsertIfWaiting(p, s), arrived)
    ensures InsertIfWaiting(p, s).done == s.done
    ensures Weight(InsertIfWaiting(p, s)) <= Weight(s)
  {
    hide Queues, Wakes, InsertWrite;
    if |s.wait| > 0 { InsertKeeps(p, s, arrived); }
  }

  // ---------------------------------------------------------------- no run goes on for ever

  function Flag(b: bool, weight: nat): nat {
    if b then weight else 0
  }

  /** What is left to do: every enabled step but an arrival makes it smaller. */
  function Weight(s: Side): nat {
    8 * Bytes(Unpushed(s)) + 3 * |s.transfer| + Flag(s.insertScheduled, 1) + Flag(s.beginScheduled, 3)
    + Flag(s.inFlight, 2) + Flag(s.submitScheduled, 1)
  }

  // ---------------------------------------------------------------- one step

  /** The step finds an entry where the code takes a front. */
  predicate Safe(s: Side, e: Step) {
    (e.InsertDone? ==> |s.wait| > 0) && (e.UpstreamDone? || e.Submit? ==> |s.transfer| > 0)
  }

  lemma ArriveKeeps(p: Param, s: Side, arrived: seq<Request>, r: Request)
    requires p.Ok() && Inv(p, s, arrived) && r.size > 0
    ensures Inv(p, DmaWrite(p, s, r), arrived + [r])
    ensures DmaWrite(p, s, r).done == s.done
  {
    hide Tiles, Usage, CalcSize, InsertWrite;
    var s1 := s.(wait := s.wait + [Whole(r)]);
    TilesArrival(s.done + s.transfer + Unpushed(s), arrived, r);
    assert Unpushed(s1) == Unpushed(s) + [Whole(r)];
    assert s.done + s.transfer + Unpushed(s) + [Whole(r)] == s1.done + s1.transfer + Unpushed(s1);
    InsertKeeps(p, s1, arrived + [r]);
  }

  lemma InsertDoneKeeps(p: Param, s: Side, arrived: seq<Request>)
    requires p.Ok() && Inv(p, s, arrived) && s.insertScheduled
    ensures var t := InsertWriteDone(p, s.(insertScheduled := false));
      Inv(p, t, arrived) && t.done == s.done && Weight(t) < Weight(s)
  {
    hide Tiles, Usage, CalcSize, Bytes, InsertIfWaiting;
    var s1 := s.(insertScheduled := false, wait := s.wait[1..], insertPending := false);
    assert Unpushed(s1) == Unpushed(s);
    InsertIfWaitingKeeps(p, s1, arrived);
  }

  lemma DoneNextKeeps(p: Param, s: Side, arrived: seq<Request>)
    requires p.Ok() && Queues(p, s, arrived) && |s.transfer| > 0 && s.transferPending
    requires Wakes(s.(submitScheduled := true)) && !s.inFlight && !s.submitScheduled
    ensures var t := TransferWriteDoneNext(p, s);
      Inv(p, t, arrived) && t.done == s.done + [s.transfer[0]] && Weight(t) < Weight(s)
  {
    hide Tiles, CalcSize, Bytes, InsertIfWaiting;
    var front := s.transfer[0];
    var s1 := s.(usage := s.usage - CalcSize(p, front.size), transferPending := false, transfer := s.transfer[1..],
                 done := s.done + [front]);
    var s2 := if |s1.transfer| > 0 && !s1.beginScheduled then TransferWrite(s1) else s1;
    assert s1.done + s1.transfer + Unpushed(s1) == s.done + s.transfer + Unpushed(s);
    assert Queues(p, s2, arrived);
    InsertIfWaitingKeeps(p, s2, arrived);
  }

  /** Every step keeps the invariant and meets a non-empty queue; every step but an arrival leaves less to do. */
  lemma TakeKeeps(p: Param, s: Side, arrived: seq<Request>, e: Step)
    requires p.Ok() && Inv(p, s, arrived) && Enabled(s, e)
    ensures Safe(s, e)
    ensures Inv(p, Take(p, s, e), arrived + Arrivals(e))
    ensures !e.Arrive? ==> Weight(Take(p, s, e)) < Weight(s)
    ensures s.done <= Take(p, s, e).done
  {
    hide Tiles, Usage, CalcSize, Bytes, TransferWriteDoneNext, InsertWriteDone, InsertWrite;
    assert arrived + [] == arrived;
    match e
    case Arrive(r) =>
      if r.size > 0 { ArriveKeeps(p, s, arrived, r); }
    case InsertDone => InsertDoneKeeps(p, s, arrived);
    case Begin =>
    case UpstreamDone(late) =>
      if late { DoneNextKeeps(p, s.(inFlight := false), arrived); }
    case Submit => DoneNextKeeps(p, s.(submitScheduled := false), arrived);
  }

  // ---------------------------------------------------------------- whole runs

  datatype Run = Ran(side: Side) | NotEnabled | EmptyFront

  function Play(p: Param, s: Side, steps: seq<Step>): Run
    requires p.Ok()
    decreases |steps|
  {
    if |steps| == 0 then Ran(s)
    else if !Enabled(s, steps[0]) then NotEnabled
    else if !Safe(s, steps[0]) then EmptyFront
    else Play(p, Take(p, s, steps[0]), steps[1..])
  }

  function AllArrivals(steps: seq<Step>): seq<Request> {
    if |steps| == 0 then [] else Arrivals(steps[0]) + AllArrivals(steps[1..])
  }

  /** In every interleaving: no front of an empty queue is taken, no wake-up is lost, and the chunks transferred so far
      have fired the callbacks of the oldest requests, once each and in order. */
  lemma {:induction false} RunKeeps(p: Param, s: Side, arrived: seq<Request>, steps: seq<Step>)
    requires p.Ok() && Inv(p, s, arrived)
    ensures !Play(p, s, steps).EmptyFront?
    ensures Play(p, s, steps).Ran? ==>
      var t := Play(p, s, steps).side;
      && Inv(p, t, arrived + AllArrivals(steps))
      && Callbacks(t.done) <= Funcs(arrived + AllArrivals(steps))
    decreases |steps|
  {
    hide Tiles, Take, Wakes, Usage;
    if |steps| == 0 {
      assert arrived + [] == arrived;
      assert s.done + s.transfer + Unpushed(s) == s.done + (s.transfer + Unpushed(s));
      FinishedCallbacks(s.done, s.transfer + Unpushed(s), arrived);
    } else if Enabled(s, steps[0]) {
      hide Queues, Served, Enabled, Safe;
      TakeKeeps(p, s, arrived, steps[0]);
      RunKeeps(p, Take(p, s, steps[0]), arrived + Arrivals(steps[0]), steps[1..]);
      assert arrived + AllArrivals(steps) == arrived + Arrivals(steps[0]) + AllArrivals(steps[1..]);
    }
  }

  lemma EmptyInv(p: Param)
    requires p.Ok()
    ensures Inv(p, EMPTY, [])
  {
  }

  // ---------------------------------------------------------------- the capacity

  /** What the queue holds fits, and no waiting entry is larger than the queue. */
  predicate Fits(p: Param, s: Side)
    requires p.Ok()
  {
    s.usage <= p.wqSize && forall i :: 0 <= i < |s.wait| ==> CalcSize(p, s.wait[i].size) <= p.wqSize
  }

  /** Every chunk but the last one of its request is one transfer unit; or, with `whole`, there are no others. */
  predicate InUnits(p: Param, s: Side, whole: bool) {
    UnitsOf(p, s.wait, whole) && UnitsOf(p, s.transfer, whole) && UnitsOf(p, s.done, whole)
  }

  predicate UnitsOf(p: Param, es: seq<Entry>, whole: bool) {
    forall i :: 0 <= i < |es| ==> es[i].last || (!whole && es[i].size == p.transferUnit)
  }

  /** An entry waits only while the queue has no room for it. */
  predicate Crowded(p: Param, s: Side)
    requires p.Ok()
  {
    |s.wait| > 0 && !s.insertPending ==> s.usage + CalcSize(p, s.wait[0].size) > p.wqSize
  }

  lemma InsertIfWaitingFits(p: Param, s: Side)
    requires p.Ok()
    ensures Crowded(p, InsertIfWaiting(p, s))
    ensures Fits(p, s) ==> Fits(p, InsertIfWaiting(p, s))
  {
    hide CalcSize;
  }

  /** A request that is no larger than the queue. */
  predicate Small(p: Param, e: Step)
    requires p.Ok()
  {
    e.Arrive? ==> CalcSize(p, e.r.size) <= p.wqSize
  }

  lemma TakeFits(p: Param, s: Side, e: Step)
    requires p.Ok() && Enabled(s, e) && Safe(s, e) && Crowded(p, s)
    ensures Crowded(p, Take(p, s, e))
    ensures Fits(p, s) && Small(p, e) ==> Fits(p, Take(p, s, e))
  {
    hide CalcSize, InsertIfWaiting;
    match e
    case Arrive(r) =>
      InsertIfWaitingFits(p, s.(wait := s.wait + [Whole(r)]));
      assert InsertIfWaiting(p, s.(wait := s.wait + [Whole(r)])) == InsertWrite(p, s.(wait := s.wait + [Whole(r)])) by {
        InsertsWaiting(p, s.(wait := s.wait + [Whole(r)]));
      }
    case InsertDone =>
      InsertIfWaitingFits(p, s.(insertScheduled := false, wait := s.wait[1..], insertPending := false));
    case Begin =>
    case UpstreamDone(late) =>
      if late { DoneNextFits(p, s.(inFlight := false)); }
    case Submit => DoneNextFits(p, s.(submitScheduled := false));
  }

  lemma InsertIfWaitingInUnits(p: Param, s: Side, whole: bool)
    requires p.Ok() && InUnits(p, s, whole) && (whole ==> Fits(p, s))
    ensures InUnits(p, InsertIfWaiting(p, s), whole)
  {
    hide CalcSize;
  }

  lemma TakeInUnits(p: Param, s: Side, e: Step, whole: bool)
    requires p.Ok() && Enabled(s, e) && Safe(s, e) && InUnits(p, s, whole) && (whole ==> Fits(p, s) && Small(p, e))
    ensures InUnits(p, Take(p, s, e), whole)
  {
    hide CalcSize, InsertIfWaiting;
    match e
    case Arrive(r) =>
      if r.size > 0 {
        InsertIfWaitingInUnits(p, s.(wait := s.wait + [Whole(r)]), whole);
        InsertsWaiting(p, s.(wait := s.wait + [Whole(r)]));
      }
    case InsertDone =>
      InsertIfWaitingInUnits(p, s.(insertScheduled := false, wait := s.wait[1..], insertPending := false), whole);
    case Begin =>
    case UpstreamDone(late) =>
      if late { DoneNextInUnits(p, s.(inFlight := false), whole); }
    case Submit => DoneNextInUnits(p, s.(submitScheduled := false), whole);
  }

  lemma DoneNextInUnits(p: Param, s: Side, whole: bool)
    requires p.Ok() && |s.transfer| > 0 && InUnits(p, s, whole) && (whole ==> Fits(p, s))
    ensures InUnits(p, TransferWriteDoneNext(p, s), whole)
  {
    hide CalcSize, InsertIfWaiting;
    var s1 := s.(usage := s.usage - CalcSize(p, s.transfer[0].size), transferPending := false, transfer := s.transfer[1..],
                 done := s.done + [s.transfer[0]]);
    InsertIfWaitingInUnits(p, if |s1.transfer| > 0 && !s1.beginScheduled then TransferWrite(s1) else s1, whole);
  }

  lemma InsertsWaiting(p: Param, s: Side)
    requires p.Ok() && |s.wait| > 0
    ensures InsertIfWaiting(p, s) == InsertWrite(p, s)
  {
  }

  lemma DoneNextFits(p: Param, s: Side)
    requires p.Ok() && |s.transfer| > 0
    ensures Crowded(p, TransferWriteDoneNext(p, s))
    ensures Fits(p, s) ==> Fits(p, TransferWriteDoneNext(p, s))
  {
    hide CalcSize, InsertIfWaiting;
    var s1 := s.(usage := s.usage - CalcSize(p, s.transfer[0].size), transferPending := false, transfer := s.transfer[1..],
                 done := s.done + [s.transfer[0]]);
    InsertIfWaitingFits(p, if |s1.transfer| > 0 && !s1.beginScheduled then TransferWrite(s1) else s1);
  }

  /** In every interleaving an entry waits only while there is no room for it; and if every request fits by itself, the queue
      never holds more than its capacity. */
  lemma {:induction false} RunFits(p: Param, s: Side, arrived: seq<Request>, steps: seq<Step>)
    requires p.Ok() && Inv(p, s, arrived) && Crowded(p, s) && Play(p, s, steps).Ran?
    ensures Crowded(p, Play(p, s, steps).side)
    ensures Fits(p, s) && (forall i :: 0 <= i < |steps| ==> Small(p, steps[i])) ==> Fits(p, Play(p, s, steps).side)
    decreases |steps|
  {
    hide Inv, Take, Crowded, Fits, Enabled, Small, Weight;
    if |steps| > 0 {
      TakeKeeps(p, s, arrived, steps[0]);
      TakeFits(p, s, steps[0]);
      RunFits(p, Take(p, s, steps[0]), arrived + Arrivals(steps[0]), steps[1..]);
    }
  }

  /** A request is cut into transfer units and a rest; if every request fits by itself, none is cut. */
  lemma {:induction false} RunInUnits(p: Param, s: Side, arrived: seq<Request>, steps: seq<Step>, whole: bool)
    requires p.Ok() && Inv(p, s, arrived) && Crowded(p, s) && Play(p, s, steps).Ran? && InUnits(p, s, whole)
    requires whole ==> Fits(p, s) && forall i :: 0 <= i < |steps| ==> Small(p, steps[i])
    ensures InUnits(p, Play(p, s, steps).side, whole)
    decreases |steps|
  {
    hide Inv, Take, Crowded, Fits, InUnits, Enabled, Small, Weight;
    if |steps| > 0 {
      TakeKeeps(p, s, arrived, steps[0]);
      TakeFits(p, s, steps[0]);
      TakeInUnits(p, s, steps[0], whole);
      RunInUnits(p, Take(p, s, steps[0]), arrived + Arrivals(steps[0]), steps[1..], whole);
    }
  }

  lemma EmptyFits(p: Param)
    requires p.Ok()
    ensures Crowded(p, EMPTY) && Fits(p, EMPTY) && InUnits(p, EMPTY, true)
  {
  }

  /** A request larger than the queue is not held back: five units sent to a queue of two are in it three at a time. */
  lemma LargeRequestOverflows(p: Param, r: Request)
    requires p == Param(2, 2, 1) && r.size == 5
    ensures var run := Play(p, EMPTY, [Arrive(r), InsertDone, InsertDone]); run.Ran? && run.side.usage == 3 > p.wqSize
  {
    var s1 := DmaWrite(p, EMPTY, r);
    assert s1.wait == [Head(Whole(r), 1), Tail(Whole(r), 1)] && s1.usage == 1;
    var s2 := InsertWriteDone(p, s1.(insertScheduled := false));
    assert s2.wait[0].size == 1 && s2.wait[1].size == 3 && |s2.wait| == 2 && s2.usage == 2;
    var s3 := InsertWriteDone(p, s2.(insertScheduled := false));
    assert s3.usage == 3;
    assert Play(p, s3, []) == Ran(s3);
    assert Play(p, s2, [InsertDone]) == Play(p, s3, []);
    assert Play(p, s1, [InsertDone, InsertDone]) == Play(p, s2, [InsertDone]);
  }

  /** Without new requests every run is over after Weight(s) steps. */
  lemma {:induction false} RunEnds(p: Param, s: Side, arrived: seq<Request>, steps: seq<Step>)
    requires p.Ok() && Inv(p, s, arrived) && Play(p, s, steps).Ran?
    requires forall i :: 0 <= i < |steps| ==> !steps[i].Arrive?
    ensures |steps| <= Weight(s)
    decreases |steps|
  {
    hide Inv, Take, Weight;
    if |steps| > 0 {
      assert !steps[0].Arrive?;
      assert Enabled(s, steps[0]);
      TakeKeeps(p, s, arrived, steps[0]);
      assert arrived + [] == arrived;
      RunEnds(p, Take(p, s, steps[0]), arrived, steps[1..]);
    }
  }

  predicate Quiet(s: Side) {
    !s.insertScheduled && !s.beginScheduled && !s.inFlight && !s.submitScheduled
  }

  /** Where a run can go no further, every request has been transferred whole and called back once. */
  lemma QuietIsFinished(p: Param, s: Side, arrived: seq<Request>)
    requires p.Ok() && Inv(p, s, arrived) && Quiet(s)
    ensures s.wait == [] && s.transfer == [] && s.usage == 0
    ensures Tiles(s.done, arrived) && Callbacks(s.done) == Funcs(arrived)
  {
    hide Tiles, Callbacks;
    assert s.done + [] + [] == s.done;
    TilesCallbacks(s.done, arrived);
  }

  // ---------------------------------------------------------------- the queue as the program keeps it

  class Queue {
    const p: Param
    var waitQueue: seq<Entry>
    var transferQueue: seq<Entry>
    var usage: int
    var insertPending: bool
    var transferPending: bool
    var insertScheduled: bool
    var beginScheduled: bool
    var submitScheduled: bool
    var inFlight: bool
    ghost var done: seq<Entry>
    var called: seq<nat>

    ghost function State(): Side
      reads this
    {
      Side(waitQueue, transferQueue, usage, insertPending, transferPending, insertScheduled, beginScheduled,
           submitScheduled, inFlight, done)
    }

    /** The callbacks made are those of the chunks done. */
    ghost predicate Called()
      reads this
    {
      called == Callbacks(done)
    }

    constructor (p: Param)
      requires p.Ok()
      ensures this.p == p && State() == EMPTY && Called()
    {
      this.p := p;
      waitQueue, transferQueue, usage, called := [], [], 0, [];
      insertPending, transferPending := false, false;
      insertScheduled, beginScheduled, submitScheduled, inFlight := false, false, false, false;
      done := [];
    }

    method DoInsertWrite()
      requires p.Ok() && |waitQueue| > 0
      modifies this
      ensures State() == InsertWrite(p, old(State()))
      ensures called == old(called) && done == old(done)
    {
      hide CalcSize, Split;
      var size := CalcSize(p, waitQueue[0].size);
      if (insertPending || usage + size > p.wqSize) && size <= p.wqSize {
        return;
      }
      if size > p.wqSize {
        CalcSizeRounds(p, waitQueue[0].size);
        SplitFront();
        size := CalcSize(p, waitQueue[0].size);
      }
      insertPending := true;
      usage := usage + size;
      insertScheduled := true;
      if !beginScheduled {
        beginScheduled := true;
      }
      transferQueue := transferQueue + [waitQueue[0]];
    }

    /** The copy is the next one, the front is the current one. */
    method SplitFront()
      requires |waitQueue| > 0 && p.transferUnit <= waitQueue[0].size
      modifies this`waitQueue
      ensures waitQueue == Split(old(waitQueue), p.transferUnit)
    {
      var copy := waitQueue[0];
      copy := copy.(last := true, addr := copy.addr + p.transferUnit, size := copy.size - p.transferUnit,
                    buffer := if copy.buffer != 0 then copy.buffer + p.transferUnit else 0);
      var front := waitQueue[0].(last := false, size := p.transferUnit);
      waitQueue := [front, copy] + waitQueue[1..];
    }

    method DoInsertWriteDone()
      requires p.Ok() && |waitQueue| > 0
      modifies this
      ensures State() == InsertWriteDone(p, old(State()))
      ensures called == old(called) && done == old(done)
    {
      hide InsertWrite;
      waitQueue := waitQueue[1..];
      insertPending := false;
      if |waitQueue| > 0 {
        DoInsertWrite();
      }
    }

    method DoTransferWrite()
      modifies this
      ensures State() == TransferWrite(old(State()))
      ensures called == old(called) && done == old(done)
    {
      if transferPending {
        return;
      }
      transferPending := true;
      inFlight := true;
    }

    method DoTransferWriteDone(late: bool)
      requires p.Ok() && |transferQueue| > 0
      modifies this
      ensures State() == TransferWriteDone(p, old(State()), late)
      ensures old(Called()) ==> Called()
    {
      if late {
        DoTransferWriteDoneNext();
      } else {
        submitScheduled := true;
      }
    }

    method DoTransferWriteDoneNext()
      requires p.Ok() && |transferQueue| > 0
      modifies this
      ensures State() == TransferWriteDoneNext(p, old(State()))
      ensures old(Called()) ==> Called()
    {
      hide InsertWrite, CalcSize, Callbacks;
      CallbacksOne(done, transferQueue[0]);
      var front := transferQueue[0];
      if front.last {
        called := called + [front.func];
      }
      done := done + [front];
      usage := usage - CalcSize(p, front.size);
      transferPending := false;
      transferQueue := transferQueue[1..];
      if |transferQueue| > 0 {
        if !beginScheduled {
          DoTransferWrite();
        }
      }
      if |waitQueue| > 0 {
        DoInsertWrite();
      }
    }

    method DoDmaWrite(r: Request)
      requires p.Ok()
      modifies this
      ensures State() == DmaWrite(p, old(State()), r)
      ensures called == old(called) && done == old(done)
    {
      hide InsertWrite;
      if r.size == 0 {
        return;
      }
      waitQueue := waitQueue + [Entry(true, 0, r.addr, r.size, r.buffer, r.func)];
      DoInsertWrite();
    }

    /** One event, upstream completion or request; an event that fires is no longer scheduled. */
    method Do(e: Step, ghost arrived: seq<Request>)
      requires p.Ok() && Inv(p, State(), arrived) && Called() && Enabled(State(), e)
      modifies this
      ensures Inv(p, State(), arrived + Arrivals(e)) && Called()
      ensures State() == Take(p, old(State()), e)
      ensures called <= Funcs(arrived + Arrivals(e))
    {
      hide InsertWrite, InsertWriteDone, TransferWriteDone, TransferWriteDoneNext, DmaWrite, Callbacks, Inv, Funcs;
      TakeKeeps(p, State(), arrived, e);
      match e {
        case Arrive(r) => DoDmaWrite(r);
        case InsertDone => insertScheduled := false; DoInsertWriteDone();
        case Begin => beginScheduled := false; DoTransferWrite();
        case UpstreamDone(late) => inFlight := false; DoTransferWriteDone(late);
        case Submit => submitScheduled := false; DoTransferWriteDoneNext();
      }
      RunKeeps(p, State(), arrived + Arrivals(e), []);
      assert arrived + Arrivals(e) + [] == arrived + Arrivals(e);
    }
  }
}
