/**
 The read queue of the DMA FIFO: chunks are requested from the upstream one at a time, and inserted once an event
 fires; a chunk is finished when both its DMA and its insertion are over, in whichever order, which the list of
 half-finished chunks records. The same guarantees as for the write queue.
 */
module FifoRead {
  import opened FifoSplit

  /** A half-finished chunk: its DMA is over and its insertion is not, or the other way round. */
  datatype Half = Half(id: nat, dmaEnded: bool)

  datatype Side = Side(wait: seq<Entry>, transfer: seq<Entry>, usage: int, insertPending: bool, transferPending: bool,
                       counter: nat, completion: seq<Half>,
                       insertScheduled: bool, beginScheduled: bool, submitScheduled: bool, inFlight: bool,
                       done: seq<Entry>)

  const EMPTY := Side([], [], 0, false, false, 0, [], false, false, false, false, [])

  // ---------------------------------------------------------------- the code, step by step

  /** The first half-finished chunk of that id, or the end of the list. */
  function Find(completion: seq<Half>, id: nat): (r: nat)
    ensures r <= |completion|
    ensures r < |completion| ==> completion[r].id == id
    ensures forall i :: 0 <= i < r ==> completion[i].id != id
  {
    if |completion| == 0 || completion[0].id == id then 0 else 1 + Find(completion[1..], id)
  }

  /** Erasing keeps to the entry found earlier, wherever entries are added behind it. */
  function Without(completion: seq<Half>, at: nat): seq<Half> {
    if at < |completion| then completion[..at] + completion[at + 1..] else completion
  }

  function TransferRead(p: Param, s: Side): Side
    requires p.Ok() && |s.wait| > 0
  {
    var size := CalcSize(p, s.wait[0].size);
    if (s.transferPending || s.usage + size > p.rqSize) && size <= p.rqSize then s
    else
      CalcSizeRounds(p, s.wait[0].size);
      var cut := if size > p.rqSize then Split(s.wait, p.transferUnit) else s.wait;
      var front := cut[0].(id := s.counter);
      s.(wait := [front] + cut[1..], transferPending := true, counter := s.counter + 1,
         usage := s.usage + CalcSize(p, front.size), inFlight := true, beginScheduled := true,
         transfer := s.transfer + [front])
  }

  function TransferIfWaiting(p: Param, s: Side): Side
    requires p.Ok()
  {
    if |s.wait| > 0 then TransferRead(p, s) else s
  }

  function InsertRead(s: Side): Side {
    if s.insertPending then s else s.(insertPending := true, insertScheduled := true)
  }

  function InsertReadDoneNext(p: Param, s: Side): Side
    requires p.Ok() && |s.transfer| > 0
  {
    var front := s.transfer[0];
    var s1 := s.(usage := s.usage - CalcSize(p, front.size), insertPending := false, transfer := s.transfer[1..],
                 done := s.done + [front]);
    TransferIfWaiting(p, if |s1.transfer| > 0 && !s1.beginScheduled then InsertRead(s1) else s1)
  }

  /** `late`: the unit latency has passed since the DMA ended. */
  function InsertReadDoneMerge(p: Param, s: Side, at: nat, late: bool): Side
    requires p.Ok() && |s.transfer| > 0
  {
    var s1 := if late then InsertReadDoneNext(p, s) else s.(submitScheduled := true);
    s1.(completion := Without(s1.completion, at))
  }

  function InsertReadDone(p: Param, s: Side, late: bool): Side
    requires p.Ok() && |s.transfer| > 0
  {
    var at := Find(s.completion, s.transfer[0].id);
    if at == |s.completion| then s.(completion := s.completion + [Half(s.transfer[0].id, false)])
    else InsertReadDoneMerge(p, s, at, late)
  }

  function PopWaiting(p: Param, s: Side): Side
    requires p.Ok()
  {
    if |s.wait| > 0 then TransferIfWaiting(p, s.(wait := s.wait[1..], transferPending := false)) else s
  }

  function TransferReadDone(p: Param, s: Side, late: bool): Side
    requires p.Ok() && |s.wait| > 0 && |s.transfer| > 0
  {
    var at := Find(s.completion, s.wait[0].id);
    PopWaiting(p,
      if at == |s.completion| then s.(completion := s.completion + [Half(s.wait[0].id, true)])
      else InsertReadDoneMerge(p, s, at, late))
  }

  function DmaRead(p: Param, s: Side, r: Request): Side
    requires p.Ok()
  {
    if r.size == 0 then s else TransferRead(p, s.(wait := s.wait + [Whole(r)]))
  }

  // ---------------------------------------------------------------- steps, in any interleaving

  datatype Step = Arrive(r: Request) | InsertDone(late: bool) | Begin | UpstreamDone(late: bool) | Submit

  predicate Enabled(s: Side, e: Step) {
    match e
    case Arrive(_) => true
    case InsertDone(_) => s.insertScheduled
    case Begin => s.beginScheduled
    case UpstreamDone(_) => s.inFlight
    case Submit => s.submitScheduled
  }

  /** The step finds an entry where the code takes a front. */
  predicate Safe(s: Side, e: Step) {
    match e
    case Arrive(_) => true
    case UpstreamDone(_) => |s.wait| > 0 && |s.transfer| > 0
    case _ => |s.transfer| > 0
  }

  function Take(p: Param, s: Side, e: Step): Side
    requires p.Ok() && Safe(s, e)
  {
    match e
    case Arrive(r) => DmaRead(p, s, r)
    case InsertDone(late) => InsertReadDone(p, s.(insertScheduled := false), late)
    case Begin => InsertRead(s.(beginScheduled := false))
    case UpstreamDone(late) => TransferReadDone(p, s.(inFlight := false), late)
    case Submit => InsertReadDoneNext(p, s.(submitScheduled := false))
  }

  function Arrivals(e: Step): seq<Request> {
    if e.Arrive? && e.r.size > 0 then [e.r] else []
  }

  // ---------------------------------------------------------------- what every step keeps

  /** Waiting entries not yet copied to the transfer queue. */
  function Unpushed(s: Side): seq<Entry> {
    if s.transferPending && |s.wait| > 0 then s.wait[1..] else s.wait
  }

  predicate Queues(p: Param, s: Side, arrived: seq<Request>)
    requires p.Ok()
  {
    && (forall i :: 0 <= i < |s.wait| ==> s.wait[i].size > 0)
    && (forall i :: 0 <= i < |Unpushed(s)| ==> Unpushed(s)[i].last)
    && (forall i :: 0 <= i < |s.transfer| ==> s.transfer[i].size > 0)
    && s.usage == Usage(p, s.transfer)
    && (s.transferPending ==> |s.wait| > 0 && CalcSize(p, s.wait[0].size) <= p.rqSize)
    && Tiles(s.done + s.transfer + Unpushed(s), arrived)
  }

  /** Ids tell the chunks apart, in the order they were requested. */
  predicate Numbered(s: Side) {
    && (forall i :: 0 <= i < |s.transfer| ==> s.transfer[i].id < s.counter)
    && (forall i, j :: 0 <= i < j < |s.transfer| ==> s.transfer[i].id < s.transfer[j].id)
  }

  /** How many chunks of the transfer queue have their DMA behind them: all, but for the one in flight. */
  function DmaEnded(s: Side): int {
    |s.transfer| - if s.inFlight then 1 else 0
  }

  /** The front has been inserted and waits for its DMA. */
  predicate AwaitsDma(s: Side) {
    s.insertPending && !s.insertScheduled && !s.submitScheduled
  }

  /** The half-finished chunks, exactly. */
  predicate Halves(s: Side) {
    if AwaitsDma(s) then |s.transfer| == 1 && s.inFlight && s.completion == [Half(s.transfer[0].id, false)]
    else
      var first := if s.submitScheduled then 1 else 0;
      && |s.completion| == DmaEnded(s) - first
      && forall i :: 0 <= i < |s.completion| ==> s.completion[i] == Half(s.transfer[first + i].id, true)
  }

  predicate Wakes(s: Side) {
    && (s.transferPending <==> s.inFlight)
    && (s.insertScheduled || s.submitScheduled ==> s.insertPending) && !(s.insertScheduled && s.submitScheduled)
    && (|s.transfer| > 0 ==> s.insertPending || s.beginScheduled)
    && (s.insertPending ==> |s.transfer| > 0)
    && (s.beginScheduled ==> |s.transfer| > if s.insertPending then 1 else 0)
    && (s.transferPending ==> |s.transfer| > 0 && |s.wait| > 0 && s.wait[0] == s.transfer[|s.transfer| - 1])
  }

  predicate Served(s: Side) {
    |s.wait| > 0 ==> s.transferPending || |s.transfer| > 0
  }

  predicate Inv(p: Param, s: Side, arrived: seq<Request>)
    requires p.Ok()
  {
    Queues(p, s, arrived) && Wakes(s) && Numbered(s) && Halves(s) && Served(s)
  }

  // ---------------------------------------------------------------- no run goes on for ever

  function Flag(b: bool, weight: nat): nat {
    if b then weight else 0
  }

  /** What is left to do: every enabled step but an arrival makes it smaller. */
  function Weight(s: Side): nat {
    10 * Bytes(Unpushed(s)) + 4 * |s.transfer| + Flag(s.insertScheduled, 2) + Flag(s.beginScheduled, 3)
    + Flag(s.inFlight, 2) + Flag(s.submitScheduled, 1)
  }

  // ---------------------------------------------------------------- requesting a chunk

  predicate Blocked(p: Param, s: Side)
    requires p.Ok() && |s.wait| > 0
  {
    (s.transferPending || s.usage + CalcSize(p, s.wait[0].size) > p.rqSize) && CalcSize(p, s.wait[0].size) <= p.rqSize
  }

  /** The waiting queue once its front fits, and has its number. */
  function Cut(p: Param, wait: seq<Entry>, id: nat): (r: seq<Entry>)
    requires p.Ok() && |wait| > 0
    ensures |r| > 0
  {
    CalcSizeRounds(p, wait[0].size);
    var cut := if CalcSize(p, wait[0].size) > p.rqSize then Split(wait, p.transferUnit) else wait;
    [cut[0].(id := id)] + cut[1..]
  }

  lemma CutKeeps(p: Param, before: seq<Entry>, wait: seq<Entry>, id: nat, arrived: seq<Request>)
    requires p.Ok() && |wait| > 0 && Tiles(before + wait, arrived)
    requires forall i :: 0 <= i < |wait| ==> wait[i].size > 0 && wait[i].last
    ensures Tiles(before + Cut(p, wait, id), arrived)
    ensures forall i :: 0 <= i < |Cut(p, wait, id)| ==> Cut(p, wait, id)[i].size > 0
    ensures forall i :: 0 < i < |Cut(p, wait, id)| ==> Cut(p, wait, id)[i].last
    ensures CalcSize(p, Cut(p, wait, id)[0].size) <= p.rqSize
    ensures Bytes(Cut(p, wait, id)[1..]) < Bytes(wait)
  {
    hide Tiles;
    var e := wait[0];
    CalcSizeRounds(p, e.size);
    assert wait == [e] + wait[1..];
    var t := Cut(p, wait, id);
    if CalcSize(p, e.size) > p.rqSize {
      CalcSizeRounds(p, p.transferUnit);
      var h, tl := Head(e, p.transferUnit), Tail(e, p.transferUnit);
      TilesSplit(before, e, wait[1..], arrived, p.transferUnit);
      assert [h, tl] + wait[1..] == [h] + ([tl] + wait[1..]);
      TilesRelabel(before, h, [tl] + wait[1..], arrived, id);
      assert t == [h.(id := id)] + ([tl] + wait[1..]);
      assert t[1..] == [tl] + wait[1..];
      assert t[1..][1..] == wait[1..];
      forall i | 0 < i < |t|
        ensures t[i].last && t[i].size > 0
      {
        assert t[i] == if i == 1 then tl else wait[i - 1];
      }
    } else {
      TilesRelabel(before, e, wait[1..], arrived, id);
      assert t[1..] == wait[1..];
    }
  }

  lemma TransferQueues(p: Param, s: Side, arrived: seq<Request>)
    requires p.Ok() && |s.wait| > 0 && Queues(p, s, arrived) && !Blocked(p, s)
    ensures Queues(p, TransferRead(p, s), arrived)
    ensures !s.transferPending && Unpushed(s) == s.wait
    ensures Bytes(Unpushed(TransferRead(p, s))) < Bytes(s.wait)
  {
    hide Tiles, Bytes, CalcSize;
    var t := TransferRead(p, s);
    assert Unpushed(s) == s.wait;
    CutKeeps(p, s.done + s.transfer, s.wait, s.counter, arrived);
    assert t.wait == Cut(p, s.wait, s.counter);
    UsageAppend(p, s.transfer, t.wait[0]);
    assert t.done + t.transfer + Unpushed(t) == s.done + s.transfer + t.wait;
  }

  /** All of the invariant but that the front of the waiting queue is being served. */
  predicate Base(p: Param, s: Side, arrived: seq<Request>)
    requires p.Ok()
  {
    Queues(p, s, arrived) && Wakes(s) && Numbered(s) && Halves(s)
  }

  lemma TransferWakes(p: Param, s: Side)
    requires p.Ok() && |s.wait| > 0 && !Blocked(p, s)
    requires Wakes(s) && Numbered(s) && Halves(s) && !s.transferPending
    ensures var t := TransferRead(p, s); Wakes(t) && Numbered(t) && Halves(t)
  {
    hide CalcSize;
  }

  lemma TransferKeeps(p: Param, s: Side, arrived: seq<Request>)
    requires p.Ok() && |s.wait| > 0 && Base(p, s, arrived)
    ensures Inv(p, TransferRead(p, s), arrived)
    ensures TransferRead(p, s).done == s.done && TransferRead(p, s).completion == s.completion
    ensures Weight(TransferRead(p, s)) <= Weight(s)
  {
    hide Tiles, Bytes, CalcSize;
    if Blocked(p, s) {
      assert Usage(p, []) == 0;
    } else {
      TransferQueues(p, s, arrived);
      TransferWakes(p, s);
      hide Queues, Wakes, Numbered, Halves;
    }
  }

  lemma TransferIfWaitingKeeps(p: Param, s: Side, arrived: seq<Request>)
    requires p.Ok() && Base(p, s, arrived)
    ensures Inv(p, TransferIfWaiting(p, s), arrived)
    ensures TransferIfWaiting(p, s).done == s.done && TransferIfWaiting(p, s).completion == s.completion
    ensures Weight(TransferIfWaiting(p, s)) <= Weight(s)
  {
    hide Queues, Wakes, Numbered, Halves, TransferRead, Weight;
    if |s.wait| > 0 { TransferKeeps(p, s, arrived); }
  }

  // ---------------------------------------------------------------- one step

  lemma ArriveKeeps(p: Param, s: Side, arrived: seq<Request>, r: Request)
    requires p.Ok() && Inv(p, s, arrived) && r.size > 0
    ensures Inv(p, DmaRead(p, s, r), arrived + [r])
    ensures DmaRead(p, s, r).done == s.done
  {
    hide Tiles, Usage, CalcSize, TransferRead;
    var s1 := s.(wait := s.wait + [Whole(r)]);
    TilesArrival(s.done + s.transfer + Unpushed(s), arrived, r);
    assert Unpushed(s1) == Unpushed(s) + [Whole(r)];
    assert s.done + s.transfer + Unpushed(s) + [Whole(r)] == s1.done + s1.transfer + Unpushed(s1);
    TransferKeeps(p, s1, arrived + [r]);
  }

  /** The state after a finished front has been taken off, before the queues are looked at again. */
  function Popped(p: Param, s: Side): Side
    requires p.Ok() && |s.transfer| > 0
  {
    s.(usage := s.usage - CalcSize(p, s.transfer[0].size), insertPending := false, transfer := s.transfer[1..],
       done := s.done + [s.transfer[0]])
  }

  lemma PoppedQueues(p: Param, s: Side, arrived: seq<Request>)
    requires p.Ok() && |s.transfer| > 0 && Queues(p, s, arrived) && Numbered(s)
    ensures Queues(p, Popped(p, s), arrived) && Numbered(Popped(p, s))
  {
    hide Tiles, CalcSize;
    var s1 := Popped(p, s);
    assert s1.done + s1.transfer + Unpushed(s1) == s.done + s.transfer + Unpushed(s);
  }

  /** The front is finished: inserted, its DMA ended, and no longer among the half-finished chunks. */
  lemma DoneNextKeeps(p: Param, s: Side, arrived: seq<Request>)
    requires p.Ok() && Base(p, s.(submitScheduled := true), arrived) && |s.transfer| > 0 && s.insertPending
    requires !s.submitScheduled
    ensures var t := InsertReadDoneNext(p, s);
      Inv(p, t, arrived) && t.done == s.done + [s.transfer[0]] && t.completion == s.completion && Weight(t) < Weight(s)
  {
    hide Tiles, CalcSize, Bytes, TransferIfWaiting;
    var was := s.(submitScheduled := true);
    assert Queues(p, s, arrived) && Numbered(s);
    PoppedQueues(p, s, arrived);
    var s1 := Popped(p, s);
    var s2 := if |s1.transfer| > 0 && !s1.beginScheduled then InsertRead(s1) else s1;
    assert Queues(p, s2, arrived) && Numbered(s2);
    hide Queues;
    assert Wakes(s2);
    assert Halves(s2);
    hide Wakes, Halves, Numbered;
    TransferIfWaitingKeeps(p, s2, arrived);
  }

  lemma InsertDoneIs(p: Param, s: Side, late: bool)
    requires p.Ok() && s.insertScheduled && Wakes(s) && Halves(s)
    ensures
      var s0 := s.(insertScheduled := false);
      InsertReadDone(p, s0, late) ==
        if |s.completion| == 0 then s0.(completion := [Half(s.transfer[0].id, false)])
        else if late then InsertReadDoneNext(p, s0.(completion := s.completion[1..]))
        else s0.(completion := s.completion[1..], submitScheduled := true)
  {
    hide CalcSize, InsertReadDoneNext;
    var s0 := s.(insertScheduled := false);
    if |s.completion| > 0 {
      assert Find(s.completion, s.transfer[0].id) == 0;
      assert Without(s.completion, 0) == s.completion[1..];
      SameButHalves(p, s0, s.completion[1..]);
    }
  }

  /** What the end of an insertion leaves: a front waiting for its DMA, or a front that is finished. */
  lemma InsertedHalves(s: Side)
    requires s.insertScheduled && Wakes(s) && Halves(s)
    ensures |s.completion| == 0 ==>
      var t := s.(insertScheduled := false, completion := [Half(s.transfer[0].id, false)]); Wakes(t) && Halves(t)
    ensures |s.completion| > 0 ==>
      var t := s.(insertScheduled := false, completion := s.completion[1..], submitScheduled := true);
      Wakes(t) && Halves(t)
  {
  }

  lemma InsertDoneKeeps(p: Param, s: Side, arrived: seq<Request>, late: bool)
    requires p.Ok() && Inv(p, s, arrived) && s.insertScheduled
    ensures var t := InsertReadDone(p, s.(insertScheduled := false), late);
      Inv(p, t, arrived) && s.done <= t.done && Weight(t) < Weight(s)
  {
    hide Tiles, CalcSize, Bytes, Usage, InsertReadDoneNext, InsertReadDone, Halves;
    InsertDoneIs(p, s, late);
    InsertedHalves(s);
    if |s.completion| > 0 {
      var s1 := s.(insertScheduled := false, completion := s.completion[1..]);
      assert Queues(p, s1.(submitScheduled := true), arrived) && Numbered(s1.(submitScheduled := true));
      if late {
        hide Queues, Numbered;
        DoneNextKeeps(p, s1, arrived);
      }
    }
  }

  /** A front left behind is inserted, unless an event that does so is on its way. */
  function Roused(s: Side): Side {
    if |s.transfer| > 0 && !s.beginScheduled then InsertRead(s) else s
  }

  lemma DoneNextIs(p: Param, s: Side)
    requires p.Ok() && |s.transfer| > 0
    ensures InsertReadDoneNext(p, s) == TransferIfWaiting(p, Roused(Popped(p, s)))
  {
    hide CalcSize, TransferIfWaiting, InsertRead;
  }

  lemma RousedIgnoresHalves(p: Param, s: Side, completion: seq<Half>)
    requires p.Ok() && |s.transfer| > 0
    ensures var t := Roused(Popped(p, s));
      t.completion == s.completion && Roused(Popped(p, s.(completion := completion))) == t.(completion := completion)
  {
    hide CalcSize;
  }

  /** Finishing the front does not look at the half-finished chunks. */
  lemma SameButHalves(p: Param, s: Side, completion: seq<Half>)
    requires p.Ok() && |s.transfer| > 0
    ensures InsertReadDoneNext(p, s).(completion := completion) == InsertReadDoneNext(p, s.(completion := completion))
    ensures InsertReadDoneNext(p, s).completion == s.completion
  {
    hide CalcSize, TransferIfWaiting, InsertReadDoneNext, Roused, Popped;
    DoneNextIs(p, s);
    DoneNextIs(p, s.(completion := completion));
    RousedIgnoresHalves(p, s, completion);
    TransferIgnoresHalves(p, Roused(Popped(p, s)), completion);
  }

  lemma TransferIgnoresHalves(p: Param, s: Side, completion: seq<Half>)
    requires p.Ok()
    ensures var t := TransferIfWaiting(p, s);
      t.completion == s.completion && TransferIfWaiting(p, s.(completion := completion)) == t.(completion := completion)
  {
    hide CalcSize, Split;
  }

  /** What the end of a DMA leaves, before the queues are looked at again: one more half-finished chunk, or a front that
      is finished. */
  function Landed(p: Param, s: Side, late: bool): Side
    requires p.Ok() && |s.wait| > 0 && |s.transfer| > 0
  {
    var s0 := s.(inFlight := false, wait := s.wait[1..], transferPending := false);
    if !AwaitsDma(s) then s0.(completion := s.completion + [Half(s.wait[0].id, true)])
    else if late then Popped(p, s0).(completion := [])
    else s0.(completion := [], submitScheduled := true)
  }

  lemma UpstreamDoneIs(p: Param, s: Side, late: bool)
    requires p.Ok() && s.inFlight && Wakes(s) && Numbered(s) && Halves(s)
    requires Calcs(p, s)
    ensures TransferReadDone(p, s.(inFlight := false), late) == TransferIfWaiting(p, Landed(p, s, late))
  {
    hide CalcSize;
    var s0 := s.(inFlight := false);
    var at := Find(s.completion, s.wait[0].id);
    if AwaitsDma(s) {
      assert at == 0 && Without(s.completion, 0) == [];
    } else {
      NotAmongHalves(s);
    }
  }

  /** While a transfer is pending, nothing more is requested. */
  predicate Calcs(p: Param, s: Side)
    requires p.Ok()
  {
    s.transferPending && |s.wait| > 0 && CalcSize(p, s.wait[0].size) <= p.rqSize
  }

  lemma NotAmongHalves(s: Side)
    requires s.inFlight && Wakes(s) && Numbered(s) && Halves(s) && !AwaitsDma(s)
    ensures Find(s.completion, s.wait[0].id) == |s.completion|
  {
  }

  lemma ArrivedHalves(p: Param, s: Side, late: bool)
    requires p.Ok() && s.inFlight && Wakes(s) && Halves(s)
    ensures Wakes(Landed(p, s, late)) && Halves(Landed(p, s, late))
  {
    hide CalcSize;
  }

  lemma ArrivedQueues(p: Param, s: Side, arrived: seq<Request>, late: bool)
    requires p.Ok() && s.inFlight && Wakes(s) && Queues(p, s, arrived) && Numbered(s)
    ensures Queues(p, Landed(p, s, late), arrived) && Numbered(Landed(p, s, late))
    ensures s.done <= Landed(p, s, late).done && Weight(Landed(p, s, late)) < Weight(s)
  {
    hide Tiles, CalcSize, Bytes, Usage;
    var s0 := s.(inFlight := false, wait := s.wait[1..], transferPending := false);
    assert Unpushed(s0) == Unpushed(s);
    assert Queues(p, s0, arrived) && Numbered(s0);
    if AwaitsDma(s) && late {
      PoppedQueues(p, s0, arrived);
    }
  }

  lemma UpstreamDoneKeeps(p: Param, s: Side, arrived: seq<Request>, late: bool)
    requires p.Ok() && Inv(p, s, arrived) && s.inFlight
    ensures var t := TransferReadDone(p, s.(inFlight := false), late);
      Inv(p, t, arrived) && s.done <= t.done && Weight(t) < Weight(s)
  {
    hide TransferReadDone, TransferIfWaiting, Halves, Landed, Numbered, Weight;
    UpstreamDoneIs(p, s, late);
    ArrivedHalves(p, s, late);
    ArrivedQueues(p, s, arrived, late);
    TransferIfWaitingKeeps(p, Landed(p, s, late), arrived);
  }

  /** Every step keeps the invariant and meets a non-empty queue; every step but an arrival leaves less to do. */
  lemma TakeKeeps(p: Param, s: Side, arrived: seq<Request>, e: Step)
    requires p.Ok() && Inv(p, s, arrived) && Enabled(s, e)
    ensures Safe(s, e)
    ensures Inv(p, Take(p, s, e), arrived + Arrivals(e))
    ensures !e.Arrive? ==> Weight(Take(p, s, e)) < Weight(s)
    ensures s.done <= Take(p, s, e).done
  {
    hide Tiles, Usage, CalcSize, Bytes, InsertReadDoneNext, InsertReadDone, TransferReadDone, TransferRead, Numbered;
    assert arrived + [] == arrived;
    match e
    case Arrive(r) =>
      if r.size > 0 { ArriveKeeps(p, s, arrived, r); }
    case InsertDone(late) => InsertDoneKeeps(p, s, arrived, late);
    case Begin => BeginKeeps(p, s, arrived);
    case UpstreamDone(late) => UpstreamDoneKeeps(p, s, arrived, late);
    case Submit =>
      assert s.(submitScheduled := false).(submitScheduled := true) == s;
      DoneNextKeeps(p, s.(submitScheduled := false), arrived);
  }

  lemma BeginKeeps(p: Param, s: Side, arrived: seq<Request>)
    requires p.Ok() && Inv(p, s, arrived) && s.beginScheduled
    ensures var t := InsertRead(s.(beginScheduled := false));
      Inv(p, t, arrived) && t.done == s.done && Weight(t) < Weight(s)
  {
    hide Tiles, Usage, CalcSize, Bytes;
    var t := InsertRead(s.(beginScheduled := false));
    assert Queues(p, t, arrived) && Numbered(t);
    hide Queues, Numbered;
    assert Wakes(t);
    assert Halves(t);
  }

  // ---------------------------------------------------------------- whole runs

  datatype Run = Ran(side: Side) | NotEnabled | EmptyFront

  function Play(p: Param, s: Side, steps: seq<Step>): Run
    requires p.Ok()
    decreases |steps|
  {
    if |steps| == 0 then Ran(s)
    else if !Enabled(s, steps[0]) then NotEnabled
    else if !Safe(s, steps[0]) then EmptyFront
    else Play(p, Take(p, s, steps[0]), steps[1..])
  }

  function AllArrivals(steps: seq<Step>): seq<Request> {
    if |steps| == 0 then [] else Arrivals(steps[0]) + AllArrivals(steps[1..])
  }

  /** In every interleaving: no front of an empty queue is taken, no wake-up is lost, and the chunks transferred so far
      have fired the callbacks of the oldest requests, once each and in order. */
  lemma {:induction false} RunKeeps(p: Param, s: Side, arrived: seq<Request>, steps: seq<Step>)
    requires p.Ok() && Inv(p, s, arrived)
    ensures !Play(p, s, steps).EmptyFront?
    ensures Play(p, s, steps).Ran? ==>
      var t := Play(p, s, steps).side;
      && Inv(p, t, arrived + AllArrivals(steps))
      && Callbacks(t.done) <= Funcs(arrived + AllArrivals(steps))
    decreases |steps|
  {
    hide Tiles, Take, Wakes, Usage;
    if |steps| == 0 {
      assert arrived + [] == arrived;
      assert s.done + s.transfer + Unpushed(s) == s.done + (s.transfer + Unpushed(s));
      FinishedCallbacks(s.done, s.transfer + Unpushed(s), arrived);
    } else if Enabled(s, steps[0]) {
      hide Queues, Served, Enabled, Safe;
      TakeKeeps(p, s, arrived, steps[0]);
      RunKeeps(p, Take(p, s, steps[0]), arrived + Arrivals(steps[0]), steps[1..]);
      assert arrived + AllArrivals(steps) == arrived + Arrivals(steps[0]) + AllArrivals(steps[1..]);
    }
  }

  lemma EmptyInv(p: Param)
    requires p.Ok()
    ensures Inv(p, EMPTY, [])
  {
  }

  // ---------------------------------------------------------------- the capacity

  /** What the queue holds fits, and no waiting entry is larger than the queue. */
  predicate Fits(p: Param, s: Side)
    requires p.Ok()
  {
    s.usage <= p.rqSize && forall i :: 0 <= i < |s.wait| ==> CalcSize(p, s.wait[i].size) <= p.rqSize
  }

  /** Every chunk but the last one of its request is one transfer unit; or, with `whole`, there are no others. */
  predicate InUnits(p: Param, s: Side, whole: bool) {
    UnitsOf(p, s.wait, whole) && UnitsOf(p, s.transfer, whole) && UnitsOf(p, s.done, whole)
  }

  predicate UnitsOf(p: Param, es: seq<Entry>, whole: bool) {
    forall i :: 0 <= i < |es| ==> es[i].last || (!whole && es[i].size == p.transferUnit)
  }

  /** An entry waits only while the queue has no room for it. */
  predicate Crowded(p: Param, s: Side)
    requires p.Ok()
  {
    |s.wait| > 0 && !s.transferPending ==> s.usage + CalcSize(p, s.wait[0].size) > p.rqSize
  }

  lemma TransferIfWaitingFits(p: Param, s: Side)
    requires p.Ok()
    ensures Crowded(p, TransferIfWaiting(p, s))
    ensures Fits(p, s) ==> Fits(p, TransferIfWaiting(p, s))
  {
    hide CalcSize;
  }

  /** A request that is no larger than the queue. */
  predicate Small(p: Param, e: Step)
    requires p.Ok()
  {
    e.Arrive? ==> CalcSize(p, e.r.size) <= p.rqSize
  }

  lemma TakeFits(p: Param, s: Side, e: Step)
    requires p.Ok() && Enabled(s, e) && Safe(s, e) && Crowded(p, s)
    ensures Crowded(p, Take(p, s, e))
    ensures Fits(p, s) && Small(p, e) ==> Fits(p, Take(p, s, e))
  {
    hide CalcSize, TransferIfWaiting, TransferReadDone, Find, InsertReadDoneNext;
    match e
    case Arrive(r) =>
      TransferIfWaitingFits(p, s.(wait := s.wait + [Whole(r)]));
      assert TransferIfWaiting(p, s.(wait := s.wait + [Whole(r)])) == TransferRead(p, s.(wait := s.wait + [Whole(r)])) by {
        TransfersWaiting(p, s.(wait := s.wait + [Whole(r)]));
      }
    case InsertDone(late) =>
      DoneNextFits(p, s.(insertScheduled := false));
    case Begin =>
    case UpstreamDone(late) =>
      UpstreamDoneFits(p, s.(inFlight := false), late);
    case Submit => DoneNextFits(p, s.(submitScheduled := false));
  }

  lemma TransferIfWaitingInUnits(p: Param, s: Side, whole: bool)
    requires p.Ok() && InUnits(p, s, whole) && (whole ==> Fits(p, s))
    ensures InUnits(p, TransferIfWaiting(p, s), whole)
  {
    hide CalcSize;
  }

  lemma TakeInUnits(p: Param, s: Side, e: Step, whole: bool)
    requires p.Ok() && Enabled(s, e) && Safe(s, e) && InUnits(p, s, whole) && (whole ==> Fits(p, s) && Small(p, e))
    ensures InUnits(p, Take(p, s, e), whole)
  {
    hide CalcSize, TransferIfWaiting, TransferReadDone, Find, InsertReadDoneNext;
    match e
    case Arrive(r) =>
      if r.size > 0 {
        TransferIfWaitingInUnits(p, s.(wait := s.wait + [Whole(r)]), whole);
        TransfersWaiting(p, s.(wait := s.wait + [Whole(r)]));
      }
    case InsertDone(late) =>
      DoneNextInUnits(p, s.(insertScheduled := false), whole);
    case Begin =>
    case UpstreamDone(late) =>
      UpstreamDoneInUnits(p, s.(inFlight := false), late, whole);
    case Submit => DoneNextInUnits(p, s.(submitScheduled := false), whole);
  }

  /** The end of a DMA, before the chunk leaves the waiting queue. */
  function Recorded(p: Param, s: Side, late: bool): Side
    requires p.Ok() && |s.wait| > 0 && |s.transfer| > 0
  {
    var at := Find(s.completion, s.wait[0].id);
    if at == |s.completion| then s.(completion := s.completion + [Half(s.wait[0].id, true)])
    else InsertReadDoneMerge(p, s, at, late)
  }

  lemma RecordedInUnits(p: Param, s: Side, late: bool, whole: bool)
    requires p.Ok() && |s.wait| > 0 && |s.transfer| > 0 && InUnits(p, s, whole) && (whole ==> Fits(p, s))
    ensures InUnits(p, Recorded(p, s, late), whole) && (whole ==> Fits(p, Recorded(p, s, late)))
  {
    hide CalcSize, Find, InsertReadDoneNext, Crowded;
    DoneNextInUnits(p, s, whole);
    DoneNextFits(p, s);
  }

  lemma PopInUnits(p: Param, s: Side, whole: bool)
    requires p.Ok() && InUnits(p, s, whole) && (whole ==> Fits(p, s))
    ensures InUnits(p, PopWaiting(p, s), whole)
  {
    hide CalcSize, TransferIfWaiting;
    if |s.wait| > 0 {
      TransferIfWaitingInUnits(p, s.(wait := s.wait[1..], transferPending := false), whole);
    }
  }

  lemma UpstreamDoneInUnits(p: Param, s: Side, late: bool, whole: bool)
    requires p.Ok() && |s.wait| > 0 && |s.transfer| > 0 && InUnits(p, s, whole) && (whole ==> Fits(p, s))
    ensures InUnits(p, TransferReadDone(p, s, late), whole)
  {
    hide CalcSize, Find, InsertReadDoneMerge, PopWaiting, InUnits, Fits;
    RecordedInUnits(p, s, late, whole);
    PopInUnits(p, Recorded(p, s, late), whole);
  }

  lemma DoneNextInUnits(p: Param, s: Side, whole: bool)
    requires p.Ok() && |s.transfer| > 0 && InUnits(p, s, whole) && (whole ==> Fits(p, s))
    ensures InUnits(p, InsertReadDoneNext(p, s), whole)
  {
    hide CalcSize, TransferIfWaiting, Popped, Roused, InsertReadDoneNext;
    DoneNextIs(p, s);
    RousedInUnits(p, s, whole);
    if whole { RousedFits(p, s); }
    TransferIfWaitingInUnits(p, Roused(Popped(p, s)), whole);
  }

  lemma TransfersWaiting(p: Param, s: Side)
    requires p.Ok() && |s.wait| > 0
    ensures TransferIfWaiting(p, s) == TransferRead(p, s)
  {
  }

  lemma UpstreamDoneFits(p: Param, s: Side, late: bool)
    requires p.Ok() && |s.wait| > 0 && |s.transfer| > 0
    ensures Crowded(p, TransferReadDone(p, s, late))
    ensures Fits(p, s) ==> Fits(p, TransferReadDone(p, s, late))
  {
    hide CalcSize, TransferIfWaiting, Find, InsertReadDoneNext;
    DoneNextFits(p, s);
    var at := Find(s.completion, s.wait[0].id);
    var s1 := if at == |s.completion| then s.(completion := s.completion + [Half(s.wait[0].id, true)])
      else InsertReadDoneMerge(p, s, at, late);
    if |s1.wait| > 0 {
      TransferIfWaitingFits(p, s1.(wait := s1.wait[1..], transferPending := false));
    }
  }

  lemma DoneNextFits(p: Param, s: Side)
    requires p.Ok() && |s.transfer| > 0
    ensures Crowded(p, InsertReadDoneNext(p, s))
    ensures Fits(p, s) ==> Fits(p, InsertReadDoneNext(p, s))
  {
    hide CalcSize, TransferIfWaiting, Popped, Roused, InsertReadDoneNext;
    DoneNextIs(p, s);
    TransferIfWaitingFits(p, Roused(Popped(p, s)));
    if Fits(p, s) { RousedFits(p, s); }
  }

  lemma RousedInUnits(p: Param, s: Side, whole: bool)
    requires p.Ok() && |s.transfer| > 0 && InUnits(p, s, whole)
    ensures InUnits(p, Roused(Popped(p, s)), whole)
  {
    hide CalcSize;
  }

  lemma RousedFits(p: Param, s: Side)
    requires p.Ok() && |s.transfer| > 0 && Fits(p, s)
    ensures Fits(p, Roused(Popped(p, s)))
  {
    hide CalcSize;
  }

  /** In every interleaving an entry waits only while there is no room for it; and if every request fits by itself, the queue
      never holds more than its capacity. */
  lemma {:induction false} RunFits(p: Param, s: Side, arrived: seq<Request>, steps: seq<Step>)
    requires p.Ok() && Inv(p, s, arrived) && Crowded(p, s) && Play(p, s, steps).Ran?
    ensures Crowded(p, Play(p, s, steps).side)
    ensures Fits(p, s) && (forall i :: 0 <= i < |steps| ==> Small(p, steps[i])) ==> Fits(p, Play(p, s, steps).side)
    decreases |steps|
  {
    hide Inv, Take, Crowded, Fits, Enabled, Small, Weight;
    if |steps| > 0 {
      TakeKeeps(p, s, arrived, steps[0]);
      TakeFits(p, s, steps[0]);
      RunFits(p, Take(p, s, steps[0]), arrived + Arrivals(steps[0]), steps[1..]);
    }
  }

  /** A request is cut into transfer units and a rest; if every request fits by itself, none is cut. */
  lemma {:induction false} RunInUnits(p: Param, s: Side, arrived: seq<Request>, steps: seq<Step>, whole: bool)
    requires p.Ok() && Inv(p, s, arrived) && Crowded(p, s) && Play(p, s, steps).Ran? && InUnits(p, s, whole)
    requires whole ==> Fits(p, s) && forall i :: 0 <= i < |steps| ==> Small(p, steps[i])
    ensures InUnits(p, Play(p, s, steps).side, whole)
    decreases |steps|
  {
    hide Inv, Take, Crowded, Fits, InUnits, Enabled, Small, Weight;
    if |steps| > 0 {
      TakeKeeps(p, s, arrived, steps[0]);
      TakeFits(p, s, steps[0]);
      TakeInUnits(p, s, steps[0], whole);
      RunInUnits(p, Take(p, s, steps[0]), arrived + Arrivals(steps[0]), steps[1..], whole);
    }
  }

  lemma EmptyFits(p: Param)
    requires p.Ok()
    ensures Crowded(p, EMPTY) && Fits(p, EMPTY) && InUnits(p, EMPTY, true)
  {
  }

  /** Without new requests every run is over after Weight(s) steps. */
  lemma {:induction false} RunEnds(p: Param, s: Side, arrived: seq<Request>, steps: seq<Step>)
    requires p.Ok() && Inv(p, s, arrived) && Play(p, s, steps).Ran?
    requires forall i :: 0 <= i < |steps| ==> !steps[i].Arrive?
    ensures |steps| <= Weight(s)
    decreases |steps|
  {
    hide Inv, Take, Weight;
    if |steps| > 0 {
      assert !steps[0].Arrive?;
      assert Enabled(s, steps[0]);
      TakeKeeps(p, s, arrived, steps[0]);
      assert arrived + [] == arrived;
      RunEnds(p, Take(p, s, steps[0]), arrived, steps[1..]);
    }
  }

  predicate Quiet(s: Side) {
    !s.insertScheduled && !s.beginScheduled && !s.inFlight && !s.submitScheduled
  }

  /** Where a run can go no further, every request has been read whole and called back once. */
  lemma QuietIsFinished(p: Param, s: Side, arrived: seq<Request>)
    requires p.Ok() && Inv(p, s, arrived) && Quiet(s)
    ensures s.wait == [] && s.transfer == [] && s.usage == 0 && s.completion == []
    ensures Tiles(s.done, arrived) && Callbacks(s.done) == Funcs(arrived)
  {
    hide Tiles, Callbacks;
    assert s.done + [] + [] == s.done;
    TilesCallbacks(s.done, arrived);
  }

  // ---------------------------------------------------------------- the queue as the program keeps it

  class Queue {
    const p: Param
    var waitQueue: seq<Entry>
    var transferQueue: seq<Entry>
    var usage: int
    var insertPending: bool
    var transferPending: bool
    var counter: nat
    var readCompletion: seq<Half>
    var insertScheduled: bool
    var beginScheduled: bool
    var submitScheduled: bool
    var inFlight: bool
    ghost var done: seq<Entry>
    var called: seq<nat>

    ghost function State(): Side
      reads this
    {
      Side(waitQueue, transferQueue, usage, insertPending, transferPending, counter, readCompletion, insertScheduled,
           beginScheduled, submitScheduled, inFlight, done)
    }

    /** The callbacks made are those of the chunks done. */
    ghost predicate Called()
      reads this
    {
      called == Callbacks(done)
    }

    constructor (p: Param)
      requires p.Ok()
      ensures this.p == p && State() == EMPTY && Called()
    {
      this.p := p;
      waitQueue, transferQueue, usage, called := [], [], 0, [];
      insertPending, transferPending := false, false;
      counter, readCompletion := 0, [];
      insertScheduled, beginScheduled, submitScheduled, inFlight := false, false, false, false;
      done := [];
    }

    method DoFind(id: nat) returns (at: nat)
      ensures at == Find(readCompletion, id)
    {
      at := 0;
      while at < |readCompletion| && readCompletion[at].id != id
        invariant at <= |readCompletion|
        invariant Find(readCompletion, id) == at + Find(readCompletion[at..], id)
      {
        assert readCompletion[at..][1..] == readCompletion[at + 1..];
        at := at + 1;
      }
    }

    method DoTransferRead()
      requires p.Ok() && |waitQueue| > 0
      modifies this
      ensures State() == TransferRead(p, old(State()))
      ensures called == old(called) && done == old(done) && readCompletion == old(readCompletion)
    {
      hide CalcSize, Split;
      var size := CalcSize(p, waitQueue[0].size);
      if (transferPending || usage + size > p.rqSize) && size <= p.rqSize {
        return;
      }
      if size > p.rqSize {
        CalcSizeRounds(p, waitQueue[0].size);
        SplitFront();
        size := CalcSize(p, waitQueue[0].size);
      }
      RequestFront(size);
    }

    /** The front gets its number and is requested from the upstream. */
    method RequestFront(size: nat)
      requires |waitQueue| > 0
      modifies `waitQueue, `transferPending, `counter, `usage, `inFlight, `beginScheduled, `transferQueue
      ensures var front := old(waitQueue[0]).(id := old(counter));
        State() == old(State()).(wait := [front] + old(waitQueue)[1..], transferPending := true, counter := old(counter) + 1,
          usage := old(usage) + size, inFlight := true, beginScheduled := true, transfer := old(transferQueue) + [front])
    {
      waitQueue := [waitQueue[0].(id := counter)] + waitQueue[1..];
      transferPending, counter, usage, inFlight := true, counter + 1, usage + size, true;
      if !beginScheduled {
        beginScheduled := true;
      }
      transferQueue := transferQueue + [waitQueue[0]];
    }

    /** The copy is the next one, the front is the current one. */
    method SplitFront()
      requires |waitQueue| > 0 && p.transferUnit <= waitQueue[0].size
      modifies this`waitQueue
      ensures waitQueue == Split(old(waitQueue), p.transferUnit)
    {
      var copy := waitQueue[0];
      copy := copy.(last := true, addr := copy.addr + p.transferUnit, size := copy.size - p.transferUnit,
                    buffer := if copy.buffer != 0 then copy.buffer + p.transferUnit else 0);
      var front := waitQueue[0].(last := false, size := p.transferUnit);
      waitQueue := [front, copy] + waitQueue[1..];
    }

    method DoTransferReadDone(late: bool)
      requires p.Ok() && |waitQueue| > 0 && |transferQueue| > 0
      modifies this
      ensures State() == TransferReadDone(p, old(State()), late)
      ensures old(Called()) ==> Called()
    {
      hide TransferRead, InsertReadDoneMerge;
      var comp := DoFind(waitQueue[0].id);
      if comp == |readCompletion| {
        readCompletion := readCompletion + [Half(waitQueue[0].id, true)];
      } else {
        DoInsertReadDoneMerge(comp, late);
      }
      if |waitQueue| > 0 {
        waitQueue := waitQueue[1..];
        transferPending := false;
        if |waitQueue| > 0 {
          DoTransferRead();
        }
      }
    }

    method DoInsertRead()
      modifies this
      ensures State() == InsertRead(old(State()))
      ensures called == old(called) && done == old(done) && readCompletion == old(readCompletion)
    {
      if insertPending {
        return;
      }
      insertPending := true;
      if !insertScheduled {
        insertScheduled := true;
      }
    }

    method DoInsertReadDone(late: bool)
      requires p.Ok() && |transferQueue| > 0
      modifies this
      ensures State() == InsertReadDone(p, old(State()), late)
      ensures old(Called()) ==> Called()
    {
      hide InsertReadDoneMerge;
      var comp := DoFind(transferQueue[0].id);
      if comp == |readCompletion| {
        readCompletion := readCompletion + [Half(transferQueue[0].id, false)];
      } else {
        DoInsertReadDoneMerge(comp, late);
      }
    }

    method DoInsertReadDoneMerge(comp: nat, late: bool)
      requires p.Ok() && |transferQueue| > 0
      modifies this
      ensures State() == InsertReadDoneMerge(p, old(State()), comp, late)
      ensures old(Called()) ==> Called()
    {
      hide InsertReadDoneNext;
      if late {
        DoInsertReadDoneNext();
      } else {
        submitScheduled := true;
      }
      readCompletion := Without(readCompletion, comp);
    }

    method DoInsertReadDoneNext()
      requires p.Ok() && |transferQueue| > 0
      modifies this
      ensures State() == InsertReadDoneNext(p, old(State()))
      ensures old(Called()) ==> Called()
    {
      hide TransferRead, CalcSize, Callbacks;
      CallbacksOne(done, transferQueue[0]);
      var front := transferQueue[0];
      if front.last {
        called := called + [front.func];
      }
      done := done + [front];
      usage := usage - CalcSize(p, front.size);
      insertPending := false;
      transferQueue := transferQueue[1..];
      if |transferQueue| > 0 {
        if !beginScheduled {
          DoInsertRead();
        }
      }
      if |waitQueue| > 0 {
        DoTransferRead();
      }
    }

    method DoDmaRead(r: Request)
      requires p.Ok()
      modifies this
      ensures State() == DmaRead(p, old(State()), r)
      ensures called == old(called) && done == old(done)
    {
      hide TransferRead;
      if r.size == 0 {
        return;
      }
      waitQueue := waitQueue + [Entry(true, 0, r.addr, r.size, r.buffer, r.func)];
      DoTransferRead();
    }

    /** One event, upstream completion or request; an event that fires is no longer scheduled. */
    method Do(e: Step, ghost arrived: seq<Request>)
      requires p.Ok() && Inv(p, State(), arrived) && Called() && Enabled(State(), e)
      modifies this
      ensures Inv(p, State(), arrived + Arrivals(e)) && Called()
      ensures State() == Take(p, old(State()), e)
      ensures called <= Funcs(arrived + Arrivals(e))
    {
      hide TransferRead, InsertReadDone, TransferReadDone, InsertReadDoneNext, InsertRead, DmaRead, Callbacks, Inv, Funcs;
      hide Weight, Bytes;
      TakeKeeps(p, State(), arrived, e);
      match e {
        case Arrive(r) => DoDmaRead(r);
        case InsertDone(late) => insertScheduled := false; DoInsertReadDone(late);
        case Begin => beginScheduled := false; DoInsertRead();
        case UpstreamDone(late) => inFlight := false; DoTransferReadDone(late);
        case Submit => submitScheduled := false; DoInsertReadDoneNext();
      }
      RunKeeps(p, State(), arrived + Arrivals(e), []);
      assert arrived + Arrivals(e) + [] == arrived + Arrivals(e);
    }
  }
}
