/**
 What the timeline of a legal trace says about a cycle, told from the commands of the trace alone.
 */
module DramTimeline {
  import opened DramCommands

  /** Commands that change the power state. */
  predicate IsPower(k: Kind) {
    k in {PDN_F_ACT, PDN_S_ACT, PDN_F_PRE, PDN_S_PRE, PUP_ACT, PUP_PRE, SREN, SREX}
  }

  /** A power-down command and the category of the cycles spent in it. */
  predicate EntersInto(k: Kind, g: Category) {
    (k == PDN_F_ACT && g == FActPd) || (k == PDN_S_ACT && g == SActPd) || (k == PDN_F_PRE && g == FPrePd) || (k == PDN_S_PRE && g == SPrePd)
  }

  /** The latest command at or before the cycle that changes the power state is one of kind k. */
  ghost predicate LastPower(qs: seq<Command>, cycle: int, k: Kind) {
    exists i :: 0 <= i < |qs| && qs[i].kind == k && qs[i].time <= cycle && NoPower(qs, i + 1, cycle)
  }

  ghost predicate NoPower(qs: seq<Command>, from: nat, cycle: int) {
    forall j :: from <= j < |qs| && IsPower(qs[j].kind) ==> cycle < qs[j].time
  }

  ghost predicate Powered(m: Mem, g: Category) {
    (m == PdnFAct && g == FActPd) || (m == PdnSAct && g == SActPd) || (m == PdnFPre && g == FPrePd) || (m == PdnSPre && g == SPrePd)
  }

  predicate IsPowerDown(g: Category) {
    g in {FActPd, SActPd, FPrePd, SPrePd}
  }

  /** Commands that change the power state come no earlier than the accounted cycle. */
  lemma {:induction false} PowerComesLater(t: Timing, c: Control, banks: nat, qs: seq<Command>)
    requires t.Ok() && LegalTrace(t, c, banks, qs)
    ensures forall j :: 0 <= j < |qs| && IsPower(qs[j].kind) ==> c.frontier <= qs[j].time
    decreases |qs|
  {
    hide Spent;
    if |qs| > 0 {
      var c1 := Next(t, c, banks, qs[0]);
      PowerComesLater(t, c1, banks, qs[1..]);
      forall j | 0 <= j < |qs| && IsPower(qs[j].kind)
        ensures c.frontier <= qs[j].time
      {
        if j > 0 { assert qs[1..][j - 1] == qs[j]; }
      }
    }
  }

  /** The categories that one command accounts for. */
  lemma SpentAt(t: Timing, c: Control, banks: nat, q: Command, k: nat, g: Category)
    requires t.Ok() && Legal(c, banks, q) && k < |Spent(t, c, banks, q)| && IsPowerDown(g)
    ensures Spent(t, c, banks, q)[k] == g <==> Powered(c.mem, g)
    ensures Powered(c.mem, g) ==> q.kind in {PUP_ACT, PUP_PRE, END}
    ensures IsPower(q.kind) && q.kind != SREX ==> c.frontier + k < q.time
  {
  }

  lemma NextPower(t: Timing, c: Control, banks: nat, q: Command, g: Category)
    requires t.Ok() && Legal(c, banks, q) && IsPowerDown(g)
    ensures IsPower(q.kind) ==> q.time <= Next(t, c, banks, q).frontier
    ensures IsPower(q.kind) ==> (Powered(Next(t, c, banks, q).mem, g) <==> EntersInto(q.kind, g))
    ensures !IsPower(q.kind) ==> (Powered(Next(t, c, banks, q).mem, g) <==> Powered(c.mem, g))
  {
  }

  /** The latest power command of a trace is its first command or comes behind it. */
  lemma LastPowerStep(qs: seq<Command>, cycle: int, k: Kind)
    requires |qs| > 0 && IsPower(k)
    ensures LastPower(qs, cycle, k) <==>
      LastPower(qs[1..], cycle, k) || (qs[0].kind == k && qs[0].time <= cycle && NoPower(qs[1..], 0, cycle))
    ensures NoPower(qs, 0, cycle) <==> (IsPower(qs[0].kind) ==> cycle < qs[0].time) && NoPower(qs[1..], 0, cycle)
  {
    forall from: nat | 1 <= from
      ensures NoPower(qs, from, cycle) <==> NoPower(qs[1..], from - 1, cycle)
    {
      NoPowerShift(qs, from, cycle);
    }
    if LastPower(qs, cycle, k) {
      var i :| 0 <= i < |qs| && qs[i].kind == k && qs[i].time <= cycle && NoPower(qs, i + 1, cycle);
      if i > 0 {
        NoPowerShift(qs, i + 1, cycle);
        assert qs[1..][i - 1] == qs[i];
      } else {
        NoPowerShift(qs, 1, cycle);
      }
    }
    if LastPower(qs[1..], cycle, k) {
      var i :| 0 <= i < |qs[1..]| && qs[1..][i].kind == k && qs[1..][i].time <= cycle && NoPower(qs[1..], i + 1, cycle);
      NoPowerShift(qs, i + 2, cycle);
      assert qs[i + 1].kind == k;
    }
    if qs[0].kind == k && qs[0].time <= cycle && NoPower(qs[1..], 0, cycle) {
      NoPowerShift(qs, 1, cycle);
      assert NoPower(qs, 0 + 1, cycle);
    }
    NoPowerShift(qs, 1, cycle);
  }

  lemma NoPowerShift(qs: seq<Command>, from: nat, cycle: int)
    requires |qs| > 0 && 1 <= from
    ensures NoPower(qs, from, cycle) <==> NoPower(qs[1..], from - 1, cycle)
  {
    if NoPower(qs[1..], from - 1, cycle) {
      forall j | from <= j < |qs| && IsPower(qs[j].kind)
        ensures cycle < qs[j].time
      {
        assert qs[1..][j - 1] == qs[j];
      }
    }
  }

  /** No power command of a trace reaches back before its accounted cycle. */
  lemma NoPowerYet(t: Timing, c: Control, banks: nat, qs: seq<Command>, cycle: int, k: Kind)
    requires t.Ok() && LegalTrace(t, c, banks, qs) && cycle < c.frontier && IsPower(k)
    ensures NoPower(qs, 0, cycle) && !LastPower(qs, cycle, k)
  {
    PowerComesLater(t, c, banks, qs);
  }

  /** A cycle of a legal trace is spent in a power-down exactly when the latest command at or before it that changes the
      power state entered that power-down; before the first such command, when the memory was in it from the start. */
  lemma {:induction false} PowerDownCycle(t: Timing, c: Control, banks: nat, qs: seq<Command>, k: nat, kind: Kind, g: Category)
    requires t.Ok() && LegalTrace(t, c, banks, qs) && k < |Timeline(t, c, banks, qs)| && EntersInto(kind, g)
    ensures Timeline(t, c, banks, qs)[k] == g <==>
      LastPower(qs, c.frontier + k, kind) || (Powered(c.mem, g) && NoPower(qs, 0, c.frontier + k))
    decreases |qs|
  {
    hide Spent, Next, LastPower, NoPower, LegalTrace, Legal;
    TraceStep(t, c, banks, qs);
    if |qs| > 0 {
      var q, cycle := qs[0], c.frontier + k;
      var n := |Spent(t, c, banks, q)|;
      var c1 := Next(t, c, banks, q);
      LastPowerStep(qs, cycle, kind);
      NextPower(t, c, banks, q, g);
      NextFrontier(t, c, banks, q);
      if k < n {
        SpentAt(t, c, banks, q, k, g);
        NoPowerYet(t, c1, banks, qs[1..], cycle, kind);
      } else {
        PowerDownCycle(t, c1, banks, qs[1..], k - n, kind, g);
      }
    }
  }

  lemma TraceStep(t: Timing, c: Control, banks: nat, qs: seq<Command>)
    requires t.Ok() && LegalTrace(t, c, banks, qs)
    ensures |qs| > 0 ==> Legal(c, banks, qs[0]) && LegalTrace(t, Next(t, c, banks, qs[0]), banks, qs[1..])
    ensures |qs| > 0 && qs[0].kind.END? ==> qs[1..] == []
  {
  }

  // ---------------------------------------------------------------- active and precharged cycles

  /** Commands that close a bank. */
  predicate Closes(q: Command, b: nat) {
    (q.kind == PRE && q.bank == b) || q.kind == PREA || q.kind == REF
  }

  ghost predicate NoClose(qs: seq<Command>, from: nat, cycle: int, b: nat) {
    forall j :: from <= j < |qs| && Closes(qs[j], b) ==> cycle < qs[j].time
  }

  /** The latest command at or before the cycle that opens or closes the bank opens it. */
  ghost predicate Open(active: set<nat>, qs: seq<Command>, cycle: int, b: nat) {
    || (exists i :: 0 <= i < |qs| && qs[i].kind == ACT && qs[i].bank == b && qs[i].time <= cycle && NoClose(qs, i + 1, cycle, b))
    || (b in active && NoClose(qs, 0, cycle, b))
  }

  ghost predicate AnyOpen(active: set<nat>, qs: seq<Command>, cycle: int) {
    exists b: nat :: Open(active, qs, cycle, b)
  }

  /** The cycle falls on the active part of a refresh. */
  ghost predicate Refreshing(t: Timing, qs: seq<Command>, cycle: int) {
    exists i :: 0 <= i < |qs| && qs[i].kind == REF && qs[i].time <= cycle < qs[i].time + t.rfc - t.rp
  }

  /** Commands come in the order of their times. */
  ghost predicate InTimeOrder(qs: seq<Command>) {
    forall i, j :: 0 <= i < j < |qs| ==> qs[i].time <= qs[j].time
  }

  lemma NoCloseShift(qs: seq<Command>, from: nat, cycle: int, b: nat)
    requires |qs| > 0 && 1 <= from
    ensures NoClose(qs, from, cycle, b) <==> NoClose(qs[1..], from - 1, cycle, b)
  {
    if NoClose(qs[1..], from - 1, cycle, b) {
      forall j | from <= j < |qs| && Closes(qs[j], b)
        ensures cycle < qs[j].time
      {
        assert qs[1..][j - 1] == qs[j];
      }
    }
  }

  /** The banks that are open once the first command is through. */
  function After(active: set<nat>, q: Command): set<nat> {
    match q.kind
    case ACT => active + {q.bank}
    case PRE => active - {q.bank}
    case PREA | REF => {}
    case _ => active
  }

  lemma OpenStep(active: set<nat>, qs: seq<Command>, cycle: int, b: nat)
    requires |qs| > 0 && qs[0].time <= cycle
    ensures Open(active, qs, cycle, b) <==> Open(After(active, qs[0]), qs[1..], cycle, b)
  {
    var rest := qs[1..];
    NoCloseShift(qs, 1, cycle, b);
    if Open(active, qs, cycle, b) {
      if i :| 0 <= i < |qs| && qs[i].kind == ACT && qs[i].bank == b && qs[i].time <= cycle && NoClose(qs, i + 1, cycle, b) {
        NoCloseShift(qs, i + 1, cycle, b);
        if i > 0 { assert rest[i - 1] == qs[i]; }
      } else {
        assert NoClose(qs, 0, cycle, b);
        assert !Closes(qs[0], b);
        assert NoClose(qs, 1, cycle, b);
      }
    }
    if Open(After(active, qs[0]), rest, cycle, b) {
      if i :| 0 <= i < |rest| && rest[i].kind == ACT && rest[i].bank == b && rest[i].time <= cycle && NoClose(rest, i + 1, cycle, b) {
        NoCloseShift(qs, i + 2, cycle, b);
        assert qs[i + 1] == rest[i];
      } else {
        assert NoClose(qs, 0 + 1, cycle, b);
        if qs[0].kind != ACT || qs[0].bank != b {
          assert b in active && !Closes(qs[0], b);
        }
      }
    }
  }

  /** Before the first command, the banks are what they were. */
  lemma OpenBefore(active: set<nat>, qs: seq<Command>, cycle: int)
    requires forall i :: 0 <= i < |qs| ==> cycle < qs[i].time
    ensures AnyOpen(active, qs, cycle) <==> active != {}
  {
    if active != {} {
      var b :| b in active;
      assert Open(active, qs, cycle, b);
    }
  }

  lemma AnyOpenStep(active: set<nat>, qs: seq<Command>, cycle: int)
    requires |qs| > 0 && InTimeOrder(qs)
    requires cycle < qs[0].time ==> (After(active, qs[0]) == {} <==> active == {})
    ensures AnyOpen(active, qs, cycle) <==> AnyOpen(After(active, qs[0]), qs[1..], cycle)
  {
    if cycle < qs[0].time {
      OpenBefore(active, qs, cycle);
      OpenBefore(After(active, qs[0]), qs[1..], cycle);
    } else {
      forall b: nat ensures Open(active, qs, cycle, b) <==> Open(After(active, qs[0]), qs[1..], cycle, b) {
        OpenStep(active, qs, cycle, b);
      }
    }
  }

  lemma RefreshStep(t: Timing, qs: seq<Command>, cycle: int)
    requires |qs| > 0
    ensures Refreshing(t, qs, cycle) <==>
      Refreshing(t, qs[1..], cycle) || (qs[0].kind == REF && qs[0].time <= cycle < qs[0].time + t.rfc - t.rp)
  {
    if i :| 0 <= i < |qs| && qs[i].kind == REF && qs[i].time <= cycle < qs[i].time + t.rfc - t.rp {
      if i > 0 { assert qs[1..][i - 1] == qs[i]; }
    }
    if i :| 0 <= i < |qs[1..]| && qs[1..][i].kind == REF && qs[1..][i].time <= cycle < qs[1..][i].time + t.rfc - t.rp {
      assert qs[i + 1].kind == REF;
    }
  }

  /** What a command leaves open, and what it accounts for as active or precharged. */
  lemma ActPreAt(t: Timing, c: Control, banks: nat, q: Command, cycle: int)
    requires t.Ok() && Legal(c, banks, q) && c.frontier <= cycle
    ensures c.frontier <= Next(t, c, banks, q).frontier
    ensures cycle < Next(t, c, banks, q).frontier ==> cycle - c.frontier < |Spent(t, c, banks, q)|
    ensures cycle < Next(t, c, banks, q).frontier && Spent(t, c, banks, q)[cycle - c.frontier] in {Act, Pre} ==>
      (cycle < q.time || q.kind == REF) &&
      (Spent(t, c, banks, q)[cycle - c.frontier] == Act <==> (cycle < q.time && c.active != {}) || (q.kind == REF && q.time <= cycle))
    ensures q.kind == REF ==> Next(t, c, banks, q).frontier == q.time + t.rfc - t.rp
  {
  }

  lemma NextActive(t: Timing, c: Control, banks: nat, q: Command, cycle: int)
    requires t.Ok() && Legal(c, banks, q) && Consistent(c)
    ensures Next(t, c, banks, q).active == After(c.active, q) && Consistent(Next(t, c, banks, q))
    ensures Next(t, c, banks, q).frontier <= cycle < q.time ==> (After(c.active, q) == {} <==> c.active == {})
  {
    hide Spent;
    NextFrontier(t, c, banks, q);
    if q.kind == PRE && c.active - {q.bank} == {} && c.active != {} {
      assert c.active == {q.bank} || c.active == {};
    }
    TransitionTime(t, c, banks, q);
  }

  /** No bank is active in a precharged power-down or in self-refresh. */
  predicate Consistent(c: Control) {
    c.mem in {PdnFPre, PdnSPre, InSref} ==> c.active == {}
  }

  /** A command that opens the first bank or closes the last one accounts for everything up to its time. */
  lemma TransitionTime(t: Timing, c: Control, banks: nat, q: Command)
    requires t.Ok() && Legal(c, banks, q)
    ensures (q.kind == ACT && c.active == {}) || (q.kind == PRE && c.active == {q.bank}) || (q.kind == PREA && c.active != {})
      ==> Next(t, c, banks, q).frontier == q.time
  {
  }

  /** A cycle of a legal trace in time order, outside power-down and self-refresh, is an active one exactly when some
      bank's latest command is its activation or the cycle falls on the active part of a refresh; else it is a
      precharged one. */
  lemma {:induction false} ActiveCycle(t: Timing, c: Control, banks: nat, qs: seq<Command>, k: nat)
    requires t.Ok() && LegalTrace(t, c, banks, qs) && k < |Timeline(t, c, banks, qs)| && Consistent(c) && InTimeOrder(qs)
    requires Timeline(t, c, banks, qs)[k] in {Act, Pre}
    ensures Timeline(t, c, banks, qs)[k] == Act <==>
      AnyOpen(c.active, qs, c.frontier + k) || Refreshing(t, qs, c.frontier + k)
    decreases |qs|
  {
    hide Spent, Next, AnyOpen, Refreshing, LegalTrace, Legal, Consistent;
    TraceStep(t, c, banks, qs);
    if |qs| > 0 {
      var q, cycle := qs[0], c.frontier + k;
      var c1 := Next(t, c, banks, q);
      NextFrontier(t, c, banks, q);
      ActPreAt(t, c, banks, q, cycle);
      RefreshStep(t, qs, cycle);
      if cycle < c1.frontier {
        if cycle < q.time {
          OpenBefore(c.active, qs, cycle);
          NotRefreshingYet(t, qs, cycle);
        }
      } else {
        NextActive(t, c, banks, q, cycle);
        AnyOpenStep(c.active, qs, cycle);
        ActiveCycle(t, c1, banks, qs[1..], k - |Spent(t, c, banks, q)|);
      }
    }
  }

  lemma NotRefreshingYet(t: Timing, qs: seq<Command>, cycle: int)
    requires forall i :: 0 <= i < |qs| ==> cycle < qs[i].time
    ensures !Refreshing(t, qs, cycle)
  {
  }

  // ---------------------------------------------------------------- self-refresh

  predicate IsSelfRefresh(g: Category) {
    g in {Sref, SrefAct, SrefPre, SpupAct, SpupPre}
  }

  /** A self-refresh begun at `start` is not over: it has not been left by the cycle, or its initial refresh goes on. */
  ghost predicate NotOver(t: Timing, qs: seq<Command>, from: nat, start: int, cycle: int) {
    forall j :: from <= j < |qs| && qs[j].kind == SREX && qs[j].time <= cycle ==> cycle < start + t.rfc
  }

  /** A self-refresh has been entered at or before the cycle and is not over. */
  ghost predicate SelfRefreshing(t: Timing, c: Control, qs: seq<Command>, cycle: int) {
    || (exists i :: 0 <= i < |qs| && qs[i].kind == SREN && qs[i].time <= cycle && NotOver(t, qs, i + 1, qs[i].time, cycle))
    || (c.mem == InSref && NotOver(t, qs, 0, c.frontier, cycle))
  }

  lemma NotOverShift(t: Timing, qs: seq<Command>, from: nat, start: int, cycle: int)
    requires |qs| > 0 && 1 <= from
    ensures NotOver(t, qs, from, start, cycle) <==> NotOver(t, qs[1..], from - 1, start, cycle)
  {
    if NotOver(t, qs[1..], from - 1, start, cycle) {
      forall j | from <= j < |qs| && qs[j].kind == SREX && qs[j].time <= cycle
        ensures cycle < start + t.rfc
      {
        assert qs[1..][j - 1] == qs[j];
      }
    }
  }

  lemma SelfRefreshingStep(t: Timing, c: Control, qs: seq<Command>, cycle: int)
    requires |qs| > 0
    ensures SelfRefreshing(t, c, qs, cycle) <==>
      || (exists i :: 0 <= i < |qs[1..]| && qs[1..][i].kind == SREN && qs[1..][i].time <= cycle && NotOver(t, qs[1..], i + 1, qs[1..][i].time, cycle))
      || (qs[0].kind == SREN && qs[0].time <= cycle && NotOver(t, qs[1..], 0, qs[0].time, cycle))
      || (c.mem == InSref && NotOver(t, qs[1..], 0, c.frontier, cycle)
          && (qs[0].kind == SREX && qs[0].time <= cycle ==> cycle < c.frontier + t.rfc))
  {
    var rest := qs[1..];
    NotOverShift(t, qs, 1, qs[0].time, cycle);
    NotOverShift(t, qs, 1, c.frontier, cycle);
    if i :| 0 <= i < |qs| && qs[i].kind == SREN && qs[i].time <= cycle && NotOver(t, qs, i + 1, qs[i].time, cycle) {
      NotOverShift(t, qs, i + 1, qs[i].time, cycle);
      if i > 0 { assert rest[i - 1] == qs[i]; }
    }
    if i :| 0 <= i < |rest| && rest[i].kind == SREN && rest[i].time <= cycle && NotOver(t, rest, i + 1, rest[i].time, cycle) {
      NotOverShift(t, qs, i + 2, rest[i].time, cycle);
      assert qs[i + 1] == rest[i];
    }
    if qs[0].kind == SREN && qs[0].time <= cycle && NotOver(t, rest, 0, qs[0].time, cycle) {
      assert NotOver(t, qs, 0 + 1, qs[0].time, cycle);
    }
  }

  /** What a command accounts for as self-refresh, and when it begins and ends one. */
  lemma SelfRefreshAt(t: Timing, c: Control, banks: nat, q: Command, cycle: int)
    requires t.Ok() && Legal(c, banks, q) && c.frontier <= cycle
    ensures cycle < Next(t, c, banks, q).frontier ==>
      && cycle - c.frontier < |Spent(t, c, banks, q)|
      && (IsSelfRefresh(Spent(t, c, banks, q)[cycle - c.frontier]) <==> c.mem == InSref)
      && (q.kind == SREN ==> cycle < q.time)
      && (q.kind == SREX && q.time <= cycle ==> cycle < c.frontier + t.rfc)
    ensures q.kind == SREX ==> c.mem == InSref && Next(t, c, banks, q).mem != InSref
    ensures q.kind == SREX && Next(t, c, banks, q).frontier <= cycle ==> q.time <= cycle && c.frontier + t.rfc <= cycle
    ensures q.kind == SREN ==> c.mem != InSref && Next(t, c, banks, q).mem == InSref && Next(t, c, banks, q).frontier == q.time
    ensures q.kind !in {SREN, SREX, END} ==>
      (Next(t, c, banks, q).mem == InSref <==> c.mem == InSref) && (c.mem == InSref ==> Next(t, c, banks, q).frontier == c.frontier)
  {
  }

  lemma NotSelfRefreshingYet(t: Timing, c: Control, banks: nat, qs: seq<Command>, start: int, cycle: int)
    requires t.Ok() && LegalTrace(t, c, banks, qs) && cycle < c.frontier
    ensures NotOver(t, qs, 0, start, cycle)
    ensures forall i :: 0 <= i < |qs| && qs[i].kind == SREN ==> cycle < qs[i].time
  {
    PowerComesLater(t, c, banks, qs);
  }

  /** A cycle of a legal trace is charged to self-refresh, with the refresh it begins with and the power-up it may end
      with, exactly when a self-refresh has been entered and is not over. */
  lemma {:induction false} SelfRefreshCycle(t: Timing, c: Control, banks: nat, qs: seq<Command>, k: nat)
    requires t.Ok() && LegalTrace(t, c, banks, qs) && k < |Timeline(t, c, banks, qs)|
    ensures IsSelfRefresh(Timeline(t, c, banks, qs)[k]) <==> SelfRefreshing(t, c, qs, c.frontier + k)
    decreases |qs|
  {
    hide Spent, Next, NotOver, LegalTrace, Legal, IsSelfRefresh;
    TraceStep(t, c, banks, qs);
    if |qs| > 0 {
      var q, cycle := qs[0], c.frontier + k;
      var c1 := Next(t, c, banks, q);
      NextFrontier(t, c, banks, q);
      SelfRefreshingStep(t, c, qs, cycle);
      SelfRefreshAt(t, c, banks, q, cycle);
      if cycle < c1.frontier {
        NotSelfRefreshingYet(t, c1, banks, qs[1..], c.frontier, cycle);
      } else {
        SelfRefreshCycle(t, c1, banks, qs[1..], k - |Spent(t, c, banks, q)|);
      }
    }
  }

  // ---------------------------------------------------------------- the counters by name

  /** The cycles of one category. */
  function Cycles(tl: seq<Category>, g: Category): set<nat> {
    set k: nat | k < |tl| && tl[k] == g
  }

  lemma NoCycles(g: Category)
    ensures Cycles([], g) == {}
  {
  }

  lemma OneMoreCycle(tl: seq<Category>, last: Category, g: Category)
    ensures |Cycles(tl + [last], g)| == |Cycles(tl, g)| + if last == g then 1 else 0
  {
    CyclesOfConcat(tl, last, g);
    hide Cycles;
    assert |tl| !in Cycles(tl, g) by { CyclesAreBounded(tl, g); }
  }

  lemma CyclesAreBounded(tl: seq<Category>, g: Category)
    ensures |tl| !in Cycles(tl, g)
  {
  }

  lemma CyclesOfConcat(tl: seq<Category>, last: Category, g: Category)
    ensures Cycles(tl + [last], g) == Cycles(tl, g) + if last == g then {|tl|} else {}
  {
  }

  lemma CountSingle(g: Category)
    ensures CountAll([g]) == Only(g, 1)
  {
    hide Only;
    assert [g][1..] == [];
    CountNothing(Only(g, 1));
  }

  /** The counts, field by field, as numbers of cycles. */
  function ByName(tl: seq<Category>): Counts {
    Counts(
      |Cycles(tl, Act)|, |Cycles(tl, Pre)|, |Cycles(tl, FActPd)|, |Cycles(tl, SActPd)|, |Cycles(tl, FPrePd)|, |Cycles(tl, SPrePd)|,
      |Cycles(tl, Sref)|, |Cycles(tl, SrefAct)|, |Cycles(tl, SrefPre)|, |Cycles(tl, SpupAct)|, |Cycles(tl, SpupPre)|)
  }

  lemma ByNameStep(tl: seq<Category>, last: Category)
    ensures ByName(tl + [last]) == ByName(tl).Plus(Only(last, 1))
  {
    hide Cycles;
    OneMoreCycle(tl, last, Act);
    OneMoreCycle(tl, last, Pre);
    OneMoreCycle(tl, last, FActPd);
    OneMoreCycle(tl, last, SActPd);
    OneMoreCycle(tl, last, FPrePd);
    OneMoreCycle(tl, last, SPrePd);
    OneMoreCycle(tl, last, Sref);
    OneMoreCycle(tl, last, SrefAct);
    OneMoreCycle(tl, last, SrefPre);
    OneMoreCycle(tl, last, SpupAct);
    OneMoreCycle(tl, last, SpupPre);
  }

  lemma ByNameNothing()
    ensures ByName([]) == NONE
  {
    forall g: Category ensures Cycles([], g) == {} { NoCycles(g); }
  }

  lemma {:induction false} CountIsByName(tl: seq<Category>)
    ensures CountAll(tl) == ByName(tl)
  {
    hide CountAll, ByName, Only, Counts.Plus;
    if |tl| == 0 {
      ByNameNothing();
      assert tl == [];
      CountNone();
    } else {
      var n := |tl| - 1;
      CountIsByName(tl[..n]);
      assert tl == tl[..n] + [tl[n]];
      CountConcat(tl[..n], [tl[n]]);
      CountSingle(tl[n]);
      ByNameStep(tl[..n], tl[n]);
    }
  }

  lemma CountNone()
    ensures CountAll([]) == NONE
  {
  }

  /** Counters that count a timeline: each of them is the number of cycles of the category it is named for. */
  lemma CountersByName(a: CommandAnalysis, tl: seq<Category>)
    requires a.Counters() == CountAll(tl)
    ensures a.actcycles == |Cycles(tl, Act)| && a.precycles == |Cycles(tl, Pre)|
    ensures a.f_act_pdcycles == |Cycles(tl, FActPd)| && a.s_act_pdcycles == |Cycles(tl, SActPd)|
    ensures a.f_pre_pdcycles == |Cycles(tl, FPrePd)| && a.s_pre_pdcycles == |Cycles(tl, SPrePd)|
    ensures a.sref_cycles == |Cycles(tl, Sref)| && a.sref_ref_act_cycles == |Cycles(tl, SrefAct)|
    ensures a.sref_ref_pre_cycles == |Cycles(tl, SrefPre)| && a.spup_ref_act_cycles == |Cycles(tl, SpupAct)|
    ensures a.spup_ref_pre_cycles == |Cycles(tl, SpupPre)|
  {
    hide Cycles, CountAll;
    CountIsByName(tl);
  }

  // ---------------------------------------------------------------- one activation, one power-down

  /** A command that is legal for one bank, with the state it leads to and the cycles it accounts for. */
  predicate Leads(t: Timing, c: Control, q: Command, next: Control, g: Category, n: nat)
    requires t.Ok()
  {
    Legal(c, 1, q) && Next(t, c, 1, q) == next && Spent(t, c, 1, q) == Stretch(g, n)
  }

  lemma ActLeads(t: Timing, f: int, at: int)
    requires t.Ok() && f <= at
    ensures Leads(t, Control(NotInPd, {}, f), Command(ACT, 0, at), Control(NotInPd, {0}, at), Pre, at - f)
  {
    hide Stretch, SrefStretch;
  }

  lemma PreLeads(t: Timing, f: int, at: int)
    requires t.Ok() && f <= at
    ensures Leads(t, Control(NotInPd, {0}, f), Command(PRE, 0, at), Control(NotInPd, {}, at), Act, at - f)
  {
    hide Stretch, SrefStretch;
  }

  lemma PdnActLeads(t: Timing, fast: bool, f: int, at: int)
    requires t.Ok() && f <= at
    ensures Leads(t, Control(NotInPd, {0}, f), Command(if fast then PDN_F_ACT else PDN_S_ACT, 0, at),
                  Control(if fast then PdnFAct else PdnSAct, {0}, at), Act, at - f)
  {
    hide Stretch, SrefStretch;
  }

  lemma PupActLeads(t: Timing, fast: bool, f: int, at: int)
    requires t.Ok() && f <= at
    ensures Leads(t, Control(if fast then PdnFAct else PdnSAct, {0}, f), Command(PUP_ACT, 0, at),
                  Control(NotInPd, {0}, at), if fast then FActPd else SActPd, at - f)
  {
    hide Stretch, SrefStretch;
  }

  lemma PdnPreLeads(t: Timing, fast: bool, f: int, at: int)
    requires t.Ok() && f <= at
    ensures Leads(t, Control(NotInPd, {}, f), Command(if fast then PDN_F_PRE else PDN_S_PRE, 0, at),
                  Control(if fast then PdnFPre else PdnSPre, {}, at), Pre, at - f)
  {
    hide Stretch, SrefStretch;
  }

  lemma PupPreLeads(t: Timing, fast: bool, f: int, at: int)
    requires t.Ok() && f <= at
    ensures Leads(t, Control(if fast then PdnFPre else PdnSPre, {}, f), Command(PUP_PRE, 0, at),
                  Control(NotInPd, {}, at), if fast then FPrePd else SPrePd, at - f)
  {
    hide Stretch, SrefStretch;
  }

  method Step(a: CommandAnalysis, q: Command, ghost c: Control, ghost next: Control, ghost g: Category, ghost n: nat)
    requires a.t.Ok() && a.numBanks == 1 && a.Tracks(c) && !q.kind.END?
    requires Leads(a.t, c, q, next, g, n)
    modifies a
    ensures a.Tracks(next)
    ensures a.Counters() == old(a.Counters()).Plus(Only(g, n))
  {
    hide CountAll, Spent, Next, Legal, Only, Stretch, Counts.Plus, CommandAnalysis.Tracks, CommandAnalysis.Counters;
    CountStretch(g, n);
    a.Handle(q, c);
  }

  lemma FieldsAre(a: CommandAnalysis, n: Counts)
    requires a.Counters() == n
    ensures a.actcycles == n.act && a.precycles == n.pre
    ensures a.f_act_pdcycles == n.fActPd && a.s_act_pdcycles == n.sActPd
    ensures a.f_pre_pdcycles == n.fPrePd && a.s_pre_pdcycles == n.sPrePd
    ensures a.sref_cycles == n.sref && a.sref_ref_act_cycles == n.srefAct && a.sref_ref_pre_cycles == n.srefPre
    ensures a.spup_ref_act_cycles == n.spupAct && a.spup_ref_pre_cycles == n.spupPre
  {
  }

  lemma StartsAt(a: CommandAnalysis, c: Control)
    requires a.Charged(c, [])
    ensures a.Tracks(c) && a.t.Ok() && a.Counters() == NONE
  {
    CountNone();
  }

  lemma ActiveSum(fast: bool, n1: nat, n2: nat, n3: nat, n4: nat)
    ensures NONE.Plus(Only(Pre, n1)).Plus(Only(Act, n2)).Plus(Only(if fast then FActPd else SActPd, n3)).Plus(Only(Act, n4))
         == NONE.(pre := n1, act := n2 + n4, fActPd := if fast then n3 else 0, sActPd := if fast then 0 else n3)
  {
  }

  lemma PrechargedSum(fast: bool, n1: nat, n2: nat, n3: nat)
    ensures NONE.Plus(Only(Pre, n1)).Plus(Only(if fast then FPrePd else SPrePd, n2)).Plus(Only(Pre, n3))
         == NONE.(pre := n1 + n3, fPrePd := if fast then n2 else 0, sPrePd := if fast then 0 else n2)
  {
  }

  /** A bank is activated, the memory enters an active power-down and leaves it, and the bank is closed: the counter of
      that power-down, and no other, grows by the time between the last two. */
  method ActivePowerDown(t: Timing, fast: bool, act: nat, down: nat, up: nat, close: nat) returns (a: CommandAnalysis)
    requires t.Ok() && act <= down <= up <= close
    ensures a.precycles == act && a.actcycles == (down - act) + (close - up)
    ensures a.f_act_pdcycles == (if fast then up - down else 0) && a.s_act_pdcycles == (if fast then 0 else up - down)
    ensures a.f_pre_pdcycles == a.s_pre_pdcycles == 0
    ensures a.sref_cycles == a.sref_ref_act_cycles == a.sref_ref_pre_cycles == a.spup_ref_act_cycles == a.spup_ref_pre_cycles == 0
  {
    hide Leads, Only, Counts.Plus, Counts.Sum, CommandAnalysis.Tracks, CommandAnalysis.Counters, CommandAnalysis.Charged, CountAll;
    hide Legal, Spent, Next, Stretch;
    a := new CommandAnalysis(t, 1);
    ghost var pd, g := if fast then PdnFAct else PdnSAct, if fast then FActPd else SActPd;
    var kind := if fast then PDN_F_ACT else PDN_S_ACT;
    StartsAt(a, Control(NotInPd, {}, 0));
    ActLeads(t, 0, act);
    PdnActLeads(t, fast, act, down);
    PupActLeads(t, fast, down, up);
    PreLeads(t, up, close);
    Step(a, Command(ACT, 0, act), Control(NotInPd, {}, 0), Control(NotInPd, {0}, act), Pre, act);
    Step(a, Command(kind, 0, down), Control(NotInPd, {0}, act), Control(pd, {0}, down), Act, down - act);
    Step(a, Command(PUP_ACT, 0, up), Control(pd, {0}, down), Control(NotInPd, {0}, up), g, up - down);
    Step(a, Command(PRE, 0, close), Control(NotInPd, {0}, up), Control(NotInPd, {}, close), Act, close - up);
    ActiveSum(fast, act, down - act, up - down, close - up);
    FieldsAre(a, a.Counters());
  }

  /** The memory enters a precharged power-down and leaves it before a bank is activated. */
  method PrechargedPowerDown(t: Timing, fast: bool, down: nat, up: nat, act: nat) returns (a: CommandAnalysis)
    requires t.Ok() && down <= up <= act
    ensures a.precycles == down + (act - up) && a.actcycles == 0
    ensures a.f_pre_pdcycles == (if fast then up - down else 0) && a.s_pre_pdcycles == (if fast then 0 else up - down)
    ensures a.f_act_pdcycles == a.s_act_pdcycles == 0
    ensures a.sref_cycles == a.sref_ref_act_cycles == a.sref_ref_pre_cycles == a.spup_ref_act_cycles == a.spup_ref_pre_cycles == 0
  {
    hide Leads, Only, Counts.Plus, Counts.Sum, CommandAnalysis.Tracks, CommandAnalysis.Counters, CommandAnalysis.Charged, CountAll;
    hide Legal, Spent, Next, Stretch;
    a := new CommandAnalysis(t, 1);
    ghost var pd, g := if fast then PdnFPre else PdnSPre, if fast then FPrePd else SPrePd;
    var kind := if fast then PDN_F_PRE else PDN_S_PRE;
    StartsAt(a, Control(NotInPd, {}, 0));
    PdnPreLeads(t, fast, 0, down);
    PupPreLeads(t, fast, down, up);
    ActLeads(t, up, act);
    Step(a, Command(kind, 0, down), Control(NotInPd, {}, 0), Control(pd, {}, down), Pre, down);
    Step(a, Command(PUP_PRE, 0, up), Control(pd, {}, down), Control(NotInPd, {}, up), g, up - down);
    Step(a, Command(ACT, 0, act), Control(NotInPd, {}, up), Control(NotInPd, {0}, act), Pre, act - up);
    PrechargedSum(fast, down, up - down, act - up);
    FieldsAre(a, a.Counters());
  }
}
