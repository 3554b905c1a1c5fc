/**
 DRAMPower's command analysis: every clock cycle of a legal command trace is charged to exactly one counter.
 */
module DramCommands {

  // ---------------------------------------------------------------- what each cycle is spent on

  /** One category per counter that forms window_cycles. */
  datatype Category =
    | Act | Pre
    | FActPd | SActPd | FPrePd | SPrePd
    | Sref | SrefAct | SrefPre | SpupAct | SpupPre

  datatype Counts = Counts(act: int, pre: int, fActPd: int, sActPd: int, fPrePd: int, sPrePd: int,
                           sref: int, srefAct: int, srefPre: int, spupAct: int, spupPre: int)
  {
    function Plus(o: Counts): Counts {
      Counts(act + o.act, pre + o.pre, fActPd + o.fActPd, sActPd + o.sActPd, fPrePd + o.fPrePd, sPrePd + o.sPrePd,
             sref + o.sref, srefAct + o.srefAct, srefPre + o.srefPre, spupAct + o.spupAct, spupPre + o.spupPre)
    }

    /** window_cycles. */
    function Sum(): int {
      act + pre + fActPd + fPrePd + sActPd + sPrePd + sref + srefAct + srefPre + spupAct + spupPre
    }
  }

  const NONE := Counts(0, 0, 0, 0, 0, 0, 0, 0, 0, 0, 0)

  function Only(k: Category, n: int): Counts {
    match k
    case Act => NONE.(act := n)
    case Pre => NONE.(pre := n)
    case FActPd => NONE.(fActPd := n)
    case SActPd => NONE.(sActPd := n)
    case FPrePd => NONE.(fPrePd := n)
    case SPrePd => NONE.(sPrePd := n)
    case Sref => NONE.(sref := n)
    case SrefAct => NONE.(srefAct := n)
    case SrefPre => NONE.(srefPre := n)
    case SpupAct => NONE.(spupAct := n)
    case SpupPre => NONE.(spupPre := n)
  }

  /** How often each category occurs on a timeline, one entry per cycle. */
  function CountAll(tl: seq<Category>): Counts {
    if |tl| == 0 then NONE else Only(tl[0], 1).Plus(CountAll(tl[1..]))
  }

  lemma {:induction false} CountConcat(a: seq<Category>, b: seq<Category>)
    ensures CountAll(a + b) == CountAll(a).Plus(CountAll(b))
  {
    if |a| == 0 {
      assert a + b == b;
    } else {
      assert (a + b)[0] == a[0] && (a + b)[1..] == a[1..] + b;
      CountConcat(a[1..], b);
    }
  }

  /** n cycles of one category. */
  function Stretch(k: Category, n: nat): (r: seq<Category>)
    ensures |r| == n && forall i :: 0 <= i < n ==> r[i] == k
  {
    seq(n, _ => k)
  }

  lemma {:induction false} CountStretch(k: Category, n: nat)
    ensures CountAll(Stretch(k, n)) == Only(k, n)
  {
    if n > 0 {
      assert Stretch(k, n)[0] == k && Stretch(k, n)[1..] == Stretch(k, n - 1);
      CountStretch(k, n - 1);
    }
  }

  lemma SumsAdd(a: Counts, b: Counts)
    ensures a.Plus(b).Sum() == a.Sum() + b.Sum()
  {
  }

  lemma OneCycle(k: Category)
    ensures Only(k, 1).Sum() == 1
  {
  }

  lemma CountStep(tl: seq<Category>)
    ensures |tl| == 0 ==> CountAll(tl).Sum() == 0
    ensures |tl| > 0 ==> CountAll(tl) == Only(tl[0], 1).Plus(CountAll(tl[1..]))
  {
  }

  lemma {:induction false} SumIsLength(tl: seq<Category>)
    ensures CountAll(tl).Sum() == |tl|
  {
    hide Only, CountAll, Counts.Plus, Counts.Sum;
    CountStep(tl);
    if |tl| > 0 {
      SumIsLength(tl[1..]);
      SumsAdd(Only(tl[0], 1), CountAll(tl[1..]));
      OneCycle(tl[0]);
    }
  }

  // ---------------------------------------------------------------- the reference: what the memory is doing

  datatype Mem = NotInPd | PdnFAct | PdnSAct | PdnFPre | PdnSPre | InSref

  datatype Kind =
    | ACT | RD | WR | REF | REFB | PRE | PREA
    | PDN_F_ACT | PDN_S_ACT | PDN_F_PRE | PDN_S_PRE | PUP_ACT | PUP_PRE
    | SREN | SREX | END

  datatype Command = Command(kind: Kind, bank: nat, time: int)

  /** `frontier` is the cycle up to which everything is accounted for. */
  datatype Control = Control(mem: Mem, active: set<nat>, frontier: int)

  datatype Timing = Timing(rfc: int, rp: int) {
    predicate Ok() { 0 <= rp <= rfc }
  }

  /** What cycle `start + k` is spent on when self-refresh begins at `start` and is left `stay` cycles later: the
      initial auto-refresh is active for RFC - RP cycles and precharging for RP, on self-refresh time before the exit
      and on power-up time after it; whatever self-refresh lasts beyond RFC is plain self-refresh. */
  function SrefCategory(t: Timing, stay: int, k: int): Category {
    if k < t.rfc - t.rp then (if k < stay then SrefAct else SpupAct)
    else if k < t.rfc then (if k < stay then SrefPre else SpupPre)
    else Sref
  }

  function SrefStretch(t: Timing, stay: int, n: nat): (r: seq<Category>)
    ensures |r| == n && forall k :: 0 <= k < n ==> r[k] == SrefCategory(t, stay, k)
  {
    seq(n, k => SrefCategory(t, stay, k))
  }

  function Max(a: int, b: int): int {
    if a < b then b else a
  }

  /** The category of the cycles from the frontier on while the memory stays in its state (self-refresh apart). */
  function Current(c: Control): Category
    requires c.mem != InSref
  {
    match c.mem
    case NotInPd => if c.active == {} then Pre else Act
    case PdnFAct => FActPd
    case PdnSAct => SActPd
    case PdnFPre => FPrePd
    case PdnSPre => SPrePd
  }

  /** Commands the memory may be given: in the right state, and not before the accounted frontier when they move it. */
  predicate Legal(c: Control, banks: nat, q: Command) {
    match q.kind
    case ACT => c.mem == NotInPd && q.bank < banks && (c.active == {} ==> c.frontier <= q.time)
    case RD | WR | REFB => q.bank < banks
    case REF => c.mem == NotInPd && c.active == {} && c.frontier <= q.time
    case PRE => c.mem == NotInPd && q.bank < banks && (c.active == {q.bank} ==> c.frontier <= q.time)
    case PREA => c.mem == NotInPd && (c.active != {} ==> c.frontier <= q.time)
    case PDN_F_ACT | PDN_S_ACT => c.mem == NotInPd && c.active != {} && c.frontier <= q.time
    case PDN_F_PRE | PDN_S_PRE | SREN => c.mem == NotInPd && c.active == {} && c.frontier <= q.time
    case PUP_ACT => c.mem in {PdnFAct, PdnSAct} && c.frontier <= q.time
    case PUP_PRE => c.mem in {PdnFPre, PdnSPre} && c.frontier <= q.time
    case SREX => c.mem == InSref && c.frontier <= q.time
    case END => !(c.mem == InSref && q.time < c.frontier)
  }

  /** The cycles a legal command accounts for. */
  function Spent(t: Timing, c: Control, banks: nat, q: Command): seq<Category>
    requires t.Ok() && Legal(c, banks, q)
  {
    match q.kind
    case ACT => if c.active == {} then Stretch(Pre, q.time - c.frontier) else []
    case RD | WR | REFB => []
    case REF => Stretch(Pre, q.time - c.frontier) + Stretch(Act, t.rfc - t.rp)
    case PRE => if c.active == {q.bank} then Stretch(Act, q.time - c.frontier) else []
    case PREA => if c.active != {} then Stretch(Act, q.time - c.frontier) else []
    case PDN_F_ACT | PDN_S_ACT => Stretch(Act, q.time - c.frontier)
    case PDN_F_PRE | PDN_S_PRE | SREN => Stretch(Pre, q.time - c.frontier)
    case PUP_ACT | PUP_PRE => Stretch(Current(c), q.time - c.frontier)
    case SREX => SrefStretch(t, q.time - c.frontier, Max(q.time - c.frontier, t.rfc))
    case END =>
      var n := Max(0, q.time - c.frontier);
      if c.mem == InSref then SrefStretch(t, n, n) else Stretch(Current(c), n)
  }

  function Next(t: Timing, c: Control, banks: nat, q: Command): Control
    requires t.Ok() && Legal(c, banks, q)
  {
    var f := c.frontier + |Spent(t, c, banks, q)|;
    match q.kind
    case ACT => Control(NotInPd, c.active + {q.bank}, f)
    case RD | WR | REFB | END => c.(frontier := f)
    case REF => Control(NotInPd, {}, f)
    case PRE => Control(NotInPd, c.active - {q.bank}, f)
    case PREA => Control(NotInPd, {}, f)
    case PDN_F_ACT => Control(PdnFAct, c.active, f)
    case PDN_S_ACT => Control(PdnSAct, c.active, f)
    case PDN_F_PRE => Control(PdnFPre, {}, f)
    case PDN_S_PRE => Control(PdnSPre, {}, f)
    case SREN => Control(InSref, {}, f)
    case PUP_ACT => Control(NotInPd, c.active, f)
    case PUP_PRE => Control(NotInPd, {}, f)
    case SREX => Control(NotInPd, {}, f)
  }

  /** A legal trace: every command legal where it comes, END only at the end. */
  predicate LegalTrace(t: Timing, c: Control, banks: nat, qs: seq<Command>)
    requires t.Ok()
    decreases |qs|
  {
    |qs| == 0 || (Legal(c, banks, qs[0]) && (qs[0].kind.END? ==> |qs| == 1) && LegalTrace(t, Next(t, c, banks, qs[0]), banks, qs[1..]))
  }

  /** The timeline of a legal trace, cycle by cycle. */
  function Timeline(t: Timing, c: Control, banks: nat, qs: seq<Command>): seq<Category>
    requires t.Ok() && LegalTrace(t, c, banks, qs)
    decreases |qs|
  {
    if |qs| == 0 then [] else Spent(t, c, banks, qs[0]) + Timeline(t, Next(t, c, banks, qs[0]), banks, qs[1..])
  }

  lemma FiveStretches(n1: nat, n2: nat, n3: nat, n4: nat, n5: nat)
    ensures CountAll(Stretch(SrefAct, n1) + Stretch(SpupAct, n2) + Stretch(SrefPre, n3) + Stretch(SpupPre, n4) + Stretch(Sref, n5))
         == NONE.(srefAct := n1, spupAct := n2, srefPre := n3, spupPre := n4, sref := n5)
  {
    var s1, s2, s3 := Stretch(SrefAct, n1), Stretch(SpupAct, n2), Stretch(SrefPre, n3);
    var s4, s5 := Stretch(SpupPre, n4), Stretch(Sref, n5);
    CountConcat(s1, s2);
    CountConcat(s1 + s2, s3);
    CountConcat(s1 + s2 + s3, s4);
    CountConcat(s1 + s2 + s3 + s4, s5);
    CountStretch(SrefAct, n1);
    CountStretch(SpupAct, n2);
    CountStretch(SrefPre, n3);
    CountStretch(SpupPre, n4);
    CountStretch(Sref, n5);
    hide CountAll;
  }

  /** Case 1 of self-refresh exit: the initial auto-refresh is over. */
  lemma LongSref(t: Timing, stay: nat, n: nat)
    requires t.Ok() && t.rfc <= n <= stay
    ensures CountAll(SrefStretch(t, stay, n)) == NONE.(srefAct := t.rfc - t.rp, srefPre := t.rp, sref := n - t.rfc)
  {
    FiveStretches(t.rfc - t.rp, 0, t.rp, 0, n - t.rfc);
    assert SrefStretch(t, stay, n)
        == Stretch(SrefAct, t.rfc - t.rp) + Stretch(SpupAct, 0) + Stretch(SrefPre, t.rp) + Stretch(SpupPre, 0) + Stretch(Sref, n - t.rfc);
  }

  /** Case 2A: left while the auto-refresh precharges; the rest of the precharge is power-up time. */
  lemma MiddleSref(t: Timing, stay: nat)
    requires t.Ok() && t.rfc - t.rp <= stay < t.rfc
    ensures CountAll(SrefStretch(t, stay, t.rfc))
         == NONE.(srefAct := t.rfc - t.rp, srefPre := stay - (t.rfc - t.rp), spupPre := t.rfc - stay)
  {
    var act := t.rfc - t.rp;
    FiveStretches(act, 0, stay - act, t.rfc - stay, 0);
    assert SrefStretch(t, stay, t.rfc)
        == Stretch(SrefAct, act) + Stretch(SpupAct, 0) + Stretch(SrefPre, stay - act) + Stretch(SpupPre, t.rfc - stay) + Stretch(Sref, 0);
  }

  /** Case 2B: left while the auto-refresh is still active. */
  lemma ShortSref(t: Timing, stay: nat)
    requires t.Ok() && stay < t.rfc - t.rp
    ensures CountAll(SrefStretch(t, stay, t.rfc))
         == NONE.(srefAct := stay, spupAct := t.rfc - t.rp - stay, spupPre := t.rp)
  {
    var act := t.rfc - t.rp;
    FiveStretches(stay, act - stay, 0, t.rp, 0);
    assert SrefStretch(t, stay, t.rfc)
        == Stretch(SrefAct, stay) + Stretch(SpupAct, act - stay) + Stretch(SrefPre, 0) + Stretch(SpupPre, t.rp) + Stretch(Sref, 0);
  }

  /** A trace that ends inside self-refresh, before the auto-refresh is over. */
  lemma UnfinishedSref(t: Timing, n: nat)
    requires t.Ok() && n <= t.rfc
    ensures CountAll(SrefStretch(t, n, n))
         == if n <= t.rfc - t.rp then NONE.(srefAct := n) else NONE.(srefAct := t.rfc - t.rp, srefPre := n - (t.rfc - t.rp))
  {
    var act := t.rfc - t.rp;
    if n <= act {
      FiveStretches(n, 0, 0, 0, 0);
      assert SrefStretch(t, n, n)
          == Stretch(SrefAct, n) + Stretch(SpupAct, 0) + Stretch(SrefPre, 0) + Stretch(SpupPre, 0) + Stretch(Sref, 0);
    } else {
      FiveStretches(act, 0, n - act, 0, 0);
      assert SrefStretch(t, n, n)
          == Stretch(SrefAct, act) + Stretch(SpupAct, 0) + Stretch(SrefPre, n - act) + Stretch(SpupPre, 0) + Stretch(Sref, 0);
    }
  }

  /** The control state a legal trace ends in. */
  function Final(t: Timing, c: Control, banks: nat, qs: seq<Command>): Control
    requires t.Ok() && LegalTrace(t, c, banks, qs)
    decreases |qs|
  {
    if |qs| == 0 then c else Final(t, Next(t, c, banks, qs[0]), banks, qs[1..])
  }

  /** Whether the trace ends with the END marker, which accounts for cycles without moving the memory. */
  predicate Ended(qs: seq<Command>) {
    |qs| > 0 && qs[|qs| - 1].kind.END?
  }

  lemma NextFrontier(t: Timing, c: Control, banks: nat, q: Command)
    requires t.Ok() && Legal(c, banks, q)
    ensures Next(t, c, banks, q).frontier == c.frontier + |Spent(t, c, banks, q)|
  {
    hide Spent;
  }

  lemma RefSpends(t: Timing, c: Control, banks: nat, bank: nat, time: int)
    requires t.Ok() && Legal(c, banks, Command(REF, bank, time))
    ensures c.mem == NotInPd && c.active == {} && c.frontier <= time
    ensures CountAll(Spent(t, c, banks, Command(REF, bank, time))) == NONE.(pre := time - c.frontier, act := t.rfc - t.rp)
    ensures Next(t, c, banks, Command(REF, bank, time)) == Control(NotInPd, {}, time + t.rfc - t.rp)
  {
    hide CountAll;
    CountTwo(Pre, time - c.frontier, Act, t.rfc - t.rp);
  }

  lemma CountNothing(o: Counts)
    ensures o.Plus(CountAll([])) == o
  {
  }

  lemma CountTwo(k1: Category, n1: nat, k2: Category, n2: nat)
    ensures CountAll(Stretch(k1, n1) + Stretch(k2, n2)) == Only(k1, n1).Plus(Only(k2, n2))
  {
    CountConcat(Stretch(k1, n1), Stretch(k2, n2));
    CountStretch(k1, n1);
    CountStretch(k2, n2);
  }

  // ---------------------------------------------------------------- the analysis object

  function ActiveSet(bs: seq<bool>): set<nat> {
    set b: nat | b < |bs| && bs[b]
  }

  lemma SetBank(bs: seq<bool>, b: nat, on: bool)
    requires b < |bs|
    ensures ActiveSet(bs[b := on]) == if on then ActiveSet(bs) + {b} else ActiveSet(bs) - {b}
  {
  }

  lemma NoBanks(n: nat)
    ensures ActiveSet(seq(n, _ => false)) == {}
  {
  }

  lemma BankIsActive(bs: seq<bool>, b: nat)
    requires b < |bs|
    ensures b in ActiveSet(bs) <==> bs[b]
  {
  }

  /** std::count of the active banks. */
  function CountActive(bs: seq<bool>): nat {
    if |bs| == 0 then 0 else CountActive(bs[..|bs| - 1]) + if bs[|bs| - 1] then 1 else 0
  }

  lemma {:induction false} CountIsSize(bs: seq<bool>)
    ensures CountActive(bs) == |ActiveSet(bs)|
  {
    if |bs| > 0 {
      var n := |bs| - 1;
      CountIsSize(bs[..n]);
      if bs[n] {
        assert ActiveSet(bs) == ActiveSet(bs[..n]) + {n};
      } else {
        assert ActiveSet(bs) == ActiveSet(bs[..n]);
      }
    } else {
      assert ActiveSet(bs) == {};
    }
  }

  lemma OnlyBank(s: set<nat>, b: nat)
    requires b in s
    ensures |s| == 1 <==> s == {b}
  {
    if |s| == 1 {
      assert |s - {b}| == 0;
    }
  }

  function ZeroGuard(n: int): (r: int)
    ensures r == Max(0, n)
  {
    if n < 0 then 0 else n
  }

  lemma SrenSpends(t: Timing, c: Control, banks: nat, bank: nat, time: int)
    requires t.Ok() && Legal(c, banks, Command(SREN, bank, time))
    ensures c.mem == NotInPd && c.active == {} && c.frontier <= time
    ensures CountAll(Spent(t, c, banks, Command(SREN, bank, time))) == NONE.(pre := time - c.frontier)
    ensures Next(t, c, banks, Command(SREN, bank, time)) == Control(InSref, {}, time)
  {
    hide CountAll;
    CountStretch(Pre, time - c.frontier);
  }

  /** The three cases of self-refresh exit. */
  lemma SrexSpends(t: Timing, c: Control, banks: nat, bank: nat, time: int)
    requires t.Ok() && Legal(c, banks, Command(SREX, bank, time))
    ensures c.mem == InSref && c.frontier <= time
    ensures var stay, act := time - c.frontier, t.rfc - t.rp;
      && CountAll(Spent(t, c, banks, Command(SREX, bank, time))) == (
        if stay >= t.rfc then NONE.(srefAct := act, srefPre := t.rp, sref := stay - t.rfc)
        else if stay >= act then NONE.(srefAct := act, srefPre := stay - act, spupPre := t.rfc - stay)
        else NONE.(srefAct := stay, spupAct := act - stay, spupPre := t.rp))
      && Next(t, c, banks, Command(SREX, bank, time)) == Control(NotInPd, {}, c.frontier + Max(stay, t.rfc))
  {
    hide CountAll;
    var stay := time - c.frontier;
    if stay >= t.rfc {
      LongSref(t, stay, stay);
    } else if stay >= t.rfc - t.rp {
      MiddleSref(t, stay);
    } else {
      ShortSref(t, stay);
    }
  }

  /** A trace that ends inside self-refresh. */
  lemma SrefSoFar(t: Timing, n: nat)
    requires t.Ok()
    ensures CountAll(SrefStretch(t, n, n)) == (
      if n > t.rfc then NONE.(srefAct := t.rfc - t.rp, srefPre := t.rp, sref := n - t.rfc)
      else if n > t.rfc - t.rp then NONE.(srefAct := t.rfc - t.rp, srefPre := n - (t.rfc - t.rp))
      else NONE.(srefAct := n))
  {
    hide CountAll;
    if n > t.rfc {
      LongSref(t, n, n);
    } else {
      UnfinishedSref(t, n);
    }
  }

  class CommandAnalysis {
    const t: Timing
    const numBanks: nat

    var actcycles: int
    var precycles: int
    var f_act_pdcycles: int
    var s_act_pdcycles: int
    var f_pre_pdcycles: int
    var s_pre_pdcycles: int
    var sref_cycles: int
    var sref_ref_act_cycles: int
    var sref_ref_pre_cycles: int
    var spup_ref_act_cycles: int
    var spup_ref_pre_cycles: int

    var sref_ref_act_cycles_window: int
    var sref_ref_pre_cycles_window: int

    var first_act_cycle: int
    var last_pre_cycle: int
    var pdn_cycle: int
    var sref_cycle: int
    var sref_cycle_window: int
    var bank_state: seq<bool>
    var last_bank_state: seq<bool>
    var mem_state: Mem

    function Counters(): Counts
      reads this
    {
      Counts(actcycles, precycles, f_act_pdcycles, s_act_pdcycles, f_pre_pdcycles, s_pre_pdcycles, sref_cycles,
             sref_ref_act_cycles, sref_ref_pre_cycles, spup_ref_act_cycles, spup_ref_pre_cycles)
    }

    /** The cycle up to which the counters account for everything, as the memory state names it. */
    function Frontier(): int
      reads this
    {
      match mem_state
      case NotInPd => if ActiveSet(bank_state) == {} then last_pre_cycle else first_act_cycle
      case InSref => sref_cycle
      case _ => pdn_cycle
    }

    /** The fields say what the control state says. */
    ghost predicate Tracks(c: Control)
      reads this
    {
      && t.Ok() && |bank_state| == numBanks
      && mem_state == c.mem && ActiveSet(bank_state) == c.active && Frontier() == c.frontier
      && (mem_state in {PdnFAct, PdnSAct} ==> last_bank_state == bank_state && c.active != {})
      && (mem_state in {PdnFPre, PdnSPre, InSref} ==> c.active == {})
      && (mem_state == InSref ==>
            sref_cycle_window == sref_cycle && sref_ref_act_cycles_window == 0 && sref_ref_pre_cycles_window == 0)
    }

    /** ... and the counters count the timeline. */
    ghost predicate Charged(c: Control, tl: seq<Category>)
      reads this
    {
      Tracks(c) && Counters() == CountAll(tl) && |tl| == c.frontier
    }

    /** The initial state: clearStats(0), all banks precharged. */
    constructor (t: Timing, numBanks: nat)
      requires t.Ok()
      ensures this.t == t && this.numBanks == numBanks
      ensures Charged(Control(NotInPd, {}, 0), [])
    {
      this.t, this.numBanks := t, numBanks;
      actcycles, precycles := 0, 0;
      f_act_pdcycles, s_act_pdcycles, f_pre_pdcycles, s_pre_pdcycles := 0, 0, 0, 0;
      sref_cycles, sref_ref_act_cycles, sref_ref_pre_cycles := 0, 0, 0;
      spup_ref_act_cycles, spup_ref_pre_cycles := 0, 0;
      sref_ref_act_cycles_window, sref_ref_pre_cycles_window := 0, 0;
      first_act_cycle, last_pre_cycle, pdn_cycle, sref_cycle, sref_cycle_window := 0, 0, 0, 0, 0;
      bank_state, last_bank_state := seq(numBanks, _ => false), seq(numBanks, _ => false);
      mem_state := NotInPd;
    }

    method NActiveBanks() returns (n: nat)
      ensures n == |ActiveSet(bank_state)|
    {
      n := 0;
      for b := 0 to |bank_state|
        invariant n == CountActive(bank_state[..b])
      {
        assert bank_state[..b + 1][..b] == bank_state[..b];
        if bank_state[b] {
          n := n + 1;
        }
      }
      assert bank_state[..|bank_state|] == bank_state;
      CountIsSize(bank_state);
    }

    /** What each handler promises for a legal command: the timeline grows by what the command accounts for. */
    twostate predicate Follows(c: Control, q: Command)
      reads this
    {
      old(Tracks(c)) && Legal(c, numBanks, q) ==>
        && Tracks(Next(t, c, numBanks, q))
        && Counters() == old(Counters()).Plus(CountAll(Spent(t, c, numBanks, q)))
    }

    method HandleAct(bank: nat, timestamp: int, ghost c: Control)
      requires bank < |bank_state|
      modifies this
      ensures Follows(c, Command(ACT, bank, timestamp))
    {
      hide CountAll, ActiveSet;
      CountNothing(Counters());
      BankIsActive(bank_state, bank);
      SetBank(bank_state, bank, true);
      if !bank_state[bank] {
        var n := NActiveBanks();
        if n == 0 {
          first_act_cycle := timestamp;
          precycles := precycles + ZeroGuard(timestamp - last_pre_cycle);
          if c.frontier <= timestamp {
            CountStretch(Pre, timestamp - c.frontier);
          }
        }
        bank_state := bank_state[bank := true];
      }
    }

    /** REF: the banks are active for RFC - RP cycles; the precharge that follows is accounted for by the next command. */
    method HandleRef(bank: nat, timestamp: int, ghost c: Control)
      modifies this
      ensures Follows(c, Command(REF, bank, timestamp))
    {
      hide CountAll, ActiveSet, Legal, Spent, Next, Stretch;
      if t.Ok() && Legal(c, numBanks, Command(REF, bank, timestamp)) {
        RefSpends(t, c, numBanks, bank, timestamp);
      }
      first_act_cycle := timestamp;
      precycles := precycles + ZeroGuard(timestamp - last_pre_cycle);
      last_pre_cycle := timestamp + t.rfc - t.rp;
      actcycles := actcycles + (t.rfc - t.rp);
      bank_state := seq(|bank_state|, _ => false);
      NoBanks(|bank_state|);
    }

    method HandlePre(bank: nat, timestamp: int, ghost c: Control)
      requires bank < |bank_state|
      modifies this
      ensures Follows(c, Command(PRE, bank, timestamp))
    {
      hide CountAll, ActiveSet;
      CountNothing(Counters());
      BankIsActive(bank_state, bank);
      SetBank(bank_state, bank, false);
      if bank_state[bank] {
        OnlyBank(ActiveSet(bank_state), bank);
        var n := NActiveBanks();
        assert n != 0;
        if n == 1 {
          actcycles := actcycles + ZeroGuard(timestamp - first_act_cycle);
          last_pre_cycle := timestamp;
          if c.frontier <= timestamp {
            CountStretch(Act, timestamp - c.frontier);
          }
        }
        bank_state := bank_state[bank := false];
      }
    }

    method HandlePreA(bank: nat, timestamp: int, ghost c: Control)
      modifies this
      ensures Follows(c, Command(PREA, bank, timestamp))
    {
      hide CountAll, ActiveSet;
      CountNothing(Counters());
      NoBanks(|bank_state|);
      var n := NActiveBanks();
      if n > 0 {
        actcycles := actcycles + ZeroGuard(timestamp - first_act_cycle);
        last_pre_cycle := timestamp;
        bank_state := seq(|bank_state|, _ => false);
        if c.frontier <= timestamp {
          CountStretch(Act, timestamp - c.frontier);
        }
      }
    }

    /** Fast-exit or slow-exit active power-down: the two handlers differ in the state they enter. */
    method HandlePdnAct(fast: bool, bank: nat, timestamp: int, ghost c: Control)
      modifies this
      ensures Follows(c, Command(if fast then PDN_F_ACT else PDN_S_ACT, bank, timestamp))
    {
      hide CountAll, ActiveSet, Stretch, SrefStretch;
      last_bank_state := bank_state;
      pdn_cycle := timestamp;
      actcycles := actcycles + ZeroGuard(timestamp - first_act_cycle);
      mem_state := if fast then PdnFAct else PdnSAct;
      if c.frontier <= timestamp {
        CountStretch(Act, timestamp - c.frontier);
      }
    }

    /** Fast-exit or slow-exit precharged power-down. */
    method HandlePdnPre(fast: bool, bank: nat, timestamp: int, ghost c: Control)
      modifies this
      ensures Follows(c, Command(if fast then PDN_F_PRE else PDN_S_PRE, bank, timestamp))
    {
      hide CountAll, ActiveSet, Stretch, SrefStretch;
      pdn_cycle := timestamp;
      precycles := precycles + ZeroGuard(timestamp - last_pre_cycle);
      mem_state := if fast then PdnFPre else PdnSPre;
      if c.frontier <= timestamp {
        CountStretch(Pre, timestamp - c.frontier);
      }
    }

    method HandlePupAct(bank: nat, timestamp: int, ghost c: Control)
      modifies this
      ensures Follows(c, Command(PUP_ACT, bank, timestamp))
    {
      hide CountAll, ActiveSet, Stretch, SrefStretch;
      if c.frontier <= timestamp && c.mem != InSref {
        CountStretch(Current(c), timestamp - c.frontier);
      }
      if mem_state == PdnFAct {
        f_act_pdcycles := f_act_pdcycles + ZeroGuard(timestamp - pdn_cycle);
      } else if mem_state == PdnSAct {
        s_act_pdcycles := s_act_pdcycles + ZeroGuard(timestamp - pdn_cycle);
      }
      mem_state := NotInPd;
      bank_state := last_bank_state;
      first_act_cycle := timestamp;
    }

    method HandlePupPre(bank: nat, timestamp: int, ghost c: Control)
      modifies this
      ensures Follows(c, Command(PUP_PRE, bank, timestamp))
    {
      hide CountAll, ActiveSet, Stretch, SrefStretch;
      if c.frontier <= timestamp && c.mem != InSref {
        CountStretch(Current(c), timestamp - c.frontier);
      }
      if mem_state == PdnFPre {
        f_pre_pdcycles := f_pre_pdcycles + ZeroGuard(timestamp - pdn_cycle);
      } else if mem_state == PdnSPre {
        s_pre_pdcycles := s_pre_pdcycles + ZeroGuard(timestamp - pdn_cycle);
      }
      mem_state := NotInPd;
      last_pre_cycle := timestamp;
    }

    method HandleSREn(bank: nat, timestamp: int, ghost c: Control)
      modifies this
      ensures Follows(c, Command(SREN, bank, timestamp))
    {
      hide CountAll, ActiveSet, Legal, Spent, Next;
      ghost var legal := Tracks(c) && Legal(c, numBanks, Command(SREN, bank, timestamp));
      if legal {
        SrenSpends(t, c, numBanks, bank, timestamp);
      }
      sref_cycle := timestamp;
      sref_cycle_window := timestamp;
      sref_ref_pre_cycles_window := 0;
      sref_ref_act_cycles_window := 0;
      precycles := precycles + ZeroGuard(timestamp - last_pre_cycle);
      mem_state := InSref;
      assert legal ==> Tracks(Control(InSref, {}, timestamp));
      assert legal ==> Counters() == old(Counters()).Plus(NONE.(pre := timestamp - c.frontier));
      hide Tracks, Counters, Counts.Plus;
    }

    /** Self-refresh exit, by how much of the initial auto-refresh was over. */
    method HandleSREx(bank: nat, timestamp: int, ghost c: Control)
      modifies this
      ensures Follows(c, Command(SREX, bank, timestamp))
    {
      hide CountAll, ActiveSet, Legal, Spent, Next;
      if t.Ok() && Legal(c, numBanks, Command(SREX, bank, timestamp)) {
        SrexSpends(t, c, numBanks, bank, timestamp);
      }
      var duration := timestamp - sref_cycle;
      if duration <= 0 {
        duration := 0;
      }
      if duration >= t.rfc {
        sref_ref_act_cycles := sref_ref_act_cycles + (t.rfc - t.rp - sref_ref_act_cycles_window);
        sref_ref_pre_cycles := sref_ref_pre_cycles + (t.rp - sref_ref_pre_cycles_window);
        last_pre_cycle := timestamp;
        if sref_cycle_window > sref_cycle + t.rfc {
          sref_cycles := sref_cycles + ZeroGuard(timestamp - sref_cycle_window);
        } else {
          sref_cycles := sref_cycles + ZeroGuard(timestamp - sref_cycle - t.rfc);
        }
      } else {
        var refActCycles := t.rfc - t.rp;
        if duration >= refActCycles {
          var preCycles := duration - refActCycles - sref_ref_pre_cycles_window;
          sref_ref_act_cycles := sref_ref_act_cycles + (refActCycles - sref_ref_act_cycles_window);
          sref_ref_pre_cycles := sref_ref_pre_cycles + preCycles;
          var spupPre := t.rp - preCycles;
          spup_ref_pre_cycles := spup_ref_pre_cycles + spupPre;
          last_pre_cycle := timestamp + spupPre;
        } else {
          sref_ref_act_cycles := sref_ref_act_cycles + (duration - sref_ref_act_cycles_window);
          var spupAct := t.rfc - t.rp - duration;
          spup_ref_act_cycles := spup_ref_act_cycles + spupAct;
          spup_ref_pre_cycles := spup_ref_pre_cycles + t.rp;
          last_pre_cycle := timestamp + spupAct + t.rp;
        }
      }
      mem_state := NotInPd;
    }

    /** NOP or END: what has passed since the frontier is charged, and the frontier stays where it was. Charging is
        right except inside self-refresh before its start, and so a NOP in the middle of a trace keeps the counters in
        step with the frontier only when nothing, or nothing more, was left to charge. */
    method HandleNopEnd(bank: nat, timestamp: int, ghost c: Control)
      modifies this
      ensures old(Tracks(c)) ==> Frontier() == c.frontier && (c.mem != InSref ==> Tracks(c))
      ensures old(Tracks(c)) && Legal(c, numBanks, Command(END, bank, timestamp)) ==>
        Counters() == old(Counters()).Plus(CountAll(Spent(t, c, numBanks, Command(END, bank, timestamp))))
      ensures old(Tracks(c)) ==>
        ((Counters().Sum() == old(Counters()).Sum() + Max(0, timestamp - c.frontier))
         <==> !(c.mem == InSref && timestamp < c.frontier))
      ensures old(Tracks(c)) && old(Counters()).Sum() == c.frontier ==>
        (Counters().Sum() == Frontier() <==> timestamp == c.frontier || (timestamp < c.frontier && c.mem != InSref))
    {
      hide CountAll, ActiveSet, Stretch, SrefStretch;
      ghost var n := Max(0, timestamp - c.frontier);
      if c.mem != InSref {
        SumsAdd(Counters(), CountAll(Stretch(Current(c), n)));
        SumIsLength(Stretch(Current(c), n));
      }
      if mem_state == InSref {
        NopEndInSref(timestamp, c);
      } else {
        NopEndOutside(timestamp, c);
      }
    }

    method NopEndOutside(timestamp: int, ghost c: Control)
      requires mem_state != InSref
      modifies this`actcycles, this`precycles, this`f_act_pdcycles, this`s_act_pdcycles
      modifies this`f_pre_pdcycles, this`s_pre_pdcycles
      ensures old(Tracks(c)) ==>
        Counters() == old(Counters()).Plus(CountAll(Stretch(Current(c), Max(0, timestamp - c.frontier))))
    {
      hide CountAll, ActiveSet, Stretch;
      if c.mem != InSref {
        CountStretch(Current(c), Max(0, timestamp - c.frontier));
      }
      var n := NActiveBanks();
      if n > 0 && mem_state == NotInPd {
        actcycles := actcycles + ZeroGuard(timestamp - first_act_cycle);
      } else if n == 0 && mem_state == NotInPd {
        precycles := precycles + ZeroGuard(timestamp - last_pre_cycle);
      } else if mem_state == PdnFAct {
        f_act_pdcycles := f_act_pdcycles + ZeroGuard(timestamp - pdn_cycle);
      } else if mem_state == PdnSAct {
        s_act_pdcycles := s_act_pdcycles + ZeroGuard(timestamp - pdn_cycle);
      } else if mem_state == PdnFPre {
        f_pre_pdcycles := f_pre_pdcycles + ZeroGuard(timestamp - pdn_cycle);
      } else if mem_state == PdnSPre {
        s_pre_pdcycles := s_pre_pdcycles + ZeroGuard(timestamp - pdn_cycle);
      }
    }

    method NopEndInSref(timestamp: int, ghost c: Control)
      modifies this`sref_cycles, this`sref_ref_act_cycles, this`sref_ref_pre_cycles
      modifies this`sref_ref_act_cycles_window, this`sref_ref_pre_cycles_window, this`sref_cycle_window
      ensures old(Tracks(c)) && c.mem == InSref ==>
        && Counters().Sum() == old(Counters()).Sum() + timestamp - c.frontier
        && (c.frontier <= timestamp ==> Counters() == old(Counters()).Plus(
              CountAll(SrefStretch(t, timestamp - c.frontier, timestamp - c.frontier))))
    {
      hide CountAll, ActiveSet, Stretch, SrefStretch;
      ghost var tracked := Tracks(c) && c.mem == InSref;
      assert tracked ==> t.Ok() && sref_cycle_window == sref_cycle == c.frontier;
      assert tracked ==> sref_ref_act_cycles_window == 0 && sref_ref_pre_cycles_window == 0;
      hide Tracks, Frontier;
      if t.Ok() && c.frontier <= timestamp {
        SrefSoFar(t, timestamp - c.frontier);
      }
      var rfcMinusRp := t.rfc - t.rp;
      if timestamp > sref_cycle + t.rfc {
        if sref_cycle_window <= sref_cycle + rfcMinusRp {
          sref_ref_act_cycles := sref_ref_act_cycles + (rfcMinusRp - sref_ref_act_cycles_window);
          sref_ref_act_cycles_window := rfcMinusRp;
          sref_cycle_window := sref_cycle + rfcMinusRp;
        }
        if sref_cycle_window <= sref_cycle + t.rfc {
          sref_ref_pre_cycles := sref_ref_pre_cycles + (t.rp - sref_ref_pre_cycles_window);
          sref_ref_pre_cycles_window := t.rp;
          sref_cycle_window := sref_cycle + t.rfc;
        }
        sref_cycles := sref_cycles + ZeroGuard(timestamp - sref_cycle_window);
      } else if timestamp > sref_cycle + rfcMinusRp {
        if sref_cycle_window <= sref_cycle + rfcMinusRp {
          sref_ref_act_cycles := sref_ref_act_cycles + (rfcMinusRp - sref_ref_act_cycles_window);
          sref_ref_act_cycles_window := rfcMinusRp;
          sref_cycle_window := sref_cycle + rfcMinusRp;
        }
        sref_ref_pre_cycles_window := sref_ref_pre_cycles_window + (timestamp - sref_cycle_window);
        sref_ref_pre_cycles := sref_ref_pre_cycles + (timestamp - sref_cycle_window);
      } else {
        sref_ref_act_cycles_window := sref_ref_act_cycles_window + (timestamp - sref_cycle_window);
        sref_ref_act_cycles := sref_ref_act_cycles + (timestamp - sref_cycle_window);
      }
    }

    /** One pass of the dispatch. RD, WR and REFB touch none of the modelled fields. */
    method Handle(q: Command, ghost c: Control)
      requires Tracks(c) && Legal(c, numBanks, q)
      modifies this
      ensures !q.kind.END? ==> Tracks(Next(t, c, numBanks, q))
      ensures Counters() == old(Counters()).Plus(CountAll(Spent(t, c, numBanks, q)))
    {
      hide CountAll, ActiveSet, Stretch, SrefStretch;
      CountNothing(Counters());
      match q.kind
      case ACT => HandleAct(q.bank, q.time, c);
      case RD | WR | REFB =>
      case REF => HandleRef(q.bank, q.time, c);
      case PRE => HandlePre(q.bank, q.time, c);
      case PREA => HandlePreA(q.bank, q.time, c);
      case PDN_F_ACT => HandlePdnAct(true, q.bank, q.time, c);
      case PDN_S_ACT => HandlePdnAct(false, q.bank, q.time, c);
      case PDN_F_PRE => HandlePdnPre(true, q.bank, q.time, c);
      case PDN_S_PRE => HandlePdnPre(false, q.bank, q.time, c);
      case PUP_ACT => HandlePupAct(q.bank, q.time, c);
      case PUP_PRE => HandlePupPre(q.bank, q.time, c);
      case SREN => HandleSREn(q.bank, q.time, c);
      case SREX => HandleSREx(q.bank, q.time, c);
      case END => HandleNopEnd(q.bank, q.time, c);
    }

    /** A NOP and then a command, outside self-refresh: the cycles between the frontier and the NOP are charged twice, so
        counters that were in step with the frontier are ahead of it afterwards, by that much, unless the NOP came no
        later than the frontier. */
    method HandleAfterNop(nop: int, q: Command, ghost c: Control)
      requires Tracks(c) && Legal(c, numBanks, q) && c.mem != InSref && !q.kind.END?
      modifies this
      ensures Tracks(Next(t, c, numBanks, q))
      ensures Counters() == old(Counters()).Plus(CountAll(Stretch(Current(c), Max(0, nop - c.frontier))))
                            .Plus(CountAll(Spent(t, c, numBanks, q)))
      ensures old(Counters()).Sum() == c.frontier ==>
        Counters().Sum() == Next(t, c, numBanks, q).frontier + Max(0, nop - c.frontier)
    {
      hide CountAll, ActiveSet, Legal, Next, Tracks, Spent, Stretch, SrefStretch, Counts.Plus, Counts.Sum;
      TracksOk(c);
      ghost var before := Counters();
      HandleNopEndAt(nop, c);
      ghost var between := Counters();
      Handle(q, c);
      ghost var again := CountAll(Stretch(Current(c), Max(0, nop - c.frontier)));
      SumsAdd(before, again);
      SumsAdd(between, CountAll(Spent(t, c, numBanks, q)));
      SumIsLength(Stretch(Current(c), Max(0, nop - c.frontier)));
      SumIsLength(Spent(t, c, numBanks, q));
      NextFrontier(t, c, numBanks, q);
    }

    lemma TracksOk(c: Control)
      requires Tracks(c)
      ensures t.Ok()
    {
    }

    method HandleNopEndAt(nop: int, ghost c: Control)
      requires Tracks(c) && c.mem != InSref
      modifies this
      ensures Tracks(c)
      ensures Counters() == old(Counters()).Plus(CountAll(Stretch(Current(c), Max(0, nop - c.frontier))))
    {
      hide CountAll, Stretch, SrefStretch, Counts.Plus;
      assert Legal(c, numBanks, Command(END, 0, nop));
      HandleNopEnd(0, nop, c);
    }

    /** Cycle conservation over a whole trace: the counters count the trace's timeline, one category per cycle, so
        their sum is the cycle the memory has reached. */
    method EvaluateCommands(qs: seq<Command>, ghost c: Control, ghost tl: seq<Category>)
      requires Charged(c, tl) && LegalTrace(t, c, numBanks, qs)
      modifies this
      ensures Counters() == CountAll(tl + Timeline(t, c, numBanks, qs))
      ensures Counters().Sum() == Final(t, c, numBanks, qs).frontier
      ensures !Ended(qs) ==> Charged(Final(t, c, numBanks, qs), tl + Timeline(t, c, numBanks, qs))
    {
      hide CountAll, Legal, Spent, Next, Stretch, SrefStretch, ActiveSet;
      ghost var done, at := tl, c;
      assert done + Timeline(t, c, numBanks, qs) == tl + Timeline(t, c, numBanks, qs);
      for i := 0 to |qs|
        invariant LegalTrace(t, at, numBanks, qs[i..])
        invariant Counters() == CountAll(done) && |done| == at.frontier
        invariant done + Timeline(t, at, numBanks, qs[i..]) == tl + Timeline(t, c, numBanks, qs)
        invariant Final(t, at, numBanks, qs[i..]) == Final(t, c, numBanks, qs)
        invariant Tracks(at) || (i == |qs| && Ended(qs))
      {
        assert qs[i..][0] == qs[i] && qs[i..][1..] == qs[i + 1..];
        Handle(qs[i], at);
        NextFrontier(t, at, numBanks, qs[i]);
        ghost var spent := Spent(t, at, numBanks, qs[i]);
        CountConcat(done, spent);
        assert done + (spent + Timeline(t, Next(t, at, numBanks, qs[i]), numBanks, qs[i + 1..]))
            == (done + spent) + Timeline(t, Next(t, at, numBanks, qs[i]), numBanks, qs[i + 1..]);
        done, at := done + spent, Next(t, at, numBanks, qs[i]);
      }
      assert qs[|qs|..] == [];
      assert done + [] == done;
      SumIsLength(done);
    }
  }

  lemma TwiceFive(t: Timing, c: Control, q: Command)
    requires t.Ok() && c == Control(NotInPd, {}, 0) && q == Command(ACT, 0, 5)
    ensures Legal(c, 1, q) && Max(0, 5 - c.frontier) == 5
    ensures CountAll([]).Plus(CountAll(Stretch(Current(c), 5))).Plus(CountAll(Spent(t, c, 1, q))).pre == 10
  {
    CountStretch(Pre, 5);
  }

  /** One bank, a NOP in cycle 5 and an ACT in the same cycle: ten precharge cycles are counted by then. */
  method NopThenAct() returns (precycles: int, reached: int)
    ensures precycles == 10 && reached == 5
  {
    hide CountAll, Stretch, Counts.Plus, Spent, Next, Legal;
    var a := new CommandAnalysis(Timing(3, 1), 1);
    ghost var c := Control(NotInPd, {}, 0);
    var q := Command(ACT, 0, 5);
    TwiceFive(a.t, c, q);
    a.HandleAfterNop(5, q, c);
    precycles, reached := a.precycles, q.time;
  }
}
