/**
 The write path of the set-associative cache in front of the FTL. The simulator stores no data; here each line carries
 the version it holds, the FTL the version written to each (page, unit), and `newest` the last version the host wrote.
 */
module WriteCache {
  import opened MixedRadix

  /** Never the insertion time of a line: the simulated clock stays below the largest tick. */
  const NEVER: nat := 0xffff_ffff_ffff_ffff

  datatype Line = Line(tag: nat, lastAccessed: nat, insertedAt: nat, dirty: bool, valid: bool, version: nat)

  /** A line chosen for eviction: a null pointer or a place in the cache. */
  datatype Slot = Null | At(setIdx: nat, way: nat)

  datatype Policy = Random | Fifo | LeastRecentlyUsed

  datatype Mode = SuperPage | All

  /** A write request that the cache sends to the FTL: one unit of one page. */
  datatype Sent = Sent(page: nat, unit: nat, version: nat)

  /** What the requests leave in the FTL. */
  ghost function Stored(sent: seq<Sent>): map<(nat, nat), nat> {
    if |sent| == 0 then map[]
    else
      var x := sent[|sent| - 1];
      Stored(sent[..|sent| - 1])[(x.page, x.unit) := x.version]
  }

  lemma StoredMore(sent: seq<Sent>, x: Sent)
    ensures Stored(sent + [x]) == Stored(sent)[(x.page, x.unit) := x.version]
  {
    assert (sent + [x])[..|sent|] == sent;
  }

  // ---------------------------------------------------------------- where a line belongs

  function Row(lca: nat, lines: nat, parallelIO: nat): nat
    requires lines > 0 && parallelIO > 0
  {
    ProductIsPositive(parallelIO, lines);
    lca % (parallelIO * lines) % lines
  }

  function Col(lca: nat, lines: nat, parallelIO: nat): nat
    requires lines > 0 && parallelIO > 0
  {
    ProductIsPositive(parallelIO, lines);
    lca % (parallelIO * lines) / lines
  }

  lemma ProductIsPositive(a: nat, b: nat)
    requires a > 0 && b > 0
    ensures a * b > 0
  {
  }

  /** The eviction slot of a line is within bounds, its row is the line's unit within its page, its column tells its page
      apart from the others of a full-width access, and the page and unit it is written back to are those of its own tag
      and of no other. */
  lemma SlotOfTag(lca: nat, lines: nat, parallelIO: nat)
    requires lines > 0 && parallelIO > 0
    ensures Row(lca, lines, parallelIO) < lines && Col(lca, lines, parallelIO) < parallelIO
    ensures Row(lca, lines, parallelIO) == lca % lines
    ensures Col(lca, lines, parallelIO) == lca / lines % parallelIO
    ensures forall other: nat :: other / lines == lca / lines && other % lines == Row(lca, lines, parallelIO) <==> other == lca
  {
    ProductIsPositive(parallelIO, lines);
    var max := parallelIO * lines;
    var tmp, k := lca % max, lca / max;
    var row, col := tmp % lines, tmp / lines;
    DivModBack(lca, max);
    DivModBack(tmp, lines);
    BelowQuotient(tmp, lines, parallelIO);
    Regroup(lines, parallelIO, k, col);
    DivMod(lca, lines, row, parallelIO * k + col);
    DivMod(lca / lines, parallelIO, col, k);
    forall other: nat | other / lines == lca / lines && other % lines == row
      ensures other == lca
    {
      DivModBack(other, lines);
    }
  }

  lemma SameUnit(a: nat, b: nat, n: nat)
    requires n > 0
    ensures a / n == b / n && a % n == b % n ==> a == b
  {
    DivModBack(a, n);
    DivModBack(b, n);
  }

  lemma Regroup(n: nat, p: nat, k: nat, c: nat)
    ensures p * n * k + n * c == n * (p * k + c)
  {
    Distribute(n, p * k, c);
    assert p * n * k == n * (p * k);
  }

  lemma BelowQuotient(x: nat, n: nat, p: nat)
    requires n > 0 && x < p * n
    ensures x / n < p
  {
    var q, over := x / n, Over(x / n, p);
    DivModBack(x, n);
    Distribute(n, q - over, over);
  }

  /** By how much q reaches beyond p. */
  function Over(q: nat, p: nat): (r: nat)
    ensures r <= q && q - r <= p && (r > 0 ==> q - r == p)
  {
    if q < p then 0 else q - p
  }

  // ---------------------------------------------------------------- what an eviction takes

  /** The lines of a cache by their places. */
  type Lineup = imap<Slot, Line>

  /** The lines that are no longer what they were. */
  ghost function Gone(before: Lineup, after: Lineup): iset<Slot> {
    iset x | x in before && before[x].valid && (x !in after || after[x] != before[x])
  }

  /** The request that writes a line back. */
  function WriteBack(l: Line, lines: nat): Sent
    requires lines > 0
  {
    Sent(l.tag / lines, l.tag % lines, l.version)
  }

  /** Some of the chosen lines have been written back so far: those dirty ones that are no longer what they were, each by
      one request, in the order taken. */
  ghost predicate Written(before: Lineup, now: Lineup, chosen: iset<Slot>, taken: seq<Slot>, requests: seq<Sent>, lines: nat)
    requires lines > 0
  {
    && |taken| == |requests|
    && (forall k :: 0 <= k < |taken| ==>
          && taken[k] in chosen && taken[k] in before && taken[k] in now && now[taken[k]] != before[taken[k]]
          && before[taken[k]].valid && before[taken[k]].dirty
          && requests[k] == WriteBack(before[taken[k]], lines))
    && (forall i, j :: 0 <= i < j < |taken| ==> taken[i] != taken[j])
    && (forall x :: x in before && x in now && before[x].valid && before[x].dirty && now[x] != before[x] ==> x in taken)
    && (forall x :: x in before && x in now ==> now[x] == before[x] || !now[x].dirty)
  }

  /** The requests write back the dirty ones of the lines that went, each once. */
  ghost predicate SendsGone(before: Lineup, gone: iset<Slot>, requests: seq<Sent>, lines: nat)
    requires lines > 0
  {
    exists taken: seq<Slot> :: Matches(before, gone, requests, lines, taken)
  }

  ghost predicate Matches(before: Lineup, gone: iset<Slot>, requests: seq<Sent>, lines: nat, taken: seq<Slot>)
    requires lines > 0
  {
    && |taken| == |requests|
    && (forall k :: 0 <= k < |taken| ==>
          && taken[k] in gone && taken[k] in before && before[taken[k]].valid && before[taken[k]].dirty
          && requests[k] == WriteBack(before[taken[k]], lines))
    && (forall i, j :: 0 <= i < j < |taken| ==> taken[i] != taken[j])
    && (forall x :: x in gone && x in before && before[x].valid && before[x].dirty ==> x in taken)
  }

  lemma WrittenAll(before: Lineup, after: Lineup, taken: seq<Slot>, requests: seq<Sent>, lines: nat)
    requires lines > 0 && before.Keys <= after.Keys && Written(before, after, Gone(before, after), taken, requests, lines)
    ensures SendsGone(before, Gone(before, after), requests, lines)
  {
    assert Matches(before, Gone(before, after), requests, lines, taken);
  }

  lemma WrittenFirst(before: Lineup, chosen: iset<Slot>, lines: nat)
    requires lines > 0
    ensures Written(before, before, chosen, [], [], lines)
  {
  }

  lemma WrittenNext(before: Lineup, now: Lineup, chosen: iset<Slot>, taken: seq<Slot>, requests: seq<Sent>, lines: nat, x: Slot, l: Line)
    requires lines > 0 && Written(before, now, chosen, taken, requests, lines)
    requires x in chosen && x in before && x in now && !l.dirty
    ensures now[x].valid && now[x].dirty ==>
      Written(before, now[x := l], chosen, taken + [x], requests + [WriteBack(now[x], lines)], lines)
    ensures !(now[x].valid && now[x].dirty) ==> Written(before, now[x := l], chosen, taken, requests, lines)
  {
  }

  class Cache {
    const setSize: nat
    const waySize: nat
    const lineSize: nat
    const lineCountInSuperPage: nat
    const parallelIO: nat
    const policy: Policy
    const evictMode: Mode
    const useWriteCaching: bool
    const cacheData: array2<Line>
    const evictData: array2<Slot>

    ghost var flash: map<(nat, nat), nat>
    ghost var newest: map<nat, nat>
    ghost var sent: seq<Sent>

    // ---------------------------------------------------------------- what every write keeps

    ghost predicate Shape() {
      && setSize > 0 && waySize > 0 && lineCountInSuperPage > 0 && parallelIO > 0
      && cacheData.Length0 == setSize && cacheData.Length1 == waySize
      && evictData.Length0 == lineCountInSuperPage && evictData.Length1 == parallelIO
    }

    ghost predicate InFlash(lca: nat)
      reads this
      requires Shape()
    {
      var at := (lca / lineCountInSuperPage, lca % lineCountInSuperPage);
      lca in newest && at in flash && flash[at] == newest[lca]
    }

    ghost predicate Holds(l: Line, lca: nat) {
      l.valid && l.tag == lca
    }

    ghost predicate InDirtyLine(lca: nat)
      reads this, cacheData
      requires Shape()
    {
      exists w :: 0 <= w < waySize && Holds(cacheData[lca % setSize, w], lca) && cacheData[lca % setSize, w].dirty
    }

    /** A valid line lies in its set, and holds the newest version of its tag; a clean one agrees with the FTL. A line
        of the tag `but` may be stale. */
    ghost predicate LineOk(s: nat, l: Line, but: int)
      reads this
      requires Shape()
    {
      && l.insertedAt < NEVER
      && (l.valid ==> l.tag % setSize == s)
      && (l.valid && l.tag != but ==> l.tag in newest && l.version == newest[l.tag] && (!l.dirty ==> InFlash(l.tag)))
    }

    ghost predicate Lines(but: int)
      reads this, cacheData
      requires Shape()
    {
      forall s, w :: 0 <= s < setSize && 0 <= w < waySize ==> LineOk(s, cacheData[s, w], but)
    }

    /** At most one valid line per tag. */
    ghost predicate Unique()
      reads this, cacheData
      requires Shape()
    {
      forall s, w, v :: 0 <= s < setSize && 0 <= w < v < waySize ==>
        !(cacheData[s, w].valid && cacheData[s, v].valid && cacheData[s, w].tag == cacheData[s, v].tag)
    }

    ghost predicate Conserved()
      reads this, cacheData
      requires Shape()
    {
      forall lca: nat :: lca in newest ==> InFlash(lca) || InDirtyLine(lca)
    }

    ghost predicate Safe(but: int)
      reads this, cacheData
      requires Shape()
    {
      Lines(but) && Unique() && Conserved()
    }

    /** The FTL holds what the requests to it left there, each of a unit of the super page. */
    ghost predicate Logged()
      reads this
    {
      flash == Stored(sent) && forall k :: 0 <= k < |sent| ==> sent[k].unit < lineCountInSuperPage
    }

    ghost predicate NoSlots()
      reads evictData
      requires Shape()
    {
      forall r, c :: 0 <= r < lineCountInSuperPage && 0 <= c < parallelIO ==> evictData[r, c] == Null
    }

    ghost predicate Valid()
      reads this, cacheData, evictData
    {
      Shape() && Safe(-1) && NoSlots() && (!useWriteCaching ==> NoLines())
    }

    /** A cache that writes bypass holds nothing, for as long as there are only writes. */
    ghost predicate NoLines()
      reads cacheData
      requires Shape()
    {
      forall s, w :: 0 <= s < setSize && 0 <= w < waySize ==> !cacheData[s, w].valid
    }

    /** What the host would read back: the line of the address if there is one, else the FTL. */
    ghost predicate ReadsBack(lca: nat, version: nat)
      reads this, cacheData
      requires Shape()
    {
      var s := lca % setSize;
      if exists w :: 0 <= w < waySize && Holds(cacheData[s, w], lca)
      then forall w :: 0 <= w < waySize && Holds(cacheData[s, w], lca) ==> cacheData[s, w].version == version
      else
        var at := (lca / lineCountInSuperPage, lca % lineCountInSuperPage);
        at in flash && flash[at] == version
    }

    /** Nothing the host wrote is lost: every address reads back its newest version. */
    lemma ReadsNewest(lca: nat)
      requires Shape() && Safe(-1) && lca in newest
      ensures ReadsBack(lca, newest[lca])
    {
      var s := lca % setSize;
      if w :| 0 <= w < waySize && Holds(cacheData[s, w], lca) {
        forall w | 0 <= w < waySize && Holds(cacheData[s, w], lca)
          ensures cacheData[s, w].version == newest[lca]
        {
          assert LineOk(s, cacheData[s, w], -1);
        }
      } else {
        assert !InDirtyLine(lca);
        assert InFlash(lca);
      }
    }

    constructor (setSize: nat, waySize: nat, lineSize: nat, lines: nat, parallelIO: nat, policy: Policy,
                 evictMode: Mode, useWriteCaching: bool)
      requires setSize > 0 && waySize > 0 && lines > 0 && parallelIO > 0
      ensures Valid() && Logged() && newest == map[] && sent == [] && fresh(cacheData) && fresh(evictData)
      ensures this.setSize == setSize && this.waySize == waySize && this.lineSize == lineSize
    {
      this.setSize, this.waySize, this.lineSize := setSize, waySize, lineSize;
      this.lineCountInSuperPage, this.parallelIO := lines, parallelIO;
      this.policy, this.evictMode, this.useWriteCaching := policy, evictMode, useWriteCaching;
      cacheData := new Line[setSize, waySize]((s, w) => Line(0, 0, 0, false, false, 0));
      evictData := new Slot[lines, parallelIO]((r, c) => Null);
      flash, newest, sent := map[], map[], [];
    }

    // ---------------------------------------------------------------- looking for a way

    method GetValidWay(lca: nat) returns (way: nat)
      requires Shape()
      ensures way <= waySize
      ensures way < waySize ==> Holds(cacheData[lca % setSize, way], lca)
      ensures way == waySize ==> forall w :: 0 <= w < waySize ==> !Holds(cacheData[lca % setSize, w], lca)
    {
      var setIdx := lca % setSize;
      way := 0;
      while way < waySize
        invariant way <= waySize
        invariant forall w :: 0 <= w < way ==> !Holds(cacheData[setIdx, w], lca)
      {
        if cacheData[setIdx, way].valid && cacheData[setIdx, way].tag == lca {
          return;
        }
        way := way + 1;
      }
    }

    method GetEmptyWay(setIdx: nat) returns (way: nat)
      requires Shape() && setIdx < setSize
      requires forall w :: 0 <= w < waySize ==> cacheData[setIdx, w].insertedAt < NEVER
      ensures way <= waySize
      ensures way < waySize ==> !cacheData[setIdx, way].valid
      ensures way < waySize ==> forall w :: 0 <= w < waySize && !cacheData[setIdx, w].valid ==>
        cacheData[setIdx, way].insertedAt <= cacheData[setIdx, w].insertedAt
      ensures way == waySize ==> forall w :: 0 <= w < waySize ==> cacheData[setIdx, w].valid
    {
      way := waySize;
      var min := NEVER;
      for w := 0 to waySize
        invariant way < w || way == waySize
        invariant way == waySize ==> min == NEVER && forall v :: 0 <= v < w ==> cacheData[setIdx, v].valid
        invariant way < w ==> !cacheData[setIdx, way].valid && min == cacheData[setIdx, way].insertedAt
        invariant forall v :: 0 <= v < w && !cacheData[setIdx, v].valid ==> min <= cacheData[setIdx, v].insertedAt
      {
        if !cacheData[setIdx, w].valid && min > cacheData[setIdx, w].insertedAt {
          min := cacheData[setIdx, w].insertedAt;
          way := w;
        }
      }
    }

    /** The policy's choice between two lines, either of which may be missing. */
    method Compare(a: Slot, b: Slot) returns (r: Slot)
      requires Shape() && InCache(a) && InCache(b)
      ensures r == a || r == b
      ensures r == Null <==> a == Null && b == Null
      ensures a != Null && b != Null && policy == Fifo ==>
        r == if LineAt(a).insertedAt < LineAt(b).insertedAt then a else b
      ensures a != Null && b != Null && policy == LeastRecentlyUsed ==>
        r == if LineAt(a).lastAccessed < LineAt(b).lastAccessed then a else b
    {
      if a == Null || b == Null {
        return if a == Null then b else a;
      }
      match policy
      case Random =>
        if * { r := a; } else { r := b; }
      case Fifo =>
        r := if cacheData[a.setIdx, a.way].insertedAt < cacheData[b.setIdx, b.way].insertedAt then a else b;
      case LeastRecentlyUsed =>
        r := if cacheData[a.setIdx, a.way].lastAccessed < cacheData[b.setIdx, b.way].lastAccessed then a else b;
    }

    ghost predicate InCache(x: Slot) {
      x.At? ==> x.setIdx < setSize && x.way < waySize
    }

    ghost function LineAt(x: Slot): Line
      reads cacheData
      requires Shape() && InCache(x) && x.At?
    {
      cacheData[x.setIdx, x.way]
    }

    /** Time passes; how much is not modelled. */
    method Elapse(tick: nat) returns (later: nat)
      requires tick < NEVER
      ensures tick <= later < NEVER
    {
      later :| tick <= later < NEVER;
    }

    // ---------------------------------------------------------------- eviction

    /** What the FTL holds for an address has not changed. */
    twostate predicate SameAt(lca: nat)
      reads this
      requires Shape()
    {
      var at := (lca / lineCountInSuperPage, lca % lineCountInSuperPage);
      (at in flash <==> at in old(flash)) && (at in flash ==> flash[at] == old(flash)[at])
    }

    /** Eviction writes newest versions only, and only of addresses that have a line. */
    twostate predicate FlashGrew()
      reads this, cacheData
      requires Shape()
    {
      && (forall lca: nat :: old(InFlash(lca)) ==> InFlash(lca))
      && (forall lca: nat :: !old(InSomeWay(lca)) ==> SameAt(lca))
    }

    /** Every chosen line is a line of the cache whose unit is the row it was put in. */
    ghost predicate SlotOk(r: nat, x: Slot)
      reads cacheData
      requires Shape()
    {
      x.At? ==> InCache(x) && (LineAt(x).valid ==> LineAt(x).tag % lineCountInSuperPage == r)
    }

    ghost predicate SlotsOk()
      reads cacheData, evictData
      requires Shape()
    {
      forall r, c :: 0 <= r < lineCountInSuperPage && 0 <= c < parallelIO ==> SlotOk(r, evictData[r, c])
    }

    /** A line as eviction leaves it: as it was, or clean, and no longer valid if it was flushed. */
    ghost predicate Evicted(l: Line, m: Line, flush: bool) {
      || m == l
      || (&& m.insertedAt < NEVER && !m.dirty
          && if flush then !m.valid else m.valid == l.valid && m.tag == l.tag && m.version == l.version)
    }

    /** Writes a dirty line back to the page and unit of its tag, and clears the slot. */
    method EvictSlot(row: nat, col: nat, tick: nat, flush: bool, ghost at: Slot)
      requires Shape() && Safe(-1) && SlotsOk() && tick < NEVER
      requires row < lineCountInSuperPage && col < parallelIO && evictData[row, col] == at && at.At?
      modifies `flash, `sent, cacheData, evictData
      ensures old(Logged()) ==> Logged()
      ensures Safe(-1) && SlotsOk() && FlashGrew()
      ensures InCache(at) && sent == old(sent) +
        if old(LineAt(at)).valid && old(LineAt(at)).dirty then [WriteBack(old(LineAt(at)), lineCountInSuperPage)] else []
      ensures forall r, c :: 0 <= r < lineCountInSuperPage && 0 <= c < parallelIO ==>
        evictData[r, c] == if r == row && c == col then Null else old(evictData[r, c])
      ensures Evicted(old(LineAt(at)), LineAt(at), flush)
      ensures !LineAt(at).dirty && (flush ==> !LineAt(at).valid)
      ensures forall s, w :: 0 <= s < setSize && 0 <= w < waySize && !(s == at.setIdx && w == at.way) ==>
        cacheData[s, w] == old(cacheData[s, w])
    {
      hide Safe;
      var beginAt := tick;
      var x := evictData[row, col];
      var line := cacheData[x.setIdx, x.way];
      ghost var line0 := line;
      assert SlotOk(row, x);
      if line.valid && line.dirty {
        StoredMore(sent, Sent(line.tag / lineCountInSuperPage, row, line.version));
        sent := sent + [Sent(line.tag / lineCountInSuperPage, row, line.version)];
        flash := flash[(line.tag / lineCountInSuperPage, row) := line.version];
        beginAt := Elapse(beginAt);
      }
      if flush {
        line := line.(valid := false, tag := 0);
      }
      line := line.(insertedAt := beginAt, lastAccessed := beginAt, dirty := false);
      cacheData[x.setIdx, x.way] := line;
      evictData[row, col] := Null;
      EvictionKeeps(x, line0);
    }

    twostate lemma EvictionKeeps(new x: Slot, new was: Line)
      requires Shape() && old(Safe(-1)) && newest == old(newest)
      requires InCache(x) && x.At? && was == old(LineAt(x))
      requires Evicted(was, LineAt(x), true) || Evicted(was, LineAt(x), false)
      requires forall s, w :: 0 <= s < setSize && 0 <= w < waySize && !(s == x.setIdx && w == x.way) ==>
        cacheData[s, w] == old(cacheData[s, w])
      requires flash == if was.valid && was.dirty
        then old(flash)[(was.tag / lineCountInSuperPage, was.tag % lineCountInSuperPage) := was.version] else old(flash)
      ensures Safe(-1) && FlashGrew()
    {
      assert old(LineOk(x.setIdx, LineAt(x), -1));
      if was.valid {
        assert old(Holds(cacheData[was.tag % setSize, x.way], was.tag));
        assert old(InSomeWay(was.tag));
      }
      forall lca: nat | old(InFlash(lca)) || (was.valid && lca == was.tag)
        ensures InFlash(lca)
      {
        SameUnit(lca, was.tag, lineCountInSuperPage);
      }
      forall lca: nat | !old(InSomeWay(lca))
        ensures SameAt(lca)
      {
        SameUnit(lca, was.tag, lineCountInSuperPage);
      }
      forall s, w | 0 <= s < setSize && 0 <= w < waySize
        ensures LineOk(s, cacheData[s, w], -1)
      {
        assert old(LineOk(s, cacheData[s, w], -1));
      }
      forall lca: nat | lca in newest
        ensures InFlash(lca) || InDirtyLine(lca)
      {
        if !old(InFlash(lca)) {
          assert old(InDirtyLine(lca));
          var w :| 0 <= w < waySize && old(Holds(cacheData[lca % setSize, w], lca) && cacheData[lca % setSize, w].dirty);
          assert Holds(old(cacheData[lca % setSize, w]), lca);
          if !InFlash(lca) {
            assert Holds(cacheData[lca % setSize, w], lca);
          }
        }
      }
    }

    /** The slots name the line. */
    ghost predicate InSlots(x: Slot)
      reads evictData
      requires Shape()
    {
      exists r, c :: 0 <= r < lineCountInSuperPage && 0 <= c < parallelIO && evictData[r, c] == x
    }

    ghost function AllLines(): Lineup
      reads cacheData
      requires Shape()
    {
      imap x: Slot | x.At? && InCache(x) :: LineAt(x)
    }

    ghost function ChosenSet(): iset<Slot>
      reads evictData
      requires Shape()
    {
      iset x: Slot | x.At? && InSlots(x)
    }

    twostate lemma OneLinePut(new s: nat, new w: nat)
      requires Shape() && s < setSize && w < waySize
      requires forall u, v :: 0 <= u < setSize && 0 <= v < waySize && !(u == s && v == w) ==> cacheData[u, v] == old(cacheData[u, v])
      ensures AllLines() == old(AllLines())[At(s, w) := cacheData[s, w]]
    {
    }

    /** The requests since `start` write back the lines taken. */
    ghost predicate Sends(start: seq<Sent>, before: Lineup, chosen: iset<Slot>, taken: seq<Slot>)
      reads this, cacheData
      requires Shape()
    {
      start <= sent && Written(before, AllLines(), chosen, taken, sent[|start|..], lineCountInSuperPage)
    }

    lemma SendsNothing()
      requires Shape()
      ensures Sends(sent, AllLines(), ChosenSet(), [])
    {
      WrittenFirst(AllLines(), ChosenSet(), lineCountInSuperPage);
    }

    twostate lemma SendsMore(new start: seq<Sent>, new before: Lineup, new chosen: iset<Slot>, new taken: seq<Slot>, new x: Slot)
      requires Shape() && old(Sends(start, before, chosen, taken)) && x.At? && InCache(x) && x in chosen && x in before
      requires forall u, v :: 0 <= u < setSize && 0 <= v < waySize && !(u == x.setIdx && v == x.way) ==>
        cacheData[u, v] == old(cacheData[u, v])
      requires !LineAt(x).dirty && sent == old(sent) +
        if old(LineAt(x)).valid && old(LineAt(x)).dirty then [WriteBack(old(LineAt(x)), lineCountInSuperPage)] else []
      ensures Sends(start, before, chosen, if old(LineAt(x)).valid && old(LineAt(x)).dirty then taken + [x] else taken)
    {
      hide Written;
      OneLinePut(x.setIdx, x.way);
      assert sent[|start|..] == old(sent)[|start|..] +
        if old(LineAt(x)).valid && old(LineAt(x)).dirty then [WriteBack(old(LineAt(x)), lineCountInSuperPage)] else [];
      WrittenNext(before, old(AllLines()), chosen, taken, old(sent)[|start|..], lineCountInSuperPage, x, LineAt(x));
      assert old(sent)[|start|..] + [] == old(sent)[|start|..];
    }

    /** What eviction leaves of the cache: every line as it was or cleaned, and those in no slot as they were. */
    ghost predicate Evicts(before: Lineup, chosen: iset<Slot>, flush: bool)
      reads cacheData
      requires Shape()
    {
      forall x :: x in before && x in AllLines() ==>
        Evicted(before[x], AllLines()[x], flush) && (AllLines()[x] != before[x] ==> x in chosen)
    }

    /** Every chosen line is still in its slot or no longer valid. */
    ghost predicate Cleared(chosen: iset<Slot>)
      reads cacheData, evictData
      requires Shape()
    {
      forall x :: x in chosen && x.At? ==> InCache(x) && (InSlots(x) || !LineAt(x).valid)
    }

    lemma EvictsNothing(flush: bool)
      requires Shape() && SlotsOk()
      ensures Evicts(AllLines(), ChosenSet(), flush) && Cleared(ChosenSet())
    {
      forall x | x in ChosenSet()
        ensures InCache(x)
      {
        var r, c :| 0 <= r < lineCountInSuperPage && 0 <= c < parallelIO && evictData[r, c] == x;
        assert SlotOk(r, evictData[r, c]);
      }
    }

    /** One slot further. */
    twostate predicate Step(row: nat, col: nat, x: Slot, flush: bool)
      reads cacheData, evictData
      requires Shape() && x.At? && InCache(x)
    {
      && (forall r, c :: 0 <= r < lineCountInSuperPage && 0 <= c < parallelIO ==>
            evictData[r, c] == if r == row && c == col then Null else old(evictData[r, c]))
      && Evicted(old(LineAt(x)), LineAt(x), flush) && !LineAt(x).dirty && (flush ==> !LineAt(x).valid)
      && (forall u, v :: 0 <= u < setSize && 0 <= v < waySize && !(u == x.setIdx && v == x.way) ==>
            cacheData[u, v] == old(cacheData[u, v]))
    }

    twostate lemma EvictsMore(new before: Lineup, new chosen: iset<Slot>, new flush: bool, new row: nat, new col: nat, new x: Slot)
      requires Shape() && x.At? && InCache(x) && x in chosen && Step(row, col, x, flush)
      requires old(Evicts(before, chosen, flush))
      ensures Evicts(before, chosen, flush)
    {
      forall y | y in before && y in AllLines()
        ensures Evicted(before[y], AllLines()[y], flush) && (AllLines()[y] != before[y] ==> y in chosen)
      {
        assert y in old(AllLines());
      }
    }

    twostate lemma ClearsMore(new chosen: iset<Slot>, new row: nat, new col: nat, new x: Slot)
      requires Shape() && x.At? && InCache(x) && Step(row, col, x, true) && old(Cleared(chosen)) && old(InSlots(x))
      requires row < lineCountInSuperPage && col < parallelIO && old(evictData[row, col]) == x
      ensures Cleared(chosen)
    {
      forall y | y in chosen && y.At?
        ensures InCache(y) && (InSlots(y) || !LineAt(y).valid)
      {
        if old(InSlots(y)) && y != x {
          var r, c :| 0 <= r < lineCountInSuperPage && 0 <= c < parallelIO && old(evictData[r, c]) == y;
          assert evictData[r, c] == y;
        }
      }
    }

    method EvictOne(row: nat, col: nat, tick: nat, flush: bool, ghost before: Lineup, ghost chosen: iset<Slot>,
                    ghost start: seq<Sent>, ghost taken: seq<Slot>) returns (ghost more: seq<Slot>)
      requires Shape() && Safe(-1) && SlotsOk() && tick < NEVER
      requires row < lineCountInSuperPage && col < parallelIO && evictData[row, col].At?
      requires evictData[row, col] in chosen && evictData[row, col] in before
      requires Evicts(before, chosen, flush) && Sends(start, before, chosen, taken) && (flush ==> Cleared(chosen))
      modifies `flash, `sent, cacheData, evictData
      ensures old(Logged()) ==> Logged()
      ensures Safe(-1) && SlotsOk() && FlashGrew()
      ensures Evicts(before, chosen, flush) && Sends(start, before, chosen, more) && (flush ==> Cleared(chosen))
      ensures forall r, c :: 0 <= r < lineCountInSuperPage && 0 <= c < parallelIO ==>
        evictData[r, c] == if r == row && c == col then Null else old(evictData[r, c])
    {
      hide Safe, SlotsOk, InFlash, InSomeWay, Sends, Evicts, Cleared, FlashGrew, Logged;
      ghost var x := evictData[row, col];
      SlotIsOk(row, col);
      EvictSlot(row, col, tick, flush, x);
      SendsMore(start, before, chosen, taken, x);
      more := if old(LineAt(x)).valid && old(LineAt(x)).dirty then taken + [x] else taken;
      EvictsMore(before, chosen, flush, row, col, x);
      if flush { ClearsMore(chosen, row, col, x); }
    }

    lemma SlotIsOk(r: nat, c: nat)
      requires Shape() && SlotsOk() && r < lineCountInSuperPage && c < parallelIO
      ensures SlotOk(r, evictData[r, c]) && InSlots(evictData[r, c])
      ensures evictData[r, c].At? ==> evictData[r, c] in ChosenSet() && evictData[r, c] in AllLines()
    {
      assert SlotOk(r, evictData[r, c]);
    }

    lemma AllChosen()
      requires Shape() && SlotsOk()
      ensures forall r, c :: 0 <= r < lineCountInSuperPage && 0 <= c < parallelIO && evictData[r, c].At? ==>
        evictData[r, c] in ChosenSet() && evictData[r, c] in AllLines()
    {
      forall r, c | 0 <= r < lineCountInSuperPage && 0 <= c < parallelIO && evictData[r, c].At?
        ensures evictData[r, c] in ChosenSet() && evictData[r, c] in AllLines()
      {
        SlotIsOk(r, c);
      }
    }

    lemma NoneLeft(chosen: iset<Slot>)
      requires Shape() && Cleared(chosen) && NoSlots()
      ensures forall x :: x in chosen && x.At? ==> InCache(x) && !LineAt(x).valid
    {
    }

    /** An address with a line had one before. */
    twostate lemma NoMoreLines(new chosen: iset<Slot>, new flush: bool)
      requires Shape() && Evicts(old(AllLines()), chosen, flush)
      ensures forall lca: nat :: !old(InSomeWay(lca)) ==> !InSomeWay(lca)
    {
      forall lca: nat | InSomeWay(lca)
        ensures old(InSomeWay(lca))
      {
        var w :| 0 <= w < waySize && Holds(cacheData[lca % setSize, w], lca);
        assert At(lca % setSize, w) in AllLines();
        assert old(Holds(cacheData[lca % setSize, w], lca));
      }
    }

    /** Writes through the slots, row by row. */
    method EvictCache(tick: nat, flush: bool) returns (ghost taken: seq<Slot>)
      requires Shape() && Safe(-1) && SlotsOk() && tick < NEVER
      modifies `flash, `sent, cacheData, evictData
      ensures old(Logged()) ==> Logged()
      ensures Safe(-1) && NoSlots() && FlashGrew()
      ensures Evicts(old(AllLines()), old(ChosenSet()), flush) && Sends(old(sent), old(AllLines()), old(ChosenSet()), taken)
      ensures flush ==> forall x :: x in old(ChosenSet()) && x.At? ==> InCache(x) && !LineAt(x).valid
    {
      hide Safe, SlotsOk, InFlash, InSomeWay, Sends, Evicts, Cleared, ChosenSet;
      ghost var before, chosen := AllLines(), ChosenSet();
      taken := [];
      SendsNothing();
      EvictsNothing(flush);
      AllChosen();
      for row := 0 to lineCountInSuperPage
        invariant Safe(-1) && SlotsOk() && FlashGrew() && (old(Logged()) ==> Logged())
        invariant Evicts(before, chosen, flush) && Sends(old(sent), before, chosen, taken) && (flush ==> Cleared(chosen))
        invariant forall r, c :: 0 <= r < lineCountInSuperPage && 0 <= c < parallelIO ==>
          evictData[r, c] == if r < row then Null else old(evictData[r, c])
      {
        for col := 0 to parallelIO
          invariant Safe(-1) && SlotsOk() && FlashGrew() && (old(Logged()) ==> Logged())
          invariant Evicts(before, chosen, flush) && Sends(old(sent), before, chosen, taken) && (flush ==> Cleared(chosen))
          invariant forall r, c :: 0 <= r < lineCountInSuperPage && 0 <= c < parallelIO ==>
            evictData[r, c] == if r < row || (r == row && c < col) then Null else old(evictData[r, c])
        {
          if evictData[row, col] != Null {
            NoMoreLines(chosen, flush);
            label before:
            taken := EvictOne(row, col, tick, flush, before, chosen, old(sent), taken);
            assert FlashGrew@before();
            forall lca: nat | !old(InSomeWay(lca))
              ensures SameAt(lca)
            {
              assert !old@before(InSomeWay(lca));
            }
          }
        }
      }
      if flush { NoneLeft(chosen); }
    }

    // ---------------------------------------------------------------- choosing what to evict

    /** The chosen lines are valid lines of the cache, each in the row of its unit. */
    ghost predicate ChosenAt(r: nat, x: Slot)
      reads cacheData
      requires Shape()
    {
      x.At? ==> InCache(x) && LineAt(x).valid && LineAt(x).tag % lineCountInSuperPage == r
    }

    ghost predicate Chosen()
      reads cacheData, evictData
      requires Shape()
    {
      forall r, c :: 0 <= r < lineCountInSuperPage && 0 <= c < parallelIO ==> ChosenAt(r, evictData[r, c])
    }

    /** What the policy compares; a random choice compares nothing. */
    function Age(l: Line): nat {
      match policy
      case Random => 0
      case Fifo => l.insertedAt
      case LeastRecentlyUsed => l.lastAccessed
    }

    /** The slot holds a line at least as old as l. */
    ghost predicate AsOld(x: Slot, l: Line)
      reads cacheData
      requires Shape()
    {
      x.At? && InCache(x) && Age(LineAt(x)) <= Age(l)
    }

    /** If the line is valid, the slot of its position holds a line at least as old. */
    ghost predicate Passed(s: nat, w: nat)
      reads cacheData, evictData
      requires Shape() && s < setSize && w < waySize
    {
      var l := cacheData[s, w];
      SlotOfTag(l.tag, lineCountInSuperPage, parallelIO);
      l.valid ==>
        AsOld(evictData[Row(l.tag, lineCountInSuperPage, parallelIO), Col(l.tag, lineCountInSuperPage, parallelIO)], l)
    }

    /** A line's row and column. */
    function RowOf(tag: nat): nat
      requires Shape()
    {
      Row(tag, lineCountInSuperPage, parallelIO)
    }

    function ColOf(tag: nat): nat
      requires Shape()
    {
      Col(tag, lineCountInSuperPage, parallelIO)
    }

    /** The slot holds a line of its own column. */
    ghost predicate PlacedAt(c: nat, x: Slot)
      reads cacheData
      requires Shape()
    {
      x.At? ==> InCache(x) && ColOf(LineAt(x).tag) == c
    }

    ghost predicate Placed()
      reads cacheData, evictData
      requires Shape()
    {
      forall r, c :: 0 <= r < lineCountInSuperPage && 0 <= c < parallelIO ==> PlacedAt(c, evictData[r, c])
    }

    /** Offers one line to the slot of its position. */
    method Offer(setIdx: nat, wayIdx: nat)
      requires Shape() && Chosen() && Placed() && setIdx < setSize && wayIdx < waySize
      modifies evictData
      ensures Chosen() && Placed() && Passed(setIdx, wayIdx)
      ensures forall s, w :: 0 <= s < setSize && 0 <= w < waySize && old(Passed(s, w)) ==> Passed(s, w)
    {
      var line := cacheData[setIdx, wayIdx];
      if line.valid {
        SlotOfTag(line.tag, lineCountInSuperPage, parallelIO);
        var row, col := Row(line.tag, lineCountInSuperPage, parallelIO), Col(line.tag, lineCountInSuperPage, parallelIO);
        ghost var was := evictData[row, col];
        assert ChosenAt(row, was) && PlacedAt(col, was);
        var chosen := Compare(evictData[row, col], At(setIdx, wayIdx));
        assert ChosenAt(row, chosen) && PlacedAt(col, chosen) && AsOld(chosen, line) && (was.At? ==> AsOld(chosen, LineAt(was)));
        evictData[row, col] := chosen;
      }
    }

    /** Every slot gets the line the policy likes least among the valid lines of its position. */
    method FillSlots()
      requires Shape() && NoSlots()
      modifies evictData
      ensures Chosen() && Placed()
      ensures forall s, w :: 0 <= s < setSize && 0 <= w < waySize ==> Passed(s, w)
    {
      assert Chosen() && Placed();
      hide Chosen, Placed, Passed, NoSlots;
      for setIdx := 0 to setSize
        invariant Chosen() && Placed()
        invariant forall s, w :: 0 <= s < setIdx && 0 <= w < waySize ==> Passed(s, w)
      {
        for wayIdx := 0 to waySize
          invariant Chosen() && Placed()
          invariant forall s, w :: 0 <= s < setIdx && 0 <= w < waySize ==> Passed(s, w)
          invariant forall w :: 0 <= w < wayIdx ==> Passed(setIdx, w)
        {
          Offer(setIdx, wayIdx);
        }
      }
    }

    ghost predicate InBounds(r: int, c: int) {
      0 <= r < lineCountInSuperPage && 0 <= c < parallelIO
    }

    lemma FirstInCache(row: nat)
      requires Shape() && Chosen() && row < lineCountInSuperPage
      ensures InCache(evictData[row, 0])
    {
      assert ChosenAt(row, evictData[row, 0]);
    }

    /** One step of the merge: the older of two neighbours moves to the right. */
    method MergeInto(row: nat, col: nat)
      requires Shape() && Chosen() && row < lineCountInSuperPage && col + 1 < parallelIO
      modifies evictData
      ensures Chosen() && evictData[row, col] == Null
      ensures forall r, c :: InBounds(r, c) && !(r == row && (c == col || c == col + 1)) ==> evictData[r, c] == old(evictData[r, c])
      ensures old(evictData[row, col]).At? ==>
        InCache(old(evictData[row, col])) && AsOld(evictData[row, col + 1], LineAt(old(evictData[row, col])))
      ensures old(evictData[row, col + 1]).At? ==>
        InCache(old(evictData[row, col + 1])) && AsOld(evictData[row, col + 1], LineAt(old(evictData[row, col + 1])))
    {
      assert ChosenAt(row, evictData[row, col]) && ChosenAt(row, evictData[row, col + 1]);
      var chosen := Compare(evictData[row, col], evictData[row, col + 1]);
      assert ChosenAt(row, chosen);
      evictData[row, col + 1] := chosen;
      evictData[row, col] := Null;
    }

    /** One row of the merge: the oldest choice moves to the last column. */
    method MergeRow(row: nat)
      requires Shape() && Chosen() && row < lineCountInSuperPage
      modifies evictData
      ensures Chosen()
      ensures forall r, c :: InBounds(r, c) && r != row ==> evictData[r, c] == old(evictData[r, c])
      ensures forall c :: 0 <= c < parallelIO - 1 ==> evictData[row, c] == Null
      ensures forall c :: 0 <= c < parallelIO && old(evictData[row, c]).At? ==>
        InCache(old(evictData[row, c])) && AsOld(evictData[row, parallelIO - 1], LineAt(old(evictData[row, c])))
    {
      hide Chosen;
      FirstInCache(row);
      for col := 0 to parallelIO - 1
        invariant Chosen()
        invariant forall r, c :: InBounds(r, c) && r != row ==> evictData[r, c] == old(evictData[r, c])
        invariant forall c :: 0 <= c < col ==> evictData[row, c] == Null
        invariant forall c :: col < c < parallelIO ==> evictData[row, c] == old(evictData[row, c])
        invariant forall c :: 0 <= c <= col && old(evictData[row, c]).At? ==>
          InCache(old(evictData[row, c])) && AsOld(evictData[row, col], LineAt(old(evictData[row, c])))
      {
        MergeInto(row, col);
      }
    }

    /** Super-page granularity: one line per row survives, the one the policy likes least, in the last column. */
    method MergeSlots()
      requires Shape() && Chosen()
      modifies evictData
      ensures Chosen()
      ensures forall r, c :: InBounds(r, c) && c < parallelIO - 1 ==> evictData[r, c] == Null
      ensures forall r, c :: InBounds(r, c) && old(evictData[r, c]).At? ==>
        InCache(old(evictData[r, c])) && AsOld(evictData[r, parallelIO - 1], LineAt(old(evictData[r, c])))
    {
      hide Chosen;
      for row := 0 to lineCountInSuperPage
        invariant Chosen()
        invariant forall r, c :: InBounds(r, c) && r < row && c < parallelIO - 1 ==> evictData[r, c] == Null
        invariant forall r, c :: InBounds(r, c) && row <= r ==> evictData[r, c] == old(evictData[r, c])
        invariant forall r, c :: InBounds(r, c) && r < row && old(evictData[r, c]).At? ==>
          InCache(old(evictData[r, c])) && AsOld(evictData[r, parallelIO - 1], LineAt(old(evictData[r, c])))
      {
        MergeRow(row);
      }
    }

    /** The lines among which one is chosen: those of a row, or of a position. */
    ghost predicate SameGroup(a: Line, b: Line)
      requires Shape()
    {
      RowOf(a.tag) == RowOf(b.tag) && (evictMode == All ==> ColOf(a.tag) == ColOf(b.tag))
    }

    /** The column in which the choice of a line's group ends up. */
    function GroupCol(tag: nat): nat
      requires Shape()
    {
      if evictMode == All then ColOf(tag) else parallelIO - 1
    }

    /** At least as old as every line of its group. */
    ghost predicate Oldest(l: Line)
      reads cacheData
      requires Shape()
    {
      forall s, w :: 0 <= s < setSize && 0 <= w < waySize && cacheData[s, w].valid && SameGroup(l, cacheData[s, w]) ==>
        Age(l) <= Age(cacheData[s, w])
    }

    /** The slot is empty or holds the oldest line of its group. */
    ghost predicate ChoiceAt(c: nat, x: Slot)
      reads cacheData
      requires Shape()
    {
      x.At? ==> InCache(x) && GroupCol(LineAt(x).tag) == c && Oldest(LineAt(x))
    }

    /** The slot holds the line chosen in addition. */
    ghost predicate ExtraAt(r: nat, c: nat, extra: Slot)
      reads cacheData, evictData
      requires Shape() && r < lineCountInSuperPage && c < parallelIO
    {
      extra.At? && InCache(extra) && evictData[r, c] == extra && RowOf(LineAt(extra).tag) == r && ColOf(LineAt(extra).tag) == c
    }

    ghost predicate Filled(l: Line)
      reads evictData
      requires Shape()
    {
      SlotOfTag(l.tag, lineCountInSuperPage, parallelIO);
      l.valid ==> evictData[RowOf(l.tag), GroupCol(l.tag)].At?
    }

    /** Every group has its choice, but for the line chosen in addition. */
    ghost predicate Planned(extra: Slot)
      reads cacheData, evictData
      requires Shape()
    {
      && (forall r, c :: 0 <= r < lineCountInSuperPage && 0 <= c < parallelIO ==>
            ExtraAt(r, c, extra) || ChoiceAt(c, evictData[r, c]))
      && (forall s, w :: 0 <= s < setSize && 0 <= w < waySize ==> Filled(cacheData[s, w]))
    }

    /** The choice by position, or by row. */
    method ChooseByGroup()
      requires Shape() && NoSlots()
      modifies evictData
      ensures Chosen() && Planned(Null)
    {
      hide Chosen, Placed, NoSlots;
      FillSlots();
      label filled:
      if evictMode == SuperPage {
        MergeSlots();
        Merged@filled();
      } else {
        ByPosition();
      }
    }

    lemma ByPosition()
      requires Shape() && evictMode == All && Chosen() && Placed()
      requires forall s, w :: 0 <= s < setSize && 0 <= w < waySize ==> Passed(s, w)
      ensures Planned(Null)
    {
      forall s, w | 0 <= s < setSize && 0 <= w < waySize
        ensures Filled(cacheData[s, w])
      {
        assert Passed(s, w);
      }
      forall r, c | 0 <= r < lineCountInSuperPage && 0 <= c < parallelIO
        ensures ChoiceAt(c, evictData[r, c])
      {
        var x := evictData[r, c];
        assert ChosenAt(r, x) && PlacedAt(c, x);
        if x.At? {
          SlotOfTag(LineAt(x).tag, lineCountInSuperPage, parallelIO);
          forall s, w | 0 <= s < setSize && 0 <= w < waySize && cacheData[s, w].valid && SameGroup(LineAt(x), cacheData[s, w])
            ensures Age(LineAt(x)) <= Age(cacheData[s, w])
          {
            assert Passed(s, w);
          }
        }
      }
    }

    /** After the merge, the last slot of a line's row holds a line at least as old. */
    twostate lemma MergedLine(new s: nat, new w: nat)
      requires Shape() && s < setSize && w < waySize && cacheData[s, w] == old(cacheData[s, w]) && old(Passed(s, w))
      requires forall r, c :: InBounds(r, c) && old(evictData[r, c]).At? ==>
        InCache(old(evictData[r, c])) && AsOld(evictData[r, parallelIO - 1], LineAt(old(evictData[r, c])))
      requires forall x: Slot :: x.At? && InCache(x) ==> LineAt(x) == old(LineAt(x))
      ensures cacheData[s, w].valid ==> AsOld(evictData[cacheData[s, w].tag % lineCountInSuperPage, parallelIO - 1], cacheData[s, w])
    {
      var l := cacheData[s, w];
      SlotOfTag(l.tag, lineCountInSuperPage, parallelIO);
      hide Row, Col;
      if l.valid {
        assert InBounds(RowOf(l.tag), ColOf(l.tag));
        var was := old(evictData[RowOf(l.tag), ColOf(l.tag)]);
        assert old(AsOld(was, l));
      }
    }

    ghost predicate InLast(s: nat, w: nat)
      reads cacheData, evictData
      requires Shape() && s < setSize && w < waySize
    {
      cacheData[s, w].valid ==> AsOld(evictData[cacheData[s, w].tag % lineCountInSuperPage, parallelIO - 1], cacheData[s, w])
    }

    lemma ByRow()
      requires Shape() && evictMode == SuperPage && Chosen()
      requires forall s, w :: 0 <= s < setSize && 0 <= w < waySize ==> InLast(s, w)
      requires forall r, c :: InBounds(r, c) && c < parallelIO - 1 ==> evictData[r, c] == Null
      ensures Planned(Null)
    {
      hide Row, Col, Chosen;
      forall s, w | 0 <= s < setSize && 0 <= w < waySize
        ensures Filled(cacheData[s, w])
      {
        assert InLast(s, w);
        SlotOfTag(cacheData[s, w].tag, lineCountInSuperPage, parallelIO);
      }
      forall r, c | 0 <= r < lineCountInSuperPage && 0 <= c < parallelIO
        ensures ChoiceAt(c, evictData[r, c])
      {
        assert InBounds(r, c);
        ChosenIn(r, c);
        RowChoice(r, c);
      }
    }

    lemma ChosenIn(r: nat, c: nat)
      requires Shape() && Chosen() && r < lineCountInSuperPage && c < parallelIO
      ensures ChosenAt(r, evictData[r, c])
    {
    }

    lemma RowChoice(r: nat, c: nat)
      requires Shape() && evictMode == SuperPage && r < lineCountInSuperPage && c < parallelIO
      requires ChosenAt(r, evictData[r, c]) && (c < parallelIO - 1 ==> evictData[r, c] == Null)
      requires forall s, w :: 0 <= s < setSize && 0 <= w < waySize ==> InLast(s, w)
      ensures ChoiceAt(c, evictData[r, c])
    {
      hide Row, Col;
      var x := evictData[r, c];
      if x.At? {
        SlotOfTag(LineAt(x).tag, lineCountInSuperPage, parallelIO);
        forall s, w | 0 <= s < setSize && 0 <= w < waySize && cacheData[s, w].valid && SameGroup(LineAt(x), cacheData[s, w])
          ensures Age(LineAt(x)) <= Age(cacheData[s, w])
        {
          assert InLast(s, w);
          SlotOfTag(cacheData[s, w].tag, lineCountInSuperPage, parallelIO);
        }
      }
    }

    twostate lemma Merged()
      requires Shape() && evictMode == SuperPage && Chosen()
      requires forall s, w :: 0 <= s < setSize && 0 <= w < waySize ==> cacheData[s, w] == old(cacheData[s, w]) && old(Passed(s, w))
      requires forall r, c :: InBounds(r, c) && c < parallelIO - 1 ==> evictData[r, c] == Null
      requires forall r, c :: InBounds(r, c) && old(evictData[r, c]).At? ==>
        InCache(old(evictData[r, c])) && AsOld(evictData[r, parallelIO - 1], LineAt(old(evictData[r, c])))
      ensures Planned(Null)
    {
      hide Row, Col, Chosen, Passed, Planned;
      forall s, w | 0 <= s < setSize && 0 <= w < waySize
        ensures InLast(s, w)
      {
        MergedLine(s, w);
      }
      ByRow();
    }

    ghost predicate FromSet(x: Slot, index: nat)
      reads cacheData
      requires Shape()
    {
      x.At? && InCache(x) && LineAt(x).tag % setSize == index
    }

    ghost predicate HaveSet(index: nat)
      reads cacheData, evictData
      requires Shape()
    {
      exists r, c :: 0 <= r < lineCountInSuperPage && 0 <= c < parallelIO && FromSet(evictData[r, c], index)
    }

    method FindSet(index: nat) returns (have: bool)
      requires Shape() && Chosen()
      ensures have <==> HaveSet(index)
    {
      have := false;
      for row := 0 to lineCountInSuperPage
        invariant have ==> HaveSet(index)
        invariant !have ==> forall r, c :: 0 <= r < row && 0 <= c < parallelIO ==> !FromSet(evictData[r, c], index)
      {
        for col := 0 to parallelIO
          invariant have ==> HaveSet(index)
          invariant !have ==> forall r, c :: 0 <= r < row && 0 <= c < parallelIO ==> !FromSet(evictData[r, c], index)
          invariant !have ==> forall c :: 0 <= c < col ==> !FromSet(evictData[row, c], index)
        {
          var x := evictData[row, col];
          assert ChosenAt(row, x);
          if x != Null && cacheData[x.setIdx, x.way].tag % setSize == index {
            assert FromSet(x, index);
            have := true;
          }
        }
      }
    }

    method ChooseInSet(index: nat) returns (x: Slot)
      requires Shape() && index < setSize
      ensures x.At? ==> x.setIdx == index && x.way < waySize && LineAt(x).valid
      ensures x == Null ==> forall w :: 0 <= w < waySize ==> !cacheData[index, w].valid
      ensures forall w :: 0 <= w < waySize && cacheData[index, w].valid ==> AsOld(x, cacheData[index, w])
    {
      x := Null;
      for wayIdx := 0 to waySize
        invariant x.At? ==> x.setIdx == index && x.way < waySize && LineAt(x).valid
        invariant forall w :: 0 <= w < wayIdx && cacheData[index, w].valid ==> AsOld(x, cacheData[index, w])
        invariant x == Null ==> forall w :: 0 <= w < wayIdx ==> !cacheData[index, w].valid
      {
        if cacheData[index, wayIdx].valid {
          x := Compare(x, At(index, wayIdx));
        }
      }
    }

    // ---------------------------------------------------------------- the law of eviction

    /** A line chosen in addition takes the slot of its group's choice, which then stays. */
    ghost predicate Displaces(l: Line)
      requires Shape()
    {
      evictMode == All || ColOf(l.tag) == parallelIO - 1
    }

    /** Valid lines go, and none but the extra one is younger than a line of its group. */
    ghost predicate OldestGo(before: Lineup, gone: iset<Slot>, extra: Slot)
      requires Shape()
    {
      && (forall x :: x in gone ==> x in before && before[x].valid)
      && (forall x, y :: x in gone && x != extra && y in before && before[y].valid && SameGroup(before[x], before[y]) ==>
            Age(before[x]) <= Age(before[y]))
    }

    /** Of each group one line goes, and the extra one either in its stead or besides it. */
    ghost predicate OneGoes(before: Lineup, gone: iset<Slot>, extra: Slot)
      requires Shape() && OldestGo(before, gone, extra)
    {
      && (forall x, y :: x in gone && y in gone && x != extra && (y == extra ==> Displaces(before[y])) && SameGroup(before[x], before[y]) ==>
            x == y)
      && (forall y :: y in before && before[y].valid ==>
            exists x :: x in gone && SameGroup(before[x], before[y]) && (x == extra ==> Displaces(before[x])))
    }

    /** There is an extra line exactly when the groups' choices miss the set; it is an oldest line of the set. */
    ghost predicate ExtraIfMissed(before: Lineup, gone: iset<Slot>, index: nat, extra: Slot)
      requires Shape()
    {
      if extra == Null then exists x :: x in gone && x.At? && x.setIdx == index
      else
        && extra in gone && extra in before && extra.setIdx == index
        && (forall y :: y in before && y.At? && y.setIdx == index && before[y].valid ==> Age(before[extra]) <= Age(before[y]))
        && (forall x :: x in gone && x.At? && x.setIdx == index ==> x == extra)
    }

    /** What an eviction for a set takes: the oldest line of every row or position, and if that misses the set, an oldest
        line of the set. */
    ghost predicate ByPolicy(before: Lineup, gone: iset<Slot>, index: nat, extra: Slot)
      requires Shape()
    {
      OldestGo(before, gone, extra) && OneGoes(before, gone, extra) && ExtraIfMissed(before, gone, index, extra)
    }

    /** What a write takes: nothing but an older version of the address, or, with an eviction, what the policy says, and
        the requests that go with it. */
    ghost predicate Takes(before: Lineup, after: Lineup, lca: nat, evicting: bool, requests: seq<Sent>)
      requires Shape()
    {
      if evicting then
        && (exists extra :: ByPolicy(before, Gone(before, after), lca % setSize, extra))
        && SendsGone(before, Gone(before, after), requests, lineCountInSuperPage)
      else requests == [] && forall x :: x in Gone(before, after) ==> before[x].tag == lca
    }

    lemma TakesByPolicy(before: Lineup, after: Lineup, lca: nat, extra: Slot, requests: seq<Sent>)
      requires Shape() && ByPolicy(before, Gone(before, after), lca % setSize, extra)
      requires SendsGone(before, Gone(before, after), requests, lineCountInSuperPage)
      ensures Takes(before, after, lca, true, requests)
    {
    }

    /** The line chosen in addition belongs to the set, and no other slot does. */
    ghost predicate ExtraOk(index: nat, extra: Slot)
      reads cacheData, evictData
      requires Shape()
    {
      if extra == Null then HaveSet(index)
      else
        && InCache(extra) && LineAt(extra).valid && extra.setIdx == index && index < setSize
        && (forall w :: 0 <= w < waySize && cacheData[index, w].valid ==> Age(LineAt(extra)) <= Age(cacheData[index, w]))
        && evictData[PositionOf(extra).0, PositionOf(extra).1] == extra
        && (forall r, c :: 0 <= r < lineCountInSuperPage && 0 <= c < parallelIO && (r, c) != PositionOf(extra) ==>
              !FromSet(evictData[r, c], index))
    }

    ghost function PositionOf(x: Slot): (p: (nat, nat))
      reads cacheData
      requires Shape() && x.At? && InCache(x)
      ensures p.0 < lineCountInSuperPage && p.1 < parallelIO
    {
      SlotOfTag(LineAt(x).tag, lineCountInSuperPage, parallelIO);
      (RowOf(LineAt(x).tag), ColOf(LineAt(x).tag))
    }

    /** What a slot holds, and why. */
    lemma SlotHolds(r: nat, c: nat, extra: Slot)
      requires Shape() && Chosen() && Planned(extra) && r < lineCountInSuperPage && c < parallelIO && evictData[r, c].At?
      ensures var x := evictData[r, c];
        && InCache(x) && LineAt(x).valid && RowOf(LineAt(x).tag) == r
        && (ColOf(LineAt(x).tag) == c || GroupCol(LineAt(x).tag) == c)
        && (x != extra ==> GroupCol(LineAt(x).tag) == c && Oldest(LineAt(x)))
    {
      hide Row, Col, Oldest;
      var x := evictData[r, c];
      assert ChosenAt(r, x);
      assert ExtraAt(r, c, extra) || ChoiceAt(c, x);
      SlotOfTag(LineAt(x).tag, lineCountInSuperPage, parallelIO);
    }

    /** Where a chosen line is. */
    lemma Whereabouts(x: Slot, extra: Slot) returns (r: nat, c: nat)
      requires Shape() && Chosen() && Planned(extra) && x in ChosenSet()
      ensures r < lineCountInSuperPage && c < parallelIO && evictData[r, c] == x
      ensures InCache(x) && x in AllLines() && AllLines()[x] == LineAt(x) && LineAt(x).valid && RowOf(LineAt(x).tag) == r
      ensures x != extra ==> GroupCol(LineAt(x).tag) == c && Oldest(LineAt(x))
    {
      hide Row, Col, Oldest, Chosen, Planned;
      var i, j :| 0 <= i < lineCountInSuperPage && 0 <= j < parallelIO && evictData[i, j] == x;
      r, c := i, j;
      SlotHolds(r, c, extra);
    }

    lemma OldestIs(x: Slot, y: Slot)
      requires Shape() && x.At? && InCache(x) && Oldest(LineAt(x)) && y in AllLines()
      ensures AllLines()[y] == LineAt(y)
      ensures LineAt(y).valid && SameGroup(LineAt(x), LineAt(y)) ==> Age(LineAt(x)) <= Age(LineAt(y))
    {
      hide Row, Col;
    }

    lemma OldestAreChosen(extra: Slot)
      requires Shape() && Chosen() && Planned(extra)
      ensures OldestGo(AllLines(), ChosenSet(), extra)
    {
      hide Row, Col, Chosen, Planned, Oldest, SameGroup, ChosenSet;
      forall x | x in ChosenSet()
        ensures x in AllLines() && AllLines()[x].valid
        ensures forall y :: x != extra && y in AllLines() && AllLines()[y].valid && SameGroup(AllLines()[x], AllLines()[y]) ==>
          Age(AllLines()[x]) <= Age(AllLines()[y])
      {
        var r, c := Whereabouts(x, extra);
        forall y | x != extra && y in AllLines() && AllLines()[y].valid && SameGroup(AllLines()[x], AllLines()[y])
          ensures Age(AllLines()[x]) <= Age(AllLines()[y])
        {
          OldestIs(x, y);
        }
      }
    }

    /** Two chosen lines of a group are one, unless one of them is extra and spares the group's choice. */
    lemma SameChoice(index: nat, extra: Slot, x: Slot, y: Slot)
      requires Shape() && Chosen() && Planned(extra) && ExtraOk(index, extra)
      requires x in ChosenSet() && y in ChosenSet() && x != extra && InCache(x) && InCache(y)
      requires (y == extra ==> Displaces(LineAt(y))) && SameGroup(LineAt(x), LineAt(y))
      ensures x == y
    {
      hide Row, Col, Chosen, Planned, Oldest;
      var r, c := Whereabouts(x, extra);
      var i, j := Whereabouts(y, extra);
    }

    /** The slot of a line's group is not empty. */
    lemma SlotFilled(y: Slot, extra: Slot) returns (r: nat, c: nat)
      requires Shape() && Planned(extra) && y.At? && InCache(y) && LineAt(y).valid
      ensures r == RowOf(LineAt(y).tag) && c == GroupCol(LineAt(y).tag) && r < lineCountInSuperPage && c < parallelIO
      ensures evictData[r, c].At?
    {
      hide Row, Col, Oldest;
      SlotOfTag(LineAt(y).tag, lineCountInSuperPage, parallelIO);
      assert Filled(cacheData[y.setIdx, y.way]);
      r, c := RowOf(LineAt(y).tag), GroupCol(LineAt(y).tag);
    }

    /** The extra line is in no slot but that of its position. */
    lemma ExtraOnce(index: nat, extra: Slot, r: nat, c: nat)
      requires Shape() && Safe(-1) && ExtraOk(index, extra) && extra.At? && r < lineCountInSuperPage && c < parallelIO
      requires evictData[r, c] == extra && InCache(extra)
      ensures (r, c) == PositionOf(extra)
    {
      hide Row, Col;
      assert LineOk(extra.setIdx, cacheData[extra.setIdx, extra.way], -1);
      assert FromSet(evictData[r, c], index);
    }

    /** Every group has lost a line. */
    lemma GroupGives(index: nat, extra: Slot, y: Slot) returns (x: Slot)
      requires Shape() && Safe(-1) && Chosen() && Planned(extra) && ExtraOk(index, extra)
      requires y.At? && InCache(y) && LineAt(y).valid
      ensures x in ChosenSet() && InCache(x) && SameGroup(LineAt(x), LineAt(y)) && (x == extra ==> Displaces(LineAt(x)))
    {
      hide Row, Col, Chosen, Planned, Oldest, Safe, ExtraOk;
      var r, c := SlotFilled(y, extra);
      x := evictData[r, c];
      SlotHolds(r, c, extra);
      if x == extra {
        ExtraOnce(index, extra, r, c);
      }
      assert InSlots(x);
    }

    lemma OneIsChosen(index: nat, extra: Slot)
      requires Shape() && Safe(-1) && Chosen() && Planned(extra) && ExtraOk(index, extra) && OldestGo(AllLines(), ChosenSet(), extra)
      ensures OneGoes(AllLines(), ChosenSet(), extra)
    {
      hide Row, Col, Chosen, Planned, Oldest, SameGroup, ChosenSet, Displaces, ExtraOk, Safe;
      var before, gone := AllLines(), ChosenSet();
      ChosenAreLines(extra);
      forall x, y | x in gone && y in gone && x != extra && (y == extra ==> Displaces(before[y])) && SameGroup(before[x], before[y])
        ensures x == y
      {
        SameChoice(index, extra, x, y);
      }
      forall y | y in before && before[y].valid
        ensures exists x :: x in gone && SameGroup(before[x], before[y]) && (x == extra ==> Displaces(before[x]))
      {
        var x := GroupGives(index, extra, y);
      }
    }

    lemma ChosenAreLines(extra: Slot)
      requires Shape() && Chosen() && Planned(extra)
      ensures forall x :: x in ChosenSet() ==> x.At? && InCache(x) && LineAt(x).valid && x in AllLines() && AllLines()[x] == LineAt(x)
    {
      hide Row, Col, Chosen, Planned;
      forall x | x in ChosenSet()
        ensures x.At? && InCache(x) && LineAt(x).valid && x in AllLines() && AllLines()[x] == LineAt(x)
      {
        var r, c := Whereabouts(x, extra);
      }
    }

    lemma ExtraIsChosen(index: nat, extra: Slot)
      requires Shape() && Safe(-1) && Chosen() && Planned(extra) && ExtraOk(index, extra)
      ensures ExtraIfMissed(AllLines(), ChosenSet(), index, extra)
    {
      hide Row, Col, Chosen, Planned;
      var before, gone := AllLines(), ChosenSet();
      if extra == Null {
        var r, c := WayOf(index);
        var x := evictData[r, c];
        assert InSlots(x);
        assert x in gone;
      } else {
        var p := PositionOf(extra);
        assert InSlots(extra);
        forall x | x in gone && x.At? && x.setIdx == index
          ensures x == extra
        {
          var r, c := Whereabouts(x, extra);
          assert LineOk(x.setIdx, cacheData[x.setIdx, x.way], -1);
          assert FromSet(evictData[r, c], index);
        }
      }
    }

    lemma SlotsByPolicy(index: nat, extra: Slot)
      requires Shape() && Safe(-1) && Chosen() && Planned(extra) && ExtraOk(index, extra)
      ensures ByPolicy(AllLines(), ChosenSet(), index, extra)
    {
      hide Row, Col, Chosen, Planned, Oldest, SameGroup, ChosenSet, OldestGo, OneGoes, ExtraIfMissed, ExtraOk;
      OldestAreChosen(extra);
      OneIsChosen(index, extra);
      ExtraIsChosen(index, extra);
    }

    method PutSlot(tag: nat, x: Slot)
      requires Shape() && Safe(-1) && Chosen() && x.At? && InCache(x) && LineAt(x).valid && LineAt(x).tag == tag
      requires Planned(Null) && !HaveSet(x.setIdx)
      requires forall w :: 0 <= w < waySize && cacheData[x.setIdx, w].valid ==> AsOld(x, cacheData[x.setIdx, w])
      modifies evictData
      ensures Chosen() && Planned(x) && ExtraOk(x.setIdx, x)
    {
      hide Safe, Chosen, Planned, ExtraOk;
      SlotOfTag(tag, lineCountInSuperPage, parallelIO);
      var row, col := Row(tag, lineCountInSuperPage, parallelIO), Col(tag, lineCountInSuperPage, parallelIO);
      evictData[row, col] := x;
      hide Row, Col;
      ExtraChosen(x);
      ExtraPlanned(x);
      ExtraIsOk(x);
    }

    /** Only the slot of the line's position has changed, and names the line now. */
    twostate predicate Put(x: Slot)
      reads cacheData, evictData
      requires Shape() && x.At? && InCache(x)
    {
      && (forall s, w :: 0 <= s < setSize && 0 <= w < waySize ==> cacheData[s, w] == old(cacheData[s, w]))
      && (forall r, c :: 0 <= r < lineCountInSuperPage && 0 <= c < parallelIO ==>
            evictData[r, c] == if (r, c) == PositionOf(x) then x else old(evictData[r, c]))
    }

    twostate lemma ExtraChosen(new x: Slot)
      requires Shape() && x.At? && InCache(x) && LineAt(x).valid && Put(x) && old(Chosen())
      ensures Chosen()
    {
      hide Row, Col;
      SlotOfTag(LineAt(x).tag, lineCountInSuperPage, parallelIO);
      forall r, c | 0 <= r < lineCountInSuperPage && 0 <= c < parallelIO
        ensures ChosenAt(r, evictData[r, c])
      {
        assert old(ChosenAt(r, evictData[r, c]));
      }
    }

    twostate lemma ExtraPlanned(new x: Slot)
      requires Shape() && x.At? && InCache(x) && Put(x) && old(Planned(Null))
      ensures Planned(x)
    {
      hide Row, Col, Oldest;
      forall r, c | 0 <= r < lineCountInSuperPage && 0 <= c < parallelIO
        ensures ExtraAt(r, c, x) || ChoiceAt(c, evictData[r, c])
      {
        if (r, c) != PositionOf(x) {
          assert old(ChoiceAt(c, evictData[r, c]));
          if evictData[r, c].At? {
            SameOldest(LineAt(evictData[r, c]));
          }
        }
      }
      forall s, w | 0 <= s < setSize && 0 <= w < waySize
        ensures Filled(cacheData[s, w])
      {
        assert old(Filled(cacheData[s, w]));
        SlotOfTag(cacheData[s, w].tag, lineCountInSuperPage, parallelIO);
      }
    }

    twostate lemma SameOldest(new l: Line)
      requires Shape() && old(Oldest(l))
      requires forall s, w :: 0 <= s < setSize && 0 <= w < waySize ==> cacheData[s, w] == old(cacheData[s, w])
      ensures Oldest(l)
    {
      hide Row, Col;
    }

    twostate lemma ExtraIsOk(new x: Slot)
      requires Shape() && x.At? && InCache(x) && LineAt(x).valid && Put(x) && !old(HaveSet(x.setIdx))
      requires forall w :: 0 <= w < waySize && cacheData[x.setIdx, w].valid ==> AsOld(x, cacheData[x.setIdx, w])
      ensures ExtraOk(x.setIdx, x)
    {
      hide Row, Col;
      forall r, c | 0 <= r < lineCountInSuperPage && 0 <= c < parallelIO && (r, c) != PositionOf(x)
        ensures !FromSet(evictData[r, c], x.setIdx)
      {
        assert !old(FromSet(evictData[r, c], x.setIdx));
      }
    }

    /** Chooses what makes room in a full set: what is chosen by group, and if that misses the set, one of its own lines. */
    method ChooseFor(index: nat) returns (ghost extra: Slot)
      requires Shape() && Safe(-1) && NoSlots() && index < setSize
      requires forall w :: 0 <= w < waySize ==> cacheData[index, w].valid
      modifies evictData
      ensures Chosen() && Planned(extra) && ExtraOk(index, extra)
    {
      hide Safe, Chosen, NoSlots, Planned;
      ChooseByGroup();
      var have := FindSet(index);
      assert cacheData[index, 0].valid;
      extra := Null;
      if !have {
        var x := ChooseInSet(index);
        if x != Null {
          PutSlot(cacheData[x.setIdx, x.way].tag, x);
          extra := x;
        }
      }
    }

    /** Makes room in a full set. What goes is told by the policy, and everything else stays as it was. */
    method FlushSet(index: nat, tick: nat) returns (ghost extra: Slot)
      requires Valid() && index < setSize && tick < NEVER
      requires forall w :: 0 <= w < waySize ==> cacheData[index, w].valid
      modifies `flash, `sent, cacheData, evictData
      ensures old(Logged()) ==> Logged()
      ensures Valid() && newest == old(newest) && FlashGrew()
      ensures ByPolicy(old(AllLines()), Gone(old(AllLines()), AllLines()), index, extra)
      ensures old(sent) <= sent
      ensures SendsGone(old(AllLines()), Gone(old(AllLines()), AllLines()), sent[|old(sent)|..], lineCountInSuperPage)
      ensures forall s, w :: 0 <= s < setSize && 0 <= w < waySize && cacheData[s, w] != old(cacheData[s, w]) ==>
        old(cacheData[s, w]).valid && !cacheData[s, w].valid
      ensures exists w :: 0 <= w < waySize && !cacheData[index, w].valid
    {
      hide Safe, SlotsOk, Chosen, NoSlots, Planned, ExtraOk, ByPolicy, InFlash, InSomeWay, Row, Col, Written, SendsGone, Gone, Evicts;
      extra := ChooseFor(index);
      SlotsByPolicy(index, extra);
      ChosenAreLines(extra);
      ChosenAreOk();
      label before:
      ghost var taken := EvictCache(tick, true);
      SlotsWent@before();
      WrittenAll(old(AllLines()), AllLines(), taken, sent[|old(sent)|..], lineCountInSuperPage);
      RoomMade(index, extra);
      forall lca: nat | !old(InSomeWay(lca))
        ensures SameAt(lca)
      {
        assert !old@before(InSomeWay(lca));
        assert SameAt@before(lca);
      }
      forall lca: nat | old(InFlash(lca))
        ensures InFlash(lca)
      {
        assert old@before(InFlash(lca));
      }
    }

    /** A line of the set went. */
    twostate lemma RoomMade(new index: nat, new extra: Slot)
      requires Shape() && ByPolicy(old(AllLines()), Gone(old(AllLines()), AllLines()), index, extra)
      requires forall s, w :: 0 <= s < setSize && 0 <= w < waySize && cacheData[s, w] != old(cacheData[s, w]) ==>
        !cacheData[s, w].valid
      ensures exists w :: 0 <= w < waySize && !cacheData[index, w].valid
    {
      hide OldestGo, OneGoes;
      var before, after := old(AllLines()), AllLines();
      var x :| x in Gone(before, after) && x.At? && x.setIdx == index;
      assert cacheData[x.setIdx, x.way] != old(cacheData[x.setIdx, x.way]);
    }

    /** What went are the lines in the slots. */
    twostate lemma SlotsWent()
      requires Shape() && Evicts(old(AllLines()), old(ChosenSet()), true)
      requires forall x :: x in old(ChosenSet()) ==> x.At? && InCache(x) && old(LineAt(x)).valid
      requires forall x :: x in old(ChosenSet()) && x.At? ==> InCache(x) && !LineAt(x).valid
      ensures Gone(old(AllLines()), AllLines()) == old(ChosenSet())
      ensures forall s, w :: 0 <= s < setSize && 0 <= w < waySize && cacheData[s, w] != old(cacheData[s, w]) ==>
        old(cacheData[s, w]).valid && !cacheData[s, w].valid
    {
      forall s, w | 0 <= s < setSize && 0 <= w < waySize && cacheData[s, w] != old(cacheData[s, w])
        ensures old(cacheData[s, w]).valid && !cacheData[s, w].valid
      {
        assert At(s, w) in old(AllLines()) && At(s, w) in AllLines();
      }
    }

    lemma ChosenAreOk()
      requires Shape() && Chosen()
      ensures SlotsOk()
    {
      forall r, c | 0 <= r < lineCountInSuperPage && 0 <= c < parallelIO
        ensures SlotOk(r, evictData[r, c])
      {
        assert ChosenAt(r, evictData[r, c]);
      }
    }

    /** A slot of the set names one of the set's own ways. */
    lemma WayOf(index: nat) returns (r: nat, c: nat)
      requires Shape() && Safe(-1) && Chosen() && HaveSet(index)
      ensures r < lineCountInSuperPage && c < parallelIO
      ensures evictData[r, c].At? && evictData[r, c].setIdx == index && evictData[r, c].way < waySize
    {
      var i, j :| 0 <= i < lineCountInSuperPage && 0 <= j < parallelIO && FromSet(evictData[i, j], index);
      r, c := i, j;
      var x := evictData[r, c];
      assert ChosenAt(r, x);
      assert LineOk(x.setIdx, cacheData[x.setIdx, x.way], -1);
    }

    // ---------------------------------------------------------------- write

    /** The address has a line with the version written, accessed last, and inserted, at some time from `since` on. */
    ghost predicate Cached(lca: nat, version: nat, since: nat, dirty: bool)
      reads this, cacheData
      requires Shape()
    {
      exists w :: 0 <= w < waySize && Renewed(cacheData[lca % setSize, w], lca, version, since, dirty)
    }

    ghost predicate Renewed(l: Line, lca: nat, version: nat, since: nat, dirty: bool) {
      Holds(l, lca) && l.version == version && since <= l.insertedAt == l.lastAccessed && l.dirty == dirty
    }

    ghost predicate SetFull(index: nat)
      reads cacheData
      requires Shape() && index < setSize
    {
      forall w :: 0 <= w < waySize ==> cacheData[index, w].valid
    }

    /** Other addresses' lines: as they were, or, after an eviction, gone. */
    twostate predicate OthersKept(lca: nat)
      reads this, cacheData
      requires Shape()
    {
      forall s, w :: 0 <= s < setSize && 0 <= w < waySize && cacheData[s, w].valid && cacheData[s, w].tag != lca ==>
        cacheData[s, w] == old(cacheData[s, w])
    }

    /** Whole lines reach the FTL with the write, parts only with an eviction later on. */
    twostate predicate Reaches(lca: nat, whole: bool)
      reads this
      requires Shape()
    {
      if whole then InFlash(lca) else SameAt(lca)
    }

    ghost predicate InSomeWay(lca: nat)
      reads cacheData
      requires Shape()
    {
      exists w :: 0 <= w < waySize && Holds(cacheData[lca % setSize, w], lca)
    }

    /** A write to the FTL: only a line of the same address can now be stale. */
    method FtlWrite(lca: nat, version: nat)
      requires Shape() && Safe(-1)
      modifies `flash, `sent, `newest
      ensures old(Logged()) ==> Logged()
      ensures Safe(lca) && InFlash(lca)
      ensures newest == old(newest)[lca := version]
      ensures sent == old(sent) + [Sent(lca / lineCountInSuperPage, lca % lineCountInSuperPage, version)]
    {
      StoredMore(sent, Sent(lca / lineCountInSuperPage, lca % lineCountInSuperPage, version));
      sent := sent + [Sent(lca / lineCountInSuperPage, lca % lineCountInSuperPage, version)];
      flash := flash[(lca / lineCountInSuperPage, lca % lineCountInSuperPage) := version];
      newest := newest[lca := version];
      FtlWriteKeeps(lca, version);
    }

    twostate lemma FtlWriteKeeps(new lca: nat, new version: nat)
      requires Shape() && old(Safe(-1))
      requires flash == old(flash)[(lca / lineCountInSuperPage, lca % lineCountInSuperPage) := version]
      requires newest == old(newest)[lca := version]
      requires forall s, w :: 0 <= s < setSize && 0 <= w < waySize ==> cacheData[s, w] == old(cacheData[s, w])
      ensures Safe(lca)
    {
      forall other: nat | other != lca && old(InFlash(other))
        ensures InFlash(other)
      {
        SameUnit(other, lca, lineCountInSuperPage);
      }
      forall s, w | 0 <= s < setSize && 0 <= w < waySize
        ensures LineOk(s, cacheData[s, w], lca)
      {
        assert old(LineOk(s, cacheData[s, w], -1));
      }
      forall other: nat | other in newest
        ensures InFlash(other) || InDirtyLine(other)
      {
        if other != lca && !old(InFlash(other)) {
          assert old(InDirtyLine(other));
          var w :| 0 <= w < waySize && old(Holds(cacheData[other % setSize, w], other) && cacheData[other % setSize, w].dirty);
          assert Holds(cacheData[other % setSize, w], other);
        }
      }
    }

    lemma NoneStale(lca: nat)
      requires Shape() && Safe(lca) && !InSomeWay(lca)
      ensures Safe(-1)
    {
      forall s, w | 0 <= s < setSize && 0 <= w < waySize
        ensures LineOk(s, cacheData[s, w], -1)
      {
        assert LineOk(s, cacheData[s, w], lca);
        if cacheData[s, w].valid && cacheData[s, w].tag == lca {
          assert Holds(cacheData[lca % setSize, w], lca);
        }
      }
    }

    /** Puts the line where no other way of the set holds its address. */
    method PutLine(index: nat, way: nat, line: Line)
      requires Shape() && Safe(line.tag) && way < waySize && index == line.tag % setSize
      requires line.valid && line.insertedAt < NEVER
      requires !line.dirty ==> InFlash(line.tag) && newest[line.tag] == line.version
      requires cacheData[index, way].valid ==> cacheData[index, way].tag == line.tag
      requires forall w :: 0 <= w < waySize && w != way ==> !Holds(cacheData[index, w], line.tag)
      modifies `newest, cacheData
      ensures Safe(-1) && newest == old(newest)[line.tag := line.version]
      ensures cacheData[index, way] == line
      ensures forall s, w :: 0 <= s < setSize && 0 <= w < waySize && !(s == index && w == way) ==>
        cacheData[s, w] == old(cacheData[s, w])
    {
      newest := newest[line.tag := line.version];
      cacheData[index, way] := line;
      PutKeeps(index, way, line);
    }

    twostate lemma PutKeeps(new index: nat, new way: nat, new line: Line)
      requires Shape() && old(Safe(line.tag)) && way < waySize && index == line.tag % setSize
      requires line.valid && line.insertedAt < NEVER
      requires !line.dirty ==> old(InFlash(line.tag)) && old(newest)[line.tag] == line.version
      requires old(cacheData[index, way]).valid ==> old(cacheData[index, way]).tag == line.tag
      requires forall w :: 0 <= w < waySize && w != way ==> !Holds(old(cacheData[index, w]), line.tag)
      requires newest == old(newest)[line.tag := line.version] && flash == old(flash)
      requires cacheData[index, way] == line
      requires forall s, w :: 0 <= s < setSize && 0 <= w < waySize && !(s == index && w == way) ==>
        cacheData[s, w] == old(cacheData[s, w])
      ensures Safe(-1)
    {
      forall other: nat | old(InFlash(other)) && (other != line.tag || !line.dirty)
        ensures InFlash(other)
      {
      }
      PutLines(index, way, line);
      forall other: nat | other in newest
        ensures InFlash(other) || InDirtyLine(other)
      {
        if other == line.tag {
          assert Holds(cacheData[index, way], other);
        } else if !old(InFlash(other)) {
          assert old(InDirtyLine(other));
          var w :| 0 <= w < waySize && old(Holds(cacheData[other % setSize, w], other) && cacheData[other % setSize, w].dirty);
          assert Holds(cacheData[other % setSize, w], other);
        }
      }
    }

    twostate lemma PutLines(new index: nat, new way: nat, new line: Line)
      requires Shape() && old(Lines(line.tag)) && old(Unique()) && way < waySize && index == line.tag % setSize
      requires line.valid && line.insertedAt < NEVER && line.tag in newest && newest[line.tag] == line.version
      requires !line.dirty ==> InFlash(line.tag)
      requires forall w :: 0 <= w < waySize && w != way ==> !Holds(old(cacheData[index, w]), line.tag)
      requires forall other: nat :: other != line.tag && old(InFlash(other)) ==> InFlash(other)
      requires forall other: nat :: other != line.tag && other in old(newest) ==> other in newest && newest[other] == old(newest)[other]
      requires cacheData[index, way] == line
      requires forall s, w :: 0 <= s < setSize && 0 <= w < waySize && !(s == index && w == way) ==>
        cacheData[s, w] == old(cacheData[s, w])
      ensures Lines(-1) && Unique()
    {
      forall s, w | 0 <= s < setSize && 0 <= w < waySize
        ensures LineOk(s, cacheData[s, w], -1)
      {
        assert old(LineOk(s, cacheData[s, w], line.tag));
        if s == index && w != way {
          assert !Holds(old(cacheData[index, w]), line.tag);
        }
      }
      forall s, w, v | 0 <= s < setSize && 0 <= w < v < waySize
        ensures !(cacheData[s, w].valid && cacheData[s, v].valid && cacheData[s, w].tag == cacheData[s, v].tag)
      {
        if s == index && (w == way || v == way) {
          assert !Holds(old(cacheData[index, if w == way then v else w]), line.tag);
        }
      }
    }

    /** Writes one line, whole or part. Whole lines go to the FTL at once, parts wait in a dirty line. Whatever is
        evicted for it, no newest version is lost and there is always a way to put the line in: the "Cache corrupted!"
        halt is unreachable. `ret` tells a write that needed no eviction. */
    method Write(lca: nat, length: nat, version: nat, tick0: nat) returns (ret: bool)
      requires Valid() && tick0 < NEVER
      modifies this, cacheData, evictData
      ensures old(Logged()) ==> Logged()
      ensures Valid()
      ensures newest == old(newest)[lca := version]
      ensures Reaches(lca, length >= lineSize || !useWriteCaching)
      ensures useWriteCaching ==> Cached(lca, version, tick0, length < lineSize || !ret) && OthersKept(lca)
      ensures useWriteCaching ==> (ret <==> old(InSomeWay(lca)) || !old(SetFull(lca % setSize)))
      ensures SentMore(old(sent) + Direct(lca, length, version))
      ensures var requests := sent[|old(sent) + Direct(lca, length, version)|..];
        if useWriteCaching then Takes(old(AllLines()), AllLines(), lca, !ret, requests) else requests == []
      ensures !useWriteCaching ==> !ret
    {
      hide Safe, NoSlots, Takes;
      ret := false;
      var tick := tick0;
      var written := tick0;
      var dirty := false;
      if length < lineSize {
        dirty := true;
      } else {
        FtlWrite(lca, version);
        written := Elapse(written);
      }
      if useWriteCaching {
        ret := WriteCached(lca, dirty, version, tick, written, tick0);
      } else if dirty {
        FtlWrite(lca, version);
      }
      if !useWriteCaching {
        NoneStale(lca);
      }
    }

    lemma ClockRuns(index: nat, but: int)
      requires Shape() && Safe(but) && index < setSize
      ensures forall w :: 0 <= w < waySize ==> cacheData[index, w].insertedAt < NEVER
    {
      forall w | 0 <= w < waySize
        ensures cacheData[index, w].insertedAt < NEVER
      {
        assert LineOk(index, cacheData[index, w], but);
      }
    }

    lemma Weaken(but: int)
      requires Shape() && Safe(-1)
      ensures Safe(but)
    {
      forall s, w | 0 <= s < setSize && 0 <= w < waySize
        ensures LineOk(s, cacheData[s, w], but)
      {
        assert LineOk(s, cacheData[s, w], -1);
      }
    }

    lemma OnlyWay(lca: nat, way: nat, but: int)
      requires Shape() && Safe(but) && way < waySize && Holds(cacheData[lca % setSize, way], lca)
      ensures forall w :: 0 <= w < waySize && w != way ==> !Holds(cacheData[lca % setSize, w], lca)
    {
    }

    method WriteCached(lca: nat, dirty: bool, version: nat, tick0: nat, written: nat, ghost since: nat) returns (ret: bool)
      requires since <= tick0 && since <= written
      requires Shape() && NoSlots() && tick0 < NEVER && written < NEVER && useWriteCaching
      requires if dirty then Safe(-1) else Safe(lca) && InFlash(lca) && newest[lca] == version
      modifies this, cacheData, evictData
      ensures old(Logged()) ==> Logged()
      ensures Shape() && NoSlots() && Safe(-1)
      ensures newest == old(newest)[lca := version]
      ensures Reaches(lca, !dirty)
      ensures Cached(lca, version, since, dirty || !ret) && OthersKept(lca)
      ensures ret <==> old(InSomeWay(lca)) || !old(SetFull(lca % setSize))
      ensures SentMore(old(sent)) && Takes(old(AllLines()), AllLines(), lca, !ret, sent[|old(sent)|..])
    {
      hide Safe, NoSlots, Takes;
      var tick := Elapse(tick0);
      var setIdx := lca % setSize;
      var wayIdx := GetValidWay(lca);
      if dirty { Weaken(lca); }
      ClockRuns(setIdx, lca);
      if wayIdx != waySize {
        OnlyWay(lca, wayIdx, lca);
        var line := cacheData[setIdx, wayIdx];
        tick := UntilInserted(tick, line);
        var at := if dirty then tick else written;
        ret := true;
        PutLine(setIdx, wayIdx, line.(insertedAt := at, lastAccessed := at, dirty := dirty, version := version));
        assert Renewed(cacheData[setIdx, wayIdx], lca, version, since, dirty);
        OnlyOwn(lca);
      } else {
        assert !InSomeWay(lca);
        NoneStale(lca);
        ret := WriteMissed(lca, dirty, version, tick, written, since);
      }
    }

    method WriteMissed(lca: nat, dirty: bool, version: nat, tick0: nat, written: nat, ghost since: nat) returns (ret: bool)
      requires since <= tick0 && since <= written
      requires Shape() && NoSlots() && tick0 < NEVER && written < NEVER && useWriteCaching
      requires Safe(-1) && !InSomeWay(lca)
      requires !dirty ==> InFlash(lca) && newest[lca] == version
      modifies this, cacheData, evictData
      ensures old(Logged()) ==> Logged()
      ensures Shape() && NoSlots() && Safe(-1)
      ensures newest == old(newest)[lca := version]
      ensures Reaches(lca, !dirty)
      ensures Cached(lca, version, since, dirty || !ret) && OthersKept(lca)
      ensures ret <==> !old(SetFull(lca % setSize))
      ensures SentMore(old(sent)) && Takes(old(AllLines()), AllLines(), lca, !ret, sent[|old(sent)|..])
    {
      hide Safe, NoSlots, Takes;
      var tick := tick0;
      var setIdx := lca % setSize;
      ClockRuns(setIdx, -1);
      var wayIdx := GetEmptyWay(setIdx);
      if wayIdx != waySize {
        tick := UntilInserted(tick, cacheData[setIdx, wayIdx]);
        var at := if dirty then tick else written;
        ret := true;
        Weaken(lca);
        PutLine(setIdx, wayIdx, Line(lca, at, at, dirty, true, version));
        assert Renewed(cacheData[setIdx, wayIdx], lca, version, since, dirty);
        OnlyOwn(lca);
      } else {
        ret := false;
        assert SetFull(setIdx);
        FlushAndPut(lca, dirty, version, tick, since);
      }
    }

    /** The request that a write sends by itself. */
    function Direct(lca: nat, length: nat, version: nat): seq<Sent>
      requires Shape()
    {
      if length >= lineSize || !useWriteCaching
      then [Sent(lca / lineCountInSuperPage, lca % lineCountInSuperPage, version)] else []
    }

    ghost predicate SentMore(start: seq<Sent>)
      reads `sent
    {
      start <= sent
    }

    /** An eviction and the way it frees. */
    method FreeWay(lca: nat, tick: nat) returns (wayIdx: nat)
      requires Shape() && NoSlots() && tick < NEVER && useWriteCaching
      requires Safe(-1) && !InSomeWay(lca) && SetFull(lca % setSize)
      modifies `flash, `sent, cacheData, evictData
      ensures old(Logged()) ==> Logged()
      ensures NoSlots() && Safe(-1) && newest == old(newest) && SentMore(old(sent))
      ensures Takes(old(AllLines()), AllLines(), lca, true, sent[|old(sent)|..])
      ensures SameAt(lca) && (old(InFlash(lca)) ==> InFlash(lca))
      ensures forall s, w :: 0 <= s < setSize && 0 <= w < waySize && cacheData[s, w].valid ==> cacheData[s, w] == old(cacheData[s, w])
      ensures wayIdx < waySize && !cacheData[lca % setSize, wayIdx].valid
      ensures At(lca % setSize, wayIdx) in AllLines() && !AllLines()[At(lca % setSize, wayIdx)].valid
    {
      hide Safe, NoSlots, ByPolicy, Gone;
      ghost var extra := FlushSet(lca % setSize, tick);
      TakesByPolicy(old(AllLines()), AllLines(), lca, extra, sent[|old(sent)|..]);
      ClockRuns(lca % setSize, -1);
      wayIdx := GetEmptyWay(lca % setSize);
      if wayIdx == waySize {
        assert false;
      }
    }

    /** The way that an eviction has freed is taken by the new line. */
    method FlushAndPut(lca: nat, dirty: bool, version: nat, tick0: nat, ghost since: nat)
      requires since <= tick0 && Shape() && NoSlots() && tick0 < NEVER && useWriteCaching
      requires Safe(-1) && !InSomeWay(lca) && SetFull(lca % setSize)
      requires !dirty ==> InFlash(lca) && newest[lca] == version
      modifies this, cacheData, evictData
      ensures old(Logged()) ==> Logged()
      ensures Shape() && NoSlots() && Safe(-1)
      ensures newest == old(newest)[lca := version]
      ensures Reaches(lca, !dirty)
      ensures Cached(lca, version, since, true) && OthersKept(lca)
      ensures SentMore(old(sent)) && Takes(old(AllLines()), AllLines(), lca, true, sent[|old(sent)|..])
    {
      hide Safe, NoSlots, Takes, InFlash, AllLines, Stored;
      var tick := tick0;
      var setIdx := lca % setSize;
      var wayIdx := FreeWay(lca, tick);
      label freed:
      tick := Elapse(tick);
      Weaken(lca);
      PutLine(setIdx, wayIdx, Line(lca, tick, tick, true, true, version));
      assert Renewed(cacheData[setIdx, wayIdx], lca, version, since, true);
      if !dirty { StillInFlash@freed(lca); }
      OneLinePut@freed(setIdx, wayIdx);
      StillGoes(lca, old@freed(AllLines()), wayIdx, sent[|old(sent)|..]);
    }

    twostate lemma StillInFlash(new lca: nat)
      requires Shape() && old(InFlash(lca)) && flash == old(flash) && lca in newest && newest[lca] == old(newest[lca])
      ensures InFlash(lca)
    {
    }

    twostate lemma OnlyOwn(new lca: nat)
      requires Shape()
      requires forall s, w :: 0 <= s < setSize && 0 <= w < waySize && cacheData[s, w] != old(cacheData[s, w]) ==>
        old(cacheData[s, w]).valid ==> old(cacheData[s, w]).tag == lca
      ensures sent == old(sent) ==> Takes(old(AllLines()), AllLines(), lca, false, sent[|old(sent)|..])
    {
    }

    /** The new line in a freed way changes nothing about what went. */
    twostate lemma StillGoes(new lca: nat, new between: Lineup, new wayIdx: nat, new requests: seq<Sent>)
      requires Shape() && wayIdx < waySize && old(SetFull(lca % setSize)) && !old(InSomeWay(lca))
      requires Takes(old(AllLines()), between, lca, true, requests)
      requires var x := At(lca % setSize, wayIdx);
        x in between && !between[x].valid && LineAt(x).tag == lca && AllLines() == between[x := LineAt(x)]
      ensures Takes(old(AllLines()), AllLines(), lca, true, requests)
    {
      hide ByPolicy, Gone;
      var x := At(lca % setSize, wayIdx);
      assert !Holds(old(cacheData[lca % setSize, wayIdx]), lca);
      SameGone(old(AllLines()), between, AllLines(), x);
    }

    lemma SameGone(before: Lineup, between: Lineup, after: Lineup, x: Slot)
      requires x in before && x in between && before[x].valid && between[x] != before[x]
      requires x in after && after[x] != before[x] && after == between[x := after[x]]
      ensures Gone(before, after) == Gone(before, between)
    {
    }

    /** Waits until the line is valid. */
    method UntilInserted(tick: nat, line: Line) returns (later: nat)
      requires tick < NEVER && line.insertedAt < NEVER
      ensures tick <= later < NEVER && line.insertedAt <= later
    {
      later := if tick < line.insertedAt then line.insertedAt else tick;
    }
  }
}
