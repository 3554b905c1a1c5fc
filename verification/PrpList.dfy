/**
 Construction of the physical region page list for one NVMe transfer, against the walk that section 4.3 of NVM Express
 1.3 prescribes to whoever reads it.
 */
module PrpList {

  const PAGE_SIZE: nat := 4096
  const MAX_ENTRIES: nat := 512

  /** DIVCEIL. */
  function Pages(size: nat): nat {
    if size == 0 then 0 else (size - 1) / PAGE_SIZE + 1
  }

  // ---------------------------------------------------------------- the reader

  /** The 64-bit word at an address of the region; reading elsewhere yields nothing useful. */
  function WordAt(mem: seq<nat>, base: nat, addr: nat): nat {
    if base <= addr && (addr - base) / 8 < |mem| then mem[(addr - base) / 8] else 0
  }

  /** The data pages and the list pages met, in order. */
  datatype Walked = Walked(data: seq<nat>, lists: seq<nat>)

  /** From entry `entry` of the list page at `list`, with n data pages to go: the last entry of a list page points to
      the next list page if more than one data page is left. */
  function WalkList(mem: seq<nat>, base: nat, list: nat, entry: nat, n: nat): Walked
    requires entry < MAX_ENTRIES
    decreases n, entry
  {
    var e := WordAt(mem, base, list + 8 * entry);
    if n == 0 then Walked([], [])
    else if entry == MAX_ENTRIES - 1 then
      if n == 1 then Walked([e], [])
      else
        var rest := WalkList(mem, base, e, 0, n);
        Walked(rest.data, [e] + rest.lists)
    else
      var rest := WalkList(mem, base, list, entry + 1, n - 1);
      Walked([e] + rest.data, rest.lists)
  }

  /** PRP1 is the first data page. PRP2 is unused, the second data page, or the first list page. */
  function Walk(mem: seq<nat>, base: nat, prp1: nat, prp2: nat, size: nat): Walked {
    if size <= PAGE_SIZE then Walked([prp1], [])
    else if size <= 2 * PAGE_SIZE then Walked([prp1, prp2], [])
    else
      var rest := WalkList(mem, base, prp2, 0, Pages(size) - 1);
      Walked([prp1] + rest.data, [prp2] + rest.lists)
  }

  // ---------------------------------------------------------------- the layout of the region

  /** Of `lists` list pages, number k is page 1 + 512k of the region. */
  predicate IsList(q: nat, lists: nat) {
    q % MAX_ENTRIES == 1 && q / MAX_ENTRIES < lists
  }

  /** Addresses of the pages from..to that are not list pages. */
  function DataPages(base: nat, from: nat, to: nat, lists: nat): seq<nat>
    decreases if from < to then to - from else 0
  {
    if to <= from then []
    else (if IsList(from, lists) then [] else [base + PAGE_SIZE * from]) + DataPages(base, from + 1, to, lists)
  }

  function ListPages(base: nat, from: nat, lists: nat): seq<nat>
    decreases if from < lists then lists - from else 0
  {
    if lists <= from then [] else [base + PAGE_SIZE * (1 + MAX_ENTRIES * from)] + ListPages(base, from + 1, lists)
  }

  lemma NoDataPages(base: nat, at: nat, lists: nat)
    ensures DataPages(base, at, at, lists) == []
  {
  }

  lemma {:induction false} DataPagesAppend(base: nat, from: nat, to: nat, lists: nat)
    requires from <= to
    ensures DataPages(base, from, to + 1, lists) ==
      DataPages(base, from, to, lists) + (if IsList(to, lists) then [] else [base + PAGE_SIZE * to])
    decreases if from < to then to - from else 0
  {
    if from < to {
      DataPagesAppend(base, from + 1, to, lists);
    }
  }

  predicate Ascending(s: seq<nat>, lo: nat, hi: nat) {
    && (forall i :: 0 <= i < |s| ==> lo <= s[i] < hi)
    && (forall i, j :: 0 <= i < j < |s| ==> s[i] < s[j])
  }

  /** Exactly the pages that are not list pages, in ascending order. */
  lemma {:induction false} DataPagesExactly(base: nat, from: nat, to: nat, lists: nat)
    ensures forall q: nat ::
      base + PAGE_SIZE * q in DataPages(base, from, to, lists) <==> from <= q < to && !IsList(q, lists)
    ensures Ascending(DataPages(base, from, to, lists), base + PAGE_SIZE * from, base + PAGE_SIZE * to)
    decreases if from < to then to - from else 0
  {
    if from < to {
      DataPagesExactly(base, from + 1, to, lists);
    }
  }

  /** What is in entry e of list page k: the address of the next page in line, a data page or the next list. */
  predicate Filled(mem: seq<nat>, base: nat, k: nat, e: nat) {
    var at := MAX_ENTRIES * (1 + MAX_ENTRIES * k) + e;
    at < |mem| && mem[at] == base + PAGE_SIZE * (2 + MAX_ENTRIES * k + e)
  }

  /** Lists before list k, and the first `entry` entries of list k, are filled. */
  ghost predicate FilledUpTo(mem: seq<nat>, base: nat, k: nat, entry: nat) {
    forall l: nat, e: nat {:trigger Filled(mem, base, l, e)} ::
      (l < k && e < MAX_ENTRIES) || (l == k && e < entry) ==> Filled(mem, base, l, e)
  }

  /** Writing behind the filled entries keeps them, and fills the next one if it is the right address. */
  lemma FillNext(mem: seq<nat>, base: nat, k: nat, entry: nat, v: nat)
    requires entry <= MAX_ENTRIES && FilledUpTo(mem, base, k, entry)
    requires MAX_ENTRIES * (1 + MAX_ENTRIES * k) + entry < |mem|
    ensures var after := mem[MAX_ENTRIES * (1 + MAX_ENTRIES * k) + entry := v];
      && FilledUpTo(after, base, k, entry)
      && (v == base + PAGE_SIZE * (2 + MAX_ENTRIES * k + entry) ==> FilledUpTo(after, base, k, entry + 1))
  {
    var at := MAX_ENTRIES * (1 + MAX_ENTRIES * k) + entry;
    var after := mem[at := v];
    forall l: nat, e: nat | (l < k && e < MAX_ENTRIES) || (l == k && e < entry)
      ensures Filled(after, base, l, e)
    {
      assert Filled(mem, base, l, e);
      assert MAX_ENTRIES * (1 + MAX_ENTRIES * l) + e < at;
    }
  }

  lemma FillNextList(mem: seq<nat>, base: nat, k: nat)
    ensures FilledUpTo(mem, base, 0, 0)
    ensures FilledUpTo(mem, base, k, MAX_ENTRIES) ==> FilledUpTo(mem, base, k + 1, 0)
  {
    if FilledUpTo(mem, base, k, MAX_ENTRIES) {
      forall l: nat, e: nat | l < k + 1 && e < MAX_ENTRIES
        ensures Filled(mem, base, l, e)
      {
      }
    }
  }

  /** Entry e of list k points to a list page exactly if it is the last entry and there is a next list. */
  lemma KindOfEntry(k: nat, e: nat, lists: nat)
    requires e < MAX_ENTRIES && k < lists
    ensures IsList(2 + MAX_ENTRIES * k + e, lists) <==> e == MAX_ENTRIES - 1 && k + 1 < lists
  {
  }

  lemma FilledEntry(mem: seq<nat>, base: nat, k: nat, entry: nat, upTo: nat, last: nat)
    requires FilledUpTo(mem, base, upTo, last) && entry < MAX_ENTRIES && (k < upTo || (k == upTo && entry < last))
    ensures WordAt(mem, base, base + PAGE_SIZE * (1 + MAX_ENTRIES * k) + 8 * entry) ==
      base + PAGE_SIZE * (2 + MAX_ENTRIES * k + entry)
  {
    assert Filled(mem, base, k, entry);
  }

  /** Following a filled region from entry `entry` of list k. */
  lemma {:induction false} WalkFilled(mem: seq<nat>, base: nat, k: nat, entry: nat, n: nat, lists: nat, last: nat)
    requires k < lists && entry < MAX_ENTRIES && 1 <= last <= MAX_ENTRIES && (lists > 1 ==> last >= 2)
    requires FilledUpTo(mem, base, lists - 1, last)
    requires k == lists - 1 ==> entry <= last
    requires n + (lists - 1 - k) == MAX_ENTRIES * (lists - 1 - k) + last - entry
    ensures var from, total := 2 + MAX_ENTRIES * k + entry, 2 + MAX_ENTRIES * (lists - 1) + last;
      WalkList(mem, base, base + PAGE_SIZE * (1 + MAX_ENTRIES * k), entry, n) ==
        Walked(DataPages(base, from, total, lists), ListPages(base, k + 1, lists))
    decreases n, entry
  {
    var from, total := 2 + MAX_ENTRIES * k + entry, 2 + MAX_ENTRIES * (lists - 1) + last;
    hide FilledUpTo, IsList, WordAt;
    if n > 0 {
      FilledEntry(mem, base, k, entry, lists - 1, last);
      KindOfEntry(k, entry, lists);
      if entry < MAX_ENTRIES - 1 {
        WalkFilled(mem, base, k, entry + 1, n - 1, lists, last);
      } else if n > 1 {
        WalkFilled(mem, base, k + 1, 0, n, lists, last);
      }
    }
  }

  lemma {:induction false} WalkLength(mem: seq<nat>, base: nat, list: nat, entry: nat, n: nat)
    requires entry < MAX_ENTRIES
    ensures |WalkList(mem, base, list, entry, n).data| == n
    decreases n, entry
  {
    if n > 0 {
      if entry < MAX_ENTRIES - 1 {
        WalkLength(mem, base, list, entry + 1, n - 1);
      } else if n > 1 {
        WalkLength(mem, base, WordAt(mem, base, list + 8 * entry), 0, n);
      }
    }
  }

  lemma {:induction false} ListPagesAre(base: nat, from: nat, lists: nat)
    requires from <= lists
    ensures |ListPages(base, from, lists)| == lists - from
    ensures forall i :: 0 <= i < lists - from ==>
      ListPages(base, from, lists)[i] == base + PAGE_SIZE * (1 + MAX_ENTRIES * (from + i))
    decreases lists - from
  {
    if from < lists {
      ListPagesAre(base, from + 1, lists);
    }
  }

  /** A transfer's region as the reader finds it: exactly the pages that are not list pages, ascending and hence
      distinct, as many as the transfer needs, and data and list pages fill the region. */
  predicate Describes(w: Walked, base: nat, capacity: nat, lists: nat, size: nat) {
    && Ascending(w.data, base, base + capacity)
    && (forall i :: 0 <= i < |w.data| ==> InRegion(w.data[i], base, capacity, lists))
    && |w.data| == (if size == 0 then 1 else Pages(size))
    && capacity == PAGE_SIZE * (|w.data| + |w.lists|)
    && w.lists == ListPages(base, 0, lists)
  }

  predicate InRegion(addr: nat, base: nat, capacity: nat, lists: nat) {
    base <= addr && (addr - base) % PAGE_SIZE == 0 && (addr - base) / PAGE_SIZE < capacity / PAGE_SIZE
    && !IsList((addr - base) / PAGE_SIZE, lists)
  }

  lemma {:induction false} DataPagesInRegion(base: nat, from: nat, to: nat, lists: nat)
    ensures forall i :: 0 <= i < |DataPages(base, from, to, lists)| ==>
      InRegion(DataPages(base, from, to, lists)[i], base, PAGE_SIZE * to, lists)
    decreases if from < to then to - from else 0
  {
    if from < to {
      DataPagesInRegion(base, from + 1, to, lists);
    }
  }

  lemma WithFirstPage(ps: seq<nat>, base: nat, total: nat, lists: nat)
    requires total >= 1 && Ascending(ps, base + PAGE_SIZE * 2, base + PAGE_SIZE * total)
    requires forall i :: 0 <= i < |ps| ==> InRegion(ps[i], base, PAGE_SIZE * total, lists)
    ensures Ascending([base] + ps, base, base + PAGE_SIZE * total)
    ensures forall i :: 0 <= i < |[base] + ps| ==> InRegion(([base] + ps)[i], base, PAGE_SIZE * total, lists)
  {
    assert InRegion(base, base, PAGE_SIZE * total, lists);
    hide InRegion, IsList;
  }

  /** Following the lists of a filled region. */
  lemma WalkRegion(mem: seq<nat>, base: nat, size: nat, lists: nat, last: nat)
    requires size > 2 * PAGE_SIZE && lists >= 1 && 1 <= last <= MAX_ENTRIES && (lists > 1 ==> last >= 2)
    requires Pages(size) - 1 == (MAX_ENTRIES - 1) * (lists - 1) + last
    requires FilledUpTo(mem, base, lists - 1, last)
    ensures var total := 2 + MAX_ENTRIES * (lists - 1) + last;
      var w := Walk(mem, base, base, base + PAGE_SIZE, size);
      && w.data == [base] + DataPages(base, 2, total, lists)
      && Describes(w, base, PAGE_SIZE * total, lists, size)
  {
    hide FilledUpTo, WalkList, DataPages, IsList, InRegion, Ascending;
    var total := 2 + MAX_ENTRIES * (lists - 1) + last;
    var n := Pages(size) - 1;
    WalkFilled(mem, base, 0, 0, n, lists, last);
    WalkLength(mem, base, base + PAGE_SIZE, 0, n);
    ListPagesAre(base, 0, lists);
    DataPagesExactly(base, 2, total, lists);
    DataPagesInRegion(base, 2, total, lists);
    WithFirstPage(DataPages(base, 2, total, lists), base, total, lists);
  }

  /** A transfer of at most two pages needs no list. */
  lemma WalkShort(mem: seq<nat>, base: nat, prp2: nat, size: nat)
    requires size <= 2 * PAGE_SIZE && (size > PAGE_SIZE ==> prp2 == base + PAGE_SIZE)
    ensures Describes(Walk(mem, base, base, prp2, size), base, PAGE_SIZE * if size <= PAGE_SIZE then 1 else 2, 0, size)
  {
  }

  lemma ShortPages(mem: seq<nat>, base: nat, prp2: nat, size: nat)
    requires size <= 2 * PAGE_SIZE
    ensures Walk(mem, base, base, prp2, size).data == if size <= PAGE_SIZE then [base] else [base, prp2]
  {
  }

  class Prp {
    var memory: array<nat>
    var base: nat
    var capacity: nat
    var ptr1: nat
    var ptr2: nat
    var ptrList: seq<nat>
    /** How many list pages the region has. */
    ghost var lists: nat

    /** Sizes the region: PRP1's page, the first list page, 512 pages for every list but the last (511 of data and the
        next list), and the data pages of the last list. */
    static method Sizes(size0: nat) returns (capacity: nat, mode: nat, listCount: nat, lastEntryCount: nat)
      ensures mode == if size0 <= PAGE_SIZE then 1 else if size0 <= 2 * PAGE_SIZE then 2 else 3
      ensures mode != 3 ==> capacity == PAGE_SIZE * mode
      ensures mode == 3 ==>
        && capacity == PAGE_SIZE * (2 + MAX_ENTRIES * (listCount - 1) + lastEntryCount)
        && listCount >= 1 && 1 <= lastEntryCount <= MAX_ENTRIES && (listCount > 1 ==> lastEntryCount >= 2)
        && Pages(size0) - 1 == (MAX_ENTRIES - 1) * (listCount - 1) + lastEntryCount
    {
      listCount, lastEntryCount := 1, 0;
      if size0 <= PAGE_SIZE {
        capacity, mode := PAGE_SIZE, 1;
      } else if size0 <= PAGE_SIZE * 2 {
        capacity, mode := PAGE_SIZE * 2, 2;
      } else {
        mode := 3;
        var size := size0 - PAGE_SIZE;
        capacity := PAGE_SIZE * 2;
        while size > PAGE_SIZE * MAX_ENTRIES
          invariant listCount >= 1 && capacity == PAGE_SIZE * (2 + MAX_ENTRIES * (listCount - 1))
          invariant size == size0 - PAGE_SIZE - PAGE_SIZE * ((MAX_ENTRIES - 1) * (listCount - 1))
          invariant size > if listCount == 1 then 0 else PAGE_SIZE
        {
          listCount := listCount + 1;
          size := size - PAGE_SIZE * (MAX_ENTRIES - 1);
          capacity := capacity + PAGE_SIZE * MAX_ENTRIES;
        }
        lastEntryCount := Pages(size);
        capacity := capacity + PAGE_SIZE * lastEntryCount;
      }
    }

    /** Fills the lists. With 512 entries in the last list, the terminating zero goes to the first word of the page
        behind it, which is that list's first data page. */
    method FillLists(listCount0: nat, lastEntryCount: nat)
      requires listCount0 >= 1 && 1 <= lastEntryCount <= MAX_ENTRIES
      requires memory.Length == MAX_ENTRIES * (2 + MAX_ENTRIES * (listCount0 - 1) + lastEntryCount)
      modifies memory, `ptrList
      ensures FilledUpTo(memory[..], base, listCount0 - 1, lastEntryCount)
      ensures ptrList == old(ptrList) +
        DataPages(base, 2, 2 + MAX_ENTRIES * (listCount0 - 1) + lastEntryCount, listCount0)
    {
      hide Filled, FilledUpTo, DataPages, IsList;
      var listCount := listCount0;
      var listPtr: nat, page: nat, entry: nat := MAX_ENTRIES, 2 * MAX_ENTRIES, 0;
      ghost var k := 0;
      FillNextList(memory[..], base, 0);
      NoDataPages(base, 2, listCount0);
      while listCount != 1 || entry != lastEntryCount
        invariant 1 <= listCount <= listCount0 && k == listCount0 - listCount
        invariant listPtr == MAX_ENTRIES * (1 + MAX_ENTRIES * k)
        invariant page == MAX_ENTRIES * (2 + MAX_ENTRIES * k + entry)
        invariant if listCount == 1 then entry <= lastEntryCount else entry < MAX_ENTRIES - 1
        invariant FilledUpTo(memory[..], base, k, entry)
        invariant ptrList == old(ptrList) + DataPages(base, 2, 2 + MAX_ENTRIES * k + entry, listCount0)
        decreases listCount, MAX_ENTRIES - entry
      {
        var address: nat := base + 8 * page;
        FillNext(memory[..], base, k, entry, address);
        DataPagesAppend(base, 2, 2 + MAX_ENTRIES * k + entry, listCount0);
        KindOfEntry(k, entry, listCount0);
        ghost var before := memory[..];
        memory[listPtr + entry] := address;
        assert memory[..] == before[listPtr + entry := address];
        entry := entry + 1;
        ptrList := ptrList + [address];
        page := page + MAX_ENTRIES;
        if listCount > 1 && entry == MAX_ENTRIES - 1 {
          address := base + 8 * page;
          FillNext(memory[..], base, k, entry, address);
          DataPagesAppend(base, 2, 2 + MAX_ENTRIES * k + entry, listCount0);
          KindOfEntry(k, entry, listCount0);
          before := memory[..];
          memory[listPtr + entry] := address;
          assert memory[..] == before[listPtr + entry := address];
          FillNextList(memory[..], base, k);
          listPtr := page;
          page := page + MAX_ENTRIES;
          listCount := listCount - 1;
          entry := 0;
          k := k + 1;
        }
      }
      FillNext(memory[..], base, k, entry, 0);
      ghost var filled := memory[..];
      memory[listPtr + entry] := 0;
      assert memory[..] == filled[listPtr + entry := 0];
    }

    /** FillLists, as the reader sees it. */
    method FillRegion(size: nat, listCount: nat, lastEntryCount: nat)
      requires size > 2 * PAGE_SIZE && listCount >= 1 && 1 <= lastEntryCount <= MAX_ENTRIES
      requires listCount > 1 ==> lastEntryCount >= 2
      requires Pages(size) - 1 == (MAX_ENTRIES - 1) * (listCount - 1) + lastEntryCount
      requires memory.Length == MAX_ENTRIES * (2 + MAX_ENTRIES * (listCount - 1) + lastEntryCount)
      requires ptrList == [base, base + PAGE_SIZE]
      modifies memory, `ptrList
      ensures var w := Walk(memory[..], base, base, base + PAGE_SIZE, size);
        && Describes(w, base, 8 * memory.Length, listCount, size)
        && ptrList == [base, base + PAGE_SIZE] + w.data[1..] && ptrList != w.data
    {
      hide FilledUpTo, Walk, DataPages, Describes, Pages;
      FillLists(listCount, lastEntryCount);
      WalkRegion(memory[..], base, size, listCount, lastEntryCount);
    }

    /** PRP construction. Whoever follows PRP1 and PRP2 finds the data pages of the transfer, whatever its size; the
        program's own page list agrees with what they find exactly for transfers of at most two pages, since for larger
        ones it holds the first list page as if it were the second data page. */
    constructor (size: nat, base: nat)
      requires base % PAGE_SIZE == 0
      ensures fresh(memory) && 8 * memory.Length == capacity
      ensures lists == 0 <==> size <= 2 * PAGE_SIZE
      ensures Describes(Walk(memory[..], base, ptr1, ptr2, size), base, capacity, lists, size)
      ensures ptrList == Walk(memory[..], base, ptr1, ptr2, size).data <==> size <= 2 * PAGE_SIZE
      ensures size > 2 * PAGE_SIZE ==>
        ptrList == [ptr1, ptr2] + Walk(memory[..], base, ptr1, ptr2, size).data[1..] && ptr2 == base + PAGE_SIZE
    {
      var cap, mode, listCount, lastEntryCount := Sizes(size);
      this.base, capacity := base, cap;
      memory := new nat[cap / 8](_ => 0);
      ptr1, ptr2 := base, 0;
      ptrList := [base];
      lists := if mode == 3 then listCount else 0;
      new;
      hide Walk, Describes;
      if mode != 1 {
        ptr2 := base + PAGE_SIZE;
        ptrList := ptrList + [ptr2];
        if mode == 3 {
          FillRegion(size, listCount, lastEntryCount);
        }
      }
      if mode != 3 {
        WalkShort(memory[..], base, ptr2, size);
        ShortPages(memory[..], base, ptr2, size);
      }
    }
  }
}
