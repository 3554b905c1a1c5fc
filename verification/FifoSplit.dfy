/**
 What the two queues of the DMA FIFO share: requests, the chunks they are cut into, and what it means that a list of
 chunks covers a list of requests.
 */
module FifoSplit {

  /** A buffer of 0 is the null pointer. */
  datatype Request = Request(addr: nat, size: nat, buffer: nat, func: nat)

  datatype Entry = Entry(last: bool, id: nat, addr: nat, size: nat, buffer: nat, func: nat)

  datatype Param = Param(rqSize: nat, wqSize: nat, transferUnit: nat) {
    /** The constructor's sanity check; a zero unit would divide by zero. */
    predicate Ok() {
      0 < transferUnit <= rqSize && transferUnit <= wqSize
    }
  }

  /** How much of a queue an entry takes: whole transfer units, unless it is smaller than one. */
  function CalcSize(p: Param, size: nat): (r: nat)
    requires p.Ok()
  {
    if size < p.transferUnit then size else ((size - 1) / p.transferUnit + 1) * p.transferUnit
  }

  lemma CalcSizeRounds(p: Param, size: nat)
    requires p.Ok()
    ensures size <= CalcSize(p, size) < size + p.transferUnit
    ensures size == p.transferUnit ==> CalcSize(p, size) == size
    ensures p.transferUnit < CalcSize(p, size) ==> p.transferUnit < size
  {
    if size >= p.transferUnit {
      var q, r := (size - 1) / p.transferUnit, (size - 1) % p.transferUnit;
      assert size - 1 == q * p.transferUnit + r;
      assert (q + 1) * p.transferUnit == q * p.transferUnit + p.transferUnit;
      if size == p.transferUnit {
        assert q == 0;
      }
    }
  }

  /** From one unit on, the size counted is the least multiple of the unit that holds the entry; below, it is the entry's. */
  lemma CalcSizeIsLeast(p: Param, size: nat, n: nat)
    requires p.Ok()
    ensures size < p.transferUnit ==> CalcSize(p, size) == size
    ensures size >= p.transferUnit ==> exists k: nat :: CalcSize(p, size) == k * p.transferUnit
    ensures size <= CalcSize(p, size)
    ensures size >= p.transferUnit && size <= n * p.transferUnit ==> CalcSize(p, size) <= n * p.transferUnit
  {
    CalcSizeRounds(p, size);
    if size >= p.transferUnit {
      var k := (size - 1) / p.transferUnit + 1;
      assert CalcSize(p, size) == k * p.transferUnit;
      if size <= n * p.transferUnit && n < k {
        Multiples(n, k - n - 1, p.transferUnit);
      }
    }
  }

  lemma Multiples(n: nat, more: nat, unit: nat)
    ensures (n + more + 1) * unit == n * unit + more * unit + unit && 0 <= more * unit
  {
  }

  function Usage(p: Param, es: seq<Entry>): nat
    requires p.Ok()
  {
    if |es| == 0 then 0 else CalcSize(p, es[0].size) + Usage(p, es[1..])
  }

  lemma {:induction false} UsageAppend(p: Param, es: seq<Entry>, e: Entry)
    requires p.Ok()
    ensures Usage(p, es + [e]) == Usage(p, es) + CalcSize(p, e.size)
  {
    if |es| == 0 {
      assert es + [e] == [e];
    } else {
      assert (es + [e])[0] == es[0] && (es + [e])[1..] == es[1..] + [e];
      UsageAppend(p, es[1..], e);
    }
  }

  function Bytes(es: seq<Entry>): nat {
    if |es| == 0 then 0 else es[0].size + Bytes(es[1..])
  }

  lemma {:induction false} BytesAppend(es: seq<Entry>, e: Entry)
    ensures Bytes(es + [e]) == Bytes(es) + e.size
  {
    if |es| == 0 {
      assert es + [e] == [e];
    } else {
      assert (es + [e])[0] == es[0] && (es + [e])[1..] == es[1..] + [e];
      BytesAppend(es[1..], e);
    }
  }

  /** A request as it arrives: one entry, marked last. */
  function Whole(r: Request): Entry {
    Entry(true, 0, r.addr, r.size, r.buffer, r.func)
  }

  function Advance(buffer: nat, n: nat): nat {
    if buffer == 0 then 0 else buffer + n
  }

  function Head(e: Entry, n: nat): Entry {
    e.(last := false, size := n)
  }

  function Tail(e: Entry, n: nat): Entry
    requires n <= e.size
  {
    e.(last := true, addr := e.addr + n, size := e.size - n, buffer := Advance(e.buffer, n))
  }

  /** The waiting queue with its front cut after n bytes. */
  function Split(wait: seq<Entry>, n: nat): (r: seq<Entry>)
    requires |wait| > 0 && n <= wait[0].size
    ensures |r| == |wait| + 1
  {
    [Head(wait[0], n), Tail(wait[0], n)] + wait[1..]
  }

  // ---------------------------------------------------------------- chunks that cover requests

  function Rest(r: Request, n: nat): Request
    requires n <= r.size
  {
    Request(r.addr + n, r.size - n, Advance(r.buffer, n), r.func)
  }

  /** The chunks cut the requests up, in order: each chunk starts where the request still starts, is not empty, and is
      marked last exactly if it takes all that is left. */
  predicate Tiles(chunks: seq<Entry>, reqs: seq<Request>)
    decreases |chunks|
  {
    if |reqs| == 0 || |chunks| == 0 then |reqs| == 0 && |chunks| == 0
    else
      var c, r := chunks[0], reqs[0];
      && c.addr == r.addr && c.buffer == r.buffer && c.func == r.func
      && 0 < c.size <= r.size
      && (c.last <==> c.size == r.size)
      && Tiles(chunks[1..], if c.last then reqs[1..] else [Rest(r, c.size)] + reqs[1..])
  }

  lemma {:induction false} TilesArrival(chunks: seq<Entry>, reqs: seq<Request>, r: Request)
    requires Tiles(chunks, reqs) && r.size > 0
    ensures Tiles(chunks + [Whole(r)], reqs + [r])
    decreases |chunks|
  {
    if |chunks| == 0 {
      assert chunks + [Whole(r)] == [Whole(r)] && reqs + [r] == [r];
      assert Tiles([], []);
    } else {
      var c := chunks[0];
      var left := if c.last then reqs[1..] else [Rest(reqs[0], c.size)] + reqs[1..];
      TilesArrival(chunks[1..], left, r);
      assert (chunks + [Whole(r)])[1..] == chunks[1..] + [Whole(r)];
      assert (reqs + [r])[1..] == reqs[1..] + [r];
      assert left + [r] == if c.last then (reqs + [r])[1..] else [Rest((reqs + [r])[0], c.size)] + (reqs + [r])[1..];
    }
  }

  lemma {:induction false} TilesSplit(a: seq<Entry>, e: Entry, b: seq<Entry>, reqs: seq<Request>, n: nat)
    requires Tiles(a + ([e] + b), reqs) && e.last && 0 < n < e.size
    ensures Tiles(a + ([Head(e, n), Tail(e, n)] + b), reqs)
    decreases |a|
  {
    var before, after := a + ([e] + b), a + ([Head(e, n), Tail(e, n)] + b);
    if |a| == 0 {
      assert before[1..] == b && after[1..] == [Tail(e, n)] + b && after[1..][1..] == b;
      var left := [Rest(reqs[0], n)] + reqs[1..];
      assert left[1..] == reqs[1..];
    } else {
      assert before[1..] == a[1..] + ([e] + b) && after[1..] == a[1..] + ([Head(e, n), Tail(e, n)] + b);
      TilesSplit(a[1..], e, b, if a[0].last then reqs[1..] else [Rest(reqs[0], a[0].size)] + reqs[1..], n);
    }
  }

  /** Entry ids play no part. */
  lemma {:induction false} TilesRelabel(a: seq<Entry>, e: Entry, b: seq<Entry>, reqs: seq<Request>, id: nat)
    requires Tiles(a + ([e] + b), reqs)
    ensures Tiles(a + ([e.(id := id)] + b), reqs)
    decreases |a|
  {
    var before, after := a + ([e] + b), a + ([e.(id := id)] + b);
    if |a| == 0 {
      assert before[1..] == b && after[1..] == b;
    } else {
      assert before[1..] == a[1..] + ([e] + b) && after[1..] == a[1..] + ([e.(id := id)] + b);
      TilesRelabel(a[1..], e, b, if a[0].last then reqs[1..] else [Rest(reqs[0], a[0].size)] + reqs[1..], id);
    }
  }

  /** The callbacks that finishing these chunks, in this order, fires. */
  function Callbacks(chunks: seq<Entry>): seq<nat> {
    if |chunks| == 0 then []
    else (if chunks[0].last then [chunks[0].func] else []) + Callbacks(chunks[1..])
  }

  function Funcs(reqs: seq<Request>): (r: seq<nat>)
    ensures |r| == |reqs| && forall i :: 0 <= i < |r| ==> r[i] == reqs[i].func
  {
    seq(|reqs|, i requires 0 <= i < |reqs| => reqs[i].func)
  }

  lemma {:induction false} CallbacksConcat(a: seq<Entry>, b: seq<Entry>)
    ensures Callbacks(a + b) == Callbacks(a) + Callbacks(b)
  {
    if |a| == 0 {
      assert a + b == b;
    } else {
      assert (a + b)[0] == a[0] && (a + b)[1..] == a[1..] + b;
      CallbacksConcat(a[1..], b);
    }
  }

  lemma CallbacksOne(a: seq<Entry>, e: Entry)
    ensures Callbacks(a + [e]) == if e.last then Callbacks(a) + [e.func] else Callbacks(a)
  {
    CallbacksConcat(a, [e]);
  }

  /** Every request's callback fires exactly once, in the order of arrival. */
  lemma {:induction false} TilesCallbacks(chunks: seq<Entry>, reqs: seq<Request>)
    requires Tiles(chunks, reqs)
    ensures Callbacks(chunks) == Funcs(reqs)
    decreases |chunks|
  {
    if |chunks| > 0 {
      var c := chunks[0];
      var left := if c.last then reqs[1..] else [Rest(reqs[0], c.size)] + reqs[1..];
      TilesCallbacks(chunks[1..], left);
      if c.last {
        assert Funcs(reqs) == [reqs[0].func] + Funcs(left);
      } else {
        assert Funcs(reqs) == Funcs(left);
      }
    }
  }

  /** Chunks already finished fire the callbacks of the oldest requests. */
  lemma FinishedCallbacks(finished: seq<Entry>, others: seq<Entry>, reqs: seq<Request>)
    requires Tiles(finished + others, reqs)
    ensures Callbacks(finished) <= Funcs(reqs)
  {
    CallbacksConcat(finished, others);
    TilesCallbacks(finished + others, reqs);
  }

  /** One request: the chunks are consecutive, fill it exactly, and only the last is marked last. */
  lemma {:induction false} TilesOne(chunks: seq<Entry>, r: Request)
    requires Tiles(chunks, [r])
    ensures |chunks| > 0 && chunks[0].addr == r.addr && Bytes(chunks) == r.size
    ensures forall k :: 0 <= k < |chunks| ==> chunks[k].size > 0 && (chunks[k].last <==> k == |chunks| - 1)
    ensures forall k :: 0 < k < |chunks| ==> chunks[k].addr == chunks[k - 1].addr + chunks[k - 1].size
    ensures forall k :: 0 <= k < |chunks| ==>
      r.addr <= chunks[k].addr && chunks[k].buffer == Advance(r.buffer, chunks[k].addr - r.addr)
    decreases |chunks|
  {
    var c, tl := chunks[0], chunks[1..];
    if c.last {
      assert [r][1..] == [];
      assert Tiles(tl, []);
    } else {
      assert [Rest(r, c.size)] + [r][1..] == [Rest(r, c.size)];
      TilesOne(tl, Rest(r, c.size));
      forall k | 0 < k < |chunks|
        ensures chunks[k].addr == chunks[k - 1].addr + chunks[k - 1].size
      {
        assert chunks[k] == tl[k - 1] && (k > 1 ==> chunks[k - 1] == tl[k - 2]);
      }
      forall k | 0 <= k < |chunks|
        ensures chunks[k].size > 0 && (chunks[k].last <==> k == |chunks| - 1)
        ensures r.addr <= chunks[k].addr && chunks[k].buffer == Advance(r.buffer, chunks[k].addr - r.addr)
      {
        if k > 0 { assert chunks[k] == tl[k - 1]; }
      }
    }
  }
}
