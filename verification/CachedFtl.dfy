/**
 The write cache in front of the page-mapping FTL: the requests that the cache sends are writes of the FTL, and what the
 host wrote is read back from a line of the cache or, through the mapping, from the flash.
 */
module CachedFtl {
  import opened Ftl
  import opened FtlMapping
  import opened FtlRuns
  import opened WriteCache

  /** The k-th request as the FTL sees it; `collect` decides about garbage after each of them. */
  function Request(x: Sent, collect: State -> Option<seq<nat>>): Op {
    WriteOp(x.page, {x.unit}, _ => x.version, collect)
  }

  function Requests(sent: seq<Sent>, collect: nat -> State -> Option<seq<nat>>): (ops: seq<Op>)
    ensures |ops| == |sent|
  {
    seq(|sent|, k requires 0 <= k < |sent| => Request(sent[k], collect(k)))
  }

  /** The two maps hold the same. */
  ghost predicate SameContents(m: Device, flash: map<(nat, nat), nat>) {
    forall l: nat, u: nat {:trigger (l, u) in m} :: ((l, u) in m <==> (l, u) in flash) && ((l, u) in m ==> m[(l, u)] == flash[(l, u)])
  }

  lemma {:induction false} RunsOn(c: Config, m: Device, ops: seq<Op>, op: Op)
    ensures DeviceRun(c, m, ops + [op]).0 == DeviceApply(c, DeviceRun(c, m, ops).0, op).0
    decreases |ops|
  {
    if |ops| == 0 {
      assert ops + [op] == [op];
      assert DeviceRun(c, DeviceApply(c, m, op).0, [op][1..]).0 == DeviceApply(c, m, op).0;
    } else {
      assert (ops + [op])[0] == ops[0] && (ops + [op])[1..] == ops[1..] + [op];
      RunsOn(c, DeviceApply(c, m, ops[0]).0, ops[1..], op);
    }
  }

  lemma OneRequest(c: Config, m: Device, flash: map<(nat, nat), nat>, x: Sent, collect: State -> Option<seq<nat>>)
    requires c.tweak && x.unit < c.units && SameContents(m, flash)
    ensures SameContents(DeviceApply(c, m, Request(x, collect)).0, flash[(x.page, x.unit) := x.version])
  {
    hide SameContents;
    forall l: nat, u: nat
      ensures var m', flash' := DeviceApply(c, m, Request(x, collect)).0, flash[(x.page, x.unit) := x.version];
        ((l, u) in m' <==> (l, u) in flash') && ((l, u) in m' ==> m'[(l, u)] == flash'[(l, u)])
    {
      DeviceWriteAt(c, m, x.page, {x.unit}, _ => x.version, l, u);
      ContentsAt(m, flash, l, u);
    }
    SameEverywhere(DeviceApply(c, m, Request(x, collect)).0, flash[(x.page, x.unit) := x.version]);
  }

  lemma ContentsAt(m: Device, flash: map<(nat, nat), nat>, l: nat, u: nat)
    requires SameContents(m, flash)
    ensures ((l, u) in m <==> (l, u) in flash) && ((l, u) in m ==> m[(l, u)] == flash[(l, u)])
  {
    assert (l, u) in m || (l, u) !in m;
  }

  lemma SameEverywhere(m: Device, flash: map<(nat, nat), nat>)
    requires forall l: nat, u: nat {:trigger (l, u) in m} ::
      ((l, u) in m <==> (l, u) in flash) && ((l, u) in m ==> m[(l, u)] == flash[(l, u)])
    ensures SameContents(m, flash)
  {
  }

  /** The requests leave in a map what the cache takes the FTL to hold. */
  lemma {:induction false} RequestsStore(c: Config, sent: seq<Sent>, collect: nat -> State -> Option<seq<nat>>)
    requires c.tweak && forall k :: 0 <= k < |sent| ==> sent[k].unit < c.units
    ensures SameContents(DeviceRun(c, map[], Requests(sent, collect)).0, Stored(sent))
    decreases |sent|
  {
    hide SameContents, DeviceApply;
    if |sent| == 0 {
      NothingStored();
    } else {
      var n := |sent| - 1;
      RequestsStore(c, sent[..n], collect);
      assert Requests(sent, collect) == Requests(sent[..n], collect) + [Request(sent[n], collect(n))];
      RunsOn(c, map[], Requests(sent[..n], collect), Request(sent[n], collect(n)));
      OneRequest(c, DeviceRun(c, map[], Requests(sent[..n], collect)).0, Stored(sent[..n]), sent[n], collect(n));
    }
  }

  lemma NothingStored()
    ensures SameContents(map[], map[])
  {
  }

  /** The FTL answers with what the last request for a unit wrote. */
  lemma FtlHasIt(c: Config, s: State, sent: seq<Sent>, collect: nat -> State -> Option<seq<nat>>, page: nat, unit: nat)
    requires c.tweak && unit < c.units && (page, unit) in Stored(sent)
    requires forall k :: 0 <= k < |sent| ==> sent[k].unit < c.units
    requires Inv(c, s) && Refines(c, s, map[]) && forall k: nat :: PolicyOk(c, collect(k))
    requires Run(c, s, Requests(sent, collect)).Running?
    ensures var r := HostRead(c, Run(c, s, Requests(sent, collect)).value.0, page, {unit});
      r.Running? && |r.value| == c.units && r.value[unit] == Some(Stored(sent)[(page, unit)])
  {
    hide Inv, Refines, Run, DeviceRun, PolicyOk, SameContents, Stored, HostRead;
    var ops := Requests(sent, collect);
    forall k | 0 <= k < |ops|
      ensures OpOk(c, ops[k])
    {
      assert PolicyOk(c, collect(k));
    }
    RunRefines(c, s, map[], ops);
    RequestsStore(c, sent, collect);
    var s', m := Run(c, s, ops).value.0, DeviceRun(c, map[], ops).0;
    ReadRefines(c, s', m, page, {unit});
    ContentsAt(m, Stored(sent), page, unit);
  }

  /** Cache and FTL together: take any FTL that holds nothing and let it serve the requests of a cache, collecting garbage
      as it likes. Then every address the host wrote reads back its newest version: from the line that the cache has of
      it, or else from the FTL, which always answers. */
  lemma ReadsThroughBoth(cache: Cache, c: Config, s: State, collect: nat -> State -> Option<seq<nat>>, lca: nat)
    requires cache.Valid() && cache.Logged() && lca in cache.newest
    requires c.tweak && c.units == cache.lineCountInSuperPage
    requires Inv(c, s) && Refines(c, s, map[]) && forall k: nat :: PolicyOk(c, collect(k))
    requires Run(c, s, Requests(cache.sent, collect)).Running?
    ensures if cache.InSomeWay(lca) then cache.ReadsBack(lca, cache.newest[lca])
      else
        var r := HostRead(c, Run(c, s, Requests(cache.sent, collect)).value.0, lca / c.units, {lca % c.units});
        r.Running? && |r.value| == c.units && r.value[lca % c.units] == Some(cache.newest[lca])
  {
    hide Inv, Refines, Run, PolicyOk, Stored, HostRead, Requests, Cache.Safe, Cache.NoSlots;
    cache.ReadsNewest(lca);
    if !cache.InSomeWay(lca) {
      FtlHasIt(c, s, cache.sent, collect, lca / c.units, lca % c.units);
    }
  }
}
