/**
 NAND address translation: a super block index and a unit of its super page name one physical page.
 */
module NandAddress {
  import opened MixedRadix

  // Dimension numbers, in the order in which PAL lists them.
  const CHANNEL := 0
  const PACKAGE := 1
  const DIE := 2
  const PLANE := 3

  /** `order` is the page-allocation order, `inSuper[d]` whether dimension d is part of the super block. */
  datatype Geometry = Geometry(size: seq<nat>, block: nat, page: nat, order: seq<nat>, inSuper: seq<bool>, multiPlane: bool) {

    ghost predicate Ok() {
      && |size| == 4 && |inSuper| == 4 && Positive(size) && 0 < block
      && |order| == 4
      && (forall k :: 0 <= k < 4 ==> order[k] < 4)
      && (forall j, k :: 0 <= j < k < 4 ==> order[j] != order[k])
    }

    /** The plane dimension is not addressed in multi-plane mode. */
    predicate Skipped(d: nat) {
      d == PLANE && multiPlane
    }

    /** Dimensions that the block index spells out. */
    predicate Direct(d: nat)
      requires d < |inSuper|
    {
      !Skipped(d) && !inSuper[d]
    }

    /** Dimensions that the unit index spells out. */
    predicate Deferred(d: nat)
      requires d < |inSuper|
    {
      !Skipped(d) && inSuper[d]
    }

    function Directs(ds: seq<nat>): (r: seq<nat>)
      requires forall k :: 0 <= k < |ds| ==> ds[k] < |inSuper|
      ensures forall k :: 0 <= k < |r| ==> r[k] in ds && Direct(r[k])
      ensures |r| <= |ds|
    {
      if |ds| == 0 then []
      else
        var init, last := ds[..|ds| - 1], ds[|ds| - 1];
        Directs(init) + if Direct(last) then [last] else []
    }

    function Deferreds(ds: seq<nat>): (r: seq<nat>)
      requires forall k :: 0 <= k < |ds| ==> ds[k] < |inSuper|
      ensures forall k :: 0 <= k < |r| ==> r[k] in ds && Deferred(r[k])
      ensures |r| <= |ds|
    {
      if |ds| == 0 then []
      else
        var init, last := ds[..|ds| - 1], ds[|ds| - 1];
        Deferreds(init) + if Deferred(last) then [last] else []
    }

    function Sizes(ds: seq<nat>): (r: seq<nat>)
      requires forall k :: 0 <= k < |ds| ==> ds[k] < |size|
      ensures |r| == |ds| && forall k :: 0 <= k < |ds| ==> r[k] == size[ds[k]]
    {
      seq(|ds|, k requires 0 <= k < |ds| => size[ds[k]])
    }
  }

  // ---------------------------------------------------------------- the size of the two index spaces

  /** The factor a dimension contributes to the number of block positions, or to the units of a super page. */
  function DirectFactor(g: Geometry, d: nat): nat
    requires d < |g.inSuper| && d < |g.size|
  {
    if g.Direct(d) then g.size[d] else 1
  }

  function DeferredFactor(g: Geometry, d: nat): nat
    requires d < |g.inSuper| && d < |g.size|
  {
    if g.Deferred(d) then g.size[d] else 1
  }

  lemma SizesAppend(g: Geometry, ds: seq<nat>, d: nat)
    requires d < |g.size| && forall k :: 0 <= k < |ds| ==> ds[k] < |g.size|
    ensures Product(g.Sizes(ds + [d])) == Product(g.Sizes(ds)) * g.size[d]
  {
    assert g.Sizes(ds + [d]) == g.Sizes(ds) + [g.size[d]];
    ProductAppend(g.Sizes(ds), g.size[d]);
  }

  function DirectCount(g: Geometry, ds: seq<nat>): nat
    requires |g.inSuper| == 4 && |g.size| == 4 && forall k :: 0 <= k < |ds| ==> ds[k] < 4
  {
    Product(g.Sizes(g.Directs(ds)))
  }

  function DeferredCount(g: Geometry, ds: seq<nat>): nat
    requires |g.inSuper| == 4 && |g.size| == 4 && forall k :: 0 <= k < |ds| ==> ds[k] < 4
  {
    Product(g.Sizes(g.Deferreds(ds)))
  }

  lemma DirectsAppend(g: Geometry, ds: seq<nat>, d: nat)
    requires |g.inSuper| == 4 && |g.size| == 4 && d < 4 && forall k :: 0 <= k < |ds| ==> ds[k] < 4
    ensures DirectCount(g, ds + [d]) == DirectCount(g, ds) * DirectFactor(g, d)
  {
    hide Product;
    assert (ds + [d])[..|ds|] == ds;
    if g.Direct(d) {
      SizesAppend(g, g.Directs(ds), d);
    } else {
      assert g.Directs(ds + [d]) == g.Directs(ds);
    }
  }

  lemma DeferredsAppend(g: Geometry, ds: seq<nat>, d: nat)
    requires |g.inSuper| == 4 && |g.size| == 4 && d < 4 && forall k :: 0 <= k < |ds| ==> ds[k] < 4
    ensures DeferredCount(g, ds + [d]) == DeferredCount(g, ds) * DeferredFactor(g, d)
  {
    hide Product;
    assert (ds + [d])[..|ds|] == ds;
    if g.Deferred(d) {
      SizesAppend(g, g.Deferreds(ds), d);
    } else {
      assert g.Deferreds(ds + [d]) == g.Deferreds(ds);
    }
  }

  /** The numbers of block positions and of units do not depend on the allocation order. */
  lemma IndexSpaces(g: Geometry)
    requires g.Ok()
    ensures DirectCount(g, g.order)
         == DirectFactor(g, CHANNEL) * DirectFactor(g, PACKAGE) * DirectFactor(g, DIE) * DirectFactor(g, PLANE)
    ensures DeferredCount(g, g.order)
         == DeferredFactor(g, CHANNEL) * DeferredFactor(g, PACKAGE) * DeferredFactor(g, DIE) * DeferredFactor(g, PLANE)
  {
    hide DirectFactor, DeferredFactor, DirectCount, DeferredCount;
    var a, b, c, d := g.order[0], g.order[1], g.order[2], g.order[3];
    var f := [DirectFactor(g, 0), DirectFactor(g, 1), DirectFactor(g, 2), DirectFactor(g, 3)];
    var h := [DeferredFactor(g, 0), DeferredFactor(g, 1), DeferredFactor(g, 2), DeferredFactor(g, 3)];
    assert f[a] == DirectFactor(g, a) && f[b] == DirectFactor(g, b) && f[c] == DirectFactor(g, c) && f[d] == DirectFactor(g, d);
    assert h[a] == DeferredFactor(g, a) && h[b] == DeferredFactor(g, b) && h[c] == DeferredFactor(g, c) && h[d] == DeferredFactor(g, d);
    FourFactors(f, a, b, c, d);
    FourFactors(h, a, b, c, d);
    CountsInOrder(g, a, b, c, d);
    assert g.order == [] + [a] + [b] + [c] + [d];
  }

  lemma NoDimensions(g: Geometry)
    requires |g.inSuper| == 4 && |g.size| == 4
    ensures DirectCount(g, []) == 1 && DeferredCount(g, []) == 1
  {
    assert g.Sizes([]) == [];
  }

  lemma CountsInOrder(g: Geometry, a: nat, b: nat, c: nat, d: nat)
    requires |g.inSuper| == 4 && |g.size| == 4 && a < 4 && b < 4 && c < 4 && d < 4
    ensures DirectCount(g, [] + [a] + [b] + [c] + [d]) == DirectFactor(g, a) * DirectFactor(g, b) * DirectFactor(g, c) * DirectFactor(g, d)
    ensures DeferredCount(g, [] + [a] + [b] + [c] + [d])
         == DeferredFactor(g, a) * DeferredFactor(g, b) * DeferredFactor(g, c) * DeferredFactor(g, d)
  {
    hide DirectFactor, DeferredFactor, DirectCount, DeferredCount;
    NoDimensions(g);
    DirectsAppend(g, [], a);
    DirectsAppend(g, [] + [a], b);
    DirectsAppend(g, [] + [a] + [b], c);
    DirectsAppend(g, [] + [a] + [b] + [c], d);
    DeferredsAppend(g, [], a);
    DeferredsAppend(g, [] + [a], b);
    DeferredsAppend(g, [] + [a] + [b], c);
    DeferredsAppend(g, [] + [a] + [b] + [c], d);
  }

  /** PAL's derived parameters. */
  datatype Derived = Derived(superBlock: nat, superPageSize: nat, pageInSuperPage: nat)

  /** The constructor of PAL, dimension by dimension. The derived counts are the sizes of the two index spaces that
      address translation decomposes. */
  method DeriveParameters(g: Geometry, pageSize: nat) returns (p: Derived)
    requires g.Ok() && 0 < pageSize
    ensures p.superBlock == g.block * DirectCount(g, g.order)
    ensures p.pageInSuperPage == DeferredCount(g, g.order)
  {
    var superBlock, superPageSize := g.block, pageSize;
    superBlock, superPageSize := MultiplyUp(g, CHANNEL, superBlock, superPageSize);
    superBlock, superPageSize := MultiplyUp(g, PACKAGE, superBlock, superPageSize);
    superBlock, superPageSize := MultiplyUp(g, DIE, superBlock, superPageSize);
    ghost var direct := DirectFactor(g, CHANNEL) * DirectFactor(g, PACKAGE) * DirectFactor(g, DIE);
    ghost var deferred := DeferredFactor(g, CHANNEL) * DeferredFactor(g, PACKAGE) * DeferredFactor(g, DIE);
    ScaledTwice(g.block, DirectFactor(g, CHANNEL), DirectFactor(g, PACKAGE), DirectFactor(g, DIE));
    ScaledTwice(pageSize, DeferredFactor(g, CHANNEL), DeferredFactor(g, PACKAGE), DeferredFactor(g, DIE));
    assert superBlock == g.block * direct && superPageSize == pageSize * deferred;
    p := FinishParameters(g, pageSize, superBlock, superPageSize, direct, deferred);
    IndexSpaces(g);
  }

  /** One dimension other than the plane: it widens the super page or multiplies the super blocks. */
  method MultiplyUp(g: Geometry, d: nat, superBlock: nat, superPageSize: nat) returns (superBlock': nat, superPageSize': nat)
    requires g.Ok() && d < PLANE
    ensures superBlock' == superBlock * DirectFactor(g, d) && superPageSize' == superPageSize * DeferredFactor(g, d)
  {
    superBlock', superPageSize' := superBlock, superPageSize;
    if g.inSuper[d] {
      superPageSize' := superPageSize * g.size[d];
    } else {
      superBlock' := superBlock * g.size[d];
    }
  }

  /** The plane dimension, which multi-plane mode takes out of the page count again. */
  method FinishParameters(g: Geometry, pageSize: nat, superBlock: nat, superPageSize: nat, ghost direct: nat, ghost deferred: nat)
    returns (p: Derived)
    requires g.Ok() && 0 < pageSize && superBlock == g.block * direct && superPageSize == pageSize * deferred
    ensures p.superBlock == g.block * (direct * DirectFactor(g, PLANE))
    ensures p.pageInSuperPage == deferred * DeferredFactor(g, PLANE)
  {
    var plane := g.size[PLANE];
    PagesPerSuperPage(pageSize, deferred, plane);
    Associate(g.block, direct, DirectFactor(g, PLANE));
    var blocks, bytes := superBlock, superPageSize;
    if g.multiPlane || g.inSuper[PLANE] {
      bytes := bytes * plane;
    } else {
      blocks := blocks * plane;
    }
    var pages := bytes / pageSize;
    if g.multiPlane {
      pages := pages / plane;
    }
    p := Derived(blocks, bytes, pages);
  }

  lemma ScaledTwice(n: nat, a: nat, b: nat, c: nat)
    ensures n * a * b * c == n * (a * b * c)
  {
    Bring(n, a, b, c);
  }

  lemma PagesPerSuperPage(pageSize: nat, units: nat, plane: nat)
    requires 0 < pageSize && 0 < plane
    ensures (pageSize * units) / pageSize == units
    ensures (pageSize * units * plane) / pageSize == units * plane
    ensures (units * plane) / plane == units
  {
    DivMod(pageSize * units, pageSize, 0, units);
    Associate(pageSize, units, plane);
    DivMod(pageSize * units * plane, pageSize, 0, units * plane);
    DivMod(units * plane, plane, 0, units);
  }

  // ---------------------------------------------------------------- addresses

  /** `digit[d]` is the position along dimension d. */
  datatype Addr = Addr(digit: seq<nat>, block: nat, page: nat)

  /** Write the digits xs at the dimensions ds. */
  function Place(digit: seq<nat>, ds: seq<nat>, xs: seq<nat>): (r: seq<nat>)
    requires |xs| == |ds| && forall k :: 0 <= k < |ds| ==> ds[k] < |digit|
    ensures |r| == |digit|
    ensures forall d :: 0 <= d < |digit| && d !in ds ==> r[d] == digit[d]
  {
    if |ds| == 0 then digit
    else Place(digit, ds[..|ds| - 1], xs[..|ds| - 1])[ds[|ds| - 1] := xs[|ds| - 1]]
  }

  function Pick(digit: seq<nat>, ds: seq<nat>): (xs: seq<nat>)
    requires forall k :: 0 <= k < |ds| ==> ds[k] < |digit|
    ensures |xs| == |ds| && forall k :: 0 <= k < |ds| ==> xs[k] == digit[ds[k]]
  {
    seq(|ds|, k requires 0 <= k < |ds| => digit[ds[k]])
  }

  ghost predicate Different(ds: seq<nat>) {
    forall j, k :: 0 <= j < k < |ds| ==> ds[j] != ds[k]
  }

  lemma {:induction false} PlacedIsPicked(digit: seq<nat>, ds: seq<nat>, xs: seq<nat>)
    requires |xs| == |ds| && Different(ds) && forall k :: 0 <= k < |ds| ==> ds[k] < |digit|
    ensures Pick(Place(digit, ds, xs), ds) == xs
  {
    if |ds| > 0 {
      var n := |ds| - 1;
      PlacedIsPicked(digit, ds[..n], xs[..n]);
      var inner := Place(digit, ds[..n], xs[..n]);
      assert Place(digit, ds, xs) == inner[ds[n] := xs[n]];
      hide Place;
      forall k | 0 <= k < |ds|
        ensures inner[ds[n] := xs[n]][ds[k]] == xs[k]
      {
        if k < n {
          assert Pick(inner, ds[..n])[k] == xs[..n][k];
        }
      }
    }
  }

  /** The address of unit u of page `page` of super block b: the block index spells out the dimensions outside the
      super block, the unit index those inside it. */
  function Address(g: Geometry, b: nat, page: nat, u: nat): Addr
    requires g.Ok()
  {
    var direct, deferred := g.Directs(g.order), g.Deferreds(g.order);
    var outer := Place([0, 0, 0, 0], direct, Digits(g.Sizes(direct), b));
    Addr(Place(outer, deferred, Digits(g.Sizes(deferred), u)), Rest(g.Sizes(direct), b), page)
  }

  /** Where an address comes from. */
  function Locate(g: Geometry, a: Addr): (nat, nat)
    requires g.Ok() && |a.digit| == 4
  {
    var direct, deferred := g.Directs(g.order), g.Deferreds(g.order);
    (Compose(g.Sizes(direct), Pick(a.digit, direct), a.block), Compose(g.Sizes(deferred), Pick(a.digit, deferred), 0))
  }

  /** The physical pages of the device; in multi-plane mode only plane 0 is addressed. */
  ghost predicate OnDevice(g: Geometry, a: Addr) {
    && |a.digit| == 4 == |g.size| && a.block < g.block
    && (forall d :: 0 <= d < 4 ==> a.digit[d] < g.size[d])
    && (g.multiPlane ==> a.digit[PLANE] == 0)
  }

  function SuperBlocks(g: Geometry): nat
    requires g.Ok()
  {
    g.block * DirectCount(g, g.order)
  }

  function UnitsPerPage(g: Geometry): nat
    requires g.Ok()
  {
    DeferredCount(g, g.order)
  }

  lemma {:induction false} DifferentDirects(g: Geometry, ds: seq<nat>)
    requires |g.inSuper| == 4 && Different(ds) && forall k :: 0 <= k < |ds| ==> ds[k] < 4
    ensures Different(g.Directs(ds))
  {
    if |ds| > 0 {
      var init, last := ds[..|ds| - 1], ds[|ds| - 1];
      DifferentDirects(g, init);
      assert last !in init;
    }
  }

  lemma {:induction false} DifferentDeferreds(g: Geometry, ds: seq<nat>)
    requires |g.inSuper| == 4 && Different(ds) && forall k :: 0 <= k < |ds| ==> ds[k] < 4
    ensures Different(g.Deferreds(ds))
  {
    if |ds| > 0 {
      var init, last := ds[..|ds| - 1], ds[|ds| - 1];
      DifferentDeferreds(g, init);
      assert last !in init;
    }
  }

  lemma {:induction false} FilterCovers(g: Geometry, ds: seq<nat>, d: nat)
    requires |g.inSuper| == 4 && d in ds && forall k :: 0 <= k < |ds| ==> ds[k] < 4
    ensures d in g.Directs(ds) || d in g.Deferreds(ds) || g.Skipped(d)
  {
    var init, last := ds[..|ds| - 1], ds[|ds| - 1];
    assert ds == init + [last];
    if d in init {
      FilterCovers(g, init, d);
    }
  }

  lemma FilterFacts(g: Geometry, ds: seq<nat>)
    requires |g.inSuper| == 4 && Different(ds) && forall k :: 0 <= k < |ds| ==> ds[k] < 4
    ensures Different(g.Directs(ds)) && Different(g.Deferreds(ds))
    ensures forall d :: d in g.Directs(ds) ==> d !in g.Deferreds(ds)
    ensures forall d :: d in ds ==> d in g.Directs(ds) || d in g.Deferreds(ds) || g.Skipped(d)
  {
    DifferentDirects(g, ds);
    DifferentDeferreds(g, ds);
    forall d | d in ds
      ensures d in g.Directs(ds) || d in g.Deferreds(ds) || g.Skipped(d)
    {
      FilterCovers(g, ds, d);
    }
  }

  lemma EveryDimension(g: Geometry, d: nat)
    requires g.Ok() && d < 4
    ensures d in g.order
  {
    var a, b, c, e := g.order[0], g.order[1], g.order[2], g.order[3];
  }

  lemma PlaceTwice(digit: seq<nat>, ds: seq<nat>, xs: seq<nat>, es: seq<nat>, ys: seq<nat>)
    requires |xs| == |ds| && Different(ds) && forall k :: 0 <= k < |ds| ==> ds[k] < |digit|
    requires |ys| == |es| && Different(es) && forall k :: 0 <= k < |es| ==> es[k] < |digit|
    requires forall d :: d in ds ==> d !in es
    ensures var r := Place(Place(digit, ds, xs), es, ys);
      Pick(r, ds) == xs && Pick(r, es) == ys
  {
    hide Different;
    var outer := Place(digit, ds, xs);
    PlacedIsPicked(digit, ds, xs);
    PlacedIsPicked(outer, es, ys);
    var r := Place(outer, es, ys);
    forall k | 0 <= k < |ds|
      ensures r[ds[k]] == xs[k]
    {
      assert Pick(outer, ds)[k] == xs[k];
    }
    assert Pick(r, ds) == xs;
  }

  /** The digits placed in an address, read back. */
  lemma AddressDigits(g: Geometry, b: nat, page: nat, u: nat)
    requires g.Ok()
    ensures Pick(Address(g, b, page, u).digit, g.Directs(g.order)) == Digits(g.Sizes(g.Directs(g.order)), b)
    ensures Pick(Address(g, b, page, u).digit, g.Deferreds(g.order)) == Digits(g.Sizes(g.Deferreds(g.order)), u)
  {
    var direct, deferred := g.Directs(g.order), g.Deferreds(g.order);
    FilterFacts(g, g.order);
    hide Digits, Place, Pick, Different, Geometry.Directs, Geometry.Deferreds;
    PlaceTwice([0, 0, 0, 0], direct, Digits(g.Sizes(direct), b), deferred, Digits(g.Sizes(deferred), u));
  }

  lemma SkippedDigits(g: Geometry, b: nat, page: nat, u: nat)
    requires g.Ok()
    ensures g.multiPlane ==> Address(g, b, page, u).digit[PLANE] == 0
  {
    hide Digits, Place;
  }

  lemma RadicesPositive(g: Geometry)
    requires g.Ok()
    ensures Positive(g.Sizes(g.Directs(g.order))) && Positive(g.Sizes(g.Deferreds(g.order)))
  {
  }

  lemma DigitsInRange(g: Geometry, digit: seq<nat>)
    requires g.Ok() && |digit| == 4
    requires Below(Pick(digit, g.Directs(g.order)), g.Sizes(g.Directs(g.order)))
    requires Below(Pick(digit, g.Deferreds(g.order)), g.Sizes(g.Deferreds(g.order)))
    requires g.multiPlane ==> digit[PLANE] == 0
    ensures forall d :: 0 <= d < 4 ==> digit[d] < g.size[d]
  {
    var direct, deferred := g.Directs(g.order), g.Deferreds(g.order);
    FilterFacts(g, g.order);
    forall d: nat | d < 4
      ensures digit[d] < g.size[d]
    {
      EveryDimension(g, d);
      if d in direct {
        var k :| 0 <= k < |direct| && direct[k] == d;
        assert Pick(digit, direct)[k] < g.Sizes(direct)[k];
      } else if d in deferred {
        var k :| 0 <= k < |deferred| && deferred[k] == d;
        assert Pick(digit, deferred)[k] < g.Sizes(deferred)[k];
      }
    }
  }

  lemma {:induction false} DirectAt(g: Geometry, ds: seq<nat>, i: nat)
    requires |g.inSuper| == 4 && i < |ds| && g.Ok() && forall k :: 0 <= k < |ds| ==> ds[k] < 4
    ensures var n := |g.Directs(ds[..i])|;
      g.Direct(ds[i]) ==> n < |g.Directs(ds)| && g.Directs(ds)[n] == ds[i] && g.Directs(ds)[..n] == g.Directs(ds[..i])
  {
    var init := ds[..|ds| - 1];
    if i < |init| {
      DirectAt(g, init, i);
      assert init[..i] == ds[..i] && init[i] == ds[i];
    }
  }

  lemma {:induction false} DeferredAt(g: Geometry, ds: seq<nat>, i: nat)
    requires |g.inSuper| == 4 && i < |ds| && g.Ok() && forall k :: 0 <= k < |ds| ==> ds[k] < 4
    ensures var n := |g.Deferreds(ds[..i])|;
      g.Deferred(ds[i]) ==> n < |g.Deferreds(ds)| && g.Deferreds(ds)[n] == ds[i] && g.Deferreds(ds)[..n] == g.Deferreds(ds[..i])
  {
    var init := ds[..|ds| - 1];
    if i < |init| {
      DeferredAt(g, init, i);
      assert init[..i] == ds[..i] && init[i] == ds[i];
    }
  }

  lemma SizesPrefix(g: Geometry, ds: seq<nat>, es: seq<nat>)
    requires g.Ok() && |es| <= |ds| && ds[..|es|] == es && forall k :: 0 <= k < |ds| ==> ds[k] < 4
    ensures g.Sizes(ds)[..|es|] == g.Sizes(es)
  {
  }

  lemma PositiveSizes(g: Geometry, ds: seq<nat>)
    requires g.Ok() && forall k :: 0 <= k < |ds| ==> ds[k] < 4
    ensures Positive(g.Sizes(ds)) && 0 < Product(g.Sizes(ds))
  {
    ProductPositive(g.Sizes(ds));
  }

  /** A digit over the sizes of some dimensions, by division. */
  lemma DigitOver(g: Geometry, ds: seq<nat>, es: seq<nat>, n: nat, d: nat)
    requires g.Ok() && |es| < |ds| && ds[..|es|] == es && ds[|es|] == d && forall k :: 0 <= k < |ds| ==> ds[k] < 4
    ensures Positive(g.Sizes(ds)) && 0 < Product(g.Sizes(es)) && 0 < g.size[d]
    ensures Digits(g.Sizes(ds), n)[|es|] == n / Product(g.Sizes(es)) % g.size[d]
  {
    hide Digits, Product;
    PositiveSizes(g, ds);
    SizesPrefix(g, ds, es);
    DigitAt(g.Sizes(ds), n, |es|);
  }

  lemma DirectDigit(g: Geometry, b: nat, page: nat, u: nat, i: nat)
    requires g.Ok() && i < 4 && g.Direct(g.order[i])
    ensures 0 < DirectCount(g, g.order[..i]) && 0 < g.size[g.order[i]]
    ensures Address(g, b, page, u).digit[g.order[i]] == b / DirectCount(g, g.order[..i]) % g.size[g.order[i]]
  {
    var d, digit, ds := g.order[i], Address(g, b, page, u).digit, g.Directs(g.order);
    AddressDigits(g, b, page, u);
    DirectAt(g, g.order, i);
    hide Digits, Product, Place, Address, Geometry.Directs, Geometry.Deferreds;
    DigitOver(g, ds, g.Directs(g.order[..i]), b, d);
    assert Pick(digit, ds)[|g.Directs(g.order[..i])|] == digit[d];
  }

  lemma DeferredDigit(g: Geometry, b: nat, page: nat, u: nat, i: nat)
    requires g.Ok() && i < 4 && g.Deferred(g.order[i])
    ensures 0 < DeferredCount(g, g.order[..i]) && 0 < g.size[g.order[i]]
    ensures Address(g, b, page, u).digit[g.order[i]] == u / DeferredCount(g, g.order[..i]) % g.size[g.order[i]]
  {
    var d, digit, ds := g.order[i], Address(g, b, page, u).digit, g.Deferreds(g.order);
    AddressDigits(g, b, page, u);
    DeferredAt(g, g.order, i);
    hide Digits, Product, Place, Address, Geometry.Directs, Geometry.Deferreds;
    DigitOver(g, ds, g.Deferreds(g.order[..i]), u, d);
    assert Pick(digit, ds)[|g.Deferreds(g.order[..i])|] == digit[d];
  }

  /** The position along the i-th dimension of the allocation order, by division: of the block index outside the super
      block, of the unit index inside it, and in either case by the dimensions of the same kind that come before. */
  lemma AddressByDivision(g: Geometry, b: nat, page: nat, u: nat, i: nat)
    requires g.Ok() && i < 4
    ensures var d, a := g.order[i], Address(g, b, page, u);
      && 0 < DirectCount(g, g.order[..i]) && 0 < DeferredCount(g, g.order[..i]) && 0 < DirectCount(g, g.order) && 0 < g.size[d]
      && a.digit[d] == (
           if g.Direct(d) then b / DirectCount(g, g.order[..i]) % g.size[d]
           else if g.Deferred(d) then u / DeferredCount(g, g.order[..i]) % g.size[d]
           else 0)
      && a.block == b / DirectCount(g, g.order) && a.page == page
  {
    PositiveSizes(g, g.Directs(g.order[..i]));
    PositiveSizes(g, g.Deferreds(g.order[..i]));
    SkippedDigits(g, b, page, u);
    BlockByDivision(g, b, page, u);
    hide Address, Product, Geometry.Directs, Geometry.Deferreds;
    if g.Direct(g.order[i]) {
      DirectDigit(g, b, page, u, i);
    } else if g.Deferred(g.order[i]) {
      DeferredDigit(g, b, page, u, i);
    }
  }

  lemma BlockByDivision(g: Geometry, b: nat, page: nat, u: nat)
    requires g.Ok()
    ensures 0 < DirectCount(g, g.order)
    ensures Address(g, b, page, u).block == b / DirectCount(g, g.order) && Address(g, b, page, u).page == page
  {
    PositiveSizes(g, g.Directs(g.order));
    RestIsQuotient(g.Sizes(g.Directs(g.order)), b);
  }

  /** One way round: the units of a super page are found again from their addresses. */
  lemma LocateOfAddress(g: Geometry, b: nat, page: nat, u: nat)
    requires g.Ok() && b < SuperBlocks(g) && u < UnitsPerPage(g)
    ensures var a := Address(g, b, page, u);
      OnDevice(g, a) && a.page == page && Locate(g, a) == (b, u)
  {
    hide Digits, Compose, Rest, Product, Place, Pick, Positive, Below, Geometry.Directs, Geometry.Deferreds, Geometry.Sizes;
    AddressDigits(g, b, page, u);
    SkippedDigits(g, b, page, u);
    RadicesPositive(g);
    var vs, ws := g.Sizes(g.Directs(g.order)), g.Sizes(g.Deferreds(g.order));
    ComposeOfDigits(vs, b);
    ComposeOfDigits(ws, u);
    RestBelow(vs, b, g.block);
    RestBelow(ws, u, 1);
    DigitsInRange(g, Address(g, b, page, u).digit);
    assert Product(vs) * g.block == g.block * Product(vs);
    assert Rest(ws, u) == 0;
  }

  lemma SamePick(a: seq<nat>, z: seq<nat>, ds: seq<nat>, d: nat)
    requires forall k :: 0 <= k < |ds| ==> ds[k] < |a| && ds[k] < |z|
    requires Pick(a, ds) == Pick(z, ds) && d in ds
    ensures a[d] == z[d]
  {
    var k :| 0 <= k < |ds| && ds[k] == d;
    assert Pick(a, ds)[k] == Pick(z, ds)[k];
  }

  lemma SameDigits(g: Geometry, a: seq<nat>, z: seq<nat>)
    requires g.Ok() && |a| == |z| == 4
    requires Pick(a, g.Directs(g.order)) == Pick(z, g.Directs(g.order))
    requires Pick(a, g.Deferreds(g.order)) == Pick(z, g.Deferreds(g.order))
    requires g.multiPlane ==> a[PLANE] == z[PLANE]
    ensures a == z
  {
    hide Geometry.Directs, Geometry.Deferreds, Pick;
    var direct, deferred := g.Directs(g.order), g.Deferreds(g.order);
    FilterFacts(g, g.order);
    forall d: nat | d < 4
      ensures a[d] == z[d]
    {
      EveryDimension(g, d);
      if d in direct {
        SamePick(a, z, direct, d);
      } else if d in deferred {
        SamePick(a, z, deferred, d);
      }
    }
  }

  lemma PicksInRange(g: Geometry, a: Addr)
    requires g.Ok() && OnDevice(g, a)
    ensures Below(Pick(a.digit, g.Directs(g.order)), g.Sizes(g.Directs(g.order)))
    ensures Below(Pick(a.digit, g.Deferreds(g.order)), g.Sizes(g.Deferreds(g.order)))
  {
  }

  lemma BlockBound(g: Geometry, b: nat)
    requires g.Ok()
    ensures Positive(g.Sizes(g.Directs(g.order)))
    ensures Rest(g.Sizes(g.Directs(g.order)), b) < g.block <==> b < SuperBlocks(g)
  {
    RadicesPositive(g);
    var vs := g.Sizes(g.Directs(g.order));
    RestBelow(vs, b, g.block);
    Turn(Product(vs), g.block);
    hide Rest, Product, Positive, Geometry.Directs, Geometry.Sizes;
  }

  lemma Turn(a: nat, b: nat)
    ensures a * b == b * a
  {
  }

  lemma UnitBound(g: Geometry, u: nat)
    requires g.Ok()
    ensures Positive(g.Sizes(g.Deferreds(g.order)))
    ensures Rest(g.Sizes(g.Deferreds(g.order)), u) == 0 <==> u < UnitsPerPage(g)
  {
    RadicesPositive(g);
    RestBelow(g.Sizes(g.Deferreds(g.order)), u, 1);
    hide Rest, Product, Positive, Geometry.Deferreds, Geometry.Sizes;
  }

  lemma LocateDigits(g: Geometry, a: Addr)
    requires g.Ok() && OnDevice(g, a)
    ensures Positive(g.Sizes(g.Directs(g.order))) && Positive(g.Sizes(g.Deferreds(g.order)))
    ensures var (b, u) := Locate(g, a);
      && b < SuperBlocks(g) && u < UnitsPerPage(g)
      && Digits(g.Sizes(g.Directs(g.order)), b) == Pick(a.digit, g.Directs(g.order))
      && Rest(g.Sizes(g.Directs(g.order)), b) == a.block
      && Digits(g.Sizes(g.Deferreds(g.order)), u) == Pick(a.digit, g.Deferreds(g.order))
  {
    var (b, u) := Locate(g, a);
    RadicesPositive(g);
    PicksInRange(g, a);
    var vs, ws := g.Sizes(g.Directs(g.order)), g.Sizes(g.Deferreds(g.order));
    var xs, ys := Pick(a.digit, g.Directs(g.order)), Pick(a.digit, g.Deferreds(g.order));
    BlockBound(g, b);
    UnitBound(g, u);
    DigitsOfCompose(vs, xs, a.block);
    DigitsOfCompose(ws, ys, 0);
    hide Digits, Compose, Rest, Product, Pick, Positive, Below, SuperBlocks, UnitsPerPage;
    hide Geometry.Directs, Geometry.Deferreds, Geometry.Sizes;
  }

  /** The other way round: every physical page of the device is the address of exactly the unit it locates. */
  lemma AddressOfLocate(g: Geometry, a: Addr)
    requires g.Ok() && OnDevice(g, a)
    ensures var (b, u) := Locate(g, a);
      b < SuperBlocks(g) && u < UnitsPerPage(g) && Address(g, b, a.page, u) == a
  {
    var (b, u) := Locate(g, a);
    LocateDigits(g, a);
    AddressDigits(g, b, a.page, u);
    SkippedDigits(g, b, a.page, u);
    hide Locate, Digits, Rest, Place, Pick, Positive, Geometry.Directs, Geometry.Deferreds, Geometry.Sizes;
    SameDigits(g, Address(g, b, a.page, u).digit, a.digit);
  }

  /** Two units lie on the same parallel unit of the device exactly when they have the same unit index and their
      block indices agree modulo pageCountToMaxPerf, the number of super blocks per block of a plane. */
  lemma SameParallelUnitIff(g: Geometry, b1: nat, u1: nat, b2: nat, u2: nat, page: nat)
    requires g.Ok() && b1 < SuperBlocks(g) && b2 < SuperBlocks(g) && u1 < UnitsPerPage(g) && u2 < UnitsPerPage(g)
    ensures var perf := SuperBlocks(g) / g.block;
      && 0 < perf
      && (Address(g, b1, page, u1).digit == Address(g, b2, page, u2).digit <==> u1 == u2 && b1 % perf == b2 % perf)
  {
    var direct, deferred := g.Directs(g.order), g.Deferreds(g.order);
    var vs, ws := g.Sizes(direct), g.Sizes(deferred);
    AddressDigits(g, b1, page, u1);
    AddressDigits(g, b2, page, u2);
    SkippedDigits(g, b1, page, u1);
    SkippedDigits(g, b2, page, u2);
    RadicesPositive(g);
    LocateOfAddress(g, b1, page, u1);
    LocateOfAddress(g, b2, page, u2);
    DivMod(SuperBlocks(g), g.block, 0, Product(vs));
    SameDigitsIff(vs, b1, b2);
    hide Digits, Compose, Rest, Product, Place, Positive, Geometry.Directs, Geometry.Deferreds;
    if u1 == u2 && b1 % Product(vs) == b2 % Product(vs) {
      SameDigits(g, Address(g, b1, page, u1).digit, Address(g, b2, page, u2).digit);
    }
  }

  // ---------------------------------------------------------------- the translation loop

  /** The addresses of the units below n whose flag is set, in unit order. */
  function Listing(g: Geometry, b: nat, page: nat, flags: seq<bool>, n: nat): seq<Addr>
    requires g.Ok() && n <= |flags|
  {
    if n == 0 then []
    else Listing(g, b, page, flags, n - 1) + if flags[n - 1] then [Address(g, b, page, n - 1)] else []
  }

  function SetFlags(flags: seq<bool>, n: nat): nat
    requires n <= |flags|
  {
    if n == 0 then 0 else SetFlags(flags, n - 1) + if flags[n - 1] then 1 else 0
  }

  /** Every address of the list is the address of a flagged unit of that page of super block b, in ascending unit order. */
  ghost predicate Lists(g: Geometry, b: nat, page: nat, flags: seq<bool>, n: nat, list: seq<Addr>)
    requires g.Ok() && n <= |flags|
  {
    && (forall k :: 0 <= k < |list| ==>
          OnDevice(g, list[k]) && list[k].page == page && Locate(g, list[k]).0 == b && Locate(g, list[k]).1 < n && flags[Locate(g, list[k]).1])
    && (forall j, k :: 0 <= j < k < |list| ==> Locate(g, list[j]).1 < Locate(g, list[k]).1)
  }

  /** As many addresses as flags, each of a flagged unit, and no physical page twice. */
  lemma {:induction false} ListingIsExact(g: Geometry, b: nat, page: nat, flags: seq<bool>, n: nat)
    requires g.Ok() && b < SuperBlocks(g) && |flags| == UnitsPerPage(g) && n <= |flags|
    ensures |Listing(g, b, page, flags, n)| == SetFlags(flags, n)
    ensures Lists(g, b, page, flags, n, Listing(g, b, page, flags, n))
  {
    hide Geometry.Ok, Locate, Address, SuperBlocks, UnitsPerPage;
    if n > 0 {
      ListingIsExact(g, b, page, flags, n - 1);
      LocateOfAddress(g, b, page, n - 1);
    }
  }

  datatype Conversion = Addresses(list: seq<Addr>) | FlagSizePanic

  /** Place over a sequence of digits that differs from `outer` only at the placed dimensions. */
  lemma PlaceOver(digit: seq<nat>, outer: seq<nat>, ds: seq<nat>, xs: seq<nat>)
    requires |xs| == |ds| && |digit| == |outer| && forall k :: 0 <= k < |ds| ==> ds[k] < |digit|
    requires forall d :: 0 <= d < |digit| && d !in ds ==> digit[d] == outer[d]
    ensures Place(digit, ds, xs) == Place(outer, ds, xs)
  {
    PlacedEqual(digit, outer, ds, xs);
    var a, z := Place(digit, ds, xs), Place(outer, ds, xs);
    forall d | 0 <= d < |digit|
      ensures a[d] == z[d]
    {
      if d !in ds { assert a[d] == digit[d] && z[d] == outer[d]; }
    }
  }

  lemma {:induction false} PlacedEqual(digit: seq<nat>, outer: seq<nat>, ds: seq<nat>, xs: seq<nat>)
    requires |xs| == |ds| && |digit| == |outer| && forall k :: 0 <= k < |ds| ==> ds[k] < |digit|
    ensures forall d :: d in ds ==> Place(digit, ds, xs)[d] == Place(outer, ds, xs)[d]
  {
    if |ds| > 0 {
      var n := |ds| - 1;
      PlacedEqual(digit, outer, ds[..n], xs[..n]);
      assert ds == ds[..n] + [ds[n]];
    }
  }

  lemma DirectStep(g: Geometry, i: nat, b: nat)
    requires g.Ok() && i < 4
    ensures var ds, es := g.Directs(g.order[..i]), g.Directs(g.order[..i + 1]); var d := g.order[i];
      && Positive(g.Sizes(ds)) && Positive(g.Sizes(es)) && 0 < g.size[d]
      && (if g.Direct(d) then
            && es == ds + [d]
            && Digits(g.Sizes(es), b) == Digits(g.Sizes(ds), b) + [Rest(g.Sizes(ds), b) % g.size[d]]
            && Rest(g.Sizes(es), b) == Rest(g.Sizes(ds), b) / g.size[d]
            && Place([0, 0, 0, 0], es, Digits(g.Sizes(es), b))
               == Place([0, 0, 0, 0], ds, Digits(g.Sizes(ds), b))[d := Rest(g.Sizes(ds), b) % g.size[d]]
          else es == ds)
      && g.Deferreds(g.order[..i + 1]) == g.Deferreds(g.order[..i]) + if g.Deferred(d) then [d] else []
  {
    hide Digits, Rest, Place;
    assert g.order[..i + 1][..i] == g.order[..i];
    var ds := g.Directs(g.order[..i]);
    var d := g.order[i];
    if g.Direct(d) {
      assert g.Sizes(ds + [d]) == g.Sizes(ds) + [g.size[d]];
      DigitsAppend(g.Sizes(ds), g.size[d], b);
      PlaceAppend([0, 0, 0, 0], ds, Digits(g.Sizes(ds), b), d, Rest(g.Sizes(ds), b) % g.size[d]);
    }
  }

  lemma PlaceAppend(digit: seq<nat>, ds: seq<nat>, xs: seq<nat>, d: nat, x: nat)
    requires |xs| == |ds| && d < |digit| && forall k :: 0 <= k < |ds| ==> ds[k] < |digit|
    ensures Place(digit, ds + [d], xs + [x]) == Place(digit, ds, xs)[d := x]
  {
    assert (ds + [d])[..|ds|] == ds && (xs + [x])[..|xs|] == xs;
  }

  /** First loop of convertCPDPBP: spell out the block index along the direct dimensions, collect the others. */
  method SplitBlockIndex(g: Geometry, blockIndex: nat, addr: array<nat>) returns (tmp: nat, value: seq<nat>, ptr: seq<nat>)
    requires g.Ok() && addr.Length == 4 && addr[..] == [0, 0, 0, 0]
    modifies addr
    ensures Positive(g.Sizes(g.Directs(g.order)))
    ensures addr[..] == Place([0, 0, 0, 0], g.Directs(g.order), Digits(g.Sizes(g.Directs(g.order)), blockIndex))
    ensures tmp == Rest(g.Sizes(g.Directs(g.order)), blockIndex)
    ensures ptr == g.Deferreds(g.order) && value == g.Sizes(ptr)
  {
    hide Digits, Rest, Place, Positive, Geometry.Directs, Geometry.Deferreds;
    tmp, value, ptr := blockIndex, [], [];
    SplitStart(g, blockIndex);
    for i := 0 to 4
      invariant Positive(g.Sizes(g.Directs(g.order[..i])))
      invariant addr[..] == Place([0, 0, 0, 0], g.Directs(g.order[..i]), Digits(g.Sizes(g.Directs(g.order[..i])), blockIndex))
      invariant tmp == Rest(g.Sizes(g.Directs(g.order[..i])), blockIndex)
      invariant ptr == g.Deferreds(g.order[..i]) && value == g.Sizes(ptr)
    {
      var d := g.order[i];
      DirectStep(g, i, blockIndex);
      if !g.Skipped(d) {
        if g.inSuper[d] {
          value := value + [g.size[d]];
          ptr := ptr + [d];
        } else {
          addr[d] := tmp % g.size[d];
          tmp := tmp / g.size[d];
        }
      }
    }
    assert g.order[..4] == g.order;
  }

  lemma SplitStart(g: Geometry, b: nat)
    requires g.Ok()
    ensures g.Directs(g.order[..0]) == [] && g.Deferreds(g.order[..0]) == [] && g.Sizes([]) == []
    ensures Positive([]) && Digits([], b) == [] && Rest([], b) == b
    ensures Place([0, 0, 0, 0], [], []) == [0, 0, 0, 0]
  {
  }

  function Ones(n: nat): (r: seq<nat>)
    ensures |r| == n && forall k :: 0 <= k < n ==> r[k] == 1
  {
    seq(n, _ => 1)
  }

  /** The value array filled up with ones to four entries: a missing loop level runs once. */
  function Padded(value: seq<nat>): (r: seq<nat>)
    requires |value| <= 4
    ensures |r| == 4 && r[..|value|] == value && forall k :: |value| <= k < 4 ==> r[k] == 1
  {
    value + Ones(4 - |value|)
  }

  lemma {:induction false} OnesProduct(n: nat)
    ensures Product(Ones(n)) == 1
  {
    if n > 0 {
      OnesProduct(n - 1);
      assert Ones(n)[0] == 1 && Ones(n)[1..] == Ones(n - 1);
    }
  }

  lemma {:induction false} ProductConcat(a: seq<nat>, b: seq<nat>)
    ensures Product(a + b) == Product(a) * Product(b)
  {
    if |a| == 0 {
      assert a + b == b;
    } else {
      assert (a + b)[0] == a[0] && (a + b)[1..] == a[1..] + b;
      ProductConcat(a[1..], b);
      Associate(a[0], Product(a[1..]), Product(b));
    }
  }

  /** The four loop counters are the digits of the running index. */
  lemma {:induction false} CountersAreDigits(value: seq<nat>, l: nat, k: nat, j: nat, i: nat)
    requires |value| <= 4 && Positive(value) && Below([l, k, j, i], Padded(value))
    ensures var v := Padded(value); var u := l + v[0] * (k + v[1] * (j + v[2] * i));
      Digits(value, u) == [l, k, j, i][..|value|] && u < Product(value)
  {
    hide Product, Compose, Digits, Rest;
    var v, xs := Padded(value), [l, k, j, i];
    var u := Compose(v, xs, 0);
    UnfoldCompose(v, l, k, j, i);
    DigitsOfCompose(v, xs, 0);
    ComposeSplits(v, xs, 0);
    var pad := Ones(4 - |value|);
    assert v == value + pad;
    DigitsOfConcat(value, pad, u);
    PaddedProduct(value);
    assert Digits(v, u)[..|value|] == Digits(value, u);
  }

  lemma UnfoldCompose(v: seq<nat>, l: nat, k: nat, j: nat, i: nat)
    requires |v| == 4
    ensures Compose(v, [l, k, j, i], 0) == l + v[0] * (k + v[1] * (j + v[2] * i))
  {
    assert Compose(v[3..], [i], 0) == i + v[3] * Compose(v[3..][1..], [i][1..], 0);
    assert v[2..][1..] == v[3..] && v[1..][1..] == v[2..];
    assert [j, i][1..] == [i] && [k, j, i][1..] == [j, i] && [l, k, j, i][1..] == [k, j, i];
    assert Compose(v[3..], [i], 0) == i;
    assert Compose(v[2..], [j, i], 0) == j + v[2] * i;
    assert Compose(v[1..], [k, j, i], 0) == k + v[1] * (j + v[2] * i);
  }

  lemma {:induction false} PaddedProduct(value: seq<nat>)
    requires |value| <= 4
    ensures Product(Padded(value)) == Product(value)
  {
    ProductConcat(value, Ones(4 - |value|));
    OnesProduct(4 - |value|);
  }

  lemma ProductOfFour(v: seq<nat>)
    requires |v| == 4
    ensures Product(v) == v[0] * (v[1] * (v[2] * v[3]))
  {
    assert Product(v[3..]) == v[3] * Product(v[3..][1..]);
    assert v[2..][1..] == v[3..] && v[1..][1..] == v[2..];
    assert Product(v[2..]) == v[2] * v[3];
    assert Product(v[1..]) == v[1] * Product(v[2..]);
  }

  /** The address so far is right along the dimensions that the block index spells out. */
  ghost predicate Carries(g: Geometry, b: nat, digit: seq<nat>)
    requires g.Ok()
  {
    && |digit| == 4
    && var outer := Place([0, 0, 0, 0], g.Directs(g.order), Digits(g.Sizes(g.Directs(g.order)), b));
       forall d :: 0 <= d < 4 && d !in g.Deferreds(g.order) ==> digit[d] == outer[d]
  }

  lemma CarriedAddress(g: Geometry, b: nat, page: nat, u: nat, digit: seq<nat>)
    requires g.Ok() && Carries(g, b, digit)
    ensures Positive(g.Sizes(g.Deferreds(g.order)))
    ensures Place(digit, g.Deferreds(g.order), Digits(g.Sizes(g.Deferreds(g.order)), u)) == Address(g, b, page, u).digit
  {
    hide Digits, Geometry.Directs, Geometry.Deferreds;
    var deferred := g.Deferreds(g.order);
    PlaceOver(digit, Place([0, 0, 0, 0], g.Directs(g.order), Digits(g.Sizes(g.Directs(g.order)), b)), deferred,
              Digits(g.Sizes(deferred), u));
  }

  /** The assignments through the pointer array. */
  method SetDigits(addr: array<nat>, ptr: seq<nat>, l: nat, k: nat, j: nat, i: nat)
    requires addr.Length == 4 && |ptr| <= 4 && forall x :: 0 <= x < |ptr| ==> ptr[x] < 4
    modifies addr
    ensures addr[..] == Place(old(addr[..]), ptr, [l, k, j, i][..|ptr|])
  {
    var xs := [l, k, j, i];
    for n := 0 to |ptr|
      invariant addr[..] == Place(old(addr[..]), ptr[..n], xs[..n])
    {
      assert ptr[..n + 1] == ptr[..n] + [ptr[n]] && xs[..n + 1] == xs[..n] + [xs[n]];
      PlaceAppend(old(addr[..]), ptr[..n], xs[..n], ptr[n], xs[n]);
      addr[ptr[n]] := xs[n];
    }
    assert ptr[..|ptr|] == ptr;
  }

  /** The innermost loop body: one unit of the super page. */
  method EmitUnit(g: Geometry, ghost b: nat, block: nat, page: nat, flags: seq<bool>, addr: array<nat>, value: seq<nat>,
                  ptr: seq<nat>, l: nat, k: nat, j: nat, i: nat, tmp: nat, list: seq<Addr>)
    returns (list': seq<Addr>)
    requires g.Ok() && addr.Length == 4 && Carries(g, b, addr[..])
    requires Positive(g.Sizes(g.Directs(g.order))) && block == Rest(g.Sizes(g.Directs(g.order)), b)
    requires ptr == g.Deferreds(g.order) && value == g.Sizes(ptr) && |flags| == UnitsPerPage(g)
    requires |value| <= 4 && Below([l, k, j, i], Padded(value))
    requires tmp == UnitNo(Padded(value), l, k, j, i)
    requires tmp <= |flags| && list == Listing(g, b, page, flags, tmp)
    modifies addr
    ensures Carries(g, b, addr[..]) && tmp < |flags| && list' == Listing(g, b, page, flags, tmp + 1)
  {
    hide Digits, Rest, Place, Listing, Geometry.Directs, Geometry.Deferreds, Padded, Positive;
    ghost var before := addr[..];
    RadicesPositive(g);
    CountersAreDigits(value, l, k, j, i);
    CarriedAddress(g, b, page, tmp, before);
    list' := list;
    if flags[tmp] {
      SetDigits(addr, ptr, l, k, j, i);
      CarriesOn(g, b, before, ptr, [l, k, j, i][..|ptr|]);
      list' := list + [Addr(addr[..], block, page)];
    }
    ListingStep(g, b, page, flags, tmp);
  }

  lemma CarriesOn(g: Geometry, b: nat, digit: seq<nat>, ptr: seq<nat>, xs: seq<nat>)
    requires g.Ok() && Carries(g, b, digit) && ptr == g.Deferreds(g.order) && |xs| == |ptr|
    ensures Carries(g, b, Place(digit, ptr, xs))
  {
  }

  lemma ListingStep(g: Geometry, b: nat, page: nat, flags: seq<bool>, n: nat)
    requires g.Ok() && n < |flags|
    ensures Listing(g, b, page, flags, n + 1)
         == Listing(g, b, page, flags, n) + if flags[n] then [Address(g, b, page, n)] else []
  {
  }

  lemma NextCounter(v: nat, x: nat)
    ensures v + v * x == v * (x + 1)
  {
  }

  /** Second part of convertCPDPBP: the nested loops over the deferred dimensions. */
  method ListUnits(g: Geometry, ghost b: nat, block: nat, page: nat, flags: seq<bool>, addr: array<nat>, value: seq<nat>, ptr: seq<nat>)
    returns (list: seq<Addr>, tmp: nat)
    requires g.Ok() && addr.Length == 4 && Carries(g, b, addr[..])
    requires Positive(g.Sizes(g.Directs(g.order))) && block == Rest(g.Sizes(g.Directs(g.order)), b)
    requires ptr == g.Deferreds(g.order) && value == g.Sizes(ptr) && |flags| == UnitsPerPage(g) && |value| <= 4
    modifies addr
    ensures tmp == |flags| && list == Listing(g, b, page, flags, tmp)
  {
    hide Digits, Rest, Place, Listing, Product, Carries, Geometry.Directs, Geometry.Deferreds, Geometry.Ok, Positive, UnitNo;
    RadicesPositive(g);
    var v := Padded(value);
    ProductOfFour(v);
    PaddedProduct(value);
    list, tmp := [], 0;
    ListingNone(g, b, page, flags);
    CounterEnds(v);
    for i := 0 to v[3]
      invariant Carries(g, b, addr[..]) && tmp == UnitNo(v, 0, 0, 0, i) && tmp <= |flags|
      invariant list == Listing(g, b, page, flags, tmp)
    {
      for j := 0 to v[2]
        invariant Carries(g, b, addr[..]) && tmp == UnitNo(v, 0, 0, j, i) && tmp <= |flags|
        invariant list == Listing(g, b, page, flags, tmp)
      {
        for k := 0 to v[1]
          invariant Carries(g, b, addr[..]) && tmp == UnitNo(v, 0, k, j, i) && tmp <= |flags|
          invariant list == Listing(g, b, page, flags, tmp)
        {
          for l := 0 to v[0]
            invariant Carries(g, b, addr[..]) && tmp == UnitNo(v, l, k, j, i) && tmp <= |flags|
            invariant list == Listing(g, b, page, flags, tmp)
          {
            list := EmitUnit(g, b, block, page, flags, addr, value, ptr, l, k, j, i, tmp, list);
            CounterTicks(v, l, k, j, i);
            tmp := tmp + 1;
          }
          CounterCarries(v, k, j, i);
        }
        CounterCarries(v, 0, j, i);
      }
      CounterCarries(v, 0, 0, i);
    }
  }

  /** The number of a unit from the four loop counters. */
  function UnitNo(v: seq<nat>, l: nat, k: nat, j: nat, i: nat): nat
    requires |v| == 4
  {
    l + v[0] * (k + v[1] * (j + v[2] * i))
  }

  lemma CounterEnds(v: seq<nat>)
    requires |v| == 4
    ensures UnitNo(v, 0, 0, 0, 0) == 0
    ensures UnitNo(v, 0, 0, 0, v[3]) == v[0] * (v[1] * (v[2] * v[3]))
  {
  }

  lemma CounterTicks(v: seq<nat>, l: nat, k: nat, j: nat, i: nat)
    requires |v| == 4
    ensures UnitNo(v, l + 1, k, j, i) == UnitNo(v, l, k, j, i) + 1
  {
  }

  /** A counter that has run through carries over to the next. */
  lemma CounterCarries(v: seq<nat>, k: nat, j: nat, i: nat)
    requires |v| == 4
    ensures UnitNo(v, v[0], k, j, i) == UnitNo(v, 0, k + 1, j, i)
    ensures UnitNo(v, 0, v[1], j, i) == UnitNo(v, 0, 0, j + 1, i)
    ensures UnitNo(v, 0, 0, v[2], i) == UnitNo(v, 0, 0, 0, i + 1)
  {
    NextCounter(v[0], k + v[1] * (j + v[2] * i));
    NextCounter(v[1], j + v[2] * i);
    NextCounter(v[2], i);
  }

  lemma ListingNone(g: Geometry, b: nat, page: nat, flags: seq<bool>)
    requires g.Ok()
    ensures Listing(g, b, page, flags, 0) == []
  {
  }

  /** convertCPDPBP. The list holds the address of every flagged unit, in unit order; the check behind the loops never
      fires, and only flags of the wrong size with the random-I/O tweak on make it give up. */
  method ConvertCPDPBP(g: Geometry, tweak: bool, blockIndex: nat, pageIndex: nat, ioFlag: seq<bool>) returns (r: Conversion)
    requires g.Ok()
    ensures r.FlagSizePanic? <==> tweak && |ioFlag| != UnitsPerPage(g)
    ensures r.Addresses? ==>
      var flags := if |ioFlag| == UnitsPerPage(g) then ioFlag else seq(UnitsPerPage(g), _ => true);
      r.list == Listing(g, blockIndex, pageIndex, flags, |flags|)
  {
    var p := DeriveParameters(g, 1);
    var flags := ioFlag;
    if |ioFlag| != p.pageInSuperPage {
      if tweak {
        return FlagSizePanic;
      }
      flags := seq(p.pageInSuperPage, _ => true);
    }
    var addr := new nat[4](_ => 0);
    assert addr[..] == [0, 0, 0, 0];
    var block, value, ptr := SplitBlockIndex(g, blockIndex, addr);
    CarriesStart(g, blockIndex);
    var list, tmp := ListUnits(g, blockIndex, block, pageIndex, flags, addr, value, ptr);
    if tmp != p.pageInSuperPage {
      assert false;
    }
    r := Addresses(list);
  }

  lemma CarriesStart(g: Geometry, b: nat)
    requires g.Ok()
    ensures Positive(g.Sizes(g.Directs(g.order)))
    ensures Carries(g, b, Place([0, 0, 0, 0], g.Directs(g.order), Digits(g.Sizes(g.Directs(g.order)), b)))
  {
  }
}
