/** BatchProvision: what any prefix of its calls leaves behind, and what all of them together do to
    the route table. */
module IngressBatch {
  import opened Core
  import opened Kube
  import opened Mapper
  import opened IngressPlan
  import opened IngressTable
  import opened IngressStore
  import opened Packing

  // ---------------------------------------------------------------- the batches in execution order

  /** New Ingresses are created first, then the listed ones are patched. */
  function Order(cfg: Config, ls: seq<Listed>, n: nat): seq<Batch>
    requires 1 <= cfg.max
  {
    Fresh(cfg, ls, n) + Existing(cfg, ls, n)
  }

  predicate Apart(a: Batch, b: Batch) {
    a.hi <= b.lo || b.hi <= a.lo
  }

  /** A batch for a listed Ingress fits in the room it has. */
  predicate HasRoom(cfg: Config, ls: seq<Listed>, b: Batch) {
    exists i :: 0 <= i < |ls| && ls[i].name == b.name && |ls[i].ingress.rules| + (b.hi - b.lo) <= cfg.max
  }

  predicate Planned(cfg: Config, ls: seq<Listed>, bs: seq<Batch>, n: nat) {
    && (forall k :: 0 <= k < |bs| ==> Fits(bs[k], n))
    && (forall j, k :: 0 <= j < k < |bs| ==> Apart(bs[j], bs[k]))
    && (forall k :: 0 <= k < |bs| ==> if bs[k].created then bs[k].hi - bs[k].lo <= cfg.max else HasRoom(cfg, ls, bs[k]))
    && (forall j, k :: 0 <= j < k < |bs| && !bs[j].created && !bs[k].created ==> bs[j].name != bs[k].name)
  }

  lemma OrderApart(cfg: Config, ls: seq<Listed>, n: nat, j: nat, k: nat)
    requires 1 <= cfg.max && j < k < |Order(cfg, ls, n)|
    ensures Apart(Order(cfg, ls, n)[j], Order(cfg, ls, n)[k])
  {
    var x, y, cursor := Existing(cfg, ls, n), Fresh(cfg, ls, n), CursorAfter(cfg, ls, 0, 0, n);
    FillExistingChain(cfg, ls, 0, 0, n);
    FillNewChain(cfg, |ls|, cursor, n);
    if k < |y| {
      ChainOrdered(y, cursor, n, j, k);
    } else if |y| <= j {
      ChainOrdered(x, 0, cursor, j - |y|, k - |y|);
    } else {
      ChainWithin(y, cursor, n, j);
      ChainWithin(x, 0, cursor, k - |y|);
    }
  }

  lemma OrderRoom(cfg: Config, ls: seq<Listed>, n: nat, k: nat)
    requires 1 <= cfg.max && k < |Order(cfg, ls, n)|
    ensures var b := Order(cfg, ls, n)[k];
      Fits(b, n) && (b.created <==> k < |Fresh(cfg, ls, n)|) && if b.created then b.hi - b.lo <= cfg.max else HasRoom(cfg, ls, b)
  {
    var x, y, cursor := Existing(cfg, ls, n), Fresh(cfg, ls, n), CursorAfter(cfg, ls, 0, 0, n);
    FillExistingChain(cfg, ls, 0, 0, n);
    FillNewChain(cfg, |ls|, cursor, n);
    if k < |y| {
      ChainWithin(y, cursor, n, k);
    } else {
      ChainWithin(x, 0, cursor, k - |y|);
      var j := FillExistingNames(cfg, ls, 0, 0, n, k - |y|);
    }
  }

  lemma OrderIsPlanned(cfg: Config, m: Store, ls: seq<Listed>, n: nat)
    requires 1 <= cfg.max && IsListing(ls, m)
    ensures Planned(cfg, ls, Order(cfg, ls, n), n)
  {
    var bs, y := Order(cfg, ls, n), |Fresh(cfg, ls, n)|;
    forall k | 0 <= k < |bs|
      ensures Fits(bs[k], n) && if bs[k].created then bs[k].hi - bs[k].lo <= cfg.max else HasRoom(cfg, ls, bs[k])
    {
      OrderRoom(cfg, ls, n, k);
    }
    forall j, k | 0 <= j < k < |bs|
      ensures Apart(bs[j], bs[k]) && (!bs[j].created && !bs[k].created ==> bs[j].name != bs[k].name)
    {
      OrderApart(cfg, ls, n, j, k);
      OrderRoom(cfg, ls, n, j);
      OrderRoom(cfg, ls, n, k);
      if y <= j {
        FillExistingDistinct(cfg, ls, 0, 0, n, j - y, k - y);
      }
    }
  }

  lemma OrderFits(cfg: Config, ls: seq<Listed>, n: nat)
    requires 1 <= cfg.max
    ensures forall k :: 0 <= k < |Order(cfg, ls, n)| ==> Fits(Order(cfg, ls, n)[k], n)
  {
    forall k | 0 <= k < |Order(cfg, ls, n)| ensures Fits(Order(cfg, ls, n)[k], n) {
      OrderRoom(cfg, ls, n, k);
    }
  }

  function BatchProvisionCalls(cfg: Config, ls: seq<Listed>, ms: seq<Mapped>): seq<Call>
    requires 1 <= cfg.max
  {
    OrderFits(cfg, ls, |ms|);
    BatchCalls(ms, Order(cfg, ls, |ms|))
  }

  // ---------------------------------------------------------------- after any prefix of the calls

  /** What a batch makes of its Ingress. */
  function Placed(m: Store, ms: seq<Mapped>, b: Batch): Ingress
    requires Fits(b, |ms|) && (b.created || b.name in m)
  {
    var bundle := Bundle(ms[b.lo..b.hi]);
    if b.created then bundle else Appended(m[b.name], bundle.rules, bundle.tls)
  }

  ghost predicate Sized(cfg: Config, m: Store, b: Batch) {
    if b.created then b.name !in m && b.hi - b.lo <= cfg.max
    else Managed(m, b.name) && |m[b.name].rules| + (b.hi - b.lo) <= cfg.max
  }

  ghost predicate Reached(cfg: Config, m: Store, ms: seq<Mapped>, b: Batch, ing: Ingress) {
    Fits(b, |ms|) && Sized(cfg, m, b) && ing == Placed(m, ms, b)
  }

  /** `at` says which batch has reached which Ingress: each old Ingress has its own content first,
      then its batch if it has one; each new one is its batch; no two batches share a request. */
  ghost predicate Spread(cfg: Config, m: Store, ms: seq<Mapped>, at: map<string, Batch>, m': Store) {
    && m'.Keys == m.Keys + at.Keys
    && (forall n :: n in at ==> at[n].name == n && Reached(cfg, m, ms, at[n], m'[n]))
    && (forall n :: n in m && n !in at ==> m'[n] == m[n])
    && (forall a, b :: a in at && b in at && a != b ==> Apart(at[a], at[b]))
  }

  /** The batches that have been served are the first k. */
  ghost predicate FirstBatches(bs: seq<Batch>, k: nat, at: map<string, Batch>) {
    && k <= |bs|
    && (forall j :: 0 <= j < k ==> bs[j].name in at && at[bs[j].name] == bs[j])
    && (forall n :: n in at ==> exists j :: 0 <= j < k && bs[j].name == n)
  }

  lemma NextServed(cfg: Config, m: Store, ms: seq<Mapped>, m1: Store, b: Batch, m2: Store)
    requires Fits(b, |ms|) && (!b.created ==> b.name in m && b.name in m1 && m1[b.name] == m[b.name])
    requires Serve(m1, BatchCall(ms, b)) == Some(m2)
    ensures m2 == m1[b.name := Placed(m, ms, b)]
  {
    if !b.created {
      AddCallEffect(m1, b.name, ms[b.lo..b.hi], m2);
    }
  }

  lemma NextSpread(cfg: Config, m: Store, ms: seq<Mapped>, at: map<string, Batch>, m1: Store, b: Batch, ing: Ingress)
    requires Spread(cfg, m, ms, at, m1) && b.name !in at && Reached(cfg, m, ms, b, ing)
    requires forall n :: n in at ==> Apart(at[n], b)
    ensures Spread(cfg, m, ms, at[b.name := b], m1[b.name := ing])
  {
    var at', m2 := at[b.name := b], m1[b.name := ing];
    assert m2.Keys == m.Keys + at'.Keys;
    forall n | n in at' ensures at'[n].name == n && Reached(cfg, m, ms, at'[n], m2[n]) {
      if n == b.name {
        assert at'[n] == b && m2[n] == ing;
      } else {
        assert at'[n] == at[n] && m2[n] == m1[n];
      }
    }
    forall x, y | x in at' && y in at' && x != y ensures Apart(at'[x], at'[y]) {
      assert x != b.name ==> at'[x] == at[x];
      assert y != b.name ==> at'[y] == at[y];
    }
  }

  /** The next batch's Ingress has not been reached yet. */
  lemma NextIsNew(cfg: Config, m: Store, ls: seq<Listed>, ms: seq<Mapped>, bs: seq<Batch>, k: nat, at: map<string,
      Batch>, m1: Store)
    requires IsListing(ls, m) && Planned(cfg, ls, bs, |ms|) && k < |bs|
    requires m1.Keys == m.Keys + at.Keys && FirstBatches(bs, k, at)
    requires forall n :: n in at ==> at[n].created ==> n !in m
    requires bs[k].created ==> bs[k].name !in m1
    ensures bs[k].name !in at && Sized(cfg, m, bs[k])
  {
    var b := bs[k];
    if !b.created {
      var i :| 0 <= i < |ls| && ls[i].name == b.name && |ls[i].ingress.rules| + (b.hi - b.lo) <= cfg.max;
      forall j | 0 <= j < k ensures bs[j].name != b.name {
        if bs[j].created {
          assert at[bs[j].name] == bs[j];
        }
      }
    }
  }

  lemma FirstBatchesNext(bs: seq<Batch>, k: nat, at: map<string, Batch>)
    requires k < |bs| && FirstBatches(bs, k, at) && bs[k].name !in at
    ensures FirstBatches(bs, k + 1, at[bs[k].name := bs[k]])
  {
    var at' := at[bs[k].name := bs[k]];
    forall n | n in at' ensures exists j :: 0 <= j < k + 1 && bs[j].name == n {
      if n == bs[k].name {
        assert bs[k].name == n;
      } else {
        var j :| 0 <= j < k && bs[j].name == n;
      }
    }
  }

  lemma NextBatch(cfg: Config, m: Store, ls: seq<Listed>, ms: seq<Mapped>, bs: seq<Batch>, k: nat, at: map<string,
      Batch>, m1: Store, m2: Store)
    requires IsListing(ls, m) && Planned(cfg, ls, bs, |ms|) && k < |bs|
    requires Spread(cfg, m, ms, at, m1) && FirstBatches(bs, k, at)
    requires Serve(m1, BatchCall(ms, bs[k])) == Some(m2)
    ensures Sized(cfg, m, bs[k]) && m2 == m1[bs[k].name := Placed(m, ms, bs[k])]
    ensures Spread(cfg, m, ms, at[bs[k].name := bs[k]], m2) && FirstBatches(bs, k + 1, at[bs[k].name := bs[k]])
  {
    var b := bs[k];
    NextIsNew(cfg, m, ls, ms, bs, k, at, m1);
    forall n | n in at ensures Apart(at[n], b) {
      var j :| 0 <= j < k && bs[j].name == n;
      assert Apart(bs[j], bs[k]);
    }
    NextServed(cfg, m, ms, m1, b, m2);
    NextSpread(cfg, m, ms, at, m1, b, Placed(m, ms, b));
    FirstBatchesNext(bs, k, at);
  }

  /** However far the calls get, the store is the old one with the first batches spread over it. */
  lemma {:induction false} PrefixSpread(cfg: Config, m: Store, ls: seq<Listed>, ms: seq<Mapped>, bs: seq<Batch>,
      k: nat, m': Store)
    returns (at: map<string, Batch>)
    requires IsListing(ls, m) && Planned(cfg, ls, bs, |ms|) && k <= |bs|
    requires ServeAll(m, BatchCalls(ms, bs)[..k]) == Some(m')
    ensures Spread(cfg, m, ms, at, m') && FirstBatches(bs, k, at)
  {
    if k == 0 {
      at := map[];
    } else {
      ServeAllSnoc(m, BatchCalls(ms, bs), k - 1);
      var m1 := ServeAll(m, BatchCalls(ms, bs)[..k - 1]).value;
      var before := PrefixSpread(cfg, m, ls, ms, bs, k - 1, m1);
      NextBatch(cfg, m, ls, ms, bs, k - 1, before, m1, m');
      at := before[bs[k - 1].name := bs[k - 1]];
    }
  }

  /** Nothing is lost and nothing is invented on partial failure. */
  ghost predicate NothingLost(m: Store, ms: seq<Mapped>, at: map<string, Batch>, m': Store) {
    && (forall n :: n in m ==> n in m' && m'[n].managed == m[n].managed && m[n].rules <= m'[n].rules && m[n].tls <= m'[n].tls)
    && (forall n :: n in m' ==>
          var before := if n in m then m[n].rules else [];
          m'[n].rules == before + if n in at && at[n].lo <= at[n].hi <= |ms| then RulesOf(ms[at[n].lo..at[n].hi]) else [])
    && (forall a, b :: a in at && b in at && a != b ==> Apart(at[a], at[b]))
  }

  /** Whether BatchProvision returns or stops at any call, and whether or not its last call took
      effect: every earlier Ingress keeps its rules and TLS entries in front, what has been added is
      requested rules only, and each of them once. */
  lemma NothingLostOnFailure(cfg: Config, m: Store, ls: seq<Listed>, ms: seq<Mapped>, k: nat, m': Store)
    returns (at: map<string, Batch>)
    requires 1 <= cfg.max && IsListing(ls, m) && k <= |BatchProvisionCalls(cfg, ls, ms)|
    requires ServeAll(m, BatchProvisionCalls(cfg, ls, ms)[..k]) == Some(m')
    ensures NothingLost(m, ms, at, m')
    ensures Bounded(cfg, m) ==> Bounded(cfg, m')
  {
    OrderIsPlanned(cfg, m, ls, |ms|);
    at := PrefixSpread(cfg, m, ls, ms, Order(cfg, ls, |ms|), k, m');
    SpreadLosesNothing(cfg, m, ms, at, m');
    if Bounded(cfg, m) {
      SpreadBounded(cfg, m, ms, at, m');
    }
  }

  lemma SpreadLosesNothing(cfg: Config, m: Store, ms: seq<Mapped>, at: map<string, Batch>, m': Store)
    requires Spread(cfg, m, ms, at, m')
    ensures NothingLost(m, ms, at, m')
  {
    forall n | n in m'
      ensures n in m ==> m'[n].managed == m[n].managed && m[n].rules <= m'[n].rules && m[n].tls <= m'[n].tls
      ensures m'[n].rules == (if n in m then m[n].rules else []) + if n in at then RulesOf(ms[at[n].lo..at[n].hi]) else []
    {
      if n in at {
        assert m'[n] == Placed(m, ms, at[n]);
      }
    }
  }

  lemma SpreadBounded(cfg: Config, m: Store, ms: seq<Mapped>, at: map<string, Batch>, m': Store)
    requires Spread(cfg, m, ms, at, m') && Bounded(cfg, m)
    ensures Bounded(cfg, m')
  {
    forall n | Managed(m', n) ensures 1 <= |m'[n].rules| <= cfg.max {
      if n in at {
        assert Sized(cfg, m, at[n]);
        assert |RulesOf(ms[at[n].lo..at[n].hi])| == at[n].hi - at[n].lo;
      } else {
        assert Managed(m, n);
      }
    }
  }

  // ---------------------------------------------------------------- all the calls: the table

  predicate DistinctRoutes(ms: seq<Mapped>) {
    && (forall r :: 0 <= r < |ms| ==> ForHost(ms[r]))
    && (forall r, s :: 0 <= r < s < |ms| ==> IdOf(ms[r]) != IdOf(ms[s]))
  }

  function IdOf(m: Mapped): string {
    RouteId(m.req.host)
  }

  /** The table that maps each request's identifier to its entry. */
  function Routed(ms: seq<Mapped>): Routes {
    if ms == [] then map[]
    else
      var last := ms[|ms| - 1];
      Routed(ms[..|ms| - 1])[IdOf(last) := Entry(last.rule, last.tls)]
  }

  lemma {:induction false} RoutedHas(ms: seq<Mapped>, r: nat)
    requires DistinctRoutes(ms) && r < |ms|
    ensures IdOf(ms[r]) in Routed(ms) && Routed(ms)[IdOf(ms[r])] == Entry(ms[r].rule, ms[r].tls)
  {
    var last := |ms| - 1;
    if r < last {
      RoutedHas(ms[..last], r);
      assert ms[..last][r] == ms[r];
      assert IdOf(ms[r]) != IdOf(ms[last]);
    }
  }

  lemma {:induction false} RoutedFrom(ms: seq<Mapped>, id: string) returns (r: nat)
    requires id in Routed(ms)
    ensures r < |ms| && IdOf(ms[r]) == id
  {
    r := |ms| - 1;
    if IdOf(ms[r]) != id {
      var init := ms[..r];
      r := RoutedFrom(init, id);
      assert init[r] == ms[r];
    }
  }

  lemma BundleSnoc(init: seq<Mapped>, last: Mapped)
    ensures Bundle(init + [last]) == Appended(Bundle(init), Bundle([last]).rules, Bundle([last]).tls)
  {
    assert (init + [last])[..|init|] == init;
    assert [last][..0] == [] && EntriesOf([]) == [];
    assert RulesOf(init + [last]) == RulesOf(init) + RulesOf([last]);
  }

  /** Requests with identifiers of their own make a tidy Ingress with just their entries. */
  lemma {:induction false} BundleRoutes(ms: seq<Mapped>)
    requires DistinctRoutes(ms)
    ensures UniqueIn(Bundle(ms)) && Tidy(Bundle(ms)) && RoutesIn(Bundle(ms)) == Routed(ms)
  {
    if ms == [] {
      NoBundle(ms);
    } else {
      var init, last := ms[..|ms| - 1], ms[|ms| - 1];
      assert ms == init + [last] && DistinctRoutes(init) && ForHost(last);
      forall id | id in Routed(init) ensures id != IdOf(last) {
        var r := RoutedFrom(init, id);
      }
      assert IdOf(last) == RouteId(last.req.host);
      hide *;
      BundleRoutes(init);
      BundleOne(last);
      BundleSnoc(init, last);
      AppendTables(Bundle(init), Bundle([last]), Routed(init), map[IdOf(last) := Entry(last.rule, last.tls)]);
      RoutedSnoc(init, last);
    }
  }

  lemma NoBundle(ms: seq<Mapped>)
    requires ms == []
    ensures UniqueIn(Bundle(ms)) && Tidy(Bundle(ms)) && RoutesIn(Bundle(ms)) == Routed(ms)
  {
    assert IdsIn(Bundle(ms)) == {};
  }

  lemma RoutedSnoc(init: seq<Mapped>, last: Mapped)
    ensures Routed(init + [last]) == Routed(init) + map[IdOf(last) := Entry(last.rule, last.tls)]
  {
    assert (init + [last])[..|init|] == init;
  }

  lemma AppendTables(a: Ingress, b: Ingress, t: Routes, u: Routes)
    requires UniqueIn(a) && Tidy(a) && RoutesIn(a) == t && UniqueIn(b) && Tidy(b) && RoutesIn(b) == u
    requires t.Keys !! u.Keys
    ensures UniqueIn(Appended(a, b.rules, b.tls)) && Tidy(Appended(a, b.rules, b.tls))
    ensures RoutesIn(Appended(a, b.rules, b.tls)) == t + u
  {
    AppendRoutes(a, b);
  }

  predicate AllFit(ms: seq<Mapped>, bs: seq<Batch>) {
    forall j :: 0 <= j < |bs| ==> Fits(bs[j], |ms|)
  }

  function Slice(ms: seq<Mapped>, b: Batch): seq<Mapped>
    requires Fits(b, |ms|)
  {
    ms[b.lo..b.hi]
  }

  /** The entries of the first k batches. */
  function Part(ms: seq<Mapped>, bs: seq<Batch>, k: nat): Routes
    requires k <= |bs| && AllFit(ms, bs)
  {
    if k == 0 then map[] else Part(ms, bs, k - 1) + Routed(Slice(ms, bs[k - 1]))
  }

  lemma {:induction false} PartFrom(ms: seq<Mapped>, bs: seq<Batch>, k: nat, id: string) returns (j: nat, r: nat)
    requires k <= |bs| && AllFit(ms, bs) && id in Part(ms, bs, k)
    ensures j < k && bs[j].lo <= r < bs[j].hi <= |ms| && IdOf(ms[r]) == id
  {
    var b := bs[k - 1];
    if id in Routed(Slice(ms, b)) {
      r := RoutedFrom(Slice(ms, b), id);
      j, r := k - 1, b.lo + r;
    } else {
      j, r := PartFrom(ms, bs, k - 1, id);
    }
  }

  lemma SliceEntry(ms: seq<Mapped>, b: Batch, r: nat)
    requires DistinctRoutes(ms) && Fits(b, |ms|) && r < |ms|
    ensures IdOf(ms[r]) in Routed(Slice(ms, b)) <==> b.lo <= r < b.hi
    ensures b.lo <= r < b.hi ==> Routed(Slice(ms, b))[IdOf(ms[r])] == Entry(ms[r].rule, ms[r].tls)
  {
    if b.lo <= r < b.hi {
      RoutedHas(Slice(ms, b), r - b.lo);
    } else if IdOf(ms[r]) in Routed(Slice(ms, b)) {
      var s := RoutedFrom(Slice(ms, b), IdOf(ms[r]));
    }
  }

  lemma {:induction false} PartHas(ms: seq<Mapped>, bs: seq<Batch>, k: nat, j: nat, r: nat)
    requires DistinctRoutes(ms) && k <= |bs| && AllFit(ms, bs) && j < k && bs[j].lo <= r < bs[j].hi
    ensures IdOf(ms[r]) in Part(ms, bs, k) && Part(ms, bs, k)[IdOf(ms[r])] == Entry(ms[r].rule, ms[r].tls)
  {
    if j < k - 1 {
      PartHas(ms, bs, k - 1, j, r);
    }
    SliceEntry(ms, bs[k - 1], r);
  }

  predicate NewRoutes(t: Routes, ms: seq<Mapped>) {
    DistinctRoutes(ms) && forall r :: 0 <= r < |ms| ==> IdOf(ms[r]) !in t
  }

  /** The next batch's identifiers occur neither in the old table nor in the batches before. */
  lemma NextIdsNew(ms: seq<Mapped>, bs: seq<Batch>, k: nat, t: Routes, id: string)
    requires NewRoutes(t, ms) && k < |bs| && AllFit(ms, bs)
    requires forall j :: 0 <= j < k ==> Apart(bs[j], bs[k])
    requires id in Routed(Slice(ms, bs[k]))
    ensures id !in t && id !in Part(ms, bs, k)
  {
    var s := RoutedFrom(Slice(ms, bs[k]), id);
    assert IdOf(ms[bs[k].lo + s]) == id;
    if id in Part(ms, bs, k) {
      var j, r := PartFrom(ms, bs, k, id);
    }
  }

  lemma BatchTableStep(m: Store, ms: seq<Mapped>, b: Batch, m1: Store)
    requires Fits(b, |ms|) && DistinctRoutes(Slice(ms, b)) && WellFormed(m1)
    requires if b.created then b.name !in m1 else Managed(m, b.name) && b.name in m1 && m1[b.name] == m[b.name]
    requires forall id :: id in Routed(Slice(ms, b)) ==> id !in Table(m1)
    ensures WellFormed(m1[b.name := Placed(m, ms, b)])
    ensures Table(m1[b.name := Placed(m, ms, b)]) == Table(m1) + Routed(Slice(ms, b))
  {
    var bundle := Bundle(Slice(ms, b));
    BundleRoutes(Slice(ms, b));
    if b.created {
      CreateInStore(m1, b.name, bundle);
    } else {
      AppendInStore(m1, b.name, bundle);
    }
  }

  lemma NextTable(m: Store, ms: seq<Mapped>, bs: seq<Batch>, k: nat, m1: Store, t: Routes)
    requires k < |bs| && AllFit(ms, bs) && (forall j :: 0 <= j < k ==> Apart(bs[j], bs[k]))
    requires NewRoutes(t, ms) && WellFormed(m1) && Table(m1) == t + Part(ms, bs, k)
    requires bs[k].created || Managed(m, bs[k].name)
    requires if bs[k].created then bs[k].name !in m1 else bs[k].name in m1 && m1[bs[k].name] == m[bs[k].name]
    ensures WellFormed(m1[bs[k].name := Placed(m, ms, bs[k])])
    ensures Table(m1[bs[k].name := Placed(m, ms, bs[k])]) == t + Part(ms, bs, k + 1)
  {
    var b, part := bs[k], Routed(Slice(ms, bs[k]));
    SliceDistinct(ms, b);
    NextPart(ms, bs, k);
    forall id | id in part ensures id !in t && id !in Part(ms, bs, k) {
      NextIdsNew(ms, bs, k, t, id);
    }
    hide *;
    BatchTableStep(m, ms, b, m1);
    MapPlus(t, Part(ms, bs, k), part);
  }

  lemma SliceDistinct(ms: seq<Mapped>, b: Batch)
    requires Fits(b, |ms|) && DistinctRoutes(ms)
    ensures DistinctRoutes(Slice(ms, b))
  {
  }

  lemma NextPart(ms: seq<Mapped>, bs: seq<Batch>, k: nat)
    requires k < |bs| && AllFit(ms, bs)
    ensures Fits(bs[k], |ms|) && Part(ms, bs, k + 1) == Part(ms, bs, k) + Routed(Slice(ms, bs[k]))
  {
  }

  lemma MapPlus(a: Routes, b: Routes, c: Routes)
    ensures (a + b) + c == a + (b + c)
  {
  }

  lemma PlannedFits(cfg: Config, ls: seq<Listed>, ms: seq<Mapped>, bs: seq<Batch>)
    requires Planned(cfg, ls, bs, |ms|)
    ensures AllFit(ms, bs) && forall j, k :: 0 <= j < k < |bs| ==> Apart(bs[j], bs[k])
  {
  }

  lemma NextBatchTable(cfg: Config, m: Store, ls: seq<Listed>, ms: seq<Mapped>, bs: seq<Batch>, k: nat,
                       at: map<string, Batch>, m1: Store, m2: Store)
    requires IsListing(ls, m) && Planned(cfg, ls, bs, |ms|) && k < |bs| && AllFit(ms, bs)
    requires NewRoutes(Table(m), ms) && WellFormed(m1) && Table(m1) == Table(m) + Part(ms, bs, k)
    requires Spread(cfg, m, ms, at, m1) && FirstBatches(bs, k, at)
    requires Serve(m1, BatchCall(ms, bs[k])) == Some(m2)
    ensures Spread(cfg, m, ms, at[bs[k].name := bs[k]], m2) && FirstBatches(bs, k + 1, at[bs[k].name := bs[k]])
    ensures WellFormed(m2) && Table(m2) == Table(m) + Part(ms, bs, k + 1)
  {
    NextIsNew(cfg, m, ls, ms, bs, k, at, m1);
    NextBatch(cfg, m, ls, ms, bs, k, at, m1, m2);
    NextTable(m, ms, bs, k, m1, Table(m));
  }

  /** The next call takes the store on from wherever the calls before it left it. */
  lemma NextPrefixTable(cfg: Config, m: Store, ls: seq<Listed>, ms: seq<Mapped>, bs: seq<Batch>, k: nat, m1: Store,
      m2: Store)
    requires IsListing(ls, m) && Planned(cfg, ls, bs, |ms|) && k < |bs| && AllFit(ms, bs)
    requires NewRoutes(Table(m), ms) && WellFormed(m1) && Table(m1) == Table(m) + Part(ms, bs, k)
    requires ServeAll(m, BatchCalls(ms, bs)[..k]) == Some(m1) && Serve(m1, BatchCall(ms, bs[k])) == Some(m2)
    ensures WellFormed(m2) && Table(m2) == Table(m) + Part(ms, bs, k + 1)
  {
    var at := PrefixSpread(cfg, m, ls, ms, bs, k, m1);
    NextBatchTable(cfg, m, ls, ms, bs, k, at, m1, m2);
  }

  lemma NoCalls(m: Store, calls: seq<Call>, m': Store)
    requires ServeAll(m, calls[..0]) == Some(m')
    ensures m' == m
  {
  }

  lemma NoPart(t: Routes, ms: seq<Mapped>, bs: seq<Batch>)
    requires AllFit(ms, bs)
    ensures t == t + Part(ms, bs, 0)
  {
  }

  /** After any prefix of the calls the store is well-formed and its table has grown by the batches served. */
  lemma {:induction false} PrefixTable(cfg: Config, m: Store, ls: seq<Listed>, ms: seq<Mapped>, bs: seq<Batch>,
      k: nat, m': Store)
    requires IsListing(ls, m) && Planned(cfg, ls, bs, |ms|) && k <= |bs| && AllFit(ms, bs)
    requires WellFormed(m) && NewRoutes(Table(m), ms)
    requires ServeAll(m, BatchCalls(ms, bs)[..k]) == Some(m')
    ensures WellFormed(m') && Table(m') == Table(m) + Part(ms, bs, k)
  {
    var calls := BatchCalls(ms, bs);
    hide *;
    if k == 0 {
      NoCalls(m, calls, m');
      NoPart(Table(m), ms, bs);
    } else {
      ServeAllSnoc(m, calls, k - 1);
      var m1 := ServeAll(m, calls[..k - 1]).value;
      PrefixTable(cfg, m, ls, ms, bs, k - 1, m1);
      NextPrefixTable(cfg, m, ls, ms, bs, k - 1, m1, m');
    }
  }

  lemma EveryRequestPlaced(cfg: Config, ls: seq<Listed>, n: nat, r: nat) returns (k: nat)
    requires 1 <= cfg.max && r < n
    ensures k < |Order(cfg, ls, n)| && Order(cfg, ls, n)[k].lo <= r < Order(cfg, ls, n)[k].hi
  {
    var x, y, cursor := Existing(cfg, ls, n), Fresh(cfg, ls, n), CursorAfter(cfg, ls, 0, 0, n);
    FillExistingChain(cfg, ls, 0, 0, n);
    FillNewChain(cfg, |ls|, cursor, n);
    if r < cursor {
      ChainCovers(x, 0, cursor, r);
      k :| 0 <= k < |x| && x[k].lo <= r < x[k].hi;
      k := |y| + k;
    } else {
      ChainCovers(y, cursor, n, r);
      k :| 0 <= k < |y| && y[k].lo <= r < y[k].hi;
    }
  }

  /** All batches together are all requests. */
  lemma PartIsAll(cfg: Config, ls: seq<Listed>, ms: seq<Mapped>)
    requires 1 <= cfg.max && DistinctRoutes(ms) && AllFit(ms, Order(cfg, ls, |ms|))
    ensures Part(ms, Order(cfg, ls, |ms|), |Order(cfg, ls, |ms|)|) == Routed(ms)
  {
    var bs := Order(cfg, ls, |ms|);
    var all := Part(ms, bs, |bs|);
    forall id | id in all || id in Routed(ms) ensures id in all && id in Routed(ms) && all[id] == Routed(ms)[id] {
      var j, r;
      if id in all {
        j, r := PartFrom(ms, bs, |bs|, id);
      } else {
        r := RoutedFrom(ms, id);
        j := EveryRequestPlaced(cfg, ls, |ms|, r);
      }
      RoutedHas(ms, r);
      PartHas(ms, bs, |bs|, j, r);
    }
  }

  /** Inserting the requests one after the other. */
  function InsertedAll(t: Routes, ms: seq<Mapped>): Routes {
    if ms == [] then t else Inserted(InsertedAll(t, ms[..|ms| - 1]), ms[|ms| - 1])
  }

  lemma {:induction false} InsertedAllIs(t: Routes, ms: seq<Mapped>)
    requires NewRoutes(t, ms)
    ensures InsertedAll(t, ms) == t + Routed(ms)
  {
    if ms == [] {
      assert t + map[] == t;
    } else {
      var init, last := ms[..|ms| - 1], ms[|ms| - 1];
      InsertedAllIs(t, init);
      if IdOf(last) in Routed(init) {
        var r := RoutedFrom(init, IdOf(last));
      }
      NewInserted(t, Routed(init), last);
    }
  }

  lemma NewInserted(t: Routes, u: Routes, m: Mapped)
    requires IdOf(m) !in t && IdOf(m) !in u
    ensures Inserted(t + u, m) == t + u[IdOf(m) := Entry(m.rule, m.tls)]
  {
  }

  /** An error-free BatchProvision of routes that are new and distinct is their union with the table. */
  lemma BatchProvisionRefines(cfg: Config, m: Store, ls: seq<Listed>, ms: seq<Mapped>, m': Store)
    requires 1 <= cfg.max && IsListing(ls, m) && WellFormed(m) && NewRoutes(Table(m), ms)
    requires ServeAll(m, BatchProvisionCalls(cfg, ls, ms)) == Some(m')
    ensures WellFormed(m') && Table(m') == InsertedAll(Table(m), ms) == Table(m) + Routed(ms)
  {
    var bs := Order(cfg, ls, |ms|);
    OrderIsPlanned(cfg, m, ls, |ms|);
    PlannedFits(cfg, ls, ms, bs);
    assert BatchCalls(ms, bs)[..|bs|] == BatchCalls(ms, bs);
    PrefixTable(cfg, m, ls, ms, bs, |bs|, m');
    PartIsAll(cfg, ls, ms);
    InsertedAllIs(Table(m), ms);
  }
}
