/** Reconciliation over the identifier-keyed gateway: the diff is by host, so an addition may overwrite
    another wanted host's entry; it converges nevertheless. */
module LogConvergence {
  import opened Core
  import opened Diff
  import opened LogGateway

  function HostsIn(t: Table): set<string> {
    set id | id in t :: t[id].host
  }

  /** The identifiers a cycle takes out. */
  function Stale(t: Table, desired: seq<RouteRequest>): set<string> {
    set id | id in t && t[id].host !in HostsOf(desired)
  }

  /** One cycle; a failed certificate leaves its host out of `certs`, the route is stored all the same. */
  function Cycle(t: Table, desired: seq<RouteRequest>, certs: map<string, Certificate>): Table {
    ProvisionedAll(t - Stale(t, desired), ToAdd(desired, HostsIn(t)), certs)
  }

  /** No two hosts are desired under one effective identifier; a host may be desired more than once. */
  predicate Unambiguous(desired: seq<RouteRequest>) {
    forall a, b :: 0 <= a < b < |desired| && EffectiveId(desired[a]) == EffectiveId(desired[b]) ==> desired[a].host == desired[b].host
  }

  predicate DistinctHosts(desired: seq<RouteRequest>) {
    forall a, b :: 0 <= a < b < |desired| ==> desired[a].host != desired[b].host
  }

  /** Whatever order the gateway lists in, the identifiers removed are the stale ones. */
  lemma RemovedAreStale(t: Table, rs: seq<ProvisionedRoute>, desired: seq<RouteRequest>)
    requires Enumerates(rs, t) && Keyed(t)
    ensures ActualHosts(rs) == HostsIn(t)
    ensures IdSet(ToRemove(HostsOf(desired), rs)) == Stale(t, desired)
  {
    forall h | h in ActualHosts(rs) ensures h in HostsIn(t) {
      var a :| a in rs && a.host == h;
      assert a.routeID in t;
    }
    forall id | id in t ensures t[id].host in ActualHosts(rs) {
      assert t[id] in rs;
    }
    var removed := ToRemove(HostsOf(desired), rs);
    forall id | id in IdSet(removed) ensures id in Stale(t, desired) {
      var k := ToRemoveFrom(HostsOf(desired), rs, id);
    }
    forall id | id in Stale(t, desired) ensures id in IdSet(removed) {
      assert t[id] in rs;
      var k :| 0 <= k < |rs| && rs[k] == t[id];
      ToRemoveHas(HostsOf(desired), rs, k);
    }
  }

  // ---------------------------------------------------------------- what a batch stores

  lemma {:induction false} StoredUnder(t: Table, reqs: seq<RouteRequest>, certs: map<string, Certificate>, id: string)
    ensures id in ProvisionedAll(t, reqs, certs) <==> id in t || exists k :: 0 <= k < |reqs| && EffectiveId(reqs[k]) == id
    ensures (forall k :: 0 <= k < |reqs| ==> EffectiveId(reqs[k]) != id) && id in t ==> ProvisionedAll(t, reqs, certs)[id] == t[id]
  {
    if reqs != [] {
      var last := |reqs| - 1;
      StoredUnder(t, reqs[..last], certs, id);
      assert EffectiveId(reqs[last]) == id || forall k :: 0 <= k < last ==> reqs[..last][k] == reqs[k];
      if k :| 0 <= k < |reqs| && EffectiveId(reqs[k]) == id {
        if k < last {
          assert EffectiveId(reqs[..last][k]) == id;
        }
      }
    }
  }

  lemma {:induction false} StoredRoute(t: Table, reqs: seq<RouteRequest>, certs: map<string, Certificate>, id: string)
    returns (k: nat)
    requires exists k :: 0 <= k < |reqs| && EffectiveId(reqs[k]) == id
    ensures k < |reqs| && EffectiveId(reqs[k]) == id
    ensures id in ProvisionedAll(t, reqs, certs)
    ensures ProvisionedAll(t, reqs, certs)[id] == Stored(reqs[k], CertFor(certs, reqs[k].host))
  {
    k := |reqs| - 1;
    if EffectiveId(reqs[k]) != id {
      var last := k;
      var i :| 0 <= i < |reqs| && EffectiveId(reqs[i]) == id;
      assert EffectiveId(reqs[..last][i]) == id;
      k := StoredRoute(t, reqs[..last], certs, id);
      assert reqs[..last][k] == reqs[k];
    }
  }

  lemma SameId(desired: seq<RouteRequest>, d: RouteRequest, e: RouteRequest)
    requires Unambiguous(desired) && d in desired && e in desired && EffectiveId(d) == EffectiveId(e)
    ensures d.host == e.host
  {
    var a :| 0 <= a < |desired| && desired[a] == d;
    var b :| 0 <= b < |desired| && desired[b] == e;
  }

  // ---------------------------------------------------------------- the measure

  /** The route is stored under its own identifier. */
  predicate Own(t: Table, d: RouteRequest) {
    EffectiveId(d) in t && t[EffectiveId(d)].host == d.host
  }

  function OwnCount(t: Table, desired: seq<RouteRequest>): nat {
    if desired == [] then 0
    else OwnCount(t, desired[..|desired| - 1]) + if Own(t, desired[|desired| - 1]) then 1 else 0
  }

  /** After a cycle a desired route is stored under its own identifier if it was before, or if it
      has just been added. */
  lemma OwnAfter(t: Table, desired: seq<RouteRequest>, certs: map<string, Certificate>, d: RouteRequest)
    requires Unambiguous(desired) && d in desired
    ensures Own(Cycle(t, desired, certs), d) <==> Own(t, d) || d.host !in HostsIn(t)
    ensures d.host !in HostsIn(t) ==> !Own(t, d)
  {
    var t1, add, id := t - Stale(t, desired), ToAdd(desired, HostsIn(t)), EffectiveId(d);
    StoredUnder(t1, add, certs, id);
    InToAdd(desired, HostsIn(t), d);
    if k :| 0 <= k < |add| && EffectiveId(add[k]) == id {
      InToAdd(desired, HostsIn(t), add[k]);
      SameId(desired, d, add[k]);
      var i := StoredRoute(t1, add, certs, id);
      InToAdd(desired, HostsIn(t), add[i]);
      SameId(desired, d, add[i]);
    } else {
      assert d !in add;
      assert d.host in HostsOf(desired);
    }
  }

  lemma {:induction false} CountGrows(t: Table, t': Table, desired: seq<RouteRequest>, present: set<string>)
    requires forall k :: 0 <= k < |desired| ==> (Own(t', desired[k]) <==> Own(t, desired[k]) || desired[k].host !in present)
    requires forall k :: 0 <= k < |desired| && desired[k].host !in present ==> !Own(t, desired[k])
    ensures OwnCount(t', desired) == OwnCount(t, desired) + |ToAdd(desired, present)|
  {
    if desired != [] {
      CountGrows(t, t', desired[..|desired| - 1], present);
    }
  }

  /** The measure grows in every cycle by exactly the number of routes it adds. */
  lemma OwnGrows(t: Table, desired: seq<RouteRequest>, certs: map<string, Certificate>)
    requires Unambiguous(desired)
    ensures OwnCount(Cycle(t, desired, certs), desired) == OwnCount(t, desired) + |ToAdd(desired, HostsIn(t))|
  {
    forall k | 0 <= k < |desired|
      ensures Own(Cycle(t, desired, certs), desired[k]) <==> Own(t, desired[k]) || desired[k].host !in HostsIn(t)
      ensures desired[k].host !in HostsIn(t) ==> !Own(t, desired[k])
    {
      OwnAfter(t, desired, certs, desired[k]);
    }
    CountGrows(t, Cycle(t, desired, certs), desired, HostsIn(t));
  }

  lemma {:induction false} CountAtMost(t: Table, desired: seq<RouteRequest>)
    ensures OwnCount(t, desired) <= |desired|
    ensures OwnCount(t, desired) == |desired| ==> forall k :: 0 <= k < |desired| ==> Own(t, desired[k])
  {
    if desired != [] {
      CountAtMost(t, desired[..|desired| - 1]);
    }
  }

  // ---------------------------------------------------------------- convergence

  lemma {:induction false} NothingToAdd(desired: seq<RouteRequest>, present: set<string>)
    ensures ToAdd(desired, present) == [] <==> HostsOf(desired) <= present
  {
    if desired != [] {
      var last := |desired| - 1;
      NothingToAdd(desired[..last], present);
      HostsSnoc(desired[..last], desired[last]);
      assert desired == desired[..last] + [desired[last]];
    }
  }

  /** After one cycle only desired hosts are left; all of them, if none had to be added. */
  lemma AfterOneCycle(t: Table, desired: seq<RouteRequest>, certs: map<string, Certificate>)
    ensures HostsIn(Cycle(t, desired, certs)) <= HostsOf(desired)
    ensures ToAdd(desired, HostsIn(t)) == [] ==> HostsIn(Cycle(t, desired, certs)) == HostsOf(desired)
  {
    var t1, add, t2 := t - Stale(t, desired), ToAdd(desired, HostsIn(t)), Cycle(t, desired, certs);
    forall id | id in t2 ensures t2[id].host in HostsOf(desired) {
      StoredUnder(t1, add, certs, id);
      if k :| 0 <= k < |add| && EffectiveId(add[k]) == id {
        var i := StoredRoute(t1, add, certs, id);
        InToAdd(desired, HostsIn(t), add[i]);
      }
    }
    if add == [] {
      NothingToAdd(desired, HostsIn(t));
      forall h | h in HostsOf(desired) ensures h in HostsIn(t2) {
        var id :| id in t && t[id].host == h;
        assert id in t2;
      }
    }
  }

  /** Once the hosts agree a cycle adds nothing, removes nothing, and changes nothing. */
  lemma FixedPoint(t: Table, desired: seq<RouteRequest>, certs: map<string, Certificate>)
    requires HostsIn(t) == HostsOf(desired)
    ensures ToAdd(desired, HostsIn(t)) == [] && Stale(t, desired) == {} && Cycle(t, desired, certs) == t
  {
    NothingToAdd(desired, HostsIn(t));
    forall id | id in t ensures t[id].host in HostsOf(desired) {
      assert t[id].host in HostsIn(t);
    }
    assert Stale(t, desired) == {};
    assert t - {} == t;
  }

  /** Consecutive cycles with the same desired routes and whatever certificates. */
  predicate IsRun(ts: seq<Table>, desired: seq<RouteRequest>, certs: seq<map<string, Certificate>>) {
    && |ts| == |certs| + 1
    && forall k :: 0 <= k < |certs| ==> ts[k + 1] == Cycle(ts[k], desired, certs[k])
  }

  function Bound(desired: seq<RouteRequest>): nat {
    if |desired| > 1 then |desired| else 1
  }

  lemma {:induction false} Progress(ts: seq<Table>, desired: seq<RouteRequest>, certs: seq<map<string, Certificate>>,
      k: nat)
    requires Unambiguous(desired) && IsRun(ts, desired, certs) && k < |ts|
    ensures (k > 0 && HostsIn(ts[k]) == HostsOf(desired)) || OwnCount(ts[k], desired) >= k
    ensures k > 0 ==> HostsIn(ts[k]) <= HostsOf(desired)
  {
    if k > 0 {
      Progress(ts, desired, certs, k - 1);
      AfterOneCycle(ts[k - 1], desired, certs[k - 1]);
      OwnGrows(ts[k - 1], desired, certs[k - 1]);
      if k > 1 && HostsIn(ts[k - 1]) == HostsOf(desired) {
        FixedPoint(ts[k - 1], desired, certs[k - 1]);
      }
    }
  }

  /** From any table, after max(1, number of desired routes) cycles and ever after, the gateway holds
      exactly the desired hosts, and a further cycle writes nothing. */
  lemma Converges(ts: seq<Table>, desired: seq<RouteRequest>, certs: seq<map<string, Certificate>>, k: nat)
    requires Unambiguous(desired) && IsRun(ts, desired, certs) && Bound(desired) <= k < |ts|
    ensures HostsIn(ts[k]) == HostsOf(desired)
    ensures ToAdd(desired, HostsIn(ts[k])) == [] && Stale(ts[k], desired) == {}
    ensures k + 1 < |ts| ==> ts[k + 1] == ts[k]
  {
    var n := Bound(desired);
    Progress(ts, desired, certs, k);
    if HostsIn(ts[k]) != HostsOf(desired) {
      CountAtMost(ts[k], desired);
      forall h | h in HostsOf(desired) ensures h in HostsIn(ts[k]) {
        var d :| d in desired && d.host == h;
        var i :| 0 <= i < |desired| && desired[i] == d;
        assert Own(ts[k], desired[i]);
      }
    }
    FixedPoint(ts[k], desired, if k < |certs| then certs[k] else map[]);
  }

  // ---------------------------------------------------------------- identifiers must differ

  /** Every entry is a desired route's, under its own identifier. */
  predicate OnlyOwn(t: Table, desired: seq<RouteRequest>) {
    forall id :: id in t ==> exists d :: d in desired && EffectiveId(d) == id && t[id].host == d.host
  }

  lemma OnlyOwnAfter(t: Table, desired: seq<RouteRequest>, certs: map<string, Certificate>)
    requires OnlyOwn(t, desired)
    ensures OnlyOwn(Cycle(t, desired, certs), desired)
  {
    var t1, add, t2 := t - Stale(t, desired), ToAdd(desired, HostsIn(t)), Cycle(t, desired, certs);
    forall id | id in t2 ensures exists d :: d in desired && EffectiveId(d) == id && t2[id].host == d.host {
      StoredUnder(t1, add, certs, id);
      if k :| 0 <= k < |add| && EffectiveId(add[k]) == id {
        var i := StoredRoute(t1, add, certs, id);
        InToAdd(desired, HostsIn(t), add[i]);
        assert add[i] in desired;
      } else {
        assert t2[id] == t[id];
      }
    }
  }

  lemma PresentIsOwn(t: Table, desired: seq<RouteRequest>, k: nat)
    requires DistinctHosts(desired) && OnlyOwn(t, desired) && k < |desired|
    ensures desired[k].host in HostsIn(t) <==> Own(t, desired[k])
  {
    forall id | id in t && t[id].host == desired[k].host ensures id == EffectiveId(desired[k]) {
      var d :| d in desired && EffectiveId(d) == id && t[id].host == d.host;
      var j :| 0 <= j < |desired| && desired[j] == d;
    }
  }

  /** Two desired routes that share an identifier are never there together. */
  lemma NeverBoth(t: Table, desired: seq<RouteRequest>, a: nat, b: nat)
    requires DistinctHosts(desired) && OnlyOwn(t, desired) && a < b < |desired|
    requires EffectiveId(desired[a]) == EffectiveId(desired[b])
    ensures !(desired[a].host in HostsIn(t) && desired[b].host in HostsIn(t))
  {
    PresentIsOwn(t, desired, a);
    PresentIsOwn(t, desired, b);
  }

  lemma {:induction false} RunOnlyOwn(ts: seq<Table>, desired: seq<RouteRequest>, certs: seq<map<string,
      Certificate>>, k: nat)
    requires IsRun(ts, desired, certs) && ts[0] == map[] && k < |ts|
    ensures OnlyOwn(ts[k], desired)
  {
    if k > 0 {
      RunOnlyOwn(ts, desired, certs, k - 1);
      OnlyOwnAfter(ts[k - 1], desired, certs[k - 1]);
    }
  }

  function RunFrom(t: Table, desired: seq<RouteRequest>, certs: seq<map<string, Certificate>>): (ts: seq<Table>)
    ensures |ts| == |certs| + 1 && ts[0] == t
  {
    if certs == [] then [t]
    else
      var before := RunFrom(t, desired, certs[..|certs| - 1]);
      before + [Cycle(before[|before| - 1], desired, certs[|certs| - 1])]
  }

  lemma {:induction false} RunFromIsRun(t: Table, desired: seq<RouteRequest>, certs: seq<map<string, Certificate>>)
    ensures IsRun(RunFrom(t, desired, certs), desired, certs)
  {
    if certs != [] {
      var init, last := certs[..|certs| - 1], certs[|certs| - 1];
      var before := RunFrom(t, desired, init);
      RunFromIsRun(t, desired, init);
      RunExtends(before, desired, init, last, Cycle(before[|before| - 1], desired, last));
      assert certs == init + [last];
    }
  }

  /** Two routes that share an identifier: a run from empty that is never there. */
  lemma SharedIdRun(desired: seq<RouteRequest>, n: nat, a: nat, b: nat)
    returns (ts: seq<Table>, certs: seq<map<string, Certificate>>)
    requires DistinctHosts(desired) && a < b < |desired| && EffectiveId(desired[a]) == EffectiveId(desired[b])
    ensures IsRun(ts, desired, certs) && |ts| == n + 1 && ts[0] == map[] && HostsIn(ts[n]) != HostsOf(desired)
  {
    hide Cycle, EffectiveId, HostsIn;
    certs := seq(n, i => map[]);
    ts := RunFrom(map[], desired, certs);
    RunFromIsRun(map[], desired, certs);
    RunOnlyOwn(ts, desired, certs, n);
    NeverBoth(ts[n], desired, a, b);
    assert desired[a].host in HostsOf(desired) && desired[b].host in HostsOf(desired);
  }

  /** For desired routes with hosts of their own, convergence from the empty table is exactly that they
      have effective identifiers of their own. */
  lemma ConvergesIff(desired: seq<RouteRequest>, n: nat)
    requires DistinctHosts(desired) && Bound(desired) <= n
    ensures Unambiguous(desired) <==>
      forall ts, certs :: IsRun(ts, desired, certs) && |ts| == n + 1 && ts[0] == map[] ==> HostsIn(ts[n]) == HostsOf(desired)
  {
    if Unambiguous(desired) {
      forall ts, certs | IsRun(ts, desired, certs) && |ts| == n + 1 && ts[0] == map[] ensures HostsIn(ts[n]) == HostsOf(desired) {
        Converges(ts, desired, certs, n);
      }
    } else {
      var a, b :| 0 <= a < b < |desired| && EffectiveId(desired[a]) == EffectiveId(desired[b]);
      var ts, certs := SharedIdRun(desired, n, a, b);
    }
  }

  // ---------------------------------------------------------------- hosts desired more than once

  predicate SameRoutes(a: seq<RouteRequest>, b: seq<RouteRequest>) {
    && (forall k :: 0 <= k < |a| ==> a[k] in b)
    && (forall k :: 0 <= k < |b| ==> b[k] in a)
  }

  function Plain(id: string, host: string): RouteRequest {
    RouteRequest(id, host, "", [], false)
  }

  const GROUPED := [Plain("1", "a"), Plain("2", "a"), Plain("1", "b"), Plain("2", "b")]
  const NESTED := [Plain("1", "a"), Plain("1", "b"), Plain("2", "b"), Plain("2", "a")]

  lemma AddsLast(init: seq<RouteRequest>, d: RouteRequest, present: set<string>)
    ensures ToAdd(init + [d], present) == if d.host in present then ToAdd(init, present) else ToAdd(init, present) + [d]
  {
    assert (init + [d])[..|init|] == init;
  }

  lemma StoresLast(t: Table, init: seq<RouteRequest>, d: RouteRequest, certs: map<string, Certificate>)
    ensures ProvisionedAll(t, init + [d], certs) == Provisioned(ProvisionedAll(t, init, certs), d, CertFor(certs, d.host))
  {
    assert (init + [d])[..|init|] == init;
  }

  lemma NoneAdded(present: set<string>)
    ensures ToAdd([], present) == []
  {
  }

  lemma FourAdded(w: RouteRequest, x: RouteRequest, y: RouteRequest, z: RouteRequest, present: set<string>)
    ensures ToAdd([w, x, y, z], present) ==
      (if w.host in present then [] else [w]) + (if x.host in present then [] else [x])
      + (if y.host in present then [] else [y]) + (if z.host in present then [] else [z])
  {
    hide ToAdd;
    assert [] + [w] == [w] && [w] + [x] == [w, x] && [w, x] + [y] == [w, x, y] && [w, x, y] + [z] == [w, x, y, z];
    assert ToAdd([], present) == [] by {
      NoneAdded(present);
    }
    AddsLast([], w, present);
    AddsLast([w], x, present);
    AddsLast([w, x], y, present);
    AddsLast([w, x, y], z, present);
  }

  lemma TwoStored(t: Table, y: RouteRequest, z: RouteRequest, certs: map<string, Certificate>)
    ensures ProvisionedAll(t, [y, z], certs) == t[EffectiveId(y) := Stored(y, CertFor(certs, y.host))][EffectiveId(z) := Stored(z, CertFor(certs, z.host))]
  {
    OneStored(t, y, certs);
    StoresLast(t, [y], z, certs);
    assert [y] + [z] == [y, z];
  }

  lemma FourStored(t: Table, w: RouteRequest, x: RouteRequest, y: RouteRequest, z: RouteRequest, certs: map<string,
      Certificate>)
    ensures ProvisionedAll(t, [w, x, y, z], certs) ==
      Provisioned(Provisioned(ProvisionedAll(t, [w, x], certs), y, CertFor(certs, y.host)), z, CertFor(certs, z.host))
  {
    hide *;
    assert [w, x] + [y] == [w, x, y] && [w, x, y] + [z] == [w, x, y, z];
    StoresLast(t, [w, x], y, certs);
    StoresLast(t, [w, x, y], z, certs);
  }

  /** The first cycle stores all four, in order. */
  lemma FirstCycle(w: RouteRequest, x: RouteRequest, y: RouteRequest, z: RouteRequest, certs: map<string, Certificate>)
    ensures var t := ProvisionedAll(map[], [w, x], certs);
      Cycle(map[], [w, x, y, z], certs) == Provisioned(Provisioned(t, y, CertFor(certs, y.host)), z, CertFor(certs, z.host))
  {
    var none: Table := map[];
    assert HostsIn(none) == {} && none - Stale(none, [w, x, y, z]) == none;
    hide HostsIn, Stale, ToAdd, ProvisionedAll, Provisioned, CertFor;
    FourAdded(w, x, y, z, HostsIn(none));
    assert [w] + [x] + [y] + [z] == [w, x, y, z];
    FourStored(none, w, x, y, z, certs);
  }

  /** Which host each of the two identifiers is stored for. */
  predicate Holds(t: Table, first: string, second: string) {
    t.Keys == {"1", "2"} && t["1"].host == first && t["2"].host == second
  }

  lemma HoldsHosts(t: Table, first: string, second: string)
    requires Holds(t, first, second)
    ensures HostsIn(t) == {first, second}
  {
    assert "1" in t && "2" in t;
  }

  lemma FromEmpty(certs: map<string, Certificate>)
    ensures Holds(Cycle(map[], GROUPED, certs), "b", "b") && Holds(Cycle(map[], NESTED, certs), "b", "a")
  {
    hide Cycle, ProvisionedAll;
    var a1, a2, b1, b2 := Plain("1", "a"), Plain("2", "a"), Plain("1", "b"), Plain("2", "b");
    FirstCycle(a1, a2, b1, b2, certs);
    TwoStored(map[], a1, a2, certs);
    FirstCycle(a1, b1, b2, a2, certs);
    TwoStored(map[], a1, b1, certs);
  }

  lemma TheirHosts()
    ensures HostsOf(GROUPED) == HostsOf(NESTED) == {"a", "b"} && SameRoutes(GROUPED, NESTED)
  {
    assert GROUPED[0] == NESTED[0] && GROUPED[1] == NESTED[3] && GROUPED[2] == NESTED[1] && GROUPED[3] == NESTED[2];
  }

  lemma OtherAdded(host: string, other: string)
    requires (host, other) == ("a", "b") || (host, other) == ("b", "a")
    ensures ToAdd(GROUPED, {host}) == [Plain("1", other), Plain("2", other)]
  {
    hide ToAdd;
    FourAdded(Plain("1", "a"), Plain("2", "a"), Plain("1", "b"), Plain("2", "b"), {host});
    assert [Plain("1", other)] + [Plain("2", other)] == [Plain("1", other), Plain("2", other)];
  }

  lemma NoneStale(t: Table, host: string)
    requires host in {"a", "b"} && Holds(t, host, host)
    ensures t - Stale(t, GROUPED) == t
  {
    TheirHosts();
    assert Stale(t, GROUPED) == {};
  }

  lemma Alternates(t: Table, host: string, other: string, certs: map<string, Certificate>)
    requires (host, other) == ("a", "b") || (host, other) == ("b", "a")
    requires Holds(t, host, host)
    ensures Holds(Cycle(t, GROUPED, certs), other, other)
  {
    NoneStale(t, host);
    HoldsHosts(t, host, host);
    OtherAdded(host, other);
    hide HostsIn, Stale, ToAdd, ProvisionedAll, GROUPED;
    assert {host, host} == {host};
    TwoStored(t, Plain("1", other), Plain("2", other), certs);
  }

  lemma {:induction false} NeverTogether(ts: seq<Table>, certs: seq<map<string, Certificate>>, k: nat)
    requires IsRun(ts, GROUPED, certs) && ts[0] == map[] && 0 < k < |ts|
    ensures Holds(ts[k], "a", "a") || Holds(ts[k], "b", "b")
  {
    hide Cycle, Holds;
    if k == 1 {
      FromEmpty(certs[0]);
    } else {
      NeverTogether(ts, certs, k - 1);
      if Holds(ts[k - 1], "a", "a") {
        Alternates(ts[k - 1], "a", "b", certs[k - 1]);
      } else {
        Alternates(ts[k - 1], "b", "a", certs[k - 1]);
      }
    }
  }

  lemma {:induction false} AtOnce(us: seq<Table>, certs: seq<map<string, Certificate>>, k: nat)
    requires IsRun(us, NESTED, certs) && us[0] == map[] && 0 < k < |us|
    ensures HostsIn(us[k]) == HostsOf(NESTED)
  {
    hide Cycle, Holds;
    TheirHosts();
    if k == 1 {
      FromEmpty(certs[0]);
      HoldsHosts(us[1], "b", "a");
    } else {
      AtOnce(us, certs, k - 1);
      FixedPoint(us[k - 1], NESTED, certs[k - 1]);
    }
  }

  /** Where hosts are desired under several identifiers, which set of routes is desired does not decide
      convergence from empty: listed in one order these four never converge, in another at once. */
  lemma OrderDecides(ts: seq<Table>, us: seq<Table>, certs: seq<map<string, Certificate>>, k: nat)
    requires IsRun(ts, GROUPED, certs) && IsRun(us, NESTED, certs) && ts[0] == us[0] == map[] && 0 < k < |ts|
    ensures SameRoutes(GROUPED, NESTED)
    ensures HostsIn(ts[k]) != HostsOf(GROUPED) && HostsIn(us[k]) == HostsOf(NESTED)
  {
    TheirHosts();
    NeverTogether(ts, certs, k);
    AtOnce(us, certs, k);
    if Holds(ts[k], "a", "a") {
      HoldsHosts(ts[k], "a", "a");
    } else {
      HoldsHosts(ts[k], "b", "b");
    }
    hide Holds, HostsIn, Cycle;
    assert "a" in HostsOf(GROUPED) && "b" in HostsOf(GROUPED);
  }

  // ---------------------------------------------------------------- the order does not matter

  lemma SameStored(t: Table, x: seq<RouteRequest>, y: seq<RouteRequest>, desired: seq<RouteRequest>,
      certs: map<string, Certificate>, id: string)
    requires Unambiguous(desired) && (forall d :: d in x ==> d in desired) && forall d :: d in x <==> d in y
    requires id in ProvisionedAll(t, x, certs)
    ensures id in ProvisionedAll(t, y, certs) && ProvisionedAll(t, y, certs)[id] == ProvisionedAll(t, x, certs)[id]
  {
    StoredUnder(t, x, certs, id);
    StoredUnder(t, y, certs, id);
    if k :| 0 <= k < |x| && EffectiveId(x[k]) == id {
      assert x[k] in y;
      var i := StoredRoute(t, x, certs, id);
      var j := StoredRoute(t, y, certs, id);
      assert x[i] in x && y[j] in y;
      SameId(desired, x[i], y[j]);
    } else {
      forall k | 0 <= k < |y| ensures EffectiveId(y[k]) != id {
        assert y[k] in x;
      }
    }
  }

  /** The source of truth may list its routes in another order every time. */
  lemma CycleOrder(t: Table, a: seq<RouteRequest>, b: seq<RouteRequest>, certs: map<string, Certificate>)
    requires Unambiguous(a) && SameRoutes(a, b)
    ensures Cycle(t, a, certs) == Cycle(t, b, certs)
  {
    assert HostsOf(a) == HostsOf(b);
    var t1, x, y := t - Stale(t, a), ToAdd(a, HostsIn(t)), ToAdd(b, HostsIn(t));
    forall d ensures d in x <==> d in y {
      InToAdd(a, HostsIn(t), d);
      InToAdd(b, HostsIn(t), d);
    }
    forall d | d in x ensures d in a {
      InToAdd(a, HostsIn(t), d);
    }
    forall id | id in ProvisionedAll(t1, x, certs) || id in ProvisionedAll(t1, y, certs)
      ensures id in ProvisionedAll(t1, x, certs) && id in ProvisionedAll(t1, y, certs)
      ensures ProvisionedAll(t1, x, certs)[id] == ProvisionedAll(t1, y, certs)[id]
    {
      if id in ProvisionedAll(t1, x, certs) {
        SameStored(t1, x, y, a, certs, id);
      } else {
        SameStored(t1, y, x, a, certs, id);
      }
    }
  }

  // ---------------------------------------------------------------- the bound is tight

  function Key(desired: seq<RouteRequest>, i: nat): string
    requires i < |desired|
  {
    EffectiveId(desired[i])
  }

  /** The host in slot i when the slots from k on are shifted by one. */
  function HostAt(desired: seq<RouteRequest>, k: nat, i: nat): string
    requires i < |desired| && (i < k || i + 1 < |desired|)
  {
    if i < k then desired[i].host else desired[i + 1].host
  }

  /** Slots below k hold their own host, each later slot the host of the next one, and the last slot
      is empty: host k is the one that is missing. */
  predicate Shifted(t: Table, desired: seq<RouteRequest>, k: nat) {
    && (forall i :: 0 <= i < |desired| ==> (Key(desired, i) in t <==> i < k || i + 1 < |desired|))
    && (forall i :: 0 <= i < |desired| && Key(desired, i) in t ==> t[Key(desired, i)].host == HostAt(desired, k, i))
    && (forall id :: id in t ==> exists i :: 0 <= i < |desired| && id == Key(desired, i))
  }

  function ShiftedTable(desired: seq<RouteRequest>, m: nat): Table
    requires m < |desired|
  {
    if m == 0 then map[]
    else ShiftedTable(desired, m - 1)[Key(desired, m - 1) := ProvisionedRoute(Key(desired, m - 1), desired[m].host, "", "", "", "")]
  }

  lemma KeysDiffer(desired: seq<RouteRequest>, i: nat, j: nat)
    requires Unambiguous(desired) && DistinctHosts(desired) && i < |desired| && j < |desired|
    ensures Key(desired, i) == Key(desired, j) <==> i == j
    ensures desired[i].host == desired[j].host <==> i == j
  {
  }

  lemma {:induction false} ShiftedTableAt(desired: seq<RouteRequest>, m: nat, i: nat)
    requires Unambiguous(desired) && DistinctHosts(desired) && m < |desired| && i < |desired|
    ensures Key(desired, i) in ShiftedTable(desired, m) <==> i < m
    ensures i < m ==> ShiftedTable(desired, m)[Key(desired, i)].host == desired[i + 1].host
  {
    if m > 0 {
      ShiftedTableAt(desired, m - 1, i);
      KeysDiffer(desired, i, m - 1);
    }
  }

  lemma {:induction false} ShiftedTableFrom(desired: seq<RouteRequest>, m: nat, id: string) returns (i: nat)
    requires m < |desired| && id in ShiftedTable(desired, m)
    ensures i < m && id == Key(desired, i) && ShiftedTable(desired, m)[id].routeID == id
  {
    i := m - 1;
    if id != Key(desired, i) {
      i := ShiftedTableFrom(desired, m - 1, id);
    }
  }

  lemma ShiftedStart(desired: seq<RouteRequest>)
    requires Unambiguous(desired) && DistinctHosts(desired) && desired != []
    ensures Shifted(ShiftedTable(desired, |desired| - 1), desired, 0) && Keyed(ShiftedTable(desired, |desired| - 1))
  {
    var m := |desired| - 1;
    var t := ShiftedTable(desired, m);
    forall i | 0 <= i < |desired|
      ensures Key(desired, i) in t <==> i + 1 < |desired|
      ensures Key(desired, i) in t ==> t[Key(desired, i)].host == HostAt(desired, 0, i)
    {
      ShiftedTableAt(desired, m, i);
    }
    forall id | id in t ensures t[id].routeID == id && exists i :: 0 <= i < |desired| && id == Key(desired, i) {
      var i := ShiftedTableFrom(desired, m, id);
    }
  }

  lemma SlotIsOther(t: Table, desired: seq<RouteRequest>, k: nat, id: string)
    requires Unambiguous(desired) && DistinctHosts(desired) && Shifted(t, desired, k) && k < |desired| && id in t
    ensures t[id].host != desired[k].host
  {
    var j :| 0 <= j < |desired| && id == Key(desired, j);
    KeysDiffer(desired, if j < k then j else j + 1, k);
    hide Unambiguous, DistinctHosts, EffectiveId;
  }

  lemma ShiftedHosts(t: Table, desired: seq<RouteRequest>, k: nat, i: nat)
    requires Unambiguous(desired) && DistinctHosts(desired) && Shifted(t, desired, k) && i < |desired| && k < |desired|
    ensures desired[i].host in HostsIn(t) <==> i != k
  {
    hide Unambiguous, DistinctHosts, EffectiveId;
    if i == k {
      forall id | id in t ensures t[id].host != desired[k].host {
        SlotIsOther(t, desired, k, id);
      }
    } else {
      var j: nat := if i < k then i else i - 1;
      assert Key(desired, j) in t && t[Key(desired, j)].host == desired[i].host;
    }
  }

  lemma {:induction false} OnlyMissing(desired: seq<RouteRequest>, k: nat, present: set<string>)
    requires forall i :: 0 <= i < |desired| ==> (desired[i].host in present <==> i != k)
    ensures ToAdd(desired, present) == if k < |desired| then [desired[k]] else []
  {
    if desired != [] {
      OnlyMissing(desired[..|desired| - 1], k, present);
    }
  }

  lemma NothingStale(t: Table, desired: seq<RouteRequest>, k: nat)
    requires Shifted(t, desired, k)
    ensures Stale(t, desired) == {}
  {
    forall id | id in t ensures t[id].host in HostsOf(desired) {
      var i :| 0 <= i < |desired| && id == Key(desired, i);
      assert HostAt(desired, k, i) == desired[if i < k then i else i + 1].host;
    }
  }

  lemma OneStored(t: Table, d: RouteRequest, certs: map<string, Certificate>)
    ensures ProvisionedAll(t, [d], certs) == t[EffectiveId(d) := Stored(d, CertFor(certs, d.host))]
  {
    assert [d][..0] == [];
    assert ProvisionedAll(t, [], certs) == t;
  }

  lemma ShiftedPut(t: Table, desired: seq<RouteRequest>, k: nat, r: ProvisionedRoute)
    requires Unambiguous(desired) && DistinctHosts(desired) && Shifted(t, desired, k) && k < |desired| && r.host == desired[k].host
    ensures Shifted(t[Key(desired, k) := r], desired, k + 1)
  {
    var t' := t[Key(desired, k) := r];
    forall i | 0 <= i < |desired|
      ensures Key(desired, i) in t' <==> i < k + 1 || i + 1 < |desired|
      ensures Key(desired, i) in t' ==> t'[Key(desired, i)].host == HostAt(desired, k + 1, i)
    {
      KeysDiffer(desired, i, k);
    }
  }

  /** One cycle puts host k in its slot and so loses host k + 1. */
  lemma ShiftedCycle(t: Table, desired: seq<RouteRequest>, k: nat, certs: map<string, Certificate>)
    requires Unambiguous(desired) && DistinctHosts(desired) && Shifted(t, desired, k) && k < |desired|
    ensures Shifted(Cycle(t, desired, certs), desired, k + 1)
  {
    forall i | 0 <= i < |desired| ensures desired[i].host in HostsIn(t) <==> i != k {
      ShiftedHosts(t, desired, k, i);
    }
    OnlyMissing(desired, k, HostsIn(t));
    NothingStale(t, desired, k);
    assert t - {} == t;
    OneStored(t, desired[k], certs);
    ShiftedPut(t, desired, k, Stored(desired[k], CertFor(certs, desired[k].host)));
  }

  lemma RunExtends(ts: seq<Table>, desired: seq<RouteRequest>, certs: seq<map<string, Certificate>>, c: map<string,
      Certificate>, t: Table)
    requires IsRun(ts, desired, certs) && t == Cycle(ts[|ts| - 1], desired, c)
    ensures IsRun(ts + [t], desired, certs + [c])
  {
  }

  lemma {:induction false} ShiftedRun(desired: seq<RouteRequest>, certs: seq<map<string, Certificate>>)
    returns (ts: seq<Table>)
    requires Unambiguous(desired) && DistinctHosts(desired) && |certs| < |desired|
    ensures IsRun(ts, desired, certs) && Keyed(ts[0]) && Shifted(ts[|certs|], desired, |certs|)
  {
    if certs == [] {
      ShiftedStart(desired);
      ts := [ShiftedTable(desired, |desired| - 1)];
    } else {
      var k := |certs| - 1;
      var before := ShiftedRun(desired, certs[..k]);
      var t := Cycle(before[k], desired, certs[k]);
      ShiftedCycle(before[k], desired, k, certs[k]);
      hide *;
      RunExtends(before, desired, certs[..k], certs[k], t);
      assert certs == certs[..k] + [certs[k]];
      ts := before + [t];
    }
  }

  /** No smaller bound will do: whatever the desired routes, there is a table from which one cycle
      less than their number is not enough. */
  lemma BoundIsTight(desired: seq<RouteRequest>, certs: seq<map<string, Certificate>>) returns (ts: seq<Table>)
    requires Unambiguous(desired) && DistinctHosts(desired) && |certs| + 1 == |desired|
    ensures IsRun(ts, desired, certs) && Keyed(ts[0]) && HostsIn(ts[|certs|]) != HostsOf(desired)
  {
    ts := ShiftedRun(desired, certs);
    var k := |certs|;
    ShiftedHosts(ts[k], desired, k, k);
    assert desired[k].host in HostsOf(desired);
  }
}
