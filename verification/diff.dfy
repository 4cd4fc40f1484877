/** The difference between desired and actual routes: by host, but removals are by identifier. */
module Diff {
  import opened Core

  function HostsOf(routes: seq<RouteRequest>): set<string> {
    set r | r in routes :: r.host
  }

  function ActualHosts(actual: seq<ProvisionedRoute>): set<string> {
    set a | a in actual :: a.host
  }

  /** Desired routes whose host is not there. */
  function ToAdd(desired: seq<RouteRequest>, present: set<string>): seq<RouteRequest> {
    if desired == [] then []
    else
      var last := |desired| - 1;
      var init := ToAdd(desired[..last], present);
      if desired[last].host in present then init else init + [desired[last]]
  }

  /** Identifiers of actual routes whose host is not wanted. */
  function ToRemove(wanted: set<string>, actual: seq<ProvisionedRoute>): seq<string> {
    if actual == [] then []
    else
      var last := |actual| - 1;
      var init := ToRemove(wanted, actual[..last]);
      if actual[last].host in wanted then init else init + [actual[last].routeID]
  }

  lemma {:induction false} InToAdd(desired: seq<RouteRequest>, present: set<string>, d: RouteRequest)
    ensures d in ToAdd(desired, present) <==> d in desired && d.host !in present
  {
    if desired != [] {
      var last := |desired| - 1;
      InToAdd(desired[..last], present, d);
      assert desired == desired[..last] + [desired[last]];
    }
  }

  lemma {:induction false} ToRemoveFrom(wanted: set<string>, actual: seq<ProvisionedRoute>, id: string) returns (k: nat)
    requires id in ToRemove(wanted, actual)
    ensures k < |actual| && actual[k].host !in wanted && actual[k].routeID == id
  {
    k := |actual| - 1;
    if id in ToRemove(wanted, actual[..k]) {
      var init := actual[..k];
      k := ToRemoveFrom(wanted, init, id);
      assert init[k] == actual[k];
    }
  }

  lemma {:induction false} ToRemoveHas(wanted: set<string>, actual: seq<ProvisionedRoute>, k: nat)
    requires k < |actual| && actual[k].host !in wanted
    ensures actual[k].routeID in ToRemove(wanted, actual)
  {
    var last := |actual| - 1;
    if k < last {
      assert actual[..last][k] == actual[k];
      ToRemoveHas(wanted, actual[..last], k);
    }
  }

  lemma HostsSnoc(init: seq<RouteRequest>, d: RouteRequest)
    ensures HostsOf(init + [d]) == HostsOf(init) + {d.host}
  {
    assert forall r :: r in init + [d] <==> r in init || r == d;
  }

  lemma ActualHostsSnoc(init: seq<ProvisionedRoute>, a: ProvisionedRoute)
    ensures ActualHosts(init + [a]) == ActualHosts(init) + {a.host}
  {
    assert forall r :: r in init + [a] <==> r in init || r == a;
  }

  method Compute(desired: seq<RouteRequest>, actual: seq<ProvisionedRoute>)
    returns (toAdd: seq<RouteRequest>, toRemove: seq<string>)
    ensures toAdd == ToAdd(desired, ActualHosts(actual))
    ensures toRemove == ToRemove(HostsOf(desired), actual)
  {
    toAdd, toRemove := [], [];
    var actualByHost: map<string, ProvisionedRoute> := map[];
    for k := 0 to |actual|
      invariant actualByHost.Keys == ActualHosts(actual[..k])
    {
      ActualHostsSnoc(actual[..k], actual[k]);
      assert actual[..k] + [actual[k]] == actual[..k + 1];
      actualByHost := actualByHost[actual[k].host := actual[k]];
    }
    assert actual[..|actual|] == actual;
    var desiredHosts: set<string> := {};
    for k := 0 to |desired|
      invariant desiredHosts == HostsOf(desired[..k]) && toAdd == ToAdd(desired[..k], ActualHosts(actual))
    {
      HostsSnoc(desired[..k], desired[k]);
      assert desired[..k] + [desired[k]] == desired[..k + 1];
      assert desired[..k + 1][..k] == desired[..k];
      desiredHosts := desiredHosts + {desired[k].host};
      if desired[k].host !in actualByHost {
        toAdd := toAdd + [desired[k]];
      }
    }
    assert desired[..|desired|] == desired;
    for k := 0 to |actual|
      invariant toRemove == ToRemove(HostsOf(desired), actual[..k])
    {
      assert actual[..k + 1][..k] == actual[..k];
      if actual[k].host !in desiredHosts {
        toRemove := toRemove + [actual[k].routeID];
      }
    }
  }
}
