/** One reconciliation cycle over either gateway: list, list, compare, remove, issue, add. */
module Reconciliation {
  import opened Core
  import opened Kube
  import opened IngressPlan
  import opened IngressRuns
  import opened IngressStore
  import opened IngressList
  import IngressGateway
  import opened IngressConvergence
  import opened Diff
  import LogGateway
  import LogConvergence

  /** The routes a certificate is asked for, in order. */
  function TlsRoutes(routes: seq<RouteRequest>): seq<RouteRequest> {
    if routes == [] then []
    else
      var last := |routes| - 1;
      var init := TlsRoutes(routes[..last]);
      if routes[last].tls then init + [routes[last]] else init
  }

  /** The certificates obtained, by host; `answer(k)` is what the k-th Issue call returns. */
  function Certs(routes: seq<RouteRequest>, answer: nat -> Option<Certificate>): map<string, Certificate> {
    if routes == [] then map[]
    else
      var last := |routes| - 1;
      var init, a := Certs(routes[..last], answer), answer(|TlsRoutes(routes[..last])|);
      if routes[last].tls && a.Some? then init[routes[last].host := a.value] else init
  }

  /** Every certificate in the map answers an Issue call for a route with that host. */
  lemma {:induction false} CertsFrom(routes: seq<RouteRequest>, answer: nat -> Option<Certificate>, host: string)
    returns (k: nat)
    requires host in Certs(routes, answer)
    ensures k < |TlsRoutes(routes)| && TlsRoutes(routes)[k].host == host && answer(k) == Some(Certs(routes, answer)[host])
  {
    var last := |routes| - 1;
    var a := answer(|TlsRoutes(routes[..last])|);
    if routes[last].tls && a.Some? && routes[last].host == host {
      k := |TlsRoutes(routes[..last])|;
    } else {
      k := CertsFrom(routes[..last], answer, host);
    }
  }

  /** The k-th Issue call is for the host and is answered. */
  predicate Answered(routes: seq<RouteRequest>, answer: nat -> Option<Certificate>, host: string, k: nat) {
    k < |TlsRoutes(routes)| && TlsRoutes(routes)[k].host == host && answer(k).Some?
  }

  /** No certificate obtained is left out, and of several for a host the last one counts. */
  lemma {:induction false} LastAnswerCounts(routes: seq<RouteRequest>, answer: nat -> Option<Certificate>,
      host: string, k: nat)
    requires Answered(routes, answer, host, k)
    ensures host in Certs(routes, answer)
    ensures (forall j: nat :: k < j ==> !Answered(routes, answer, host, j)) ==> Certs(routes, answer)[host] == answer(k).value
  {
    var last := |routes| - 1;
    var init := routes[..last];
    var n := |TlsRoutes(init)|;
    if k < n {
      LastAnswerCounts(init, answer, host, k);
      if forall j: nat :: k < j ==> !Answered(routes, answer, host, j) {
        assert !Answered(routes, answer, host, n);
        forall j: nat | k < j ensures !Answered(init, answer, host, j) {
          assert !Answered(routes, answer, host, j);
        }
      }
    }
  }

  /** The map has exactly the hosts for which some Issue call was answered. */
  lemma CertsIff(routes: seq<RouteRequest>, answer: nat -> Option<Certificate>, host: string)
    ensures host in Certs(routes, answer) <==> exists k: nat :: Answered(routes, answer, host, k)
  {
    if host in Certs(routes, answer) {
      var k := CertsFrom(routes, answer, host);
      assert Answered(routes, answer, host, k);
    } else if k: nat :| Answered(routes, answer, host, k) {
      LastAnswerCounts(routes, answer, host, k);
    }
  }

  // ---------------------------------------------------------------- what the log gateway then stores

  lemma {:induction false} TlsRoutesFrom(routes: seq<RouteRequest>, k: nat) returns (i: nat)
    requires k < |TlsRoutes(routes)|
    ensures i < |routes| && routes[i] == TlsRoutes(routes)[k] && routes[i].tls
  {
    i := |routes| - 1;
    if k < |TlsRoutes(routes[..i])| {
      var init := routes[..i];
      i := TlsRoutesFrom(init, k);
      assert init[i] == routes[i];
    }
  }

  lemma {:induction false} TlsHostsDiffer(routes: seq<RouteRequest>, a: nat, b: nat)
    requires LogConvergence.DistinctHosts(routes) && a < b < |TlsRoutes(routes)|
    ensures TlsRoutes(routes)[a].host != TlsRoutes(routes)[b].host
  {
    var last := |routes| - 1;
    var init := routes[..last];
    if b < |TlsRoutes(init)| {
      TlsHostsDiffer(init, a, b);
    } else {
      var i := TlsRoutesFrom(init, a);
      assert init[i] == routes[i];
    }
  }

  lemma {:induction false} AddedHostsDiffer(desired: seq<RouteRequest>, present: set<string>)
    requires LogConvergence.DistinctHosts(desired)
    ensures LogConvergence.DistinctHosts(ToAdd(desired, present))
  {
    if desired != [] {
      var last := |desired| - 1;
      var init := ToAdd(desired[..last], present);
      AddedHostsDiffer(desired[..last], present);
      forall a | 0 <= a < |init| ensures init[a].host != desired[last].host {
        InToAdd(desired[..last], present, init[a]);
      }
    }
  }

  /** With hosts that differ, the certificate for an added route is what its own Issue call obtained. */
  lemma OwnCertificate(add: seq<RouteRequest>, answer: nat -> Option<Certificate>, d: RouteRequest)
    requires LogConvergence.DistinctHosts(add) && d in add
    ensures forall k: nat :: k < |TlsRoutes(add)| && TlsRoutes(add)[k] == d ==> CertFor(Certs(add, answer), d.host) == answer(k)
    ensures !d.tls ==> CertFor(Certs(add, answer), d.host).None?
  {
    CertsIff(add, answer, d.host);
    forall k: nat | k < |TlsRoutes(add)| && TlsRoutes(add)[k] == d ensures CertFor(Certs(add, answer), d.host) == answer(k) {
      AskedOnce(add, answer, d, k);
      if answer(k).Some? {
        LastAnswerCounts(add, answer, d.host, k);
      }
    }
    if k: nat :| Answered(add, answer, d.host, k) {
      var i := TlsRoutesFrom(add, k);
      var j :| 0 <= j < |add| && add[j] == d;
    }
  }

  lemma AskedOnce(add: seq<RouteRequest>, answer: nat -> Option<Certificate>, d: RouteRequest, k: nat)
    requires LogConvergence.DistinctHosts(add) && k < |TlsRoutes(add)| && TlsRoutes(add)[k] == d
    ensures forall j: nat :: j != k ==> !Answered(add, answer, d.host, j)
  {
    forall j: nat | j != k ensures !Answered(add, answer, d.host, j) {
      if j < |TlsRoutes(add)| {
        TlsHostsDiffer(add, if j < k then j else k, if j < k then k else j);
      }
    }
  }

  /** After a cycle over the log gateway each added route is stored, under its identifier or else its
      host, with the host of the certificate its own Issue call obtained; with none, if it wants no TLS or
      the call failed. */
  lemma LogStoresCertificates(t: LogGateway.Table, desired: seq<RouteRequest>, answer: nat -> Option<Certificate>,
      d: RouteRequest)
    requires LogConvergence.Unambiguous(desired) && LogConvergence.DistinctHosts(desired)
    requires d in desired && d.host !in LogConvergence.HostsIn(t)
    ensures var add := ToAdd(desired, LogConvergence.HostsIn(t));
      var t', id := LogConvergence.Cycle(t, desired, Certs(add, answer)), if d.id != "" then d.id else d.host;
      && id in t' && t'[id].host == d.host && t'[id].routeID == id
      && (forall k: nat :: k < |TlsRoutes(add)| && TlsRoutes(add)[k] == d ==>
            t'[id].certificateID == if answer(k).Some? then answer(k).value.host else "")
      && (!d.tls ==> t'[id].certificateID == "")
      && (d.tls ==> d in TlsRoutes(add))
  {
    var add := ToAdd(desired, LogConvergence.HostsIn(t));
    InToAdd(desired, LogConvergence.HostsIn(t), d);
    AddedHostsDiffer(desired, LogConvergence.HostsIn(t));
    OwnCertificate(add, answer, d);
    InTlsRoutes(add, d);
    hide Certs, TlsRoutes, ToAdd, LogConvergence.DistinctHosts, LogConvergence.HostsIn;
    StoredOnce(t, desired, Certs(add, answer), d);
  }

  lemma StoredOnce(t: LogGateway.Table, desired: seq<RouteRequest>, certs: map<string, Certificate>, d: RouteRequest)
    requires LogConvergence.Unambiguous(desired) && LogConvergence.DistinctHosts(desired)
    requires d in desired && d.host !in LogConvergence.HostsIn(t)
    ensures var t', id := LogConvergence.Cycle(t, desired, certs), LogGateway.EffectiveId(d);
      id in t' && t'[id] == LogGateway.Stored(d, CertFor(certs, d.host))
  {
    var present, id := LogConvergence.HostsIn(t), LogGateway.EffectiveId(d);
    var add := ToAdd(desired, present);
    InToAdd(desired, present, d);
    var j :| 0 <= j < |add| && add[j] == d;
    var k := LogConvergence.StoredRoute(t - LogConvergence.Stale(t, desired), add, certs, id);
    InToAdd(desired, present, add[k]);
    LogConvergence.SameId(desired, d, add[k]);
    SameHost(desired, d, add[k]);
  }

  lemma SameHost(desired: seq<RouteRequest>, d: RouteRequest, e: RouteRequest)
    requires LogConvergence.DistinctHosts(desired) && d in desired && e in desired && d.host == e.host
    ensures d == e
  {
    var a :| 0 <= a < |desired| && desired[a] == d;
    var b :| 0 <= b < |desired| && desired[b] == e;
  }

  lemma {:induction false} InTlsRoutes(routes: seq<RouteRequest>, r: RouteRequest)
    ensures r in TlsRoutes(routes) <==> r in routes && r.tls
  {
    if routes != [] {
      var last := |routes| - 1;
      InTlsRoutes(routes[..last], r);
      assert routes == routes[..last] + [routes[last]];
    }
  }

  datatype Gateway = Log(log: LogGateway.LogProvisioner) | Ingress(ingress: IngressGateway.IngressProvisioner)

  function Footprint(g: Gateway): set<object> {
    if g.Log? then {g.log} else {g.ingress.api}
  }

  /** Some desired route that is not among those listed has no backends. */
  predicate NotAllMap(desired: seq<RouteRequest>, ls: seq<Listed>) {
    exists d :: d in desired && d.backends == [] && forall l, r :: l in ls && r in l.ingress.rules ==> r.host != d.host
  }

  lemma AddedWithoutBackends(cfg: Config, desired: seq<RouteRequest>, ls: seq<Listed>)
    ensures NotAllMap(desired, ls) <==>
      exists k :: 0 <= k < |ToAdd(desired, ActualHosts(ListRoutes(cfg, ls)))| && ToAdd(desired, ActualHosts(ListRoutes(cfg, ls)))[k].backends == []
  {
    var present := ActualHosts(ListRoutes(cfg, ls));
    var add := ToAdd(desired, present);
    if d :| d in desired && d.backends == [] && forall l, r :: l in ls && r in l.ingress.rules ==> r.host != d.host {
      ListedHost(cfg, ls, d.host);
      InToAdd(desired, present, d);
      var k :| 0 <= k < |add| && add[k] == d;
    }
    if k :| 0 <= k < |add| && add[k].backends == [] {
      InToAdd(desired, present, add[k]);
      ListedHost(cfg, ls, add[k].host);
    }
  }

  lemma ListedHost(cfg: Config, ls: seq<Listed>, h: string)
    ensures h in ActualHosts(ListRoutes(cfg, ls)) <==> exists l, r :: l in ls && r in l.ingress.rules && r.host == h
  {
    var xs := ListRoutes(cfg, ls);
    if h in ActualHosts(xs) {
      var x :| x in xs && x.host == h;
      var k :| 0 <= k < |xs| && xs[k] == x;
      var i, j := ListedFrom(cfg, ls, k);
      assert ls[i] in ls && ls[i].ingress.rules[j] in ls[i].ingress.rules;
    }
    if l, r :| l in ls && r in l.ingress.rules && r.host == h {
      var i :| 0 <= i < |ls| && ls[i] == l;
      var j :| 0 <= j < |l.ingress.rules| && l.ingress.rules[j] == r;
      var k := ListedAt(cfg, ls, i, j);
      assert xs[k] in xs;
    }
  }

  lemma NoCalls(requests: seq<Request>)
    ensures InTurn(requests, requests, 3)
  {
    NoCall(requests);
    ThreeInTurn(requests, requests, requests, requests);
  }

  class Reconciler {
    const gateway: Gateway

    constructor (gateway: Gateway)
      ensures this.gateway == gateway
    {
      this.gateway := gateway;
    }

    ghost predicate Valid()
      reads Footprint(gateway)
    {
      if gateway.Log? then gateway.log.Valid() else 1 <= gateway.ingress.cfg.max
    }

    method IssueAll(toAdd: seq<RouteRequest>, answer: nat -> Option<Certificate>)
      returns (certs: map<string, Certificate>, issued: seq<RouteRequest>)
      ensures certs == Certs(toAdd, answer) && issued == TlsRoutes(toAdd)
    {
      certs, issued := map[], [];
      for k := 0 to |toAdd|
        invariant certs == Certs(toAdd[..k], answer) && issued == TlsRoutes(toAdd[..k])
      {
        assert toAdd[..k + 1][..k] == toAdd[..k];
        if toAdd[k].tls {
          var a := answer(|issued|);
          issued := issued + [toAdd[k]];
          if a.Some? {
            certs := certs[toAdd[k].host := a.value];
          }
        }
      }
      assert toAdd[..|toAdd|] == toAdd;
    }

    /** `desired` is None when the source of truth cannot be listed. A removal that fails is logged
        and the cycle goes on; an addition that fails is the cycle's error. Over the log gateway
        nothing but the first List can fail, and the cycle is the function `Cycle`. Over the Ingress
        gateway each step is carried out as far as `removed` and `ok` say. */
    method Reconcile(desired: Option<seq<RouteRequest>>, answer: nat -> Option<Certificate>)
      returns (ok: bool, issued: seq<RouteRequest>, ghost ls: Option<seq<Listed>>, ghost mid: Store, ghost removed: bool)
      requires Valid()
      modifies Footprint(gateway)
      ensures Valid()
      ensures gateway.Log? ==>
        var t, t' := old(gateway.log.routes), gateway.log.routes;
        if desired.None? then !ok && t' == t && issued == []
        else
          var add := ToAdd(desired.value, LogConvergence.HostsIn(t));
          && ok && issued == TlsRoutes(add)
          && t' == LogConvergence.Cycle(t, desired.value, Certs(add, answer))
      ensures gateway.Ingress? ==>
        var m, m', cfg := old(gateway.ingress.api.store), gateway.ingress.api.store, gateway.ingress.cfg;
        if desired.None? || ls.None? then !ok && m' == m && issued == []
        else
          var actual := ListRoutes(cfg, ls.value);
          var add := ToAdd(desired.value, ActualHosts(actual));
          && IsListing(ls.value, m) && issued == TlsRoutes(add)
          && RemovalOutcome(cfg, ToRemove(HostsOf(desired.value), actual), m, mid, removed)
          && AdditionOutcome(cfg, add, mid, m', ok)
          && (ok && removed ==> CleanCycle(cfg, desired.value, m, ls.value, mid, m'))
      ensures gateway.Ingress? ==> InTurn(old(gateway.ingress.api.requests), gateway.ingress.api.requests, 3)
      ensures gateway.Ingress? && desired.Some? ==>
        (gateway.ingress.api.failures == old(gateway.ingress.api.failures) <==> ls.Some? && removed && (ok || NotAllMap(desired.value, ls.value)))
    {
      ls, mid, removed, issued := None, map[], true, [];
      if desired.None? {
        if gateway.Ingress? {
          NoCalls(gateway.ingress.api.requests);
        }
        return false, [], ls, mid, removed;
      }
      match gateway
      case Log(log) =>
        ok, issued := ReconcileLog(log, desired.value, answer);
      case Ingress(prov) =>
        ok, issued, ls, mid, removed := ReconcileIngress(prov, desired.value, answer);
    }

    method ReconcileLog(log: LogGateway.LogProvisioner, desired: seq<RouteRequest>, answer: nat -> Option<Certificate>)
      returns (ok: bool, issued: seq<RouteRequest>)
      requires log.Valid()
      modifies log
      ensures log.Valid() && ok
      ensures var add := ToAdd(desired, LogConvergence.HostsIn(old(log.routes)));
        issued == TlsRoutes(add) && log.routes == LogConvergence.Cycle(old(log.routes), desired, Certs(add, answer))
    {
      ghost var t := log.routes;
      var actual := log.List();
      var toAdd, toRemove := Compute(desired, actual);
      LogConvergence.RemovedAreStale(t, actual, desired);
      if |toRemove| > 0 {
        log.BatchDeprovision(toRemove);
      }
      assert log.routes == t - LogConvergence.Stale(t, desired);
      var certs;
      certs, issued := IssueAll(toAdd, answer);
      if |toAdd| > 0 {
        var results := log.BatchProvision(toAdd, certs);
      }
      return true, issued;
    }

    method ReconcileIngress(prov: IngressGateway.IngressProvisioner, desired: seq<RouteRequest>,
        answer: nat -> Option<Certificate>)
      returns (ok: bool, issued: seq<RouteRequest>, ghost ls: Option<seq<Listed>>, ghost mid: Store, ghost removed: bool)
      requires 1 <= prov.cfg.max
      modifies prov.api
      ensures var m, m', cfg := old(prov.api.store), prov.api.store, prov.cfg;
        if ls.None? then !ok && m' == m && issued == []
        else
          var actual := ListRoutes(cfg, ls.value);
          var add := ToAdd(desired, ActualHosts(actual));
          && IsListing(ls.value, m) && issued == TlsRoutes(add)
          && RemovalOutcome(cfg, ToRemove(HostsOf(desired), actual), m, mid, removed)
          && AdditionOutcome(cfg, add, mid, m', ok)
      ensures InTurn(old(prov.api.requests), prov.api.requests, 3)
      ensures prov.api.failures == old(prov.api.failures) <==> ls.Some? && removed && (ok || NotAllMap(desired, ls.value))
    {
      hide InTurn, OneCall, RemovalOutcome, AdditionOutcome;
      ls, mid, removed, issued := None, map[], true, [];
      var listed;
      ghost var snapshot;
      listed, snapshot := prov.List();
      ghost var first := prov.api.requests;
      JustList(old(prov.api.requests));
      if listed.None? {
        NoCall(first);
        ThreeInTurn(old(prov.api.requests), first, first, first);
        return false, [], ls, mid, removed;
      }
      ls := Some(snapshot);
      var toAdd, toRemove := Compute(desired, listed.value);
      removed := Remove(prov, toRemove);
      mid := prov.api.store;
      ghost var second := prov.api.requests;
      var certs;
      certs, issued := IssueAll(toAdd, answer);
      ok := Add(prov, toAdd, certs);
      AddedWithoutBackends(prov.cfg, desired, snapshot);
      ThreeInTurn(old(prov.api.requests), first, second, prov.api.requests);
    }

    method Remove(prov: IngressGateway.IngressProvisioner, toRemove: seq<string>) returns (ok: bool)
      modifies prov.api
      ensures RemovalOutcome(prov.cfg, toRemove, old(prov.api.store), prov.api.store, ok)
      ensures OneCall(old(prov.api.requests), prov.api.requests)
      ensures prov.api.failures == old(prov.api.failures) + if ok then 0 else 1
    {
      NoCall(prov.api.requests);
      hide OneCall;
      ok := true;
      if |toRemove| > 0 {
        ghost var seen, done;
        ok, seen, done := prov.BatchDeprovision(toRemove);
      }
    }

    method Add(prov: IngressGateway.IngressProvisioner, toAdd: seq<RouteRequest>, certs: map<string, Certificate>)
      returns (ok: bool)
      requires 1 <= prov.cfg.max
      modifies prov.api
      ensures AdditionOutcome(prov.cfg, toAdd, old(prov.api.store), prov.api.store, ok)
      ensures OneCall(old(prov.api.requests), prov.api.requests)
      ensures prov.api.failures == old(prov.api.failures) + if ok || (exists k :: 0 <= k < |toAdd| && toAdd[k].backends == []) then 0 else 1
    {
      NoCall(prov.api.requests);
      hide OneCall;
      ok := true;
      if |toAdd| > 0 {
        var r;
        ghost var seen, done;
        r, seen, done := prov.BatchProvision(toAdd, certs);
        ok := r.Ok?;
      }
    }
  }
}
