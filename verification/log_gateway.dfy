/** The in-memory gateway, keyed by route identifier. */
module LogGateway {
  import opened Core

  type Table = map<string, ProvisionedRoute>

  /** The identifier a route is stored under: its own, or its host when it has none. */
  function EffectiveId(req: RouteRequest): string {
    if req.id != "" then req.id else req.host
  }

  function Stored(req: RouteRequest, cert: Option<Certificate>): ProvisionedRoute {
    ProvisionedRoute(EffectiveId(req), req.host, "log-console", if cert.Some? then cert.value.host else "", "active", "log")
  }

  function Provisioned(t: Table, req: RouteRequest, cert: Option<Certificate>): Table {
    t[EffectiveId(req) := Stored(req, cert)]
  }

  function ProvisionedAll(t: Table, reqs: seq<RouteRequest>, certs: map<string, Certificate>): Table {
    if reqs == [] then t
    else
      var last := reqs[|reqs| - 1];
      Provisioned(ProvisionedAll(t, reqs[..|reqs| - 1], certs), last, CertFor(certs, last.host))
  }

  /** Every route is stored under the identifier it reports. */
  predicate Keyed(t: Table) {
    forall id :: id in t ==> t[id].routeID == id
  }

  /** Every stored route once, in any order. */
  predicate Enumerates(rs: seq<ProvisionedRoute>, t: Table) {
    && (forall k :: 0 <= k < |rs| ==> rs[k].routeID in t && t[rs[k].routeID] == rs[k])
    && (forall id :: id in t ==> t[id] in rs)
    && (forall a, b :: 0 <= a < b < |rs| ==> rs[a].routeID != rs[b].routeID)
  }

  class LogProvisioner {
    var routes: Table

    ghost predicate Valid()
      reads this
    {
      Keyed(routes)
    }

    constructor ()
      ensures Valid() && routes == map[]
    {
      routes := map[];
    }

    method Provision(req: RouteRequest, cert: Option<Certificate>) returns (r: ProvisionedRoute)
      requires Valid()
      modifies this
      ensures Valid() && routes == Provisioned(old(routes), req, cert) && r == Stored(req, cert)
    {
      var routeID := req.host;
      if req.id != "" {
        routeID := req.id;
      }
      r := ProvisionedRoute(routeID, req.host, "log-console", if cert.Some? then cert.value.host else "", "active", "log");
      routes := routes[routeID := r];
    }

    method Deprovision(routeID: string)
      requires Valid()
      modifies this
      ensures Valid() && routes == old(routes) - {routeID}
    {
      routes := routes - {routeID};
    }

    method List() returns (rs: seq<ProvisionedRoute>)
      requires Valid()
      ensures Enumerates(rs, routes)
    {
      rs := [];
      var todo := routes.Keys;
      while todo != {}
        invariant todo <= routes.Keys
        invariant Enumerates(rs, routes - todo)
        decreases todo
      {
        var id :| id in todo;
        EnumeratesNext(rs, routes - todo, id, routes[id]);
        assert routes - (todo - {id}) == (routes - todo)[id := routes[id]];
        todo := todo - {id};
        rs := rs + [routes[id]];
      }
      assert routes - {} == routes;
    }

    method BatchProvision(reqs: seq<RouteRequest>, certs: map<string, Certificate>)
      returns (results: seq<ProvisionedRoute>)
      requires Valid()
      modifies this
      ensures Valid() && routes == ProvisionedAll(old(routes), reqs, certs)
      ensures |results| == |reqs| && forall k :: 0 <= k < |reqs| ==> results[k] == Stored(reqs[k], CertFor(certs, reqs[k].host))
    {
      results := [];
      for i := 0 to |reqs|
        invariant Valid() && routes == ProvisionedAll(old(routes), reqs[..i], certs)
        invariant |results| == i && forall k :: 0 <= k < i ==> results[k] == Stored(reqs[k], CertFor(certs, reqs[k].host))
      {
        assert reqs[..i + 1][..i] == reqs[..i];
        var r := Provision(reqs[i], CertFor(certs, reqs[i].host));
        results := results + [r];
      }
      assert reqs[..|reqs|] == reqs;
    }

    method BatchDeprovision(routeIDs: seq<string>)
      requires Valid()
      modifies this
      ensures Valid() && routes == old(routes) - IdSet(routeIDs)
    {
      for i := 0 to |routeIDs|
        invariant Valid() && routes == old(routes) - IdSet(routeIDs[..i])
      {
        assert routeIDs[..i + 1] == routeIDs[..i] + [routeIDs[i]];
        Deprovision(routeIDs[i]);
      }
      assert routeIDs[..|routeIDs|] == routeIDs;
    }
  }

  lemma EnumeratesNext(rs: seq<ProvisionedRoute>, t: Table, id: string, r: ProvisionedRoute)
    requires Enumerates(rs, t) && id !in t && r.routeID == id
    ensures Enumerates(rs + [r], t[id := r])
  {
    var rs' := rs + [r];
    assert rs'[|rs|] == r;
    forall k | 0 <= k < |rs| ensures rs'[k] == rs[k] {
    }
    forall i | i in t ensures t[i] in rs' {
      assert t[i] in rs;
    }
  }
}
