/** What the cluster holds of a request once it has been provisioned, in the request's own terms. */
module IngressRequest {
  import opened Core
  import opened Kube
  import opened Mapper
  import opened IngressPlan
  import opened IngressTable
  import opened IngressStore
  import opened IngressBatch
  import opened IngressRuns

  /** The entry routes the request's host and path to its first backend, with TLS if it is wanted. */
  predicate Serves(cfg: Config, req: RouteRequest, e: Entry) {
    && req.backends != []
    && e.rule.host == req.host
    && e.rule.path == (if req.path == "" then "/" else req.path)
    && e.rule.service == req.backends[0].serviceName
    && (-0x8000_0000 <= req.backends[0].port < 0x8000_0000 ==> e.rule.port == req.backends[0].port)
    && (req.tls ==> e.tls == Some(Tls([req.host], cfg.secretName(req.host))))
  }

  /** A route fails to map exactly if it has no backends; otherwise it maps to what serves it. */
  lemma MapsIff(cfg: Config, req: RouteRequest)
    ensures MapRoute(cfg, req).Err? <==> req.backends == []
    ensures MapRoute(cfg, req).Ok? ==>
      var mr := MapRoute(cfg, req).value;
      mr.req == req && ForHost(mr) && Serves(cfg, req, Entry(mr.rule, mr.tls)) && (mr.tls.Some? <==> req.tls)
  {
  }

  /** The request's entry is there and serves it, and every other entry is as before. A route that wants
      no TLS keeps the TLS its host had, and gets none from another host with the same identifier. */
  ghost predicate Provided(cfg: Config, req: RouteRequest, t: Routes, t': Routes) {
    var id := RouteId(req.host);
    && id in t' && Serves(cfg, req, t'[id])
    && t' - {id} == t - {id}
    && (!req.tls ==> t'[id].tls == if id in t && t[id].rule.host == req.host then t[id].tls else None)
  }

  lemma InsertedProvides(cfg: Config, req: RouteRequest, mr: Mapped, t: Routes)
    requires MapRoute(cfg, req) == Ok(mr)
    requires var id := RouteId(req.host); !req.tls && id in t && t[id].rule.host != req.host ==> t[id].tls.None?
    ensures Provided(cfg, req, t, Inserted(t, mr))
  {
    MapsIff(cfg, req);
    hide MapRoute, RouteId;
    var id := RouteId(req.host);
    assert Inserted(t, mr) - {id} == t - {id};
  }

  /** Where the store stays well-formed. */
  lemma CleanProvides(cfg: Config, m: Store, ls: seq<Listed>, req: RouteRequest, mr: Mapped, m': Store)
    requires IsListing(ls, m) && WellFormed(m) && MapRoute(cfg, req) == Ok(mr) && NoClash(m, mr)
    requires Serve(m, ProvisionCall(cfg, ls, mr)) == Some(m')
    ensures Provided(cfg, req, Table(m), Table(m'))
  {
    MapsIff(cfg, req);
    hide MapRoute, Serves;
    ProvisionRefines(cfg, m, ls, mr, m');
    var id := RouteId(req.host);
    if !req.tls && id in Table(m) {
      var n := TableNames(m, id);
      var j :| 0 <= j < |m[n].rules| && Id(m[n].rules[j]) == id;
      TableEntry(m, n, j);
      assert NoStaleTls(m[n], j, mr);
    }
    hide *;
    InsertedProvides(cfg, req, mr, Table(m));
  }

  lemma RewrittenEntry(ing: Ingress, j: nat, mr: Mapped, i: nat)
    requires Updatable(ing, j, mr) && mr.tls.None? && ing.rules[j].host != mr.req.host && i < |ing.rules|
    ensures var t' := RoutesIn(ing)[RouteId(mr.req.host) := Entry(mr.rule, None)];
      Id(ing.rules[i]) in t' && t'[Id(ing.rules[i])] == EntryAt(IngressTable.Updated(ing, j, mr), i)
  {
    RouteAt(ing, i);
    if i == j {
      NewHostNoTls(ing, j, mr);
    } else {
      assert Id(ing.rules[i]) != Id(ing.rules[j]);
    }
  }

  lemma UpdatableIs(ing: Ingress, j: nat, mr: Mapped)
    requires Updatable(ing, j, mr)
    ensures j < |ing.rules| && Id(ing.rules[j]) == RouteId(mr.req.host) && UniqueIn(ing)
  {
  }

  /** One rule of an Ingress is rewritten and its TLS entries are left alone. */
  lemma RewrittenRoutes(ing: Ingress, j: nat, mr: Mapped)
    requires Updatable(ing, j, mr) && mr.tls.None? && ing.rules[j].host != mr.req.host
    ensures UniqueIn(IngressTable.Updated(ing, j, mr)) && IdsIn(IngressTable.Updated(ing, j, mr)) == IdsIn(ing)
    ensures RoutesIn(IngressTable.Updated(ing, j, mr)) == RoutesIn(ing)[RouteId(mr.req.host) := Entry(mr.rule, None)]
  {
    var ing' := IngressTable.Updated(ing, j, mr);
    var t' := RoutesIn(ing)[RouteId(mr.req.host) := Entry(mr.rule, None)];
    hide *;
    UpdatableIs(ing, j, mr);
    UpdateIds(ing, j, mr);
    RouteAt(ing, j);
    RewrittenKeys(ing, RouteId(mr.req.host), Entry(mr.rule, None));
    RewrittenEntries(ing, j, mr);
    RoutesInAre(ing', t');
  }

  lemma RewrittenKeys(ing: Ingress, id: string, e: Entry)
    requires id in IdsIn(ing)
    ensures RoutesIn(ing)[id := e].Keys == IdsIn(ing)
  {
  }

  lemma RewrittenEntries(ing: Ingress, j: nat, mr: Mapped)
    requires Updatable(ing, j, mr) && mr.tls.None? && ing.rules[j].host != mr.req.host
    ensures var ing', t' := IngressTable.Updated(ing, j, mr), RoutesIn(ing)[RouteId(mr.req.host) := Entry(mr.rule, None)];
      |ing'.rules| == |ing.rules| && forall i :: 0 <= i < |ing'.rules| ==>
        Id(ing'.rules[i]) in t' && t'[Id(ing'.rules[i])] == EntryAt(ing', i)
  {
    hide *;
    UpdatableIs(ing, j, mr);
    UpdateIds(ing, j, mr);
    forall i | 0 <= i < |ing.rules|
      ensures var t' := RoutesIn(ing)[RouteId(mr.req.host) := Entry(mr.rule, None)];
        Id(ing.rules[i]) in t' && t'[Id(ing.rules[i])] == EntryAt(IngressTable.Updated(ing, j, mr), i)
    {
      RewrittenEntry(ing, j, mr, i);
    }
  }

  lemma ClashPlace(cfg: Config, m: Store, ls: seq<Listed>, mr: Mapped, m': Store) returns (n: string, j: nat)
    requires IsListing(ls, m) && WellFormed(m) && ForHost(mr) && !NoClash(m, mr)
    requires Serve(m, ProvisionCall(cfg, ls, mr)) == Some(m')
    ensures Managed(m, n) && Updatable(m[n], j, mr) && mr.tls.None? && m[n].rules[j].host != mr.req.host
    ensures m' == m[n := IngressTable.Updated(m[n], j, mr)]
  {
    n, j :| n in m && m[n].managed && 0 <= j < |m[n].rules| && Id(m[n].rules[j]) == RouteId(mr.req.host) && !NoStaleTls(m[n], j, mr);
    FoundIs(m, ls, n, j);
    ClashCall(cfg, m, ls, mr, n, j, m');
    hide ProvisionCall, Serve, Find;
  }

  /** Where another host's TLS entry is left behind, the request is served all the same. */
  lemma ClashProvides(cfg: Config, m: Store, ls: seq<Listed>, req: RouteRequest, mr: Mapped, m': Store)
    requires IsListing(ls, m) && WellFormed(m) && MapRoute(cfg, req) == Ok(mr) && !NoClash(m, mr)
    requires Serve(m, ProvisionCall(cfg, ls, mr)) == Some(m')
    ensures Provided(cfg, req, Table(m), Table(m'))
  {
    MapsIff(cfg, req);
    hide MapRoute, Serves, Table, ProvisionCall, Serve, IsListing, NoClash, WellFormed, Tidy, UniqueIn;
    var n, j := ClashPlace(cfg, m, ls, mr, m');
    TableEntry(m, n, j);
    RewrittenTable(m, n, j, mr);
    hide RouteId;
    assert Table(m') - {RouteId(req.host)} == Table(m) - {RouteId(req.host)};
  }

  lemma RewrittenTable(m: Store, n: string, j: nat, mr: Mapped)
    requires WellFormed(m) && Managed(m, n) && Updatable(m[n], j, mr) && mr.tls.None? && m[n].rules[j].host != mr.req.host
    ensures Table(m[n := IngressTable.Updated(m[n], j, mr)]) == Table(m)[RouteId(mr.req.host) := Entry(mr.rule, None)]
  {
    var ing', id := IngressTable.Updated(m[n], j, mr), RouteId(mr.req.host);
    RewrittenRoutes(m[n], j, mr);
    RouteAt(m[n], j);
    assert Parts(m)[n] == RoutesIn(m[n]);
    hide Updatable, UniqueIn, IdsIn, RoutesIn, Table, WellFormed;
    PutPart(m, n, ing', RoutesIn(ing'));
    OneRewritten(Parts(m), n, id, Entry(mr.rule, None));
  }

  lemma OneRewritten(p: Merge.Parts<Entry>, n: string, id: string, e: Entry)
    requires Merge.Disjoint(p) && n in p && id in p[n]
    ensures (Merge.Merged(p) - p[n].Keys) + p[n][id := e] == Merge.Merged(p)[id := e]
  {
    forall k | k in p[n] ensures k in Merge.Merged(p) && Merge.Merged(p)[k] == p[n][k] {
      Merge.MergedAt(p, n, k);
    }
  }

  /** A Provision that is served stores the request, whatever was there. */
  lemma ProvisionProvides(cfg: Config, m: Store, ls: seq<Listed>, req: RouteRequest, mr: Mapped, m': Store)
    requires IsListing(ls, m) && WellFormed(m) && MapRoute(cfg, req) == Ok(mr)
    requires Serve(m, ProvisionCall(cfg, ls, mr)) == Some(m')
    ensures Provided(cfg, req, Table(m), Table(m'))
  {
    if NoClash(m, mr) {
      CleanProvides(cfg, m, ls, req, mr, m');
    } else {
      ClashProvides(cfg, m, ls, req, mr, m');
    }
  }

  // ---------------------------------------------------------------- batches

  /** No two requests share an identifier, and none is in use. */
  predicate AllNew(reqs: seq<RouteRequest>, t: Routes) {
    && (forall a, b :: 0 <= a < b < |reqs| ==> RouteId(reqs[a].host) != RouteId(reqs[b].host))
    && (forall a :: 0 <= a < |reqs| ==> RouteId(reqs[a].host) !in t)
  }

  /** Every request's entry is there and serves it, and what was there is as before. */
  ghost predicate AllProvided(cfg: Config, reqs: seq<RouteRequest>, t: Routes, t': Routes) {
    && (forall r :: 0 <= r < |reqs| ==>
          && RouteId(reqs[r].host) in t' && Serves(cfg, reqs[r], t'[RouteId(reqs[r].host)])
          && (!reqs[r].tls ==> t'[RouteId(reqs[r].host)].tls.None?))
    && (forall id :: id in t ==> id in t' && t'[id] == t[id])
    && (forall id :: id in t' ==> id in t || exists r :: 0 <= r < |reqs| && id == RouteId(reqs[r].host))
  }

  lemma MapsAll(cfg: Config, reqs: seq<RouteRequest>)
    ensures MapRoutes(cfg, reqs).Err? <==> exists r :: 0 <= r < |reqs| && reqs[r].backends == []
  {
    forall r | 0 <= r < |reqs| ensures MapRoute(cfg, reqs[r]).Err? <==> reqs[r].backends == [] {
      MapsIff(cfg, reqs[r]);
    }
  }

  lemma MappedNew(cfg: Config, reqs: seq<RouteRequest>, ms: seq<Mapped>, t: Routes)
    requires MapRoutes(cfg, reqs) == Ok(ms) && AllNew(reqs, t)
    ensures NewRoutes(t, ms)
  {
    forall r | 0 <= r < |ms| ensures ms[r].req == reqs[r] && ForHost(ms[r]) {
      assert MapRoute(cfg, reqs[r]) == Ok(ms[r]);
      MapsIff(cfg, reqs[r]);
    }
  }

  lemma RoutedServes(cfg: Config, reqs: seq<RouteRequest>, ms: seq<Mapped>, t: Routes, r: nat)
    requires MapRoutes(cfg, reqs) == Ok(ms) && NewRoutes(t, ms) && r < |reqs|
    ensures var id, t' := RouteId(reqs[r].host), t + Routed(ms);
      id in t' && Serves(cfg, reqs[r], t'[id]) && (!reqs[r].tls ==> t'[id].tls.None?)
  {
    assert MapRoute(cfg, reqs[r]) == Ok(ms[r]);
    MapsIff(cfg, reqs[r]);
    RoutedHas(ms, r);
  }

  lemma RoutedOnly(cfg: Config, reqs: seq<RouteRequest>, ms: seq<Mapped>, id: string)
    requires MapRoutes(cfg, reqs) == Ok(ms) && id in Routed(ms)
    ensures exists r :: 0 <= r < |reqs| && id == RouteId(reqs[r].host)
  {
    var r := RoutedFrom(ms, id);
    assert MapRoute(cfg, reqs[r]) == Ok(ms[r]);
    MapsIff(cfg, reqs[r]);
  }

  /** A BatchProvision that is served stores every request. */
  lemma BatchProvides(cfg: Config, m: Store, ls: seq<Listed>, reqs: seq<RouteRequest>, ms: seq<Mapped>, m': Store)
    requires 1 <= cfg.max && IsListing(ls, m) && WellFormed(m) && MapRoutes(cfg, reqs) == Ok(ms) && AllNew(reqs, Table(m))
    requires ServeAll(m, BatchProvisionCalls(cfg, ls, ms)) == Some(m')
    ensures AllProvided(cfg, reqs, Table(m), Table(m'))
  {
    hide *;
    MappedNew(cfg, reqs, ms, Table(m));
    BatchProvisionRefines(cfg, m, ls, ms, m');
    UnionProvides(cfg, reqs, ms, Table(m));
  }

  lemma UnionProvides(cfg: Config, reqs: seq<RouteRequest>, ms: seq<Mapped>, t: Routes)
    requires MapRoutes(cfg, reqs) == Ok(ms) && NewRoutes(t, ms)
    ensures AllProvided(cfg, reqs, t, t + Routed(ms))
  {
    hide MapRoutes, Routed, Serves, NewRoutes, RouteId;
    forall r: nat | r < |reqs|
      ensures RouteId(reqs[r].host) in t + Routed(ms) && Serves(cfg, reqs[r], (t + Routed(ms))[RouteId(reqs[r].host)])
      ensures !reqs[r].tls ==> (t + Routed(ms))[RouteId(reqs[r].host)].tls.None?
    {
      RoutedServes(cfg, reqs, ms, t, r);
    }
    forall id | id in Routed(ms) ensures id !in t && exists r :: 0 <= r < |reqs| && id == RouteId(reqs[r].host) {
      RoutedOnly(cfg, reqs, ms, id);
      RoutedIsNew(ms, t, id);
    }
  }

  lemma RoutedIsNew(ms: seq<Mapped>, t: Routes, id: string)
    requires NewRoutes(t, ms) && id in Routed(ms)
    ensures id !in t
  {
    var r := RoutedFrom(ms, id);
  }
}
