/** The provisioner itself: its loops, the patches it appends to, and its calls one by one. Every
    method is proved to have carried out a prefix of its plan, and the whole plan if it returns
    without error. */
module IngressGateway {
  import opened Core
  import opened Kube
  import opened Mapper
  import opened IngressPlan
  import opened Packing
  import opened IngressBatch
  import opened IngressFilter
  import opened IngressRuns
  import opened IngressStore
  import opened IngressRequest
  import opened IngressList

  datatype Error = MapError(message: string) | ApiError

  /** The first `done` calls of the operation's plan have taken effect, and nothing else has. */
  ghost predicate Attempted(cfg: Config, m: Store, op: Operation, ls: seq<Listed>, done: nat, m': Store)
    requires op.BatchProvision? ==> 1 <= cfg.max
  {
    && IsListing(ls, m)
    && done <= |Plan(cfg, ls, op)|
    && ServeAll(m, Plan(cfg, ls, op)[..done]) == Some(m')
  }

  /** Either nothing has been sent, or a prefix of the plan has taken effect; all of it if `ok`. */
  ghost predicate Concluded(cfg: Config, m: Store, op: Operation, ls: seq<Listed>, done: nat, m': Store, ok: bool)
    requires op.BatchProvision? ==> 1 <= cfg.max
  {
    if ok then Attempted(cfg, m, op, ls, done, m') && done == |Plan(cfg, ls, op)|
    else m' == m || Attempted(cfg, m, op, ls, done, m')
  }

  lemma Started(cfg: Config, m: Store, op: Operation, ls: seq<Listed>)
    requires (op.BatchProvision? ==> 1 <= cfg.max) && IsListing(ls, m)
    ensures Attempted(cfg, m, op, ls, 0, m)
  {
    assert Plan(cfg, ls, op)[..0] == [];
  }

  lemma Advanced(cfg: Config, m: Store, op: Operation, ls: seq<Listed>, done: nat, m1: Store, m2: Store)
    requires (op.BatchProvision? ==> 1 <= cfg.max) && Attempted(cfg, m, op, ls, done, m1) && done < |Plan(cfg, ls, op)|
    requires Serve(m1, Plan(cfg, ls, op)[done]) == Some(m2)
    ensures Attempted(cfg, m, op, ls, done + 1, m2)
  {
    ServeAllSnoc(m, Plan(cfg, ls, op), done);
  }

  /** The result of a Provision: the certificate's host only for a route that was not there yet. */
  lemma ProvisionReports(cfg: Config, m: Store, ls: seq<Listed>, req: RouteRequest, cert: Option<Certificate>,
      name: string)
    requires IsListing(ls, m)
    ensures BuildRoute(cfg, req.host, name, if Find(ls, RouteId(req.host), 0).Some? then None else cert) ==
      ProvisionedRoute(RouteId(req.host), req.host, cfg.namespace + "/" + name,
        if cert.Some? && RouteId(req.host) !in Table(m) then cert.value.host else "", "active", PROVIDER_NAME)
  {
    FindMeansAll(ls, m, RouteId(req.host));
  }

  lemma ServedProvides(cfg: Config, m: Store, ls: seq<Listed>, req: RouteRequest, mr: Mapped, done: nat, m': Store)
    requires MapRoute(cfg, req) == Ok(mr)
    requires Attempted(cfg, m, Operation.Provision(mr), ls, done, m') && done == 1
    ensures WellFormed(m) ==> Provided(cfg, req, Table(m), Table(m'))
  {
    var plan := [ProvisionCall(cfg, ls, mr)];
    assert Plan(cfg, ls, Operation.Provision(mr)) == plan && plan[..1] == plan;
    hide Provided, WellFormed, Table, ProvisionCall, MapRoute;
    ServeOne(m, ProvisionCall(cfg, ls, mr));
    if WellFormed(m) {
      ProvisionProvides(cfg, m, ls, req, mr, m');
    }
  }

  lemma BatchServedProvides(cfg: Config, m: Store, ls: seq<Listed>, reqs: seq<RouteRequest>, ms: seq<Mapped>, done: nat,
      m': Store)
    requires 1 <= cfg.max && MapRoutes(cfg, reqs) == Ok(ms)
    requires Attempted(cfg, m, Operation.BatchProvision(ms), ls, done, m') && done == |Plan(cfg, ls, Operation.BatchProvision(ms))|
    ensures WellFormed(m) && AllNew(reqs, Table(m)) ==> AllProvided(cfg, reqs, Table(m), Table(m'))
  {
    var plan := BatchProvisionCalls(cfg, ls, ms);
    assert Plan(cfg, ls, Operation.BatchProvision(ms)) == plan && plan[..|plan|] == plan;
    hide AllProvided, AllNew, WellFormed, Table, BatchProvisionCalls, MapRoutes;
    if WellFormed(m) && AllNew(reqs, Table(m)) {
      BatchProvides(cfg, m, ls, reqs, ms, m');
    }
  }

  lemma NothingSent(cfg: Config, m: Store, mr: Mapped)
    ensures Concluded(cfg, m, Operation.Provision(mr), [], 0, m, false)
  {
  }

  lemma OneDone(cfg: Config, m: Store, ls: seq<Listed>, mr: Mapped, took: bool, ok: bool, m': Store)
    requires IsListing(ls, m) && (ok ==> took)
    requires if took then Serve(m, ProvisionCall(cfg, ls, mr)) == Some(m') else m' == m
    ensures Concluded(cfg, m, Operation.Provision(mr), ls, if took then 1 else 0, m', ok)
    ensures ok ==> Attempted(cfg, m, Operation.Provision(mr), ls, 1, m')
  {
    assert Plan(cfg, ls, Operation.Provision(mr)) == [ProvisionCall(cfg, ls, mr)];
    hide Attempted, ProvisionCall, IsListing, Plan;
    Started(cfg, m, Operation.Provision(mr), ls);
    if took {
      Advanced(cfg, m, Operation.Provision(mr), ls, 0, m, m');
    }
  }

  function BuildRoute(cfg: Config, host: string, ingressName: string, cert: Option<Certificate>): ProvisionedRoute {
    ProvisionedRoute(RouteId(host), host, cfg.namespace + "/" + ingressName,
                     if cert.Some? then cert.value.host else "", "active", PROVIDER_NAME)
  }

  // ---------------------------------------------------------------- sorting a listing

  function Load(l: Listed): nat {
    |l.ingress.rules|
  }

  predicate SortedByLoad(ls: seq<Listed>) {
    forall i, j :: 0 <= i < j < |ls| ==> Load(ls[i]) <= Load(ls[j])
  }

  lemma {:induction false} AtMostOnce(ls: seq<Listed>, x: Listed)
    requires forall i, j :: 0 <= i < j < |ls| ==> ls[i].name != ls[j].name
    ensures multiset(ls)[x] <= 1
  {
    if ls != [] {
      var init, last := ls[..|ls| - 1], ls[|ls| - 1];
      AtMostOnce(init, x);
      assert ls == init + [last];
      if x == last {
        assert x !in init;
      }
    }
  }

  lemma TwiceInside(ls: seq<Listed>, i: nat, j: nat)
    requires i < j < |ls| && ls[i] == ls[j]
    ensures multiset(ls)[ls[i]] >= 2
  {
    assert ls == ls[..j] + [ls[j]] + ls[j + 1..];
    assert ls[..j][i] == ls[i];
    assert ls[i] in ls[..j];
  }

  /** Any order of a listing is a listing. */
  lemma PermutedListing(ls: seq<Listed>, ls': seq<Listed>, m: Store)
    requires IsListing(ls, m) && multiset(ls') == multiset(ls)
    ensures IsListing(ls', m)
  {
    forall i | 0 <= i < |ls'| ensures ls'[i] in ls {
      assert ls'[i] in multiset(ls');
    }
    forall n | n in m && m[n].managed ensures exists i :: 0 <= i < |ls'| && ls'[i].name == n {
      var k :| 0 <= k < |ls| && ls[k].name == n;
      assert ls[k] in multiset(ls);
      assert ls[k] in ls';
    }
    forall i, j | 0 <= i < j < |ls'| ensures ls'[i].name != ls'[j].name {
      AtMostOnce(ls, ls'[i]);
      if ls'[i].name == ls'[j].name {
        TwiceInside(ls', i, j);
      }
    }
  }

  lemma InsertedInOrder(sorted: seq<Listed>, l: Listed, j: nat, r: seq<Listed>)
    requires SortedByLoad(sorted) && j <= |sorted| && r == sorted[..j] + [l] + sorted[j..]
    requires (j > 0 ==> Load(sorted[j - 1]) <= Load(l)) && (j < |sorted| ==> Load(l) <= Load(sorted[j]))
    ensures SortedByLoad(r)
  {
    hide Load;
    forall a, b | 0 <= a < b < |r| ensures Load(r[a]) <= Load(r[b]) {
      assert r[a] == if a < j then sorted[a] else if a == j then l else sorted[a - 1];
      assert r[b] == if b < j then sorted[b] else if b == j then l else sorted[b - 1];
    }
  }

  lemma InsertedOnce(s: seq<Listed>, l: Listed, j: nat)
    requires j <= |s|
    ensures multiset(s[..j] + [l] + s[j..]) == multiset(s) + multiset{l}
  {
    assert s == s[..j] + s[j..];
  }

  method InsertByLoad(sorted: seq<Listed>, l: Listed) returns (r: seq<Listed>)
    requires SortedByLoad(sorted)
    ensures SortedByLoad(r) && multiset(r) == multiset(sorted) + multiset{l}
  {
    var j := |sorted|;
    while j > 0 && Load(l) < Load(sorted[j - 1])
      invariant 0 <= j <= |sorted| && (j < |sorted| ==> Load(l) <= Load(sorted[j]))
    {
      j := j - 1;
    }
    r := sorted[..j] + [l] + sorted[j..];
    InsertedInOrder(sorted, l, j, r);
    hide SortedByLoad, Load;
    InsertedOnce(sorted, l, j);
  }

  /** Most room first; the order among equals is not relied on. */
  method SortByLoad(ls: seq<Listed>) returns (sorted: seq<Listed>)
    ensures SortedByLoad(sorted) && multiset(sorted) == multiset(ls)
  {
    sorted := [];
    for i := 0 to |ls|
      invariant SortedByLoad(sorted) && multiset(sorted) == multiset(ls[..i])
    {
      assert ls[..i + 1] == ls[..i] + [ls[i]];
      sorted := InsertByLoad(sorted, ls[i]);
    }
    assert ls[..|ls|] == ls;
  }

  /** A BatchProvision packs by a listing sorted by load, and no other. */
  ghost predicate Packed(cfg: Config, m: Store, ms: seq<Mapped>, ls: seq<Listed>, done: nat, m': Store, ok: bool)
    requires 1 <= cfg.max
  {
    SortedByLoad(ls) && Concluded(cfg, m, Operation.BatchProvision(ms), ls, done, m', ok)
  }

  class IngressProvisioner {
    const api: KubeApi
    const cfg: Config

    constructor (api: KubeApi, cfg: Config)
      ensures this.api == api && this.cfg == cfg
    {
      this.api := api;
      this.cfg := cfg;
    }

    // -------------------------------------------------------------- single calls

    method CreateIngressWithRules(index: nat, rules: seq<Rule>, tls: seq<Tls>) returns (ok: bool, ghost took: bool)
      modifies api
      ensures took ==> Serve(old(api.store), Create(IngressName(index), Ingress(true, rules, tls))) == Some(api.store)
      ensures !took ==> api.store == old(api.store)
      ensures ok ==> took
      ensures OnlyWrites(old(api.requests), api.requests)
      ensures api.failures == old(api.failures) + if ok then 0 else 1
    {
      ok, took := api.Send(Create(IngressName(index), Ingress(true, rules, tls)));
    }

    method PatchAddRules(name: string, rules: seq<Rule>, entries: seq<Tls>) returns (ok: bool, ghost took: bool)
      modifies api
      ensures took ==> Serve(old(api.store), Patch(name, AddOps(rules, entries))) == Some(api.store)
      ensures !took ==> api.store == old(api.store)
      ensures ok ==> took
      ensures OnlyWrites(old(api.requests), api.requests)
      ensures api.failures == old(api.failures) + if ok then 0 else 1
    {
      var patches: seq<PatchOp> := [];
      for k := 0 to |rules|
        invariant patches == RuleAdds(rules[..k])
      {
        patches := patches + [AddRule(rules[k])];
      }
      assert rules[..|rules|] == rules;
      for k := 0 to |entries|
        invariant patches == RuleAdds(rules) + TlsAdds(entries[..k])
      {
        patches := patches + [AddTls(entries[k])];
      }
      assert entries[..|entries|] == entries;
      ok, took := api.Send(Patch(name, patches));
    }

    method PatchRemoveRule(l: Listed, ruleIndex: nat) returns (ok: bool, ghost took: bool)
      requires ruleIndex < |l.ingress.rules|
      modifies api
      ensures took ==> Serve(old(api.store), Patch(l.name, RemoveOps(l.ingress, ruleIndex))) == Some(api.store)
      ensures !took ==> api.store == old(api.store)
      ensures ok ==> took
      ensures OnlyWrites(old(api.requests), api.requests)
      ensures api.failures == old(api.failures) + if ok then 0 else 1
    {
      var host, tls := l.ingress.rules[ruleIndex].host, l.ingress.tls;
      var patches := [RemoveRule(ruleIndex)];
      var i := 0;
      while i < |tls|
        invariant i <= |tls| && patches == [RemoveRule(ruleIndex)]
        invariant FindEntry(tls, host, 0) == FindEntry(tls, host, i)
      {
        if host in tls[i].hosts {
          patches := patches + [RemoveTls(i)];
          break;
        }
        i := i + 1;
      }
      assert patches == RemoveOps(l.ingress, ruleIndex);
      ok, took := api.Send(Patch(l.name, patches));
    }

    method UpdateRule(l: Listed, ruleIndex: nat, rule: Rule, tls: Option<Tls>) returns (ok: bool, ghost took: bool)
      requires ruleIndex < |l.ingress.rules|
      modifies api
      ensures took ==> Serve(old(api.store), Patch(l.name, UpdateOps(l.ingress, ruleIndex, rule, tls))) == Some(api.store)
      ensures !took ==> api.store == old(api.store)
      ensures ok ==> took
      ensures OnlyWrites(old(api.requests), api.requests)
      ensures api.failures == old(api.failures) + if ok then 0 else 1
    {
      var patches := [ReplaceRule(ruleIndex, rule)];
      if tls.Some? {
        var host, entries := l.ingress.rules[ruleIndex].host, l.ingress.tls;
        var found, i := false, 0;
        while i < |entries| && !found
          invariant i <= |entries|
          invariant !found ==> patches == [ReplaceRule(ruleIndex, rule)] && FindEntry(entries, host, 0) == FindEntry(entries, host, i)
          invariant found ==> patches == UpdateOps(l.ingress, ruleIndex, rule, tls)
        {
          if host in entries[i].hosts {
            patches := patches + [ReplaceTls(i, tls.value)];
            found := true;
          }
          i := i + 1;
        }
        if !found {
          patches := patches + [AddTls(tls.value)];
        }
      }
      assert patches == UpdateOps(l.ingress, ruleIndex, rule, tls);
      ok, took := api.Send(Patch(l.name, patches));
    }

    // -------------------------------------------------------------- one route

    method FindRule(ls: seq<Listed>, id: string) returns (place: Option<Place>)
      ensures place == Find(ls, id, 0)
    {
      for i := 0 to |ls|
        invariant Find(ls, id, 0) == Find(ls, id, i)
      {
        var rules := ls[i].ingress.rules;
        for j := 0 to |rules|
          invariant IngressPlan.FindRule(rules, id, 0) == IngressPlan.FindRule(rules, id, j)
        {
          if RouteId(rules[j].host) == id {
            return Some(Place(i, j));
          }
        }
      }
      return None;
    }

    method FindWithCapacity(ls: seq<Listed>) returns (room: Option<nat>)
      ensures room == FindRoom(ls, cfg.max, 0)
    {
      for i := 0 to |ls|
        invariant FindRoom(ls, cfg.max, 0) == FindRoom(ls, cfg.max, i)
      {
        if |ls[i].ingress.rules| < cfg.max {
          return Some(i);
        }
      }
      return None;
    }

    method Provision(req: RouteRequest, cert: Option<Certificate>)
      returns (r: Result<ProvisionedRoute, Error>, ghost ls: seq<Listed>, ghost done: nat)
      modifies api
      ensures match MapRoute(cfg, req)
        case Err(e) => r == Err(MapError(e)) && api.store == old(api.store)
        case Ok(mr) =>
          && Concluded(cfg, old(api.store), Operation.Provision(mr), ls, done, api.store, r.Ok?)
          && (r.Ok? ==> r.value == BuildRoute(cfg, req.host, ProvisionCall(cfg, ls, mr).name,
                                              if Find(ls, RouteId(req.host), 0).Some? then None else cert))
      ensures OneCall(old(api.requests), api.requests)
      ensures r.Err? && r.error.MapError? <==> req.backends == []
      ensures |api.requests| > |old(api.requests)| <==> req.backends != []
      ensures api.failures == old(api.failures) + if r == Err(ApiError) then 1 else 0
      ensures r.Ok? && WellFormed(old(api.store)) ==> Provided(cfg, req, Table(old(api.store)), Table(api.store))
    {
      ls, done := [], 0;
      NoCall(api.requests);
      JustList(api.requests);
      MapsIff(cfg, req);
      hide *;
      var mapped := MapRoute(cfg, req);
      if mapped.Err? {
        return Err(MapError(mapped.error)), ls, done;
      }
      var mr := mapped.value;
      var listed := api.List();
      if listed.None? {
        NothingSent(cfg, api.store, mr);
        return Err(ApiError), ls, done;
      }
      var ings := listed.value;
      ls := ings;
      ghost var m := api.store;
      var ok, name, updated;
      ghost var took;
      ok, name, updated, took := PlaceRoute(ings, mr);
      done := if took then 1 else 0;
      ListThenWrites(old(api.requests), api.requests);
      OneDone(cfg, m, ls, mr, took, ok, api.store);
      if !ok {
        return Err(ApiError), ls, done;
      }
      ServedProvides(cfg, m, ls, req, mr, done, api.store);
      r := Ok(BuildRoute(cfg, req.host, name, if updated then None else cert));
    }

    /** Updates the route's rule where there is one, or adds one where there is room. */
    method PlaceRoute(ings: seq<Listed>, mr: Mapped) returns (ok: bool, name: string, updated: bool, ghost took: bool)
      modifies api
      ensures name == ProvisionCall(cfg, ings, mr).name
      ensures updated == Find(ings, RouteId(mr.req.host), 0).Some?
      ensures took ==> Serve(old(api.store), ProvisionCall(cfg, ings, mr)) == Some(api.store)
      ensures !took ==> api.store == old(api.store)
      ensures ok ==> took
      ensures OnlyWrites(old(api.requests), api.requests)
      ensures api.failures == old(api.failures) + if ok then 0 else 1
    {
      hide OnlyWrites, Serve, UpdateOps, AddOps;
      var place := FindRule(ings, RouteId(mr.req.host));
      updated := place.Some?;
      if updated {
        var l := ings[place.value.ingress];
        name := l.name;
        ok, took := UpdateRule(l, place.value.rule, mr.rule, mr.tls);
        return;
      }
      var room := FindWithCapacity(ings);
      if room.Some? {
        name := ings[room.value].name;
        ok, took := PatchAddRules(name, RulesOf([mr]), EntriesOf([mr]));
      } else {
        name := IngressName(|ings|);
        ok, took := CreateIngressWithRules(|ings|, RulesOf([mr]), EntriesOf([mr]));
      }
    }

    method Deprovision(id: string) returns (ok: bool, ghost ls: seq<Listed>, ghost done: nat)
      modifies api
      ensures Concluded(cfg, old(api.store), Operation.Deprovision(id), ls, done, api.store, ok)
      ensures OneCall(old(api.requests), api.requests) && |api.requests| > |old(api.requests)|
      ensures api.failures == old(api.failures) + if ok then 0 else 1
    {
      ls, done := [], 0;
      JustList(api.requests);
      hide OneCall;
      var listed := api.List();
      if listed.None? {
        return false, ls, done;
      }
      var ings := listed.value;
      ls := ings;
      ghost var m, op := api.store, Operation.Deprovision(id);
      Started(cfg, m, op, ls);
      var place := FindRule(ings, id);
      if place.None? {
        return true, ls, done;
      }
      var l := ings[place.value.ingress];
      ghost var took;
      if |l.ingress.rules| == 1 {
        ok, took := api.Send(Delete(l.name));
      } else {
        ok, took := PatchRemoveRule(l, place.value.rule);
      }
      ListThenWrites(old(api.requests), api.requests);
      if took {
        Advanced(cfg, m, op, ls, 0, m, api.store);
        done := 1;
      }
    }

    method List() returns (r: Option<seq<ProvisionedRoute>>, ghost ls: seq<Listed>)
      modifies api`requests, api`failures
      ensures api.requests == old(api.requests) + [ListRequest]
      ensures api.failures == old(api.failures) + if r.Some? then 0 else 1
      ensures r.Some? ==> IsListing(ls, api.store) && r.value == ListRoutes(cfg, ls)
    {
      ls := [];
      var listed := api.List();
      if listed.None? {
        return None, ls;
      }
      var ings := listed.value;
      ls := ings;
      var routes: seq<ProvisionedRoute> := [];
      for i := 0 to |ings|
        invariant routes == ListRoutes(cfg, ings[..i])
        invariant api.requests == old(api.requests) + [ListRequest] && api.failures == old(api.failures)
      {
        var more := ListOne(ings[i]);
        assert ings[..i + 1][..i] == ings[..i];
        routes := routes + more;
      }
      assert ings[..|ings|] == ings;
      return Some(routes), ls;
    }

    method ListOne(l: Listed) returns (routes: seq<ProvisionedRoute>)
      ensures routes == ReportedAll(cfg, l)
    {
      routes := [];
      var tlsHosts := CollectTlsHosts(l.ingress);
      var rules := l.ingress.rules;
      for j := 0 to |rules|
        invariant routes == ReportedAll(cfg, l)[..j]
      {
        var host := rules[j].host;
        routes := routes + [ProvisionedRoute(RouteId(host), host, cfg.namespace + "/" + l.name,
                                             if host in tlsHosts then host else "", "active", PROVIDER_NAME)];
      }
    }

    method CollectTlsHosts(ing: Ingress) returns (hosts: set<string>)
      ensures forall h :: h in hosts <==> HasTlsHost(ing.tls, h)
    {
      hosts := {};
      for k := 0 to |ing.tls|
        invariant forall h :: h in hosts <==> HasTlsHost(ing.tls[..k], h)
      {
        hosts := hosts + (set h | h in ing.tls[k].hosts);
        forall h ensures HasTlsHost(ing.tls[..k + 1], h) <==> HasTlsHost(ing.tls[..k], h) || h in ing.tls[k].hosts {
          HasTlsHostSnoc(ing.tls[..k], ing.tls[k], h);
          assert ing.tls[..k] + [ing.tls[k]] == ing.tls[..k + 1];
        }
      }
      assert ing.tls[..|ing.tls|] == ing.tls;
    }

    // -------------------------------------------------------------- batches

    method MapAll(routes: seq<RouteRequest>) returns (mapped: Result<seq<Mapped>, string>)
      ensures mapped == MapRoutes(cfg, routes)
    {
      var ms: seq<Mapped> := [];
      for k := 0 to |routes|
        invariant MapRoutes(cfg, routes[..k]) == Ok(ms)
      {
        assert routes[..k + 1][..k] == routes[..k];
        match MapRoute(cfg, routes[k])
        case Err(e) =>
          FirstMapError(cfg, routes, k);
          return Err(e);
        case Ok(m) =>
          ms := ms + [m];
      }
      assert routes[..|routes|] == routes;
      return Ok(ms);
    }

    /** Fills the listed Ingresses in order; what does not fit is left to new ones. */
    method PackExisting(ls: seq<Listed>, n: nat) returns (batches: seq<Batch>, cursor: nat)
      ensures batches == Existing(cfg, ls, n) && cursor == CursorAfter(cfg, ls, 0, 0, n)
    {
      batches, cursor := [], 0;
      var i := 0;
      while i < |ls|
        invariant i <= |ls| && cursor <= n
        invariant batches + FillExisting(cfg, ls, i, cursor, n) == Existing(cfg, ls, n)
        invariant CursorAfter(cfg, ls, i, cursor, n) == CursorAfter(cfg, ls, 0, 0, n)
      {
        if cursor >= n {
          break;
        }
        var capacity := cfg.max - |ls[i].ingress.rules|;
        if capacity > 0 {
          var end := cursor + capacity;
          if end > n {
            end := n;
          }
          var b := Batch(ls[i].name, cursor, end, false);
          assert batches + [b] + FillExisting(cfg, ls, i + 1, end, n) == batches + ([b] + FillExisting(cfg, ls, i + 1, end, n));
          batches := batches + [b];
          cursor := end;
        }
        i := i + 1;
      }
    }

    /** The rules and TLS entries of a group of routes. */
    method Split(ms: seq<Mapped>) returns (rules: seq<Rule>, entries: seq<Tls>)
      ensures rules == RulesOf(ms) && entries == EntriesOf(ms)
    {
      rules, entries := [], [];
      for k := 0 to |ms|
        invariant rules == RulesOf(ms[..k]) && entries == EntriesOf(ms[..k])
      {
        assert ms[..k + 1][..k] == ms[..k];
        rules := rules + [ms[k].rule];
        if ms[k].tls.Some? {
          entries := entries + [ms[k].tls.value];
        }
      }
      assert ms[..|ms|] == ms;
    }

    /** Creates new Ingresses for the routes from the cursor on. */
    method CreateForRest(ms: seq<Mapped>, ghost ls: seq<Listed>, from: nat, count: nat)
      returns (ok: bool, batches: seq<Batch>, ghost done: nat)
      requires 1 <= cfg.max && IsListing(ls, api.store) && count == |ls|
      requires from == CursorAfter(cfg, ls, 0, 0, |ms|) <= |ms|
      modifies api
      ensures Attempted(cfg, old(api.store), Operation.BatchProvision(ms), ls, done, api.store)
      ensures ok ==> batches == Fresh(cfg, ls, |ms|) && done == |batches|
      ensures OnlyWrites(old(api.requests), api.requests)
      ensures api.failures == old(api.failures) + if ok then 0 else 1
    {
      var n, cursor, newIndex := |ms|, from, count;
      ghost var m, op := api.store, Operation.BatchProvision(ms);
      batches, done := [], 0;
      Started(cfg, m, op, ls);
      NoCall(api.requests);
      assert [] + FillNew(cfg, newIndex, cursor, n) == Fresh(cfg, ls, n);
      hide OnlyWrites, Attempted, Plan, Serve, Fresh;
      while cursor < n
        invariant cursor <= n && done == |batches|
        invariant OnlyWrites(old(api.requests), api.requests) && api.failures == old(api.failures)
        invariant batches + FillNew(cfg, newIndex, cursor, n) == Fresh(cfg, ls, n)
        invariant Attempted(cfg, m, op, ls, done, api.store)
      {
        var end := cursor + cfg.max;
        if end > n {
          end := n;
        }
        var b := Batch(IngressName(newIndex), cursor, end, true);
        NextOf(batches, b, FillNew(cfg, newIndex + 1, end, n));
        var rules, entries := Split(ms[cursor..end]);
        ghost var before, sent := api.store, api.requests;
        ghost var took;
        ok, took := CreateIngressWithRules(newIndex, rules, entries);
        WritesGoOn(old(api.requests), sent, api.requests);
        PlanAtNew(cfg, ls, ms, done, b);
        if took {
          Advanced(cfg, m, op, ls, done, before, api.store);
          done := done + 1;
        }
        if !ok {
          return false, batches, done;
        }
        batches := batches + [b];
        cursor, newIndex := end, newIndex + 1;
      }
      return true, batches, done;
    }

    /** Reports the routes of one batch, after those of the batches before it. */
    method ReportBatch(ms: seq<Mapped>, certs: map<string, Certificate>, ghost batches: seq<Batch>, ghost t: nat,
        b: Batch, before: seq<ProvisionedRoute>)
      returns (results: seq<ProvisionedRoute>)
      requires t < |batches| && batches[t] == b && Fits(b, |ms|) && |before| == b.lo
      requires ReportsUpto(cfg, ms, certs, batches, before)
      ensures |results| == b.hi && ReportsUpto(cfg, ms, certs, batches, results)
    {
      results := before;
      hide ReportsUpto;
      for k := b.lo to b.hi
        invariant |results| == k && ReportsUpto(cfg, ms, certs, batches, results)
      {
        var host := ms[k].req.host;
        var route := BuildRoute(cfg, host, b.name, CertFor(certs, host));
        OneMoreReported(cfg, ms, certs, batches, t, results, route);
        results := results + [route];
      }
    }

    /** Patches one listed Ingress with its batch. */
    method PatchBatch(ms: seq<Mapped>, b: Batch, ghost m: Store, ghost ls: seq<Listed>, ghost done: nat)
      returns (ok: bool, ghost took: bool)
      requires 1 <= cfg.max && Fits(b, |ms|) && done < |Plan(cfg, ls, Operation.BatchProvision(ms))|
      requires Plan(cfg, ls, Operation.BatchProvision(ms))[done] == AddCall(b.name, ms[b.lo..b.hi])
      requires Attempted(cfg, m, Operation.BatchProvision(ms), ls, done, api.store)
      modifies api
      ensures Attempted(cfg, m, Operation.BatchProvision(ms), ls, if took then done + 1 else done, api.store)
      ensures ok ==> took
      ensures OnlyWrites(old(api.requests), api.requests)
      ensures api.failures == old(api.failures) + if ok then 0 else 1
    {
      var rules, entries := Split(ms[b.lo..b.hi]);
      ghost var before := api.store;
      ok, took := PatchAddRules(b.name, rules, entries);
      if took {
        Advanced(cfg, m, Operation.BatchProvision(ms), ls, done, before, api.store);
      }
    }

    /** Patches the listed Ingresses' batches and reports every route, batch by batch. */
    method ApplyBatches(ms: seq<Mapped>, certs: map<string, Certificate>, batches: seq<Batch>, ghost m: Store,
        ghost ls: seq<Listed>)
      returns (ok: bool, results: seq<ProvisionedRoute>, ghost done: nat)
      requires 1 <= cfg.max && IsListing(ls, m)
      requires batches == Existing(cfg, ls, |ms|) + Fresh(cfg, ls, |ms|)
      requires Attempted(cfg, m, Operation.BatchProvision(ms), ls, |Fresh(cfg, ls, |ms|)|, api.store)
      modifies api
      ensures Attempted(cfg, m, Operation.BatchProvision(ms), ls, done, api.store)
      ensures ok ==> done == |Plan(cfg, ls, Operation.BatchProvision(ms))| && Reports(cfg, ms, certs, batches, results)
      ensures OnlyWrites(old(api.requests), api.requests)
      ensures api.failures == old(api.failures) + if ok then 0 else 1
    {
      hide *;
      ghost var old', new' := |Existing(cfg, ls, |ms|)|, |Fresh(cfg, ls, |ms|)|;
      results, done := [], new';
      BatchesAreRequests(cfg, ls, ms);
      BatchesEnds(cfg, ls, ms);
      NoneReported(cfg, ms, certs, batches, results);
      NoCall(api.requests);
      var t := 0;
      while t < |batches|
        invariant t <= |batches|
        invariant OnlyWrites(old(api.requests), api.requests) && api.failures == old(api.failures)
        invariant done == new' + if t < old' then t else old'
        invariant Attempted(cfg, m, Operation.BatchProvision(ms), ls, done, api.store)
        invariant |results| == Upto(batches, t, |ms|)
        invariant ReportsUpto(cfg, ms, certs, batches, results)
      {
        var b := batches[t];
        ChainStep(batches, 0, |ms|, t);
        PlanAtExisting(cfg, ls, ms, t);
        if !b.created {
          ghost var took;
          ghost var sent := api.requests;
          ok, took := PatchBatch(ms, b, m, ls, done);
          WritesGoOn(old(api.requests), sent, api.requests);
          if took {
            done := done + 1;
          }
          if !ok {
            return false, results, done;
          }
        }
        results := ReportBatch(ms, certs, batches, t, b, results);
        t := t + 1;
      }
      AllReported(cfg, ms, certs, batches, results);
      return true, results, done;
    }

    method BatchProvision(routes: seq<RouteRequest>, certs: map<string, Certificate>)
      returns (r: Result<seq<ProvisionedRoute>, Error>, ghost ls: seq<Listed>, ghost done: nat)
      requires 1 <= cfg.max
      modifies api
      ensures match MapRoutes(cfg, routes)
        case Err(e) => r == Err(MapError(e)) && api.store == old(api.store)
        case Ok(ms) =>
          && Packed(cfg, old(api.store), ms, ls, done, api.store, r.Ok?)
          && (r.Ok? ==> Reports(cfg, ms, certs, Existing(cfg, ls, |ms|) + Fresh(cfg, ls, |ms|), r.value))
      ensures OneCall(old(api.requests), api.requests)
      ensures |api.requests| > |old(api.requests)| <==> !(r.Err? && r.error.MapError?)
      ensures r.Err? && r.error.MapError? <==> exists k :: 0 <= k < |routes| && routes[k].backends == []
      ensures api.failures == old(api.failures) + if r == Err(ApiError) then 1 else 0
      ensures r.Ok? && WellFormed(old(api.store)) && AllNew(routes, Table(old(api.store))) ==>
        AllProvided(cfg, routes, Table(old(api.store)), Table(api.store))
    {
      ls, done := [], 0;
      NoCall(api.requests);
      JustList(api.requests);
      MapsAll(cfg, routes);
      hide OneCall, OnlyWrites, Attempted, Reports, WellFormed, AllProvided, AllNew, Table;
      var mapped := MapAll(routes);
      if mapped.Err? {
        return Err(MapError(mapped.error)), ls, done;
      }
      var ms := mapped.value;
      var listed := api.List();
      if listed.None? {
        return Err(ApiError), ls, done;
      }
      ghost var m := api.store;
      var ings := SortByLoad(listed.value);
      PermutedListing(listed.value, ings, m);
      ls := ings;
      var batches, cursor := PackExisting(ings, |ms|);
      FillExistingChain(cfg, ings, 0, 0, |ms|);
      var ok, created, results;
      ok, created, done := CreateForRest(ms, ings, cursor, |ings|);
      ghost var sent := api.requests;
      if !ok {
        ListThenWrites(old(api.requests), sent);
        return Err(ApiError), ls, done;
      }
      ok, results, done := ApplyBatches(ms, certs, batches + created, m, ings);
      WritesGoOn(old(api.requests) + [ListRequest], sent, api.requests);
      ListThenWrites(old(api.requests), api.requests);
      if !ok {
        return Err(ApiError), ls, done;
      }
      BatchServedProvides(cfg, m, ls, routes, ms, done, api.store);
      r := Ok(results);
    }

    method BatchDeprovision(routeIDs: seq<string>) returns (ok: bool, ghost ls: seq<Listed>, ghost done: nat)
      modifies api
      ensures Concluded(cfg, old(api.store), Operation.BatchDeprovision(IdSet(routeIDs)), ls, done, api.store, ok)
      ensures OneCall(old(api.requests), api.requests) && |api.requests| > |old(api.requests)|
      ensures api.failures == old(api.failures) + if ok then 0 else 1
    {
      ls, done := [], 0;
      var listed := api.List();
      if listed.None? {
        return false, ls, done;
      }
      var ings := listed.value;
      ls := ings;
      var toRemove := set id | id in routeIDs;
      ok, done := RemoveFromAll(ings, toRemove);
    }

    method RemoveFromAll(ings: seq<Listed>, toRemove: set<string>) returns (ok: bool, ghost done: nat)
      requires IsListing(ings, api.store)
      modifies api
      ensures Attempted(cfg, old(api.store), Operation.BatchDeprovision(toRemove), ings, done, api.store)
      ensures ok ==> done == |Plan(cfg, ings, Operation.BatchDeprovision(toRemove))|
      ensures OnlyWrites(old(api.requests), api.requests)
      ensures api.failures == old(api.failures) + if ok then 0 else 1
    {
      hide *;
      ghost var m, op := api.store, Operation.BatchDeprovision(toRemove);
      RemovalPlan(cfg, ings, toRemove);
      Started(cfg, m, op, ings);
      NoCall(api.requests);
      done := 0;
      for i := 0 to |ings|
        invariant Attempted(cfg, m, op, ings, done, api.store)
        invariant done == |BatchDeprovisionCalls(ings[..i], toRemove)|
        invariant OnlyWrites(old(api.requests), api.requests) && api.failures == old(api.failures)
      {
        ghost var before, sent := api.store, api.requests;
        ghost var took;
        ok, took := RemoveFrom(ings[i], toRemove);
        WritesGoOn(old(api.requests), sent, api.requests);
        RemovalCallAt(ings, toRemove, i);
        if took {
          Advanced(cfg, m, op, ings, done, before, api.store);
          done := done + 1;
        }
        if !ok {
          return false, done;
        }
      }
      assert ings[..|ings|] == ings;
      return true, done;
    }

    /** Rewrites or deletes one Ingress if it holds any of the routes. */
    method RemoveFrom(l: Listed, toRemove: set<string>) returns (ok: bool, ghost took: bool)
      modifies api
      ensures took ==> |RemovalCall(l, toRemove)| == 1 && Serve(old(api.store), RemovalCall(l, toRemove)[0]) == Some(api.store)
      ensures !took ==> api.store == old(api.store)
      ensures ok ==> (took <==> RemovalCall(l, toRemove) != [])
      ensures OnlyWrites(old(api.requests), api.requests)
      ensures api.failures == old(api.failures) + if ok then 0 else 1
    {
      var changed, keepRules, removedHosts := RulesToKeep(l.ingress.rules, toRemove);
      if !changed {
        return true, false;
      }
      var keepTls := TlsToKeep(l.ingress.tls, removedHosts);
      if |keepRules| == 0 {
        ok, took := api.Send(Delete(l.name));
      } else {
        ok, took := api.Send(Patch(l.name, [ReplaceRules(keepRules), ReplaceAllTls(keepTls)]));
      }
    }

    method RulesToKeep(rules: seq<Rule>, toRemove: set<string>)
      returns (changed: bool, keep: seq<Rule>, removedHosts: set<string>)
      ensures changed <==> exists k :: 0 <= k < |rules| && RouteId(rules[k].host) in toRemove
      ensures keep == KeepRules(rules, toRemove) && removedHosts == RemovedHosts(rules, toRemove)
    {
      changed, keep, removedHosts := false, [], {};
      assert RemovedHosts(rules[..0], toRemove) == {};
      hide KeepRules, RemovedHosts, RouteId;
      for j := 0 to |rules|
        invariant keep == KeepRules(rules[..j], toRemove)
        invariant removedHosts == RemovedHosts(rules[..j], toRemove)
        invariant changed <==> exists k :: 0 <= k < j && RouteId(rules[k].host) in toRemove
      {
        assert rules[..j + 1] == rules[..j] + [rules[j]];
        KeepRulesSnoc(rules[..j], rules[j], toRemove);
        RemovedHostsSnoc(rules[..j], rules[j], toRemove);
        if RouteId(rules[j].host) in toRemove {
          changed := true;
          removedHosts := removedHosts + {rules[j].host};
        } else {
          keep := keep + [rules[j]];
        }
      }
      assert rules[..|rules|] == rules;
    }

    method HostsToKeep(all: seq<string>, removedHosts: set<string>) returns (hosts: seq<string>)
      ensures hosts == KeepHosts(all, removedHosts)
    {
      hosts := [];
      for h := 0 to |all|
        invariant hosts == KeepHosts(all[..h], removedHosts)
      {
        assert all[..h + 1][..h] == all[..h];
        if all[h] !in removedHosts {
          hosts := hosts + [all[h]];
        }
      }
      assert all[..|all|] == all;
    }

    method TlsToKeep(tls: seq<Tls>, removedHosts: set<string>) returns (keep: seq<Tls>)
      ensures keep == KeepTls(tls, removedHosts)
    {
      keep := [];
      for k := 0 to |tls|
        invariant keep == KeepTls(tls[..k], removedHosts)
      {
        assert tls[..k + 1][..k] == tls[..k];
        var hosts := HostsToKeep(tls[k].hosts, removedHosts);
        if |hosts| > 0 {
          keep := keep + [tls[k].(hosts := hosts)];
        }
      }
      assert tls[..|tls|] == tls;
    }
  }

  // ---------------------------------------------------------------- what the loops rely on

  lemma HasTlsHostSnoc(tls: seq<Tls>, e: Tls, h: string)
    ensures HasTlsHost(tls + [e], h) <==> HasTlsHost(tls, h) || h in e.hosts
  {
    var all := tls + [e];
    if HasTlsHost(tls, h) {
      var k :| 0 <= k < |tls| && h in tls[k].hosts;
      assert h in all[k].hosts;
    }
    if h in e.hosts {
      assert h in all[|tls|].hosts;
    }
  }

  lemma RemovedHostsSnoc(rules: seq<Rule>, x: Rule, ids: set<string>)
    ensures RemovedHosts(rules + [x], ids) == RemovedHosts(rules, ids) + if RouteId(x.host) in ids then {x.host} else {}
  {
    assert forall r :: r in rules + [x] <==> r in rules || r == x;
  }

  lemma {:induction false} FirstMapError(cfg: Config, routes: seq<RouteRequest>, k: nat)
    requires k < |routes| && MapRoutes(cfg, routes[..k]).Ok? && MapRoute(cfg, routes[k]).Err?
    ensures MapRoutes(cfg, routes) == Err(MapRoute(cfg, routes[k]).error)
  {
    var last := |routes| - 1;
    if k < last {
      assert routes[..last][..k] == routes[..k];
      FirstMapError(cfg, routes[..last], k);
    }
  }

  lemma NextOf(batches: seq<Batch>, b: Batch, rest: seq<Batch>)
    ensures batches + ([b] + rest) == batches + [b] + rest
    ensures (batches + ([b] + rest))[|batches|] == b
  {
  }

  /** The next call of the plan creates the next new Ingress. */
  lemma PlanAtNew(cfg: Config, ls: seq<Listed>, ms: seq<Mapped>, done: nat, b: Batch)
    requires 1 <= cfg.max && done < |Fresh(cfg, ls, |ms|)| && Fresh(cfg, ls, |ms|)[done] == b && b.created && Fits(b, |ms|)
    ensures done < |Plan(cfg, ls, Operation.BatchProvision(ms))|
    ensures Plan(cfg, ls, Operation.BatchProvision(ms))[done] == Create(b.name, Ingress(true, RulesOf(ms[b.lo..b.hi]), EntriesOf(ms[b.lo..b.hi])))
  {
    assert Order(cfg, ls, |ms|)[done] == b;
  }

  /** After the new Ingresses the plan patches the listed ones, in the order of the batches. */
  lemma PlanAtExisting(cfg: Config, ls: seq<Listed>, ms: seq<Mapped>, t: nat)
    requires 1 <= cfg.max && t < |Existing(cfg, ls, |ms|)| + |Fresh(cfg, ls, |ms|)|
    ensures var x, y, plan := Existing(cfg, ls, |ms|), Fresh(cfg, ls, |ms|), Plan(cfg, ls, Operation.BatchProvision(ms));
      var b := (x + y)[t];
      && |plan| == |x| + |y|
      && (b.created <==> |x| <= t)
      && Fits(b, |ms|)
      && (t < |x| ==> plan[|y| + t] == AddCall(b.name, ms[b.lo..b.hi]))
  {
    var x, y := Existing(cfg, ls, |ms|), Fresh(cfg, ls, |ms|);
    if t < |x| {
      OrderRoom(cfg, ls, |ms|, |y| + t);
    } else {
      OrderRoom(cfg, ls, |ms|, t - |x|);
    }
  }

  lemma BatchesEnds(cfg: Config, ls: seq<Listed>, ms: seq<Mapped>)
    requires 1 <= cfg.max
    ensures var x, y := Existing(cfg, ls, |ms|), Fresh(cfg, ls, |ms|);
      && |Plan(cfg, ls, Operation.BatchProvision(ms))| == |x| + |y|
      && Upto(x + y, 0, |ms|) == 0
      && Upto(x + y, |x| + |y|, |ms|) == |ms|
  {
    BatchesAreRequests(cfg, ls, ms);
    var bs := Existing(cfg, ls, |ms|) + Fresh(cfg, ls, |ms|);
    if bs != [] {
      ChainStep(bs, 0, |ms|, 0);
    }
  }

  lemma NoneReported(cfg: Config, ms: seq<Mapped>, certs: map<string, Certificate>, bs: seq<Batch>,
      results: seq<ProvisionedRoute>)
    requires results == []
    ensures ReportsUpto(cfg, ms, certs, bs, results)
  {
  }

  lemma OneMoreReported(cfg: Config, ms: seq<Mapped>, certs: map<string, Certificate>, bs: seq<Batch>, t: nat,
      results: seq<ProvisionedRoute>, x: ProvisionedRoute)
    requires ReportsUpto(cfg, ms, certs, bs, results) && t < |bs| && |results| < |ms|
    requires ReportsOn(cfg, ms, certs, bs[t], |results|, x)
    ensures ReportsUpto(cfg, ms, certs, bs, results + [x])
  {
    var results' := results + [x];
    forall k | 0 <= k < |results'| ensures exists t :: 0 <= t < |bs| && ReportsOn(cfg, ms, certs, bs[t], k, results'[k]) {
      if k < |results| {
        assert results'[k] == results[k];
      } else {
        assert ReportsOn(cfg, ms, certs, bs[t], k, results'[k]);
      }
    }
  }

  lemma AllReported(cfg: Config, ms: seq<Mapped>, certs: map<string, Certificate>, bs: seq<Batch>,
      results: seq<ProvisionedRoute>)
    requires |results| == |ms| && ReportsUpto(cfg, ms, certs, bs, results)
    ensures Reports(cfg, ms, certs, bs, results)
  {
  }

  lemma {:induction false} ChainStep(bs: seq<Batch>, a: nat, n: nat, t: nat)
    requires Chain(bs, a, n) && t < |bs|
    ensures bs[t].lo == (if t == 0 then a else bs[t - 1].hi) == Upto(bs, t, n)
    ensures bs[t].lo < bs[t].hi == Upto(bs, t + 1, n) <= n
    decreases |bs|
  {
    if t > 0 {
      ChainStep(bs[1..], bs[0].hi, n, t - 1);
    } else if |bs| == 1 {
      assert bs[1..] == [];
    }
  }

  /** How many requests the first t batches hold. */
  function Upto(bs: seq<Batch>, t: nat, n: nat): nat
    requires t <= |bs|
  {
    if t < |bs| then bs[t].lo else n
  }

  /** The result for request k, which is in the batch. */
  predicate ReportsOn(cfg: Config, ms: seq<Mapped>, certs: map<string, Certificate>, b: Batch, k: nat,
      x: ProvisionedRoute)
    requires k < |ms|
  {
    b.lo <= k < b.hi && x == BuildRoute(cfg, ms[k].req.host, b.name, CertFor(certs, ms[k].req.host))
  }

  /** The results so far line up with the requests, each naming the Ingress of its batch. */
  ghost predicate ReportsUpto(cfg: Config, ms: seq<Mapped>, certs: map<string, Certificate>, bs: seq<Batch>,
      results: seq<ProvisionedRoute>) {
    && |results| <= |ms|
    && forall k :: 0 <= k < |results| ==> exists t :: 0 <= t < |bs| && ReportsOn(cfg, ms, certs, bs[t], k, results[k])
  }

  ghost predicate Reports(cfg: Config, ms: seq<Mapped>, certs: map<string, Certificate>, bs: seq<Batch>,
      results: seq<ProvisionedRoute>) {
    |results| == |ms| && ReportsUpto(cfg, ms, certs, bs, results)
  }

  lemma RemovalPlan(cfg: Config, ings: seq<Listed>, ids: set<string>)
    ensures Plan(cfg, ings, Operation.BatchDeprovision(ids)) == BatchDeprovisionCalls(ings, ids)
    ensures BatchDeprovisionCalls(ings[..0], ids) == []
  {
  }

  lemma RemovalCallAt(ings: seq<Listed>, ids: set<string>, i: nat)
    requires i < |ings|
    ensures var x, y := BatchDeprovisionCalls(ings[..i], ids), RemovalCall(ings[i], ids);
      && BatchDeprovisionCalls(ings[..i + 1], ids) == x + y
      && |x| + |y| <= |BatchDeprovisionCalls(ings, ids)|
      && (y != [] ==> BatchDeprovisionCalls(ings, ids)[|x|] == y[0])
  {
    assert ings[..i + 1][..i] == ings[..i];
    RemovalPrefix(ings, ids, i + 1);
  }

  lemma {:induction false} RemovalPrefix(ings: seq<Listed>, ids: set<string>, i: nat)
    requires i <= |ings|
    ensures BatchDeprovisionCalls(ings[..i], ids) <= BatchDeprovisionCalls(ings, ids)
  {
    if i == |ings| {
      assert ings[..i] == ings;
    } else {
      RemovalPrefix(ings[..|ings| - 1], ids, i);
      assert ings[..|ings| - 1][..i] == ings[..i];
    }
  }
}
