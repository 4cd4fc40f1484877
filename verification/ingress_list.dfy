/** List reports exactly the route table. */
module IngressList {
  import opened Core
  import opened Kube
  import opened Mapper
  import opened IngressPlan
  import opened IngressTable
  import opened IngressStore
  import opened IngressRuns

  const PROVIDER_NAME := "ingress-k8s"

  predicate HasTlsHost(tls: seq<Tls>, host: string) {
    exists k :: 0 <= k < |tls| && host in tls[k].hosts
  }

  function Reported(cfg: Config, l: Listed, r: Rule): ProvisionedRoute {
    ProvisionedRoute(RouteId(r.host), r.host, cfg.namespace + "/" + l.name,
                     if HasTlsHost(l.ingress.tls, r.host) then r.host else "", "active", PROVIDER_NAME)
  }

  function ReportedAll(cfg: Config, l: Listed): (rs: seq<ProvisionedRoute>)
    ensures |rs| == |l.ingress.rules| && forall j :: 0 <= j < |rs| ==> rs[j] == Reported(cfg, l, l.ingress.rules[j])
  {
    seq(|l.ingress.rules|, j requires 0 <= j < |l.ingress.rules| => Reported(cfg, l, l.ingress.rules[j]))
  }

  function ListRoutes(cfg: Config, ls: seq<Listed>): seq<ProvisionedRoute> {
    if ls == [] then [] else ListRoutes(cfg, ls[..|ls| - 1]) + ReportedAll(cfg, ls[|ls| - 1])
  }

  lemma {:induction false} ListedFrom(cfg: Config, ls: seq<Listed>, k: nat) returns (i: nat, j: nat)
    requires k < |ListRoutes(cfg, ls)|
    ensures i < |ls| && j < |ls[i].ingress.rules| && ListRoutes(cfg, ls)[k] == Reported(cfg, ls[i], ls[i].ingress.rules[j])
  {
    var last := |ls| - 1;
    var before := ListRoutes(cfg, ls[..last]);
    if k < |before| {
      i, j := ListedFrom(cfg, ls[..last], k);
      assert ls[..last][i] == ls[i];
    } else {
      i, j := last, k - |before|;
    }
  }

  lemma {:induction false} ListedAt(cfg: Config, ls: seq<Listed>, i: nat, j: nat) returns (k: nat)
    requires i < |ls| && j < |ls[i].ingress.rules|
    ensures k < |ListRoutes(cfg, ls)| && ListRoutes(cfg, ls)[k] == Reported(cfg, ls[i], ls[i].ingress.rules[j])
  {
    var last := |ls| - 1;
    if i < last {
      assert ls[..last][i] == ls[i];
      k := ListedAt(cfg, ls[..last], i, j);
    } else {
      k := |ListRoutes(cfg, ls[..last])| + j;
    }
  }

  lemma TlsHostIs(tls: seq<Tls>, host: string)
    ensures HasTlsHost(tls, host) <==> TlsOf(tls, host).Some?
  {
    var f := FindEntry(tls, host, 0);
    if f.Some? {
      assert host in tls[f.value].hosts;
    }
  }

  /** What List says of a table entry. */
  predicate Shows(x: ProvisionedRoute, e: Entry) {
    && x.routeID == RouteId(x.host)
    && x.host == e.rule.host
    && x.certificateID == (if e.tls.Some? then x.host else "")
    && x.status == "active" && x.providerName == PROVIDER_NAME
  }

  /** The gateway named is the Ingress that holds the route. */
  ghost predicate NamesIngress(cfg: Config, m: Store, x: ProvisionedRoute) {
    exists n :: Managed(m, n) && x.routeID in IdsIn(m[n]) && x.gatewayID == cfg.namespace + "/" + n
  }

  lemma ListedShows(cfg: Config, m: Store, ls: seq<Listed>, k: nat)
    requires IsListing(ls, m) && WellFormed(m) && k < |ListRoutes(cfg, ls)|
    ensures var x := ListRoutes(cfg, ls)[k];
      x.routeID in Table(m) && Shows(x, Table(m)[x.routeID]) && NamesIngress(cfg, m, x)
  {
    var i, j := ListedFrom(cfg, ls, k);
    assert Managed(m, ls[i].name);
    TableEntry(m, ls[i].name, j);
    TlsHostIs(ls[i].ingress.tls, ls[i].ingress.rules[j].host);
  }

  lemma {:induction false} ListDistinct(cfg: Config, m: Store, ls: seq<Listed>, a: nat, b: nat)
    requires Lists(ls, m) && WellFormed(m) && a < b < |ListRoutes(cfg, ls)|
    ensures ListRoutes(cfg, ls)[a].routeID != ListRoutes(cfg, ls)[b].routeID
  {
    var last := |ls| - 1;
    var before := ListRoutes(cfg, ls[..last]);
    if b < |before| {
      ListDistinct(cfg, m, ls[..last], a, b);
    } else if a < |before| {
      var i, j := ListedFrom(cfg, ls[..last], a);
      var n, r := ls[last].name, ls[last].ingress.rules[b - |before|];
      assert Id(r) in IdsIn(m[n]);
      NotBoth(m, n, ls[..last][i].name, Id(r));
      assert Id(ls[..last][i].ingress.rules[j]) in IdsIn(m[ls[..last][i].name]);
    } else {
      assert UniqueIn(m[ls[last].name]);
    }
  }

  lemma ListComplete(cfg: Config, m: Store, ls: seq<Listed>, id: string) returns (k: nat)
    requires IsListing(ls, m) && id in Table(m)
    ensures k < |ListRoutes(cfg, ls)| && ListRoutes(cfg, ls)[k].routeID == id
  {
    var n := TableNames(m, id);
    var i :| 0 <= i < |ls| && ls[i].name == n;
    var j :| 0 <= j < |m[n].rules| && Id(m[n].rules[j]) == id;
    k := ListedAt(cfg, ls, i, j);
  }

  /** Whatever order the API lists in: List enumerates the table, each entry once, with a
      certificate exactly for the entries that have TLS, and the Ingress that holds it. */
  lemma ListIsTable(cfg: Config, m: Store, ls: seq<Listed>)
    requires IsListing(ls, m) && WellFormed(m)
    ensures var xs := ListRoutes(cfg, ls);
      && (forall k :: 0 <= k < |xs| ==>
            xs[k].routeID in Table(m) && Shows(xs[k], Table(m)[xs[k].routeID]) && NamesIngress(cfg, m, xs[k]))
      && (forall id :: id in Table(m) ==> exists k :: 0 <= k < |xs| && xs[k].routeID == id)
      && (forall a, b :: 0 <= a < b < |xs| ==> xs[a].routeID != xs[b].routeID)
  {
    var xs := ListRoutes(cfg, ls);
    hide NamesIngress;
    forall k | 0 <= k < |xs|
      ensures xs[k].routeID in Table(m) && Shows(xs[k], Table(m)[xs[k].routeID]) && NamesIngress(cfg, m, xs[k])
    {
      ListedShows(cfg, m, ls, k);
    }
    forall id | id in Table(m) ensures exists k :: 0 <= k < |xs| && xs[k].routeID == id {
      var k := ListComplete(cfg, m, ls, id);
    }
    assert Lists(ls, m);
    forall a, b | 0 <= a < b < |xs| ensures xs[a].routeID != xs[b].routeID {
      ListDistinct(cfg, m, ls, a, b);
    }
  }
}
