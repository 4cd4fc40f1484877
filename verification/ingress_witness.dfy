/** Runs from the empty cluster that meet the failing conditions of the Ingress gateway. */
module IngressWitness {
  import opened Core
  import opened Kube
  import opened Mapper
  import opened IngressPlan
  import opened IngressTable
  import opened IngressStore
  import opened IngressBatch
  import opened IngressRuns
  import IngressTls

  // ---------------------------------------------------------------- a gap in the names

  /** Every listed Ingress is full with one rule, which is not the route's. */
  predicate FullOfOthers(cfg: Config, ls: seq<Listed>, mr: Mapped) {
    && cfg.max == 1
    && forall i :: 0 <= i < |ls| ==> |ls[i].ingress.rules| == 1 && Id(ls[i].ingress.rules[0]) != IdOf(mr)
  }

  lemma CreatesNext(cfg: Config, ls: seq<Listed>, mr: Mapped)
    requires FullOfOthers(cfg, ls, mr)
    ensures ProvisionCall(cfg, ls, mr) == CreateCall(IngressName(|ls|), [mr])
  {
  }

  lemma CreateHappens(cfg: Config, hosts: set<string>, m: Store, ls: seq<Listed>, mr: Mapped)
    requires FullOfOthers(cfg, ls, mr) && IsListing(ls, m) && ForHost(mr) && mr.req.host in hosts
    requires IngressName(|ls|) !in m
    ensures Happens(cfg, hosts, m, Event(Provision(mr), ls, 1), m[IngressName(|ls|) := Bundle([mr])])
  {
    CreatesNext(cfg, ls, mr);
    ServeOne(m, ProvisionCall(cfg, ls, mr));
    assert [ProvisionCall(cfg, ls, mr)][..1] == [ProvisionCall(cfg, ls, mr)];
    assert RulesOf([mr]) == [mr.rule];
  }

  /** The two Ingresses of the run, in the order of their names. */
  function Two(a: Mapped, b: Mapped): seq<Listed> {
    [Listed(IngressName(0), Bundle([a])), Listed(IngressName(1), Bundle([b]))]
  }

  lemma TwoListed(a: Mapped, b: Mapped)
    ensures IngressName(0) != IngressName(1)
    ensures IsListing(Two(a, b)[..1], map[IngressName(0) := Bundle([a])])
    ensures IsListing(Two(a, b), BothIn(a, b))
    ensures IsListing(Two(a, b)[1..], map[IngressName(1) := Bundle([b])])
  {
    IngressTls.NamesDiffer(0, 1);
    assert Two(a, b)[0].name == IngressName(0) && Two(a, b)[1].name == IngressName(1);
    assert Two(a, b)[..1][0].name == IngressName(0) && Two(a, b)[1..][0].name == IngressName(1);
  }

  lemma DeleteHappens(cfg: Config, hosts: set<string>, a: Mapped, b: Mapped)
    requires cfg.max == 1 && ForHost(a)
    ensures Happens(cfg, hosts, BothIn(a, b), Event(Deprovision(IdOf(a)), Two(a, b), 1), map[IngressName(1) := Bundle([b])])
  {
    var m, ls := BothIn(a, b), Two(a, b);
    TwoListed(a, b);
    assert HasId(ls[0].ingress.rules[0], IdOf(a));
    assert IngressPlan.FindRule(ls[0].ingress.rules, IdOf(a), 0) == Some(0);
    assert Find(ls, IdOf(a), 0) == Some(Place(0, 0));
    var plan := DeprovisionCalls(ls, IdOf(a));
    assert plan == [Delete(IngressName(0))] && plan[..1] == plan;
    ServeOne(m, Delete(IngressName(0)));
    assert m - {IngressName(0)} == map[IngressName(1) := Bundle([b])];
  }

  /** With one route an Ingress: provision a, provision b, deprovision a. Then provisioning c asks for
      the second Ingress's name again, which b's Ingress has, and is refused as long as b is there. */
  lemma GapRun(cfg: Config, a: Mapped, b: Mapped, c: Mapped) returns (r: Run, ls: seq<Listed>)
    requires cfg.max == 1 && ForHost(a) && ForHost(b) && ForHost(c)
    requires IdOf(a) != IdOf(b) && IdOf(b) != IdOf(c)
    ensures IsRun(cfg, {a.req.host, b.req.host}, r) && |r.events| == 3 && |r.stores| == 4
    ensures r.events[0].op == Provision(a) && r.events[1].op == Provision(b) && r.events[2].op == Deprovision(IdOf(a))
    ensures forall k :: 0 <= k < 3 ==> Complete(cfg, r.events[k])
    ensures IsListing(ls, r.stores[3]) && ServeAll(r.stores[3], Plan(cfg, ls, Provision(c))).None?
    ensures Plan(cfg, ls, Provision(c))[0].Create? && Plan(cfg, ls, Provision(c))[0].name in r.stores[3]
  {
    var hosts, two := {a.req.host, b.req.host}, Two(a, b);
    var s1, s2, s3 := map[IngressName(0) := Bundle([a])], BothIn(a, b), map[IngressName(1) := Bundle([b])];
    var e0, e1, e2 := Event(Provision(a), [], 1), Event(Provision(b), two[..1], 1), Event(Deprovision(IdOf(a)), two, 1);
    ls := two[1..];
    r := Run([map[], s1, s2, s3], [e0, e1, e2]);
    hide *;
    TwoFull(cfg, a, b, c);
    FirstTwo(cfg, hosts, a, b);
    DeleteHappens(cfg, hosts, a, b);
    TwoListed(a, b);
    ThirdRefused(cfg, a, b, c);
    ThreeSteps(cfg, hosts, r, s1, s2, s3, e0, e1, e2);
    AllComplete(cfg, r, a, b);
  }

  function BothIn(a: Mapped, b: Mapped): Store {
    map[IngressName(0) := Bundle([a]), IngressName(1) := Bundle([b])]
  }

  lemma TwoFull(cfg: Config, a: Mapped, b: Mapped, c: Mapped)
    requires cfg.max == 1 && ForHost(a) && ForHost(b) && IdOf(a) != IdOf(b) && IdOf(b) != IdOf(c)
    ensures FullOfOthers(cfg, [], a) && FullOfOthers(cfg, Two(a, b)[..1], b) && FullOfOthers(cfg, Two(a, b)[1..], c)
  {
  }

  lemma FirstTwo(cfg: Config, hosts: set<string>, a: Mapped, b: Mapped)
    requires cfg.max == 1 && ForHost(a) && ForHost(b) && IdOf(a) != IdOf(b) && a.req.host in hosts && b.req.host in hosts
    ensures Happens(cfg, hosts, map[], Event(Provision(a), [], 1), map[IngressName(0) := Bundle([a])])
    ensures Happens(cfg, hosts, map[IngressName(0) := Bundle([a])], Event(Provision(b), Two(a, b)[..1], 1), BothIn(a, b))
  {
    var m: Store := map[IngressName(0) := Bundle([a])];
    TwoFull(cfg, a, b, a);
    TwoListed(a, b);
    assert m[IngressName(1) := Bundle([b])] == BothIn(a, b);
    assert map[][IngressName(0) := Bundle([a])] == m;
    assert IngressName(1) !in m && |Two(a, b)[..1]| == 1;
    NoneListed();
    hide *;
    CreateHappens(cfg, hosts, map[], [], a);
    CreateHappens(cfg, hosts, m, Two(a, b)[..1], b);
  }

  lemma NoneListed()
    ensures IsListing([], map[])
  {
  }

  lemma ThirdRefused(cfg: Config, a: Mapped, b: Mapped, c: Mapped)
    requires FullOfOthers(cfg, Two(a, b)[1..], c)
    ensures var ls, m := Two(a, b)[1..], map[IngressName(1) := Bundle([b])];
      && |Plan(cfg, ls, Provision(c))| == 1 && Plan(cfg, ls, Provision(c))[0].Create?
      && Plan(cfg, ls, Provision(c))[0].name == IngressName(1)
      && IngressName(1) in m && ServeAll(m, Plan(cfg, ls, Provision(c))).None?
  {
    var ls, m := Two(a, b)[1..], map[IngressName(1) := Bundle([b])];
    CreatesNext(cfg, ls, c);
    ServeOne(m, ProvisionCall(cfg, ls, c));
  }

  lemma AllComplete(cfg: Config, r: Run, a: Mapped, b: Mapped)
    requires 1 <= cfg.max && ForHost(a)
    requires r.events == [Event(Provision(a), [], 1), Event(Provision(b), Two(a, b)[..1], 1), Event(Deprovision(IdOf(a)), Two(a, b), 1)]
    ensures forall k :: 0 <= k < 3 ==> Complete(cfg, r.events[k])
  {
    DeletePlan(a, b);
    hide ProvisionCall, DeprovisionCalls, Two;
  }

  lemma DeletePlan(a: Mapped, b: Mapped)
    requires ForHost(a)
    ensures |DeprovisionCalls(Two(a, b), IdOf(a))| == 1
  {
    var ls := Two(a, b);
    assert HasId(ls[0].ingress.rules[0], IdOf(a));
    assert IngressPlan.FindRule(ls[0].ingress.rules, IdOf(a), 0) == Some(0);
  }

  lemma ThreeSteps(cfg: Config, hosts: set<string>, r: Run, s1: Store, s2: Store, s3: Store, e0: Event, e1: Event,
      e2: Event)
    requires 1 <= cfg.max && r == Run([map[], s1, s2, s3], [e0, e1, e2])
    requires Happens(cfg, hosts, map[], e0, s1) && Happens(cfg, hosts, s1, e1, s2) && Happens(cfg, hosts, s2, e2, s3)
    ensures IsRun(cfg, hosts, r)
  {
    hide Happens;
    assert |r.stores| == |r.events| + 1;
  }

  // ---------------------------------------------------------------- a TLS entry left behind

  lemma OneListed(n: string, ing: Ingress)
    requires ing.managed
    ensures IsListing([Listed(n, ing)], map[n := ing])
  {
    assert [Listed(n, ing)][0].name == n;
  }

  /** Provision a route with TLS, then one without TLS for another host with the same identifier: both
      succeed, and the first host's TLS entry is left in an Ingress that has no rule for it. */
  lemma ClashRun(cfg: Config, a: Mapped, b: Mapped) returns (m: Store, ls: seq<Listed>, m': Store)
    requires 1 <= cfg.max && ForHost(a) && ForHost(b) && a.tls.Some? && b.tls.None?
    requires a.req.host != b.req.host && IdOf(a) == IdOf(b)
    ensures Happens(cfg, {a.req.host}, map[], Event(Provision(a), [], 1), m) && WellFormed(m)
    ensures IsListing(ls, m) && Serve(m, ProvisionCall(cfg, ls, b)) == Some(m')
    ensures !NoClash(m, b) && !WellFormed(m')
    ensures m' == map[IngressName(0) := Ingress(true, [b.rule], [a.tls.value])]
  {
    var n := IngressName(0);
    m, ls := map[n := Bundle([a])], [Listed(n, Bundle([a]))];
    m' := map[n := Ingress(true, [b.rule], [a.tls.value])];
    FirstCreate(cfg, a);
    FirstWellFormed(cfg, a, m);
    OneListed(n, Bundle([a]));
    ClashIs(a, b, n, m);
    ClashServed(cfg, a, b, n, m, m');
    hide *;
    ProvisionKeepsIff(cfg, m, ls, b, m');
  }

  lemma FirstWellFormed(cfg: Config, a: Mapped, m: Store)
    requires ForHost(a) && 1 <= cfg.max && m == map[IngressName(0) := Bundle([a])]
    ensures WellFormed(m)
  {
    FirstCreate(cfg, a);
    EmptySound(cfg, {}, map[]);
    hide WellFormed;
    SoundIsWellFormed(cfg, {}, map[]);
    EmptyTable(cfg, a);
    CreateCallRefines(map[], IngressName(0), a, m);
  }

  lemma EmptyTable(cfg: Config, a: Mapped)
    ensures RouteId(a.req.host) !in Table(map[])
  {
    EmptySound(cfg, {}, map[]);
  }

  lemma ClashServed(cfg: Config, a: Mapped, b: Mapped, n: string, m: Store, m': Store)
    requires ForHost(a) && ForHost(b) && IdOf(a) == IdOf(b) && a.tls.Some? && b.tls.None? && m == map[n := Bundle([a])]
    requires m' == map[n := Ingress(true, [b.rule], [a.tls.value])]
    ensures Serve(m, ProvisionCall(cfg, [Listed(n, Bundle([a]))], b)) == Some(m')
  {
    ClashFound(a, b, n);
    BundleOf(a);
    var ing := m[n];
    UpdateOpsEffect(ing, 0, b.rule, b.tls);
    assert ing.rules[0 := b.rule] == [b.rule];
    assert m[n := Ingress(true, [b.rule], [a.tls.value])] == m';
  }

  lemma FirstCreate(cfg: Config, a: Mapped)
    requires 1 <= cfg.max && ForHost(a)
    ensures Happens(cfg, {a.req.host}, map[], Event(Provision(a), [], 1), map[IngressName(0) := Bundle([a])])
    ensures Serve(map[], CreateCall(IngressName(0), [a])) == Some(map[IngressName(0) := Bundle([a])])
  {
    assert ProvisionCall(cfg, [], a) == CreateCall(IngressName(0), [a]);
    ServeOne(map[], ProvisionCall(cfg, [], a));
    assert [ProvisionCall(cfg, [], a)][..1] == [ProvisionCall(cfg, [], a)];
    assert RulesOf([a]) == [a.rule];
  }

  lemma ClashFound(a: Mapped, b: Mapped, n: string)
    requires ForHost(a) && ForHost(b) && IdOf(a) == IdOf(b)
    ensures Find([Listed(n, Bundle([a]))], IdOf(b), 0) == Some(Place(0, 0))
  {
    var ls := [Listed(n, Bundle([a]))];
    assert HasId(ls[0].ingress.rules[0], IdOf(b));
    assert IngressPlan.FindRule(ls[0].ingress.rules, IdOf(b), 0) == Some(0);
  }

  lemma ClashIs(a: Mapped, b: Mapped, n: string, m: Store)
    requires ForHost(a) && ForHost(b) && IdOf(a) == IdOf(b) && a.tls.Some? && b.tls.None? && a.req.host != b.req.host
    requires m == map[n := Bundle([a])]
    ensures !NoClash(m, b)
  {
    BundleOf(a);
    assert Id(m[n].rules[0]) == RouteId(b.req.host);
    assert FindEntry(m[n].tls, m[n].rules[0].host, 0).Some?;
    assert !NoStaleTls(m[n], 0, b);
  }

  /** Two such hosts: "a.b" and "a-b". */
  lemma DotAndDash(cfg: Config) returns (a: Mapped, b: Mapped)
    ensures a.req.host == "a.b" && b.req.host == "a-b" && ForHost(a) && ForHost(b)
    ensures a.tls.Some? && b.tls.None? && IdOf(a) == IdOf(b)
    ensures MapRoute(cfg, a.req) == Ok(a) && MapRoute(cfg, b.req) == Ok(b)
  {
    var web := [Backend("web", 80, 1)];
    var x, y := RouteRequest("", "a.b", "", web, true), RouteRequest("", "a-b", "", web, false);
    a, b := MapRoute(cfg, x).value, MapRoute(cfg, y).value;
    RouteIdCollision("a.b", "a-b");
  }

  // ---------------------------------------------------------------- plain routes

  function Request(id: string, host: string, tls: bool): RouteRequest {
    RouteRequest(id, host, "", [Backend("web", 80, 1)], tls)
  }

  /** The route as mapped, without TLS. */
  function PlainRoute(id: string, host: string): Mapped {
    Mapped(Request(id, host, false), Rule(host, "/", "web", 80), None)
  }

  function SecuredRoute(cfg: Config, host: string): Mapped {
    Mapped(Request("", host, true), Rule(host, "/", "web", 80), Some(MapTls(Request("", host, true), cfg.secretName)))
  }

  lemma TheyMap(cfg: Config, id: string, host: string)
    ensures MapRoute(cfg, PlainRoute(id, host).req) == Ok(PlainRoute(id, host)) && ForHost(PlainRoute(id, host))
    ensures MapRoute(cfg, SecuredRoute(cfg, host).req) == Ok(SecuredRoute(cfg, host)) && ForHost(SecuredRoute(cfg, host))
    ensures Bundle([PlainRoute(id, host)]) == Ingress(true, [Rule(host, "/", "web", 80)], [])
  {
    BundleOf(PlainRoute(id, host));
  }

  /** The second route goes to the first one's Ingress. */
  lemma RoomFound(cfg: Config, n: string, ing: Ingress, host: string)
    requires |ing.rules| == 1 && RouteId(ing.rules[0].host) != RouteId(host) && 2 <= cfg.max
    ensures Find([Listed(n, ing)], RouteId(host), 0).None? && FindRoom([Listed(n, ing)], cfg.max, 0) == Some(0)
  {
  }

  lemma NoEntry(id: string, host: string)
    ensures EntriesOf([PlainRoute(id, host)]) == [] && RulesOf([PlainRoute(id, host)]) == [Rule(host, "/", "web", 80)]
  {
    assert [PlainRoute(id, host)][..0] == [] && EntriesOf([]) == [];
  }

  lemma SecondServed(cfg: Config, n: string, g: string, h: string)
    requires 2 <= cfg.max && RouteId(g) != RouteId(h)
    ensures var ing := Ingress(true, [Rule(g, "/", "web", 80)], []);
      Serve(map[n := ing], ProvisionCall(cfg, [Listed(n, ing)], PlainRoute("", h))) ==
        Some(map[n := Ingress(true, [Rule(g, "/", "web", 80), Rule(h, "/", "web", 80)], [])])
  {
    var ing := Ingress(true, [Rule(g, "/", "web", 80)], []);
    RoomFound(cfg, n, ing, h);
    NoEntry("", h);
    AddOpsEffect(ing, [Rule(h, "/", "web", 80)], []);
    assert ing.rules + [Rule(h, "/", "web", 80)] == [Rule(g, "/", "web", 80), Rule(h, "/", "web", 80)] && ing.tls + [] == [];
    assert map[n := ing][n := Ingress(true, [Rule(g, "/", "web", 80), Rule(h, "/", "web", 80)], [])]
      == map[n := Ingress(true, [Rule(g, "/", "web", 80), Rule(h, "/", "web", 80)], [])];
  }

  lemma ProvisionHappens(cfg: Config, hosts: set<string>, m: Store, ls: seq<Listed>, mr: Mapped, m': Store)
    requires 1 <= cfg.max && IsListing(ls, m) && ForHost(mr) && mr.req.host in hosts
    requires Serve(m, ProvisionCall(cfg, ls, mr)) == Some(m')
    ensures Happens(cfg, hosts, m, Event(Provision(mr), ls, 1), m')
  {
    hide Serve, ProvisionCall, IsListing;
    ServeOne(m, ProvisionCall(cfg, ls, mr));
    assert [ProvisionCall(cfg, ls, mr)][..1] == [ProvisionCall(cfg, ls, mr)];
  }

  lemma OneStep(cfg: Config, hosts: set<string>, e: Event, m: Store)
    requires 1 <= cfg.max && Happens(cfg, hosts, map[], e, m)
    ensures IsRun(cfg, hosts, Run([map[], m], [e]))
  {
  }

  lemma TwoSteps(cfg: Config, hosts: set<string>, e0: Event, m1: Store, e1: Event, m2: Store)
    requires 1 <= cfg.max && Happens(cfg, hosts, map[], e0, m1) && Happens(cfg, hosts, m1, e1, m2)
    ensures IsRun(cfg, hosts, Run([map[], m1, m2], [e0, e1]))
  {
  }

  /** Provision a plain route from empty. */
  lemma PlainCreated(cfg: Config, hosts: set<string>, id: string, h: string)
    requires 1 <= cfg.max && h in hosts
    ensures Happens(cfg, hosts, map[], Event(Provision(PlainRoute(id, h)), [], 1), map[IngressName(0) := Ingress(true, [Rule(h, "/", "web", 80)], [])])
  {
    TheyMap(cfg, id, h);
    FirstCreate(cfg, PlainRoute(id, h));
    NoneListed();
    hide *;
    ProvisionHappens(cfg, hosts, map[], [], PlainRoute(id, h), map[IngressName(0) := Ingress(true, [Rule(h, "/", "web", 80)], [])]) by {
      assert ProvisionCall(cfg, [], PlainRoute(id, h)) == CreateCall(IngressName(0), [PlainRoute(id, h)]) by {
        CreatedFirst(cfg, PlainRoute(id, h));
      }
    }
  }

  lemma CreatedFirst(cfg: Config, a: Mapped)
    ensures ProvisionCall(cfg, [], a) == CreateCall(IngressName(0), [a])
  {
  }

  /** Where Ingresses take two routes, two plain ones provisioned one after the other share one. */
  lemma PlainPairRun(cfg: Config, g: string, h: string) returns (e0: Event, m1: Store, e1: Event, m2: Store)
    requires 2 <= cfg.max && RouteId(g) != RouteId(h)
    ensures IsRun(cfg, {g, h}, Run([map[], m1, m2], [e0, e1]))
    ensures e0.op == Provision(PlainRoute("", g)) && e1.op == Provision(PlainRoute("", h)) && e0.done == e1.done == 1
    ensures m2 == map[IngressName(0) := Ingress(true, [Rule(g, "/", "web", 80), Rule(h, "/", "web", 80)], [])]
  {
    var n, ing := IngressName(0), Ingress(true, [Rule(g, "/", "web", 80)], []);
    m1, m2 := map[n := ing], map[n := Ingress(true, [Rule(g, "/", "web", 80), Rule(h, "/", "web", 80)], [])];
    e0, e1 := Event(Provision(PlainRoute("", g)), [], 1), Event(Provision(PlainRoute("", h)), [Listed(n, ing)], 1);
    TheyMap(cfg, "", h);
    OneListed(n, ing);
    SecondServed(cfg, n, g, h);
    hide RouteId, IngressName, Happens, Serve, ProvisionCall, IsListing, IsRun;
    PlainCreated(cfg, {g, h}, "", g);
    ProvisionHappens(cfg, {g, h}, m1, e1.listing, PlainRoute("", h), m2);
    TwoSteps(cfg, {g, h}, e0, m1, e1, m2);
  }

  /** After one plain route, a route with TLS finds room next to it and is refused. */
  lemma TlsRefusedRun(cfg: Config, g: string, h: string) returns (e: Event, m: Store, ls: seq<Listed>)
    requires 2 <= cfg.max && RouteId(g) != RouteId(h)
    ensures IsRun(cfg, {g}, Run([map[], m], [e])) && e.op == Provision(PlainRoute("", g)) && e.done == 1
    ensures IsListing(ls, m) && Serve(m, ProvisionCall(cfg, ls, SecuredRoute(cfg, h))).None?
  {
    var n, ing := IngressName(0), Ingress(true, [Rule(g, "/", "web", 80)], []);
    e, m, ls := Event(Provision(PlainRoute("", g)), [], 1), map[n := ing], [Listed(n, ing)];
    OneListed(n, ing);
    RoomFound(cfg, n, ing, h);
    hide RouteId, IngressName, Happens, Serve, ProvisionCall, IsListing, IsRun, Find, FindRoom;
    PlainCreated(cfg, {g}, "", g);
    OneStep(cfg, {g}, e, m);
    IngressTls.FirstTlsIsRefused(cfg, m, ls, SecuredRoute(cfg, h), 0);
  }

  /** A route the source knows as "42" is provisioned under the derived identifier: the delete event
      finds nothing, reports success, and the route is still there. */
  lemma DeleteMissesRun(cfg: Config) returns (e0: Event, e1: Event, m: Store)
    requires 1 <= cfg.max
    ensures e0.op == Provision(PlainRoute("42", "a.b")) && e0.done == 1 && e1.op == Deprovision("42") && Complete(cfg, e1)
    ensures IsRun(cfg, {"a.b"}, Run([map[], m, m], [e0, e1])) && RouteId("a.b") in Table(m)
  {
    var n, ing := IngressName(0), Ingress(true, [Rule("a.b", "/", "web", 80)], []);
    m := map[n := ing];
    e0, e1 := Event(Provision(PlainRoute("42", "a.b")), [], 1), Event(Deprovision("42"), [Listed(n, ing)], 0);
    OneListed(n, ing);
    NothingFound(n, ing);
    PlainThere(n);
    hide RouteId, IngressName, IsListing, IsRun, Find, Table;
    PlainCreated(cfg, {"a.b"}, "42", "a.b");
    assert Happens(cfg, {"a.b"}, m, e1, m);
    hide Happens;
    TwoSteps(cfg, {"a.b"}, e0, m, e1, m);
  }

  lemma NothingFound(n: string, ing: Ingress)
    requires ing.rules == [Rule("a.b", "/", "web", 80)]
    ensures DeprovisionCalls([Listed(n, ing)], "42") == []
  {
    assert RouteId("a.b")[0] == ROUTE_ID_PREFIX[0];
  }

  lemma PlainThere(n: string)
    ensures RouteId("a.b") in Table(map[n := Ingress(true, [Rule("a.b", "/", "web", 80)], [])])
  {
    var a := PlainRoute("", "a.b");
    BundleOf(a);
    OneRule(Bundle([a]), a);
    InTable(map[n := Bundle([a])], n, RouteId("a.b"));
  }
}
