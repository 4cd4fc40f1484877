/** Reconciliation over the Ingress gateway, from any cluster and for any desired routes, hosts that
    share a route identifier included. */
module IngressConvergence {
  import opened Core
  import opened Kube
  import opened Mapper
  import opened IngressPlan
  import opened IngressTable
  import opened IngressFilter
  import opened IngressStore
  import opened IngressBatch
  import opened IngressRuns
  import opened IngressList
  import opened IngressGateway
  import opened Packing
  import opened Diff

  /** The hosts of all rules in managed Ingresses. */
  function HostSet(m: Store): set<string> {
    set n, j | n in m && m[n].managed && 0 <= j < |m[n].rules| :: m[n].rules[j].host
  }

  lemma RuleServes(m: Store, n: string, r: Rule)
    requires Managed(m, n) && r in m[n].rules
    ensures r.host in HostSet(m)
  {
    var j :| 0 <= j < |m[n].rules| && m[n].rules[j] == r;
  }

  lemma ServedBy(m: Store, h: string) returns (n: string, r: Rule)
    requires h in HostSet(m)
    ensures Managed(m, n) && r in m[n].rules && r.host == h
  {
    var j;
    n, j :| n in m && m[n].managed && 0 <= j < |m[n].rules| && m[n].rules[j].host == h;
    r := m[n].rules[j];
  }

  // ---------------------------------------------------------------- the snapshot

  lemma ListHosts(cfg: Config, m: Store, ls: seq<Listed>)
    requires IsListing(ls, m)
    ensures ActualHosts(ListRoutes(cfg, ls)) == HostSet(m)
  {
    var xs := ListRoutes(cfg, ls);
    forall h | h in ActualHosts(xs) ensures h in HostSet(m) {
      var x :| x in xs && x.host == h;
      var k :| 0 <= k < |xs| && xs[k] == x;
      var i, j := ListedFrom(cfg, ls, k);
      RuleServes(m, ls[i].name, ls[i].ingress.rules[j]);
    }
    forall h | h in HostSet(m) ensures h in ActualHosts(xs) {
      var n, r := ServedBy(m, h);
      var i :| 0 <= i < |ls| && ls[i].name == n;
      var j :| 0 <= j < |m[n].rules| && m[n].rules[j] == r;
      var k := ListedAt(cfg, ls, i, j);
      assert xs[k] in xs;
    }
  }

  /** The identifiers of the hosts that are to go. */
  function Condemned(present: set<string>, wanted: set<string>): set<string> {
    set h | h in present && h !in wanted :: RouteId(h)
  }

  lemma RemovedIds(cfg: Config, m: Store, ls: seq<Listed>, wanted: set<string>)
    requires IsListing(ls, m)
    ensures IdSet(ToRemove(wanted, ListRoutes(cfg, ls))) == Condemned(HostSet(m), wanted)
  {
    var xs := ListRoutes(cfg, ls);
    ListHosts(cfg, m, ls);
    forall k | 0 <= k < |xs| ensures xs[k].routeID == RouteId(xs[k].host) && xs[k].host in HostSet(m) {
      var i, j := ListedFrom(cfg, ls, k);
      assert xs[k] in xs;
    }
    forall id | id in IdSet(ToRemove(wanted, xs)) ensures id in Condemned(HostSet(m), wanted) {
      var k := ToRemoveFrom(wanted, xs, id);
    }
    forall h | h in HostSet(m) && h !in wanted ensures RouteId(h) in ToRemove(wanted, xs) {
      var x :| x in xs && x.host == h;
      var k :| 0 <= k < |xs| && xs[k] == x;
      ToRemoveHas(wanted, xs, k);
    }
  }

  // ---------------------------------------------------------------- hosts after the removal

  lemma FilteredRules(ing: Ingress, ids: set<string>, x: Rule)
    requires ing.managed
    ensures x in FilteredIfTouched(ing, ids).rules <==> x in ing.rules && Id(x) !in ids
  {
    KeptRules(ing.rules, ids, x);
    if !Touched(ing, ids) {
      KeepAll(ing.rules, ids);
    }
  }

  lemma FilterHosts(m: Store, ids: set<string>)
    ensures HostSet(FilterStore(m, ids)) == set h | h in HostSet(m) && RouteId(h) !in ids
  {
    var m' := FilterStore(m, ids);
    forall h | h in HostSet(m') ensures h in HostSet(m) && RouteId(h) !in ids {
      var n, r := ServedBy(m', h);
      FilteredRules(m[n], ids, r);
      RuleServes(m, n, r);
    }
    forall h | h in HostSet(m) && RouteId(h) !in ids ensures h in HostSet(m') {
      var n, r := ServedBy(m, h);
      FilteredRules(m[n], ids, r);
      KeptRules(m[n].rules, ids, r);
      RuleServes(m', n, r);
    }
  }

  // ---------------------------------------------------------------- hosts after the addition

  lemma PlacedHosts(cfg: Config, m: Store, ms: seq<Mapped>, at: map<string, Batch>, m': Store)
    requires Spread(cfg, m, ms, at, m')
    ensures HostSet(m) <= HostSet(m')
    ensures forall h :: h in HostSet(m') ==> h in HostSet(m) || exists r :: 0 <= r < |ms| && ms[r].rule.host == h
  {
    forall h | h in HostSet(m) ensures h in HostSet(m') {
      var n, r := ServedBy(m, h);
      PlacedKeeps(cfg, m, ms, at, m', n, r);
      RuleServes(m', n, r);
    }
    forall h | h in HostSet(m') ensures h in HostSet(m) || exists r :: 0 <= r < |ms| && ms[r].rule.host == h {
      var n, r := ServedBy(m', h);
      if n in m && r in m[n].rules {
        PlacedManaged(cfg, m, ms, at, m', n);
        RuleServes(m, n, r);
      } else {
        var k := PlacedFrom(cfg, m, ms, at, m', n, r);
      }
    }
  }

  lemma PlacedManaged(cfg: Config, m: Store, ms: seq<Mapped>, at: map<string, Batch>, m': Store, n: string)
    requires Spread(cfg, m, ms, at, m') && n in m'
    ensures n in m ==> m'[n].managed == m[n].managed
    ensures n in at ==> m'[n].managed
  {
    if n in at {
      assert Reached(cfg, m, ms, at[n], m'[n]);
    }
  }

  lemma PlacedKeeps(cfg: Config, m: Store, ms: seq<Mapped>, at: map<string, Batch>, m': Store, n: string, r: Rule)
    requires Spread(cfg, m, ms, at, m') && Managed(m, n) && r in m[n].rules
    ensures Managed(m', n) && r in m'[n].rules
  {
    PlacedManaged(cfg, m, ms, at, m', n);
    if n in at {
      assert m'[n] == Placed(m, ms, at[n]);
    }
  }

  lemma PlacedFrom(cfg: Config, m: Store, ms: seq<Mapped>, at: map<string, Batch>, m': Store, n: string, r: Rule)
    returns (k: nat)
    requires Spread(cfg, m, ms, at, m') && n in m' && r in m'[n].rules && (n in m ==> r !in m[n].rules)
    ensures k < |ms| && ms[k].rule == r
  {
    assert n in at && Reached(cfg, m, ms, at[n], m'[n]);
    k := InPlaced(m, ms, at[n], r);
  }

  lemma InPlaced(m: Store, ms: seq<Mapped>, b: Batch, r: Rule) returns (k: nat)
    requires Fits(b, |ms|) && (b.created || b.name in m) && r in Placed(m, ms, b).rules
    requires b.name in m ==> r !in m[b.name].rules
    ensures k < |ms| && ms[k].rule == r
  {
    var rules := RulesOf(ms[b.lo..b.hi]);
    assert r in rules;
    var j :| 0 <= j < |rules| && rules[j] == r;
    k := b.lo + j;
  }

  lemma ReachedAt(cfg: Config, m: Store, ms: seq<Mapped>, bs: seq<Batch>, at: map<string, Batch>, m': Store, k: nat)
    requires Spread(cfg, m, ms, at, m') && FirstBatches(bs, |bs|, at) && k < |bs|
    ensures bs[k].name in at && bs[k].name in m' && Reached(cfg, m, ms, bs[k], m'[bs[k].name])
  {
  }

  lemma RuleInPlaced(m: Store, ms: seq<Mapped>, b: Batch, r: nat)
    requires Fits(b, |ms|) && (b.created || b.name in m) && b.lo <= r < b.hi
    ensures ms[r].rule in Placed(m, ms, b).rules
  {
    var rules := RulesOf(ms[b.lo..b.hi]);
    assert rules[r - b.lo] == ms[r].rule;
    assert ms[r].rule in rules;
  }

  lemma PlacedRule(cfg: Config, m: Store, ms: seq<Mapped>, bs: seq<Batch>, at: map<string, Batch>, m': Store, k: nat,
      r: nat)
    requires Spread(cfg, m, ms, at, m') && FirstBatches(bs, |bs|, at) && k < |bs| && bs[k].lo <= r < bs[k].hi <= |ms|
    ensures Managed(m', bs[k].name) && ms[r].rule in m'[bs[k].name].rules
  {
    ReachedAt(cfg, m, ms, bs, at, m', k);
    PlacedManaged(cfg, m, ms, at, m', bs[k].name);
    RuleInPlaced(m, ms, bs[k], r);
  }

  /** A complete BatchProvision has spread all its batches. */
  lemma AllSpread(cfg: Config, m: Store, ls: seq<Listed>, ms: seq<Mapped>, m': Store) returns (at: map<string, Batch>)
    requires 1 <= cfg.max && IsListing(ls, m) && ServeAll(m, BatchProvisionCalls(cfg, ls, ms)) == Some(m')
    ensures Spread(cfg, m, ms, at, m') && FirstBatches(Order(cfg, ls, |ms|), |Order(cfg, ls, |ms|)|, at)
    ensures AllFit(ms, Order(cfg, ls, |ms|))
  {
    var bs := Order(cfg, ls, |ms|);
    OrderIsPlanned(cfg, m, ls, |ms|);
    PlannedFits(cfg, ls, ms, bs);
    assert BatchCalls(ms, bs)[..|bs|] == BatchCalls(ms, bs);
    at := PrefixSpread(cfg, m, ls, ms, bs, |bs|, m');
  }

  lemma PlacedServes(cfg: Config, m: Store, ls: seq<Listed>, ms: seq<Mapped>, at: map<string, Batch>, m': Store, r: nat)
    requires 1 <= cfg.max && Spread(cfg, m, ms, at, m') && FirstBatches(Order(cfg, ls, |ms|), |Order(cfg, ls, |ms|)|, at)
    requires AllFit(ms, Order(cfg, ls, |ms|)) && r < |ms|
    ensures ms[r].rule.host in HostSet(m')
  {
    var k := EveryRequestPlaced(cfg, ls, |ms|, r);
    PlacedRule(cfg, m, ms, Order(cfg, ls, |ms|), at, m', k, r);
    RuleServes(m', Order(cfg, ls, |ms|)[k].name, ms[r].rule);
  }

  lemma BatchHosts(cfg: Config, m: Store, ls: seq<Listed>, ms: seq<Mapped>, m': Store)
    requires 1 <= cfg.max && IsListing(ls, m) && ServeAll(m, BatchProvisionCalls(cfg, ls, ms)) == Some(m')
    ensures HostSet(m') == HostSet(m) + set r | 0 <= r < |ms| :: ms[r].rule.host
  {
    hide *;
    var at := AllSpread(cfg, m, ls, ms, m');
    PlacedHosts(cfg, m, ms, at, m');
    forall r | 0 <= r < |ms| ensures ms[r].rule.host in HostSet(m') {
      PlacedServes(cfg, m, ls, ms, at, m', r);
    }
  }

  // ---------------------------------------------------------------- results and later listings

  /** The two reports are of the same route in the same Ingress. */
  predicate SameRoute(a: ProvisionedRoute, b: ProvisionedRoute) {
    a.routeID == b.routeID && a.host == b.host && a.gatewayID == b.gatewayID && a.status == b.status && a.providerName == b.providerName
  }

  predicate Shown(xs: seq<ProvisionedRoute>, x: ProvisionedRoute) {
    exists i :: 0 <= i < |xs| && SameRoute(xs[i], x)
  }

  lemma RuleShown(cfg: Config, m: Store, ls: seq<Listed>, n: string, r: Rule, cert: Option<Certificate>)
    requires IsListing(ls, m) && Managed(m, n) && r in m[n].rules
    ensures Shown(ListRoutes(cfg, ls), BuildRoute(cfg, r.host, n, cert))
  {
    var i :| 0 <= i < |ls| && ls[i].name == n;
    var j :| 0 <= j < |m[n].rules| && m[n].rules[j] == r;
    var k := ListedAt(cfg, ls, i, j);
    assert SameRoute(ListRoutes(cfg, ls)[k], BuildRoute(cfg, r.host, n, cert));
  }

  /** What a successful Provision returns is what a List right after it shows. */
  lemma ProvisionIsListed(cfg: Config, m: Store, ls: seq<Listed>, mr: Mapped, m': Store, ls': seq<Listed>,
      cert: Option<Certificate>)
    requires IsListing(ls, m) && IsListing(ls', m') && Serve(m, ProvisionCall(cfg, ls, mr)) == Some(m')
    ensures Shown(ListRoutes(cfg, ls'), BuildRoute(cfg, mr.rule.host, ProvisionCall(cfg, ls, mr).name, cert))
  {
    var place, room := Find(ls, RouteId(mr.req.host), 0), FindRoom(ls, cfg.max, 0);
    var n := ProvisionCall(cfg, ls, mr).name;
    if place.Some? {
      var l, j := ls[place.value.ingress], place.value.rule;
      UpdateOpsEffect(l.ingress, j, mr.rule, mr.tls);
      assert m'[n].rules[j] == mr.rule;
    } else if room.Some? {
      AddCallEffect(m, n, [mr], m');
      assert m'[n].rules[|m[n].rules|] == mr.rule;
    } else {
      assert m'[n].rules[0] == mr.rule;
    }
    RuleShown(cfg, m', ls', n, mr.rule, cert);
  }

  lemma OrderIndex(cfg: Config, ls: seq<Listed>, n: nat, t: nat) returns (k: nat)
    requires 1 <= cfg.max && t < |Existing(cfg, ls, n)| + |Fresh(cfg, ls, n)|
    ensures k < |Order(cfg, ls, n)| && Order(cfg, ls, n)[k] == (Existing(cfg, ls, n) + Fresh(cfg, ls, n))[t]
  {
    var x, y := |Existing(cfg, ls, n)|, |Fresh(cfg, ls, n)|;
    k := if t < x then y + t else t - x;
  }

  lemma ResultIsListed(cfg: Config, m: Store, ls: seq<Listed>, ms: seq<Mapped>, m': Store, ls': seq<Listed>, t: nat,
      r: nat, cert: Option<Certificate>)
    requires 1 <= cfg.max && IsListing(ls, m) && IsListing(ls', m') && ServeAll(m, BatchProvisionCalls(cfg, ls, ms)) == Some(m')
    requires t < |Existing(cfg, ls, |ms|)| + |Fresh(cfg, ls, |ms|)| && r < |ms|
    requires var b := (Existing(cfg, ls, |ms|) + Fresh(cfg, ls, |ms|))[t]; b.lo <= r < b.hi
    ensures Shown(ListRoutes(cfg, ls'), BuildRoute(cfg, ms[r].rule.host, (Existing(cfg, ls, |ms|) + Fresh(cfg, ls, |ms|))[t].name, cert))
  {
    var bs := Order(cfg, ls, |ms|);
    var k := OrderIndex(cfg, ls, |ms|, t);
    var at := AllSpread(cfg, m, ls, ms, m');
    assert Fits(bs[k], |ms|);
    PlacedRule(cfg, m, ms, bs, at, m', k, r);
    RuleShown(cfg, m', ls', bs[k].name, ms[r].rule, cert);
  }

  /** And so is each result of a successful BatchProvision: the Ingress it names holds its rule. */
  lemma ResultsAreListed(cfg: Config, m: Store, ls: seq<Listed>, ms: seq<Mapped>, m': Store, ls': seq<Listed>,
                         certs: map<string, Certificate>, results: seq<ProvisionedRoute>, r: nat)
    requires 1 <= cfg.max && IsListing(ls, m) && IsListing(ls', m') && ServeAll(m, BatchProvisionCalls(cfg, ls, ms)) == Some(m')
    requires Reports(cfg, ms, certs, Existing(cfg, ls, |ms|) + Fresh(cfg, ls, |ms|), results)
    requires r < |ms| && ms[r].rule.host == ms[r].req.host
    ensures Shown(ListRoutes(cfg, ls'), results[r])
  {
    var bs := Existing(cfg, ls, |ms|) + Fresh(cfg, ls, |ms|);
    var t :| 0 <= t < |bs| && ReportsOn(cfg, ms, certs, bs[t], r, results[r]);
    ResultIsListed(cfg, m, ls, ms, m', ls', t, r, CertFor(certs, ms[r].req.host));
  }

  // ---------------------------------------------------------------- a cycle

  /** The removal step of a cycle; with nothing to remove no call is made. */
  ghost predicate RemovalOutcome(cfg: Config, ids: seq<string>, m: Store, m': Store, ok: bool)
  {
    if ids == [] then m' == m && ok
    else exists ls, done :: Concluded(cfg, m, Operation.BatchDeprovision(IdSet(ids)), ls, done, m', ok)
  }

  /** The addition step. */
  ghost predicate AdditionOutcome(cfg: Config, add: seq<RouteRequest>, m: Store, m': Store, ok: bool)
    requires 1 <= cfg.max
  {
    if add == [] then m' == m && ok
    else
      match MapRoutes(cfg, add)
      case Err(_) => m' == m && !ok
      case Ok(ms) => exists ls, done :: Packed(cfg, m, ms, ls, done, m', ok)
  }

  /** A cycle in which every call that is made succeeds. */
  ghost predicate CleanCycle(cfg: Config, desired: seq<RouteRequest>, m: Store, ls: seq<Listed>, m1: Store, m2: Store)
    requires 1 <= cfg.max
  {
    && IsListing(ls, m)
    && RemovalOutcome(cfg, ToRemove(HostsOf(desired), ListRoutes(cfg, ls)), m, m1, true)
    && AdditionOutcome(cfg, ToAdd(desired, ActualHosts(ListRoutes(cfg, ls))), m1, m2, true)
  }

  lemma RemovalHosts(cfg: Config, ids: seq<string>, m: Store, m': Store)
    requires 1 <= cfg.max && RemovalOutcome(cfg, ids, m, m', true)
    ensures HostSet(m') == set h | h in HostSet(m) && RouteId(h) !in IdSet(ids)
  {
    if ids != [] {
      var ls, done :| Concluded(cfg, m, Operation.BatchDeprovision(IdSet(ids)), ls, done, m', true);
      AllDone(m, BatchDeprovisionCalls(ls, IdSet(ids)), m');
      BatchDeprovisionIsFilter(m, ls, IdSet(ids));
      FilterHosts(m, IdSet(ids));
    }
  }

  lemma MappedHosts(cfg: Config, add: seq<RouteRequest>, ms: seq<Mapped>)
    requires MapRoutes(cfg, add) == Ok(ms)
    ensures HostsOf(add) == set r | 0 <= r < |ms| :: ms[r].rule.host
  {
    forall r | 0 <= r < |ms| ensures ms[r].rule.host == add[r].host && add[r] in add {
      assert MapRoute(cfg, add[r]) == Ok(ms[r]);
    }
    forall h | h in HostsOf(add) ensures exists r :: 0 <= r < |ms| && ms[r].rule.host == h {
      var d :| d in add && d.host == h;
      var r :| 0 <= r < |add| && add[r] == d;
      assert ms[r].rule.host == h;
    }
  }

  lemma AdditionHosts(cfg: Config, add: seq<RouteRequest>, m: Store, m': Store)
    requires 1 <= cfg.max && AdditionOutcome(cfg, add, m, m', true)
    ensures HostSet(m') == HostSet(m) + HostsOf(add)
  {
    if add != [] {
      var ms := MapRoutes(cfg, add).value;
      var ls, done :| Packed(cfg, m, ms, ls, done, m', true);
      AllDone(m, BatchProvisionCalls(cfg, ls, ms), m');
      BatchHosts(cfg, m, ls, ms, m');
      MappedHosts(cfg, add, ms);
    }
  }

  lemma AddedHosts(desired: seq<RouteRequest>, present: set<string>)
    ensures HostsOf(ToAdd(desired, present)) == HostsOf(desired) - present
  {
    forall d: RouteRequest ensures d in ToAdd(desired, present) <==> d in desired && d.host !in present {
      InToAdd(desired, present, d);
    }
  }

  /** The hosts after a clean cycle, as a function of the hosts before. */
  lemma HostsAfter(cfg: Config, desired: seq<RouteRequest>, m: Store, ls: seq<Listed>, m1: Store, m2: Store)
    requires 1 <= cfg.max && CleanCycle(cfg, desired, m, ls, m1, m2)
    ensures var before, wanted := HostSet(m), HostsOf(desired);
      HostSet(m2) == (set h | h in before && RouteId(h) !in Condemned(before, wanted)) + (wanted - before)
  {
    ListHosts(cfg, m, ls);
    RemovedIds(cfg, m, ls, HostsOf(desired));
    RemovalHosts(cfg, ToRemove(HostsOf(desired), ListRoutes(cfg, ls)), m, m1);
    AdditionHosts(cfg, ToAdd(desired, ActualHosts(ListRoutes(cfg, ls))), m1, m2);
    AddedHosts(desired, HostSet(m));
  }

  /** A wanted host that is there shares its identifier with a host that is to go. */
  ghost predicate Shadowed(m: Store, wanted: set<string>) {
    exists h, g :: h in HostSet(m) && h in wanted && g in HostSet(m) && g !in wanted && RouteId(h) == RouteId(g)
  }

  /** One clean cycle is enough exactly when no wanted host is removed along with an unwanted one. */
  lemma OneCycleIff(cfg: Config, desired: seq<RouteRequest>, m: Store, ls: seq<Listed>, m1: Store, m2: Store)
    requires 1 <= cfg.max && CleanCycle(cfg, desired, m, ls, m1, m2)
    ensures HostSet(m2) <= HostsOf(desired)
    ensures HostSet(m2) == HostsOf(desired) <==> !Shadowed(m, HostsOf(desired))
  {
    HostsAfter(cfg, desired, m, ls, m1, m2);
    var before, wanted := HostSet(m), HostsOf(desired);
    forall h | h in before && RouteId(h) !in Condemned(before, wanted) ensures h in wanted {
    }
    if Shadowed(m, wanted) {
      var h, g :| h in before && h in wanted && g in before && g !in wanted && RouteId(h) == RouteId(g);
      assert RouteId(h) in Condemned(before, wanted);
      assert h !in HostSet(m2);
    } else {
      forall h | h in before && h in wanted ensures RouteId(h) !in Condemned(before, wanted) {
      }
    }
  }

  /** A cluster that holds exactly the desired hosts, once or more often each, is left alone: nothing
      to add, so no certificate and no write, and nothing to remove. */
  lemma ThirdCycle(cfg: Config, desired: seq<RouteRequest>, m: Store, ls: seq<Listed>)
    requires IsListing(ls, m) && HostSet(m) == HostsOf(desired)
    ensures ToAdd(desired, ActualHosts(ListRoutes(cfg, ls))) == []
    ensures ToRemove(HostsOf(desired), ListRoutes(cfg, ls)) == []
  {
    ListHosts(cfg, m, ls);
    var add, ids := ToAdd(desired, HostSet(m)), ToRemove(HostsOf(desired), ListRoutes(cfg, ls));
    if add != [] {
      InToAdd(desired, HostSet(m), add[0]);
    }
    RemovedIds(cfg, m, ls, HostsOf(desired));
    assert IdSet(ids) == {};
    NoIds(ids);
  }

  lemma NoIds(ids: seq<string>)
    ensures IdSet(ids) == {} <==> ids == []
  {
    if ids != [] {
      assert ids[0] in IdSet(ids);
    }
  }

  /** Two clean cycles are always enough, from any cluster, even if hosts share identifiers; a third
      issues nothing and writes nothing. */
  lemma TwoCycles(cfg: Config, desired: seq<RouteRequest>, ms: seq<Store>, mids: seq<Store>, lists: seq<seq<Listed>>)
    requires 1 <= cfg.max && |ms| == 4 && |mids| == 3 && |lists| == 3
    requires forall k :: 0 <= k < 3 ==> CleanCycle(cfg, desired, ms[k], lists[k], mids[k], ms[k + 1])
    ensures HostSet(ms[2]) == HostsOf(desired)
    ensures ToAdd(desired, ActualHosts(ListRoutes(cfg, lists[2]))) == [] && ToRemove(HostsOf(desired), ListRoutes(cfg, lists[2])) == []
    ensures mids[2] == ms[2] && ms[3] == ms[2]
  {
    assert CleanCycle(cfg, desired, ms[0], lists[0], mids[0], ms[1]);
    OneCycleIff(cfg, desired, ms[0], lists[0], mids[0], ms[1]);
    assert CleanCycle(cfg, desired, ms[1], lists[1], mids[1], ms[2]);
    OneCycleIff(cfg, desired, ms[1], lists[1], mids[1], ms[2]);
    assert CleanCycle(cfg, desired, ms[2], lists[2], mids[2], ms[3]);
    ThirdCycle(cfg, desired, ms[2], lists[2]);
  }

  // ---------------------------------------------------------------- when a cycle can be clean

  ghost predicate AllReplaced(m: Store, ids: set<string>) {
    forall n :: n in m && m[n].managed ==> Replaceable(m[n], ids)
  }

  lemma RemovalRuns(cfg: Config, m: Store, ls: seq<Listed>, ids: seq<string>)
    requires 1 <= cfg.max && IsListing(ls, m) && ids != [] && AllReplaced(m, IdSet(ids))
    ensures RemovalOutcome(cfg, ids, m, FilterStore(m, IdSet(ids)), true)
  {
    var plan := BatchDeprovisionCalls(ls, IdSet(ids));
    BatchDeprovisionIsFilter(m, ls, IdSet(ids));
    assert plan[..|plan|] == plan;
    assert Concluded(cfg, m, Operation.BatchDeprovision(IdSet(ids)), ls, |plan|, FilterStore(m, IdSet(ids)), true);
  }

  lemma NothingToRemove(cfg: Config, ids: seq<string>, m: Store)
    requires 1 <= cfg.max && ids == []
    ensures RemovalOutcome(cfg, ids, m, m, true) && AllReplaced(m, IdSet(ids))
  {
  }

  /** The removal of a cycle can succeed, the API answering, exactly if no Ingress without TLS would
      lose some of its rules and keep others. Where one would, the error is only logged. */
  lemma RemovalPossibleIff(cfg: Config, wanted: set<string>, m: Store, ls: seq<Listed>)
    requires 1 <= cfg.max && IsListing(ls, m)
    ensures (exists m1 :: RemovalOutcome(cfg, ToRemove(wanted, ListRoutes(cfg, ls)), m, m1, true)) <==>
      AllReplaced(m, Condemned(HostSet(m), wanted))
  {
    hide *;
    var ids := ToRemove(wanted, ListRoutes(cfg, ls));
    RemovedIds(cfg, m, ls, wanted);
    if ids == [] {
      NothingToRemove(cfg, ids, m);
    } else {
      if m1 :| RemovalOutcome(cfg, ids, m, m1, true) {
        RemovalMeansReplaceable(cfg, ids, m, m1);
      }
      if AllReplaced(m, IdSet(ids)) {
        RemovalRuns(cfg, m, ls, ids);
      }
    }
  }

  lemma RemovalMeansReplaceable(cfg: Config, ids: seq<string>, m: Store, m1: Store)
    requires 1 <= cfg.max && ids != [] && RemovalOutcome(cfg, ids, m, m1, true)
    ensures AllReplaced(m, IdSet(ids))
  {
    var ls, done :| Concluded(cfg, m, Operation.BatchDeprovision(IdSet(ids)), ls, done, m1, true);
    AllDone(m, BatchDeprovisionCalls(ls, IdSet(ids)), m1);
    BatchDeprovisionIsFilter(m, ls, IdSet(ids));
  }
}
