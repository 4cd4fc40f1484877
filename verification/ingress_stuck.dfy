/** Reconciliation that does not converge: which unwanted hosts stay for good whatever the cycles do,
    and when the additions of a cycle can succeed. */
module IngressStuck {
  import opened Core
  import opened Kube
  import opened Mapper
  import opened IngressPlan
  import opened IngressTable
  import opened IngressFilter
  import opened IngressStore
  import opened IngressBatch
  import opened IngressRuns
  import opened IngressList
  import opened IngressGateway
  import opened IngressConvergence
  import opened IngressTls
  import IngressWitness
  import opened Diff

  /** One cycle, whatever succeeds and fails in it; the flags are what the two steps report. */
  ghost predicate AnyCycle(cfg: Config, desired: seq<RouteRequest>, m: Store, ls: seq<Listed>, m1: Store, removed: bool,
      m2: Store, added: bool)
    requires 1 <= cfg.max
  {
    && IsListing(ls, m)
    && RemovalOutcome(cfg, ToRemove(HostsOf(desired), ListRoutes(cfg, ls)), m, m1, removed)
    && AdditionOutcome(cfg, ToAdd(desired, ActualHosts(ListRoutes(cfg, ls))), m1, m2, added)
  }

  /** The cluster after a cycle; one whose List fails does nothing. */
  ghost predicate Follows(cfg: Config, desired: seq<RouteRequest>, m: Store, m2: Store)
    requires 1 <= cfg.max
  {
    m2 == m || exists ls, m1, removed, added :: AnyCycle(cfg, desired, m, ls, m1, removed, m2, added)
  }

  /** Cycle after cycle for the same desired routes, with any failures. */
  ghost predicate IsCycles(cfg: Config, desired: seq<RouteRequest>, ms: seq<Store>)
    requires 1 <= cfg.max
  {
    ms != [] && forall k :: 0 <= k < |ms| - 1 ==> Follows(cfg, desired, ms[k], ms[k + 1])
  }

  predicate Holds(ing: Ingress, h: string) {
    exists r :: r in ing.rules && r.host == h
  }

  /** The Ingress holds the unwanted host, would keep another rule, and has no TLS entry. */
  predicate Blocks(m: Store, n: string, wanted: set<string>, h: string) {
    && Managed(m, n) && h !in wanted && Holds(m[n], h)
    && !Replaceable(m[n], Condemned(HostSet(m), wanted))
  }

  // ---------------------------------------------------------------- what a removal leaves behind

  lemma NoNames(m: Store, ids: set<string>)
    ensures FilterNamed(m, ids, {}) == m
  {
  }

  lemma AttemptedNames(cfg: Config, m: Store, ls: seq<Listed>, ids: set<string>, done: nat, m1: Store)
    returns (names: set<string>)
    requires Attempted(cfg, m, Operation.BatchDeprovision(ids), ls, done, m1)
    ensures m1 == FilterNamed(m, ids, names)
    ensures forall n :: n in names ==> Managed(m, n) && Replaceable(m[n], ids)
    ensures done == |BatchDeprovisionCalls(ls, ids)| ==> forall n :: Managed(m, n) ==> n in names
  {
    var i := |ls|;
    if done < |BatchDeprovisionCalls(ls, ids)| {
      i := PrefixOfRemoval(ls, ids, done);
    } else {
      assert ls[..i] == ls;
      assert BatchDeprovisionCalls(ls, ids)[..done] == BatchDeprovisionCalls(ls, ids);
    }
    names := Names(ls[..i]);
    NamesOf(m, ls, ids, i, m1);
  }

  lemma NamesOf(m: Store, ls: seq<Listed>, ids: set<string>, i: nat, m1: Store)
    requires IsListing(ls, m) && i <= |ls| && ServeAll(m, BatchDeprovisionCalls(ls[..i], ids)) == Some(m1)
    ensures m1 == FilterNamed(m, ids, Names(ls[..i]))
    ensures forall n :: n in Names(ls[..i]) ==> Managed(m, n) && Replaceable(m[n], ids)
    ensures i == |ls| ==> forall n :: Managed(m, n) ==> n in Names(ls[..i])
  {
    BatchDeprovisionSteps(m, ls[..i], ids);
    forall n | n in Names(ls[..i]) ensures Managed(m, n) && Replaceable(m[n], ids) {
      var k :| 0 <= k < i && ls[..i][k].name == n;
      assert Replaceable(ls[..i][k].ingress, ids);
    }
    if i == |ls| {
      assert ls[..i] == ls;
      forall n | Managed(m, n) ensures n in Names(ls) {
        var k :| 0 <= k < |ls| && ls[k].name == n;
      }
    }
  }

  /** Whatever the removal reports, it has filtered some Ingresses, none of which resists, and left the
      others alone; all of them, if it reports success. */
  lemma RemovalNames(cfg: Config, ids: seq<string>, m: Store, m1: Store, ok: bool) returns (names: set<string>)
    requires RemovalOutcome(cfg, ids, m, m1, ok)
    ensures m1 == FilterNamed(m, IdSet(ids), names)
    ensures forall n :: n in names ==> Managed(m, n) && Replaceable(m[n], IdSet(ids))
    ensures ok && ids != [] ==> forall n :: Managed(m, n) ==> n in names
  {
    NoNames(m, IdSet(ids));
    names := {};
    if ids != [] {
      var ls, done :| Concluded(cfg, m, Operation.BatchDeprovision(IdSet(ids)), ls, done, m1, ok);
      if ok || m1 != m {
        names := AttemptedNames(cfg, m, ls, IdSet(ids), done, m1);
      }
    }
  }

  lemma NamedHosts(m: Store, ids: set<string>, names: set<string>)
    ensures HostSet(FilterNamed(m, ids, names)) <= HostSet(m)
  {
    var m1 := FilterNamed(m, ids, names);
    forall h | h in HostSet(m1) ensures h in HostSet(m) {
      var n, r := ServedBy(m1, h);
      if n in names {
        FilteredRules(m[n], ids, r);
      }
      RuleServes(m, n, r);
    }
  }

  // ---------------------------------------------------------------- what an addition leaves behind

  lemma {:induction false} NoEntries(ms: seq<Mapped>)
    ensures EntriesOf(ms) == [] <==> forall r :: 0 <= r < |ms| ==> ms[r].tls.None?
  {
    if ms != [] {
      NoEntries(ms[..|ms| - 1]);
    }
  }

  /** When the server accepts an addition of routes to an Ingress. */
  lemma AddServedIff(m: Store, n: string, ms: seq<Mapped>)
    requires ms != [] && n in m
    ensures Serve(m, AddCall(n, ms)).Some? <==> m[n].rules != [] && (EntriesOf(ms) == [] || m[n].tls != [])
  {
    if m[n].rules == [] {
      EmptyRulesRefuseAdds(m[n], ms);
    } else {
      AddOpsEffect(m[n], RulesOf(ms), EntriesOf(ms));
    }
  }

  /** The batch can be created, or appended to its Ingress. */
  predicate Acceptable(m: Store, ms: seq<Mapped>, b: Batch)
    requires Fits(b, |ms|)
  {
    if b.created then b.name !in m
    else b.name in m && m[b.name].rules != [] && (EntriesOf(Slice(ms, b)) == [] || m[b.name].tls != [])
  }

  /** Up to a batch's own call its Ingress is as it was listed. */
  lemma NotYetTouched(cfg: Config, m: Store, ls: seq<Listed>, ms: seq<Mapped>, bs: seq<Batch>, k: nat, mk: Store)
    requires IsListing(ls, m) && Planned(cfg, ls, bs, |ms|) && k < |bs| && !bs[k].created
    requires ServeAll(m, BatchCalls(ms, bs)[..k]) == Some(mk)
    ensures Managed(m, bs[k].name) && bs[k].name in mk && mk[bs[k].name] == m[bs[k].name]
  {
    var at := PrefixSpread(cfg, m, ls, ms, bs, k, mk);
    NextIsNew(cfg, m, ls, ms, bs, k, at, mk);
  }

  lemma BatchServedIff(cfg: Config, m: Store, ls: seq<Listed>, ms: seq<Mapped>, k: nat, mk: Store)
    requires 1 <= cfg.max && IsListing(ls, m) && AllFit(ms, Order(cfg, ls, |ms|)) && k < |Order(cfg, ls, |ms|)|
    requires ServeAll(m, BatchProvisionCalls(cfg, ls, ms)[..k]) == Some(mk)
    ensures Serve(mk, BatchProvisionCalls(cfg, ls, ms)[k]).Some? <==> Acceptable(m, ms, Order(cfg, ls, |ms|)[k])
  {
    var b := Order(cfg, ls, |ms|)[k];
    OrderRoom(cfg, ls, |ms|, k);
    if b.created {
      CreatesAreNew(cfg, m, ls, ms, k, mk);
      CreateServed(mk, ms, b);
    } else {
      OrderIsPlanned(cfg, m, ls, |ms|);
      NotYetTouched(cfg, m, ls, ms, Order(cfg, ls, |ms|), k, mk);
      AddServedIff(mk, b.name, Slice(ms, b));
    }
  }

  lemma CreateServed(m: Store, ms: seq<Mapped>, b: Batch)
    requires Fits(b, |ms|) && b.created
    ensures Serve(m, BatchCall(ms, b)).Some? <==> b.name !in m
  {
    assert RulesOf(ms[b.lo..b.hi])[0] == ms[b.lo].rule;
  }

  ghost predicate AllAcceptable(cfg: Config, m: Store, ls: seq<Listed>, ms: seq<Mapped>)
    requires 1 <= cfg.max
  {
    forall k :: 0 <= k < |Order(cfg, ls, |ms|)| ==>
      Fits(Order(cfg, ls, |ms|)[k], |ms|) && Acceptable(m, ms, Order(cfg, ls, |ms|)[k])
  }

  /** On any cluster, and for any listing, an answered BatchProvision succeeds exactly if the names of
      the Ingresses it creates are free and no route with TLS goes to an Ingress without. */
  lemma BatchProvisionIff(cfg: Config, m: Store, ls: seq<Listed>, ms: seq<Mapped>)
    requires 1 <= cfg.max && IsListing(ls, m)
    ensures ServeAll(m, BatchProvisionCalls(cfg, ls, ms)).Some? <==> AllAcceptable(cfg, m, ls, ms)
  {
    var calls := BatchProvisionCalls(cfg, ls, ms);
    OrderFits(cfg, ls, |ms|);
    if ServeAll(m, calls).Some? {
      forall k | 0 <= k < |calls| ensures Acceptable(m, ms, Order(cfg, ls, |ms|)[k]) {
        ServeAllPrefix(m, calls, k);
        SucceedsEverywhere(m, calls, k, ServeAll(m, calls[..k]).value);
        BatchServedIff(cfg, m, ls, ms, k, ServeAll(m, calls[..k]).value);
      }
    } else {
      var k, mk := FirstRefusal(m, calls);
      BatchServedIff(cfg, m, ls, ms, k, mk);
    }
  }

  /** When the addition step of a cycle can succeed, the API answering: in whatever order the API lists,
      the packing goes by a listing sorted by load. */
  lemma AdditionPossibleIff(cfg: Config, add: seq<RouteRequest>, m: Store)
    requires 1 <= cfg.max
    ensures (exists m2 :: AdditionOutcome(cfg, add, m, m2, true)) <==>
      add == [] ||
      (MapRoutes(cfg, add).Ok? && exists ls :: IsListing(ls, m) && SortedByLoad(ls) && AllAcceptable(cfg, m, ls, MapRoutes(cfg, add).value))
  {
    if add == [] {
      assert AdditionOutcome(cfg, add, m, m, true);
    } else if MapRoutes(cfg, add).Ok? {
      var ms := MapRoutes(cfg, add).value;
      if m2 :| AdditionOutcome(cfg, add, m, m2, true) {
        var ls, done :| Packed(cfg, m, ms, ls, done, m2, true);
        AllDone(m, BatchProvisionCalls(cfg, ls, ms), m2);
        BatchProvisionIff(cfg, m, ls, ms);
      }
      if ls :| IsListing(ls, m) && SortedByLoad(ls) && AllAcceptable(cfg, m, ls, ms) {
        BatchProvisionIff(cfg, m, ls, ms);
        AdditionRuns(cfg, add, m, ls);
      }
    }
  }

  lemma AdditionRuns(cfg: Config, add: seq<RouteRequest>, m: Store, ls: seq<Listed>)
    requires 1 <= cfg.max && add != [] && MapRoutes(cfg, add).Ok? && IsListing(ls, m) && SortedByLoad(ls)
    requires ServeAll(m, BatchProvisionCalls(cfg, ls, MapRoutes(cfg, add).value)).Some?
    ensures AdditionOutcome(cfg, add, m, ServeAll(m, BatchProvisionCalls(cfg, ls, MapRoutes(cfg, add).value)).value, true)
  {
    var ms := MapRoutes(cfg, add).value;
    var plan := BatchProvisionCalls(cfg, ls, ms);
    assert plan[..|plan|] == plan;
    assert Packed(cfg, m, ms, ls, |plan|, ServeAll(m, plan).value, true);
  }

  // ---------------------------------------------------------------- the order matters

  /** One Ingress with room and TLS, and one with more room and none. */
  predicate PlainEmptier(cfg: Config, m: Store, x: string, y: string) {
    && x != y && x in m && y in m && m.Keys == {x, y} && m[x].managed && m[y].managed
    && 1 <= |m[x].rules| < |m[y].rules| < cfg.max
    && m[x].tls == [] && m[y].tls != []
  }

  lemma OneBatch(cfg: Config, ls: seq<Listed>)
    requires 1 <= cfg.max && ls != [] && |ls[0].ingress.rules| < cfg.max
    ensures Order(cfg, ls, 1) == [Batch(ls[0].name, 0, 1, false)]
  {
    var room := Room(cfg, ls[0].ingress);
    assert FillExisting(cfg, ls, 1, 1, 1) == [] && CursorAfter(cfg, ls, 1, 1, 1) == 1;
    assert Existing(cfg, ls, 1) == [Batch(ls[0].name, 0, 1, false)] + [];
    assert Fresh(cfg, ls, 1) == [];
  }

  lemma FirstIsLightest(ls: seq<Listed>, i: nat)
    requires SortedByLoad(ls) && i < |ls|
    ensures Load(ls[0]) <= Load(ls[i])
  {
  }

  lemma SortedPair(cfg: Config, m: Store, x: string, y: string, ls: seq<Listed>)
    requires PlainEmptier(cfg, m, x, y) && IsListing(ls, m) && SortedByLoad(ls)
    ensures ls != [] && ls[0] == Listed(x, m[x])
  {
    var i :| 0 <= i < |ls| && ls[i].name == x;
    assert ls[0].name in m.Keys && Load(ls[i]) == |m[x].rules|;
    FirstIsLightest(ls, i);
  }

  lemma OneAcceptable(cfg: Config, m: Store, ls: seq<Listed>, mr: Mapped)
    requires 1 <= cfg.max && IsListing(ls, m) && ls != [] && |ls[0].ingress.rules| < cfg.max
    requires mr.tls.Some? && ls[0].ingress.rules != []
    ensures AllAcceptable(cfg, m, ls, [mr]) <==> ls[0].ingress.tls != []
  {
    OneBatch(cfg, ls);
    var b := Batch(ls[0].name, 0, 1, false);
    assert Slice([mr], b) == [mr];
    NoEntries([mr]);
    assert [mr][0].tls.Some?;
    assert Order(cfg, ls, 1)[0] == b;
  }

  /** A route with TLS would fit the fuller Ingress, and with another listing order the call would
      succeed; sorted by load it always goes to the plain one and is refused. */
  lemma SortedOrderRefuses(cfg: Config, m: Store, x: string, y: string, d: RouteRequest)
    requires PlainEmptier(cfg, m, x, y) && d.tls && d.backends != []
    ensures MapRoutes(cfg, [d]).Ok?
    ensures var ls := [Listed(y, m[y]), Listed(x, m[x])];
      IsListing(ls, m) && ServeAll(m, BatchProvisionCalls(cfg, ls, MapRoutes(cfg, [d]).value)).Some?
    ensures forall m2 :: !AdditionOutcome(cfg, [d], m, m2, true)
  {
    assert MapRoute(cfg, [d][0]).Ok?;
    var mr := MapRoute(cfg, d).value;
    assert MapRoutes(cfg, [d]).value == [mr] && mr.tls.Some?;
    var other := [Listed(y, m[y]), Listed(x, m[x])];
    assert other[0].name == y && other[1].name == x;
    assert IsListing(other, m);
    OneAcceptable(cfg, m, other, mr);
    BatchProvisionIff(cfg, m, other, [mr]);
    forall ls | IsListing(ls, m) && SortedByLoad(ls) ensures !AllAcceptable(cfg, m, ls, [mr]) {
      SortedPair(cfg, m, x, y, ls);
      OneAcceptable(cfg, m, ls, mr);
    }
    AdditionPossibleIff(cfg, [d], m);
  }

  lemma ThreeAndOne(cfg: Config, ms: seq<Mapped>)
    requires cfg.max == 3 && |ms| == 4
    ensures BatchProvisionCalls(cfg, [], ms) == [CreateCall(IngressName(0), ms[0..3]), CreateCall(IngressName(1), ms[3..4])]
  {
    assert FillNew(cfg, 2, 4, 4) == [];
    assert FillNew(cfg, 1, 3, 4) == [Batch(IngressName(1), 3, 4, true)];
    assert Fresh(cfg, [], 4) == [Batch(IngressName(0), 0, 3, true), Batch(IngressName(1), 3, 4, true)];
    assert Order(cfg, [], 4) == Fresh(cfg, [], 4);
  }

  function Three(ms: seq<Mapped>): Store
    requires |ms| == 4
  {
    map[IngressName(0) := Bundle(ms[0..3]), IngressName(1) := Bundle(ms[3..4])]
  }

  lemma BothCreated(ms: seq<Mapped>)
    requires |ms| == 4 && IngressName(0) != IngressName(1)
    ensures ServeAll(map[], [CreateCall(IngressName(0), ms[0..3]), CreateCall(IngressName(1), ms[3..4])]) == Some(Three(ms))
  {
    var a, b := CreateCall(IngressName(0), ms[0..3]), CreateCall(IngressName(1), ms[3..4]);
    var m1: Store := map[IngressName(0) := Bundle(ms[0..3])];
    assert map[][IngressName(0) := Bundle(ms[0..3])] == m1 && m1[IngressName(1) := Bundle(ms[3..4])] == Three(ms);
    assert Serve(map[], a) == Some(m1) && Serve(m1, b) == Some(Three(ms));
    assert [a, b] == [a] + [b];
    ServeOne(map[], a);
    ServeOne(m1, b);
    ServeAllConcat(map[], [a], [b]);
  }

  function Snapshot(ms: seq<Mapped>): seq<Listed>
    requires |ms| == 4
  {
    [Listed(IngressName(0), Bundle(ms[0..3])), Listed(IngressName(1), Bundle(ms[3..4]))]
  }

  lemma ThirdFound(ms: seq<Mapped>)
    requires |ms| == 4 && DistinctRoutes(ms)
    ensures Find(Snapshot(ms), IdOf(ms[2]), 0) == Some(Place(0, 2))
  {
    var rules, id := RulesOf(ms[0..3]), IdOf(ms[2]);
    assert !HasId(rules[0], id) && !HasId(rules[1], id) && HasId(rules[2], id);
    assert IngressPlan.FindRule(rules, id, 2) == Some(2);
    assert IngressPlan.FindRule(rules, id, 1) == Some(2);
  }

  /** The third rule is taken out of the full Ingress again. */
  lemma ThirdRemoved(ms: seq<Mapped>) returns (ing: Ingress)
    requires |ms| == 4 && DistinctRoutes(ms) && IngressName(0) != IngressName(1) && |EntriesOf(ms[0..3])| == 3
    ensures |DeprovisionCalls(Snapshot(ms), IdOf(ms[2]))| == 1
    ensures ServeAll(Three(ms), DeprovisionCalls(Snapshot(ms), IdOf(ms[2]))) == Some(Three(ms)[IngressName(0) := ing])
    ensures ing.managed && |ing.rules| == 2 && ing.tls != []
  {
    var full := Bundle(ms[0..3]);
    ThirdFound(ms);
    RemoveOpsEffect(full, 2);
    ing := full.(rules := Without(full.rules, 2), tls := TlsAfterRemove(full, 2));
    ServeOne(Three(ms), Patch(IngressName(0), RemoveOps(full, 2)));
  }

  lemma ThreeEntries(ms: seq<Mapped>)
    requires |ms| == 4 && ms[0].tls.Some? && ms[1].tls.Some? && ms[2].tls.Some? && ms[3].tls.None?
    ensures |EntriesOf(ms[0..3])| == 3 && EntriesOf(ms[3..4]) == []
  {
    var a, b, c := ms[0], ms[1], ms[2];
    assert ms[0..3] == [a, b, c] && ms[3..4] == [ms[3]];
    assert [a, b, c][..2] == [a, b] && [a, b][..1] == [a] && [a][..0] == [] && [ms[3]][..0] == [];
    assert |EntriesOf([a])| == 1 && |EntriesOf([a, b])| == 2;
  }

  lemma SnapshotLists(ms: seq<Mapped>)
    requires |ms| == 4 && IngressName(0) != IngressName(1)
    ensures IsListing(Snapshot(ms), Three(ms))
  {
    assert Snapshot(ms)[0].name == IngressName(0) && Snapshot(ms)[1].name == IngressName(1);
  }

  /** An operation that is done completely. */
  lemma AllHappens(cfg: Config, hosts: set<string>, m: Store, ls: seq<Listed>, op: Operation, done: nat, m2: Store)
    requires 1 <= cfg.max && IsListing(ls, m) && Allowed(hosts, Table(m), op)
    requires done == |Plan(cfg, ls, op)| && ServeAll(m, Plan(cfg, ls, op)) == Some(m2)
    ensures IngressRuns.Happens(cfg, hosts, m, Event(op, ls, done), m2) && Complete(cfg, Event(op, ls, done))
  {
    hide IsListing, Allowed, Table, Plan, ServeAll;
    PrefixIs(Plan(cfg, ls, op), Plan(cfg, ls, op));
  }

  lemma FourAllowed(cfg: Config, hosts: set<string>, ms: seq<Mapped>)
    requires DistinctRoutes(ms) && forall k :: 0 <= k < |ms| ==> ms[k].req.host in hosts
    ensures Allowed(hosts, Table(map[]), Operation.BatchProvision(ms))
  {
    EmptySound(cfg, hosts, map[]);
  }

  lemma FourCreated(cfg: Config, hosts: set<string>, ms: seq<Mapped>)
    requires cfg.max == 3 && |ms| == 4 && DistinctRoutes(ms) && IngressName(0) != IngressName(1)
    requires forall k :: 0 <= k < 4 ==> ms[k].req.host in hosts
    ensures var e := Event(Operation.BatchProvision(ms), [], 2);
      IngressRuns.Happens(cfg, hosts, map[], e, Three(ms)) && Complete(cfg, e)
  {
    var op := Operation.BatchProvision(ms);
    assert Plan(cfg, [], op) == BatchProvisionCalls(cfg, [], ms);
    hide *;
    FourAllowed(cfg, hosts, ms);
    IngressWitness.NoneListed();
    ThreeAndOne(cfg, ms);
    BothCreated(ms);
    AllHappens(cfg, hosts, map[], [], op, 2, Three(ms));
  }

  lemma OneRemoved(cfg: Config, hosts: set<string>, ms: seq<Mapped>) returns (ing: Ingress)
    requires cfg.max == 3 && |ms| == 4 && DistinctRoutes(ms) && IngressName(0) != IngressName(1) && |EntriesOf(ms[0..3])| == 3
    ensures var e := Event(Operation.Deprovision(IdOf(ms[2])), Snapshot(ms), 1);
      IngressRuns.Happens(cfg, hosts, Three(ms), e, Three(ms)[IngressName(0) := ing]) && Complete(cfg, e)
    ensures ing.managed && |ing.rules| == 2 && ing.tls != []
  {
    var op := Operation.Deprovision(IdOf(ms[2]));
    assert Plan(cfg, Snapshot(ms), op) == DeprovisionCalls(Snapshot(ms), IdOf(ms[2]));
    assert Allowed(hosts, Table(Three(ms)), op);
    hide *;
    SnapshotLists(ms);
    ing := ThirdRemoved(ms);
    AllHappens(cfg, hosts, Three(ms), Snapshot(ms), op, 1, Three(ms)[IngressName(0) := ing]);
  }

  lemma IsPlainEmptier(cfg: Config, ms: seq<Mapped>, ing: Ingress)
    requires cfg.max == 3 && |ms| == 4 && IngressName(0) != IngressName(1) && EntriesOf(ms[3..4]) == []
    requires ing.managed && |ing.rules| == 2 && ing.tls != []
    ensures PlainEmptier(cfg, Three(ms)[IngressName(0) := ing], IngressName(1), IngressName(0))
  {
    var m := Three(ms)[IngressName(0) := ing];
    assert m[IngressName(1)] == Bundle(ms[3..4]) && |RulesOf(ms[3..4])| == 1;
  }

  /** A run that leads to such a cluster: three routes with TLS and a plain one are provisioned, three to
      an Ingress, and the third is deprovisioned. */
  lemma PlainEmptierRun(cfg: Config, hosts: set<string>, ms: seq<Mapped>)
    returns (e0: Event, m1: Store, e1: Event, m2: Store)
    requires cfg.max == 3 && |ms| == 4 && DistinctRoutes(ms) && forall k :: 0 <= k < 4 ==> ms[k].req.host in hosts
    requires ms[0].tls.Some? && ms[1].tls.Some? && ms[2].tls.Some? && ms[3].tls.None?
    ensures IngressRuns.IsRun(cfg, hosts, Run([map[], m1, m2], [e0, e1])) && Complete(cfg, e0) && Complete(cfg, e1)
    ensures e0.op == Operation.BatchProvision(ms) && e1.op == Operation.Deprovision(IdOf(ms[2]))
    ensures PlainEmptier(cfg, m2, IngressName(1), IngressName(0))
  {
    hide *;
    NamesDiffer(0, 1);
    ThreeEntries(ms);
    FourCreated(cfg, hosts, ms);
    var ing := OneRemoved(cfg, hosts, ms);
    IsPlainEmptier(cfg, ms, ing);
    m1, m2 := Three(ms), Three(ms)[IngressName(0) := ing];
    e0, e1 := Event(Operation.BatchProvision(ms), [], 2), Event(Operation.Deprovision(IdOf(ms[2])), Snapshot(ms), 1);
    IngressWitness.TwoSteps(cfg, hosts, e0, m1, e1, m2);
  }

  /** How a plain Ingress may change: rules are added, TLS is not. */
  predicate PlainlyGrown(a: Ingress, b: Ingress) {
    b.managed == a.managed && a.rules <= b.rules && (a.tls == [] ==> b.tls == [])
  }

  lemma GrownBatch(cfg: Config, m: Store, ls: seq<Listed>, ms: seq<Mapped>, bs: seq<Batch>, k: nat, j: nat, mk: Store)
    requires IsListing(ls, m) && Planned(cfg, ls, bs, |ms|) && j < k <= |bs| && !bs[j].created && AllFit(ms, bs)
    requires ServeAll(m, BatchCalls(ms, bs)[..k]) == Some(mk)
    ensures Managed(m, bs[j].name) && (m[bs[j].name].tls == [] ==> EntriesOf(Slice(ms, bs[j])) == [])
  {
    var calls := BatchCalls(ms, bs);
    assert calls[..k][..j] == calls[..j];
    ServeAllPrefix(m, calls[..k], j);
    var mj := ServeAll(m, calls[..j]).value;
    SucceedsEverywhere(m, calls[..k], j, mj);
    NotYetTouched(cfg, m, ls, ms, bs, j, mj);
    AddServedIff(mj, bs[j].name, Slice(ms, bs[j]));
  }

  lemma BatchAt(bs: seq<Batch>, k: nat, at: map<string, Batch>, n: string) returns (j: nat)
    requires FirstBatches(bs, k, at) && n in at
    ensures j < k && bs[j].name == n && at[n] == bs[j]
  {
    j :| 0 <= j < k && bs[j].name == n;
  }

  lemma ReachedGrows(cfg: Config, m: Store, ms: seq<Mapped>, b: Batch, ing: Ingress)
    requires Reached(cfg, m, ms, b, ing) && Managed(m, b.name)
    requires m[b.name].tls == [] ==> EntriesOf(Slice(ms, b)) == []
    ensures !b.created && PlainlyGrown(m[b.name], ing)
  {
  }

  lemma ReachedIsOld(cfg: Config, m: Store, ms: seq<Mapped>, at: map<string, Batch>, mk: Store, n: string)
    requires Spread(cfg, m, ms, at, mk) && Managed(m, n)
    ensures n in mk && (n !in at ==> mk[n] == m[n])
    ensures n in at ==> at[n].name == n && !at[n].created && Reached(cfg, m, ms, at[n], mk[n])
  {
  }

  lemma SpreadGrows(cfg: Config, m: Store, ls: seq<Listed>, ms: seq<Mapped>, bs: seq<Batch>, k: nat, mk: Store,
      at: map<string, Batch>, n: string)
    requires IsListing(ls, m) && Planned(cfg, ls, bs, |ms|) && k <= |bs| && AllFit(ms, bs) && Managed(m, n)
    requires ServeAll(m, BatchCalls(ms, bs)[..k]) == Some(mk)
    requires Spread(cfg, m, ms, at, mk) && FirstBatches(bs, k, at)
    ensures n in mk && PlainlyGrown(m[n], mk[n])
  {
    ReachedIsOld(cfg, m, ms, at, mk, n);
    if n in at {
      var j := BatchAt(bs, k, at, n);
      hide Spread, FirstBatches, Reached;
      GrownBatch(cfg, m, ls, ms, bs, k, j, mk);
      ReachedGrows(cfg, m, ms, at[n], mk[n]);
    }
  }

  /** Whatever the addition reports: Ingresses only grow, plain ones stay plain, and new hosts are among
      those asked for. */
  lemma AdditionGrows(cfg: Config, add: seq<RouteRequest>, m: Store, m2: Store, ok: bool, n: string)
    requires 1 <= cfg.max && AdditionOutcome(cfg, add, m, m2, ok) && Managed(m, n)
    ensures n in m2 && PlainlyGrown(m[n], m2[n])
  {
    if m2 != m {
      var ms, ls, k := AdditionPrefix(cfg, add, m, m2, ok);
      var bs := Order(cfg, ls, |ms|);
      OrderIsPlanned(cfg, m, ls, |ms|);
      PlannedFits(cfg, ls, ms, bs);
      var at := PrefixSpread(cfg, m, ls, ms, bs, k, m2);
      SpreadGrows(cfg, m, ls, ms, bs, k, m2, at, n);
    }
  }

  lemma AdditionPrefix(cfg: Config, add: seq<RouteRequest>, m: Store, m2: Store, ok: bool)
    returns (ms: seq<Mapped>, ls: seq<Listed>, k: nat)
    requires 1 <= cfg.max && AdditionOutcome(cfg, add, m, m2, ok) && m2 != m
    ensures MapRoutes(cfg, add) == Ok(ms) && IsListing(ls, m) && k <= |BatchProvisionCalls(cfg, ls, ms)|
    ensures ServeAll(m, BatchProvisionCalls(cfg, ls, ms)[..k]) == Some(m2)
  {
    ms := MapRoutes(cfg, add).value;
    ls, k :| Packed(cfg, m, ms, ls, k, m2, ok);
  }

  lemma AdditionNewHosts(cfg: Config, add: seq<RouteRequest>, m: Store, m2: Store, ok: bool)
    requires 1 <= cfg.max && AdditionOutcome(cfg, add, m, m2, ok)
    ensures HostSet(m2) <= HostSet(m) + HostsOf(add)
  {
    if m2 != m {
      var ms, ls, k := AdditionPrefix(cfg, add, m, m2, ok);
      var bs := Order(cfg, ls, |ms|);
      OrderIsPlanned(cfg, m, ls, |ms|);
      var at := PrefixSpread(cfg, m, ls, ms, bs, k, m2);
      PlacedHosts(cfg, m, ms, at, m2);
      MappedHosts(cfg, add, ms);
      hide Spread, HostSet, HostsOf;
    }
  }

  // ---------------------------------------------------------------- a blocked host stays

  lemma CondemnedShrinks(a: set<string>, b: set<string>, wanted: set<string>)
    requires a <= b + wanted
    ensures Condemned(a, wanted) <= Condemned(b, wanted)
  {
  }

  /** Not to be replaceable is to be touched, to keep a rule, and to have no TLS entry. */
  lemma GrownStillBlocks(a: Ingress, b: Ingress, ids: set<string>, fewer: set<string>, h: string)
    requires !Replaceable(a, ids) && PlainlyGrown(a, b) && fewer <= ids && Holds(a, h) && RouteId(h) in fewer
    ensures !Replaceable(b, fewer) && Holds(b, h)
  {
    var r :| r in a.rules && r.host == h;
    var i :| 0 <= i < |a.rules| && a.rules[i] == r;
    assert b.rules[i] == r && RouteId(b.rules[i].host) in fewer;
    var x := KeepRules(a.rules, ids)[0];
    KeptRules(a.rules, ids, x);
    var j :| 0 <= j < |a.rules| && a.rules[j] == x;
    assert b.rules[j] == x;
    KeptRules(b.rules, fewer, x);
  }

  lemma BlockedUntouched(m: Store, n: string, wanted: set<string>, h: string, names: set<string>)
    requires Blocks(m, n, wanted, h)
    requires forall a :: a in names ==> Managed(m, a) && Replaceable(m[a], Condemned(HostSet(m), wanted))
    ensures n !in names
    ensures var m1 := FilterNamed(m, Condemned(HostSet(m), wanted), names); Managed(m1, n) && m1[n] == m[n]
  {
  }

  lemma BlockedHost(m: Store, n: string, wanted: set<string>, h: string)
    requires Blocks(m, n, wanted, h)
    ensures h in HostSet(m) && RouteId(h) in Condemned(HostSet(m), wanted)
  {
    var r :| r in m[n].rules && r.host == h;
    RuleServes(m, n, r);
  }

  lemma HolderServes(m: Store, n: string, h: string)
    requires Managed(m, n) && Holds(m[n], h)
    ensures h in HostSet(m)
  {
    var r :| r in m[n].rules && r.host == h;
    RuleServes(m, n, r);
  }

  /** The Ingress goes through the two steps of a cycle. */
  lemma BlocksOn(m: Store, m1: Store, m2: Store, n: string, wanted: set<string>, h: string)
    requires Blocks(m, n, wanted, h) && Managed(m1, n) && m1[n] == m[n]
    requires n in m2 && PlainlyGrown(m1[n], m2[n]) && HostSet(m1) <= HostSet(m) && HostSet(m2) <= HostSet(m1) + wanted
    ensures Blocks(m2, n, wanted, h)
  {
    var r :| r in m[n].rules && r.host == h;
    assert r in m2[n].rules;
    HolderServes(m2, n, h);
    CondemnedShrinks(HostSet(m2), HostSet(m), wanted);
    GrownStillBlocks(m[n], m2[n], Condemned(HostSet(m), wanted), Condemned(HostSet(m2), wanted), h);
  }

  /** One cycle, whatever happens in it: where an Ingress is blocked the removal fails, the Ingress is
      blocked again afterwards, and the unwanted host is still there. */
  lemma BlocksStep(cfg: Config, desired: seq<RouteRequest>, m: Store, ls: seq<Listed>, m1: Store, removed: bool,
      m2: Store,
      added: bool, n: string, h: string)
    requires 1 <= cfg.max && AnyCycle(cfg, desired, m, ls, m1, removed, m2, added) && Blocks(m, n, HostsOf(desired), h)
    ensures !removed && Blocks(m2, n, HostsOf(desired), h) && h in HostSet(m2)
  {
    var wanted, ids := HostsOf(desired), ToRemove(HostsOf(desired), ListRoutes(cfg, ls));
    var add := ToAdd(desired, ActualHosts(ListRoutes(cfg, ls)));
    RemovedIds(cfg, m, ls, wanted);
    NoIds(ids);
    BlockedHost(m, n, wanted, h);
    var names := RemovalNames(cfg, ids, m, m1, removed);
    BlockedUntouched(m, n, wanted, h, names);
    assert !removed;
    NamedHosts(m, IdSet(ids), names);
    AddedHosts(desired, ActualHosts(ListRoutes(cfg, ls)));
    hide *;
    AdditionGrows(cfg, add, m1, m2, added, n);
    AdditionNewHosts(cfg, add, m1, m2, added);
    BlocksOn(m, m1, m2, n, wanted, h);
    BlockedHost(m2, n, wanted, h);
  }

  lemma {:induction false} BlocksForever(cfg: Config, desired: seq<RouteRequest>, ms: seq<Store>, n: string,
      h: string, k: nat)
    requires 1 <= cfg.max && IsCycles(cfg, desired, ms) && Blocks(ms[0], n, HostsOf(desired), h) && k < |ms|
    ensures Blocks(ms[k], n, HostsOf(desired), h) && h in HostSet(ms[k])
  {
    if k > 0 {
      BlocksForever(cfg, desired, ms, n, h, k - 1);
      assert Follows(cfg, desired, ms[k - 1], ms[k]);
      if ms[k] != ms[k - 1] {
        var ls, m1, removed, added :| AnyCycle(cfg, desired, ms[k - 1], ls, m1, removed, ms[k], added);
        BlocksStep(cfg, desired, ms[k - 1], ls, m1, removed, ms[k], added, n, h);
      }
    } else {
      BlockedHost(ms[0], n, HostsOf(desired), h);
    }
  }

  /** No cycle of such a run is clean, and none reaches the desired hosts. */
  lemma NeverClean(cfg: Config, desired: seq<RouteRequest>, ms: seq<Store>, n: string, h: string, k: nat,
      ls: seq<Listed>, m1: Store, m2: Store)
    requires 1 <= cfg.max && IsCycles(cfg, desired, ms) && Blocks(ms[0], n, HostsOf(desired), h) && k < |ms|
    ensures !CleanCycle(cfg, desired, ms[k], ls, m1, m2)
    ensures HostSet(ms[k]) != HostsOf(desired)
  {
    BlocksForever(cfg, desired, ms, n, h, k);
    if CleanCycle(cfg, desired, ms[k], ls, m1, m2) {
      BlocksStep(cfg, desired, ms[k], ls, m1, true, m2, true, n, h);
    }
  }

  // ---------------------------------------------------------------- any other unwanted host can go

  /** The Ingresses that do not resist first. */
  function Yielding(ls: seq<Listed>, ids: set<string>): seq<Listed> {
    if ls == [] then []
    else
      var last := |ls| - 1;
      var init := Yielding(ls[..last], ids);
      if Replaceable(ls[last].ingress, ids) then init + [ls[last]] else init
  }

  function Resisting(ls: seq<Listed>, ids: set<string>): seq<Listed> {
    if ls == [] then []
    else
      var last := |ls| - 1;
      var init := Resisting(ls[..last], ids);
      if Replaceable(ls[last].ingress, ids) then init else init + [ls[last]]
  }

  lemma {:induction false} YieldingFirst(ls: seq<Listed>, ids: set<string>)
    ensures multiset(Yielding(ls, ids) + Resisting(ls, ids)) == multiset(ls)
    ensures AllReplaceable(Yielding(ls, ids), ids)
  {
    if ls != [] {
      var last := |ls| - 1;
      YieldingFirst(ls[..last], ids);
      assert ls == ls[..last] + [ls[last]];
      var a, b := Yielding(ls[..last], ids), Resisting(ls[..last], ids);
      assert multiset(Yielding(ls, ids) + Resisting(ls, ids)) == multiset(a + b) + multiset{ls[last]};
    }
  }

  lemma {:induction false} InYielding(ls: seq<Listed>, ids: set<string>, x: Listed)
    ensures x in Yielding(ls, ids) <==> x in ls && Replaceable(x.ingress, ids)
  {
    if ls != [] {
      var last := |ls| - 1;
      InYielding(ls[..last], ids, x);
      assert ls == ls[..last] + [ls[last]];
    }
  }

  lemma ListsPrefix(a: seq<Listed>, b: seq<Listed>, m: Store)
    requires IsListing(a + b, m)
    ensures Lists(a, m)
  {
    var c := a + b;
    assert forall i :: 0 <= i < |a| ==> a[i] == c[i];
  }

  lemma StopsAfter(cfg: Config, m: Store, a: seq<Listed>, b: seq<Listed>, ids: set<string>, m1: Store)
    requires IsListing(a + b, m) && ServeAll(m, BatchDeprovisionCalls(a, ids)) == Some(m1)
    ensures Attempted(cfg, m, Operation.BatchDeprovision(ids), a + b, |BatchDeprovisionCalls(a, ids)|, m1)
  {
    hide IsListing, ServeAll, BatchDeprovisionCalls;
    assert (a + b)[..|a|] == a;
    RemovalPrefix(a + b, ids, |a|);
    PrefixIs(BatchDeprovisionCalls(a, ids), BatchDeprovisionCalls(a + b, ids));
  }

  lemma PrefixIs(x: seq<Call>, all: seq<Call>)
    requires x <= all
    ensures all[..|x|] == x
  {
  }

  /** A removal may get as far as every Ingress that does not resist. */
  lemma YieldingRemoved(cfg: Config, m: Store, ls: seq<Listed>, ids: seq<string>)
    requires IsListing(ls, m) && ids != []
    ensures RemovalOutcome(cfg, ids, m, FilterNamed(m, IdSet(ids), Names(Yielding(ls, IdSet(ids)))), false)
  {
    var gone := IdSet(ids);
    var a, b := Yielding(ls, gone), Resisting(ls, gone);
    var m1 := FilterNamed(m, gone, Names(a));
    hide IsListing, Attempted, IdSet, FilterNamed, Yielding, Resisting, ServeAll, Names, AllReplaceable;
    YieldingFirst(ls, gone);
    PermutedListing(ls, a + b, m);
    ListsPrefix(a, b, m);
    BatchDeprovisionSteps(m, a, gone);
    StopsAfter(cfg, m, a, b, gone, m1);
    assert Concluded(cfg, m, Operation.BatchDeprovision(gone), a + b, |BatchDeprovisionCalls(a, gone)|, m1, false);
  }

  lemma NothingAdded(cfg: Config, add: seq<RouteRequest>, m: Store) returns (added: bool)
    requires 1 <= cfg.max
    ensures AdditionOutcome(cfg, add, m, m, added)
  {
    added := add == [];
    if add != [] && MapRoutes(cfg, add).Ok? {
      assert Packed(cfg, m, MapRoutes(cfg, add).value, [], 0, m, false);
    }
  }

  lemma GoneFromYielding(m: Store, ls: seq<Listed>, ids: set<string>, h: string)
    requires IsListing(ls, m) && RouteId(h) in ids
    requires forall n :: Managed(m, n) && Holds(m[n], h) ==> Replaceable(m[n], ids)
    ensures h !in HostSet(FilterNamed(m, ids, Names(Yielding(ls, ids))))
  {
    var names := Names(Yielding(ls, ids));
    var m1 := FilterNamed(m, ids, names);
    forall n, r | Managed(m1, n) && r in m1[n].rules ensures r.host != h {
      if n in names {
        FilteredRules(m[n], ids, r);
      } else if r.host == h {
        NamedYielding(m, ls, ids, n, r);
      }
    }
  }

  lemma NamedYielding(m: Store, ls: seq<Listed>, ids: set<string>, n: string, r: Rule)
    requires IsListing(ls, m) && Managed(m, n) && r in m[n].rules
    requires Holds(m[n], r.host) ==> Replaceable(m[n], ids)
    ensures n in Names(Yielding(ls, ids))
  {
    var i :| 0 <= i < |ls| && ls[i].name == n;
    InYielding(ls, ids, ls[i]);
    var ys := Yielding(ls, ids);
    var k :| 0 <= k < |ys| && ys[k] == ls[i];
  }

  /** An unwanted host that no Ingress blocks can be gone after one cycle. */
  lemma CanGo(cfg: Config, desired: seq<RouteRequest>, m: Store, ls: seq<Listed>, h: string) returns (m1: Store)
    requires 1 <= cfg.max && IsListing(ls, m) && h in HostSet(m) && h !in HostsOf(desired)
    requires forall n :: !Blocks(m, n, HostsOf(desired), h)
    ensures IsCycles(cfg, desired, [m, m1]) && h !in HostSet(m1)
  {
    var wanted, ids := HostsOf(desired), ToRemove(HostsOf(desired), ListRoutes(cfg, ls));
    RemovedIds(cfg, m, ls, wanted);
    assert RouteId(h) in Condemned(HostSet(m), wanted);
    NotBlocked(m, wanted, h);
    NoIds(ids);
    m1 := FilterNamed(m, IdSet(ids), Names(Yielding(ls, IdSet(ids))));
    var added := NothingAdded(cfg, ToAdd(desired, ActualHosts(ListRoutes(cfg, ls))), m1);
    hide *;
    YieldingRemoved(cfg, m, ls, ids);
    OneCycle(cfg, desired, m, ls, m1, added);
    GoneFromYielding(m, ls, IdSet(ids), h);
  }

  lemma NotBlocked(m: Store, wanted: set<string>, h: string)
    requires h !in wanted && forall n :: !Blocks(m, n, wanted, h)
    ensures forall n :: Managed(m, n) && Holds(m[n], h) ==> Replaceable(m[n], Condemned(HostSet(m), wanted))
  {
    forall n | Managed(m, n) && Holds(m[n], h) ensures Replaceable(m[n], Condemned(HostSet(m), wanted)) {
      assert !Blocks(m, n, wanted, h);
    }
  }

  lemma OneCycle(cfg: Config, desired: seq<RouteRequest>, m: Store, ls: seq<Listed>, m1: Store, added: bool)
    requires 1 <= cfg.max && IsListing(ls, m)
    requires RemovalOutcome(cfg, ToRemove(HostsOf(desired), ListRoutes(cfg, ls)), m, m1, false)
    requires AdditionOutcome(cfg, ToAdd(desired, ActualHosts(ListRoutes(cfg, ls))), m1, m1, added)
    ensures IsCycles(cfg, desired, [m, m1])
  {
    hide IsListing, RemovalOutcome, AdditionOutcome, ToRemove, ToAdd, ListRoutes;
    assert AnyCycle(cfg, desired, m, ls, m1, false, m1, added);
  }

  /** Which unwanted hosts stay: a host survives every run of cycles, with any failures or none, exactly
      if some Ingress holds it that has no TLS entry and would keep another rule. */
  lemma StaysIff(cfg: Config, desired: seq<RouteRequest>, m: Store, ls: seq<Listed>, h: string)
    requires 1 <= cfg.max && IsListing(ls, m) && h in HostSet(m) && h !in HostsOf(desired)
    ensures (exists n :: Blocks(m, n, HostsOf(desired), h)) <==>
      forall ms :: IsCycles(cfg, desired, ms) && ms[0] == m ==> h in HostSet(ms[|ms| - 1])
  {
    if n :| Blocks(m, n, HostsOf(desired), h) {
      forall ms | IsCycles(cfg, desired, ms) && ms[0] == m ensures h in HostSet(ms[|ms| - 1]) {
        BlocksForever(cfg, desired, ms, n, h, |ms| - 1);
      }
    } else {
      var m1 := CanGo(cfg, desired, m, ls, h);
      var ms := [m, m1];
      assert ms[0] == m && ms[|ms| - 1] == m1;
    }
  }

  // ---------------------------------------------------------------- a concrete cluster

  const PLAIN_A := Rule("a", "/", "web", 80)
  const PLAIN_B := Rule("b", "/", "web", 80)

  lemma PlainHosts(m: Store, n: string)
    requires m == map[n := Ingress(true, [PLAIN_A, PLAIN_B], [])]
    ensures Managed(m, n) && HostSet(m) == {"a", "b"}
  {
    var ing := m[n];
    assert ing.rules[0] == PLAIN_A && ing.rules[1] == PLAIN_B;
    assert PLAIN_A in ing.rules && PLAIN_B in ing.rules;
    RuleServes(m, n, PLAIN_A);
    RuleServes(m, n, PLAIN_B);
    forall h | h in HostSet(m) ensures h in {"a", "b"} {
      var a, r := ServedBy(m, h);
    }
  }

  lemma PlainBlocks(m: Store, n: string, ids: set<string>)
    requires m == map[n := Ingress(true, [PLAIN_A, PLAIN_B], [])] && RouteId("a") in ids && RouteId("b") !in ids
    ensures !Replaceable(m[n], ids)
  {
    var ing := m[n];
    assert RouteId(ing.rules[0].host) in ids;
    assert ing.rules[1] == PLAIN_B;
    KeptRules(ing.rules, ids, PLAIN_B);
  }

  /** Two plain routes, provisioned one after the other, share an Ingress and only "b" is still wanted.
      A batch removal of "a" is refused, a single one would not be; and after any number of cycles,
      whatever happens in them, "a" is there. */
  lemma PlainRouteStaysForGood(cfg: Config, desired: seq<RouteRequest>) returns (r: Run, m: Store, ls: seq<Listed>)
    requires 2 <= cfg.max && HostsOf(desired) == {"b"}
    ensures IngressRuns.IsRun(cfg, {"a", "b"}, r) && |r.events| == 2 && |r.stores| == 3 && r.stores[2] == m
    ensures r.events[0].op == Operation.Provision(IngressWitness.PlainRoute("", "a"))
    ensures r.events[1].op == Operation.Provision(IngressWitness.PlainRoute("", "b"))
    ensures IsListing(ls, m) && HostSet(m) == {"a", "b"}
    ensures ServeAll(m, BatchDeprovisionCalls(ls, {RouteId("a")})).None?
    ensures ServeAll(m, DeprovisionCalls(ls, RouteId("a"))).Some?
    ensures forall ms :: IsCycles(cfg, desired, ms) && ms[0] == m ==> "a" in HostSet(ms[|ms| - 1])
  {
    var n := IngressName(0);
    ls := [Listed(n, Ingress(true, [PLAIN_A, PLAIN_B], []))];
    DifferentIds();
    var e0, m1, e1, m2 := IngressWitness.PlainPairRun(cfg, "a", "b");
    m, r := m2, Run([map[], m1, m2], [e0, e1]);
    IngressWitness.OneListed(n, ls[0].ingress);
    PlainHosts(m, n);
    PlainRefused(m, n, {RouteId("a")});
    PlainWellFormed(m, n);
    PlainBlocked(m, n, HostsOf(desired));
    hide *;
    BatchDeprovisionIsFilter(m, ls, {RouteId("a")});
    DeprovisionIsFilter(m, ls, RouteId("a"));
    StaysIff(cfg, desired, m, ls, "a");
  }

  lemma PlainRefused(m: Store, n: string, ids: set<string>)
    requires m == map[n := Ingress(true, [PLAIN_A, PLAIN_B], [])] && ids == {RouteId("a")}
    ensures !(forall a :: a in m && m[a].managed ==> Replaceable(m[a], ids))
  {
    DifferentIds();
    PlainBlocks(m, n, ids);
  }

  lemma PlainBlocked(m: Store, n: string, wanted: set<string>)
    requires m == map[n := Ingress(true, [PLAIN_A, PLAIN_B], [])] && wanted == {"b"}
    ensures Blocks(m, n, wanted, "a")
  {
    PlainHosts(m, n);
    DifferentIds();
    assert Condemned({"a", "b"}, {"b"}) == {RouteId("a")};
    PlainBlocks(m, n, {RouteId("a")});
    assert m[n].rules[0] == PLAIN_A && PLAIN_A in m[n].rules;
  }

  lemma DifferentIds()
    ensures RouteId("a") != RouteId("b")
  {
    if RouteId("a") == RouteId("b") {
      RouteIdInjective("a", "b");
    }
  }

  lemma PlainWellFormed(m: Store, n: string)
    requires m == map[n := Ingress(true, [PLAIN_A, PLAIN_B], [])]
    ensures WellFormed(m)
  {
    DifferentIds();
  }

  // ---------------------------------------------------------------- one route that does not map

  lemma {:induction false} NoBackends(cfg: Config, add: seq<RouteRequest>, d: RouteRequest)
    requires d in add && d.backends == []
    ensures MapRoutes(cfg, add).Err?
  {
    var k :| 0 <= k < |add| && add[k] == d;
    assert MapRoute(cfg, add[k]).Err?;
  }

  /** A desired route without backends whose host is not there stops every addition of its cycle. */
  lemma BadRouteStep(cfg: Config, desired: seq<RouteRequest>, m: Store, ls: seq<Listed>, m1: Store, removed: bool,
      m2: Store,
      added: bool, d: RouteRequest)
    requires 1 <= cfg.max && AnyCycle(cfg, desired, m, ls, m1, removed, m2, added)
    requires d in desired && d.backends == [] && d.host !in HostSet(m)
    ensures !added && m2 == m1 && HostSet(m2) <= HostSet(m)
  {
    ListHosts(cfg, m, ls);
    InToAdd(desired, HostSet(m), d);
    NoBackends(cfg, ToAdd(desired, HostSet(m)), d);
    var ids := ToRemove(HostsOf(desired), ListRoutes(cfg, ls));
    var names := RemovalNames(cfg, ids, m, m1, removed);
    NamedHosts(m, IdSet(ids), names);
  }

  /** And with it every addition of every later cycle: no host is ever added again. */
  lemma {:induction false} BadRouteBlocksAll(cfg: Config, desired: seq<RouteRequest>, ms: seq<Store>, d: RouteRequest,
      k: nat)
    requires 1 <= cfg.max && IsCycles(cfg, desired, ms) && k < |ms|
    requires d in desired && d.backends == [] && d.host !in HostSet(ms[0])
    ensures HostSet(ms[k]) <= HostSet(ms[0])
  {
    if k > 0 {
      BadRouteBlocksAll(cfg, desired, ms, d, k - 1);
      assert Follows(cfg, desired, ms[k - 1], ms[k]);
      if ms[k] != ms[k - 1] {
        var ls, m1, removed, added :| AnyCycle(cfg, desired, ms[k - 1], ls, m1, removed, ms[k], added);
        BadRouteStep(cfg, desired, ms[k - 1], ls, m1, removed, ms[k], added, d);
      }
    }
  }
}
