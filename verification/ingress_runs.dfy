/** Runs of the Ingress gateway: any operations in any order, each with a listing of its own and each
    stopping after any of its calls. */
module IngressRuns {
  import opened Core
  import opened Kube
  import opened Mapper
  import opened IngressPlan
  import opened IngressTable
  import opened IngressFilter
  import opened IngressStore
  import opened IngressBatch
  import Merge

  datatype Operation =
    | Provision(route: Mapped)
    | Deprovision(id: string)
    | BatchProvision(routes: seq<Mapped>)
    | BatchDeprovision(ids: set<string>)

  /** Only packing needs room for a route in an Ingress: its loop over new Ingresses would not end. */
  function Plan(cfg: Config, ls: seq<Listed>, op: Operation): seq<Call>
    requires op.BatchProvision? ==> 1 <= cfg.max
  {
    match op
    case Provision(mr) => [ProvisionCall(cfg, ls, mr)]
    case Deprovision(id) => DeprovisionCalls(ls, id)
    case BatchProvision(ms) => BatchProvisionCalls(cfg, ls, ms)
    case BatchDeprovision(ids) => BatchDeprovisionCalls(ls, ids)
  }

  /** What the operation means for the flat table. */
  function Applied(t: Routes, op: Operation): Routes {
    match op
    case Provision(mr) => Inserted(t, mr)
    case Deprovision(id) => t - {id}
    case BatchProvision(ms) => InsertedAll(t, ms)
    case BatchDeprovision(ids) => t - ids
  }

  function Requested(op: Operation): seq<Mapped> {
    match op
    case Provision(mr) => [mr]
    case BatchProvision(ms) => ms
    case _ => []
  }

  /** No two hosts share a route identifier. */
  predicate DistinctIds(hosts: set<string>) {
    forall a, b :: a in hosts && b in hosts && RouteId(a) == RouteId(b) ==> a == b
  }

  /** Routes are for the given hosts; a batch has new and distinct identifiers. */
  predicate Allowed(hosts: set<string>, t: Routes, op: Operation) {
    && (forall r :: 0 <= r < |Requested(op)| ==> ForHost(Requested(op)[r]) && Requested(op)[r].req.host in hosts)
    && (op.BatchProvision? ==> NewRoutes(t, op.routes))
  }

  predicate Hosted(hosts: set<string>, t: Routes) {
    forall id :: id in t ==> t[id].rule.host in hosts && RouteId(t[id].rule.host) == id
  }

  /** What every run keeps. */
  ghost predicate Sound(cfg: Config, hosts: set<string>, m: Store) {
    WellFormed(m) && Bounded(cfg, m) && Hosted(hosts, Table(m))
  }

  /** However a call ends, the table holds old entries and requested ones, nothing else. */
  ghost predicate Traced(t: Routes, op: Operation, t': Routes) {
    forall id :: id in t' && !(id in t && t'[id] == t[id]) ==>
      exists r :: 0 <= r < |Requested(op)| && IdOf(Requested(op)[r]) == id && t'[id] == Inserted(t, Requested(op)[r])[id]
  }

  // ---------------------------------------------------------------- partial batch removal

  predicate SameOn(ing: Ingress, a: set<string>, b: set<string>) {
    forall id :: id in IdsIn(ing) ==> (id in a <==> id in b)
  }

  lemma {:induction false} KeepSame(rules: seq<Rule>, a: set<string>, b: set<string>)
    requires forall j :: 0 <= j < |rules| ==> (Id(rules[j]) in a <==> Id(rules[j]) in b)
    ensures KeepRules(rules, a) == KeepRules(rules, b)
  {
    if rules != [] {
      KeepSame(rules[..|rules| - 1], a, b);
    }
  }

  lemma FilterSame(ing: Ingress, a: set<string>, b: set<string>)
    requires SameOn(ing, a, b)
    ensures FilteredIfTouched(ing, a) == FilteredIfTouched(ing, b) && (Emptied(ing, a) <==> Emptied(ing, b))
  {
    forall j | 0 <= j < |ing.rules| ensures Id(ing.rules[j]) in a <==> Id(ing.rules[j]) in b {
      assert Id(ing.rules[j]) in IdsIn(ing);
    }
    KeepSame(ing.rules, a, b);
    forall r | r in ing.rules ensures Id(r) in a <==> Id(r) in b {
      var j :| 0 <= j < |ing.rules| && ing.rules[j] == r;
    }
    assert RemovedHosts(ing.rules, a) == RemovedHosts(ing.rules, b);
  }

  /** The identifiers among `ids` that live in one of the named Ingresses. */
  function Reachable(m: Store, ids: set<string>, names: set<string>): set<string> {
    set id | id in ids && exists n :: n in names && Managed(m, n) && id in IdsIn(m[n])
  }

  lemma NamedIsFilter(m: Store, ids: set<string>, names: set<string>)
    requires WellFormed(m) && forall n :: n in names ==> Managed(m, n)
    ensures FilterNamed(m, ids, names) == FilterStore(m, Reachable(m, ids, names))
  {
    var some := Reachable(m, ids, names);
    forall n | n in m
      ensures n in names ==> FilteredIfTouched(m[n], ids) == FilteredIfTouched(m[n], some) && (Emptied(m[n], ids) <==> Emptied(m[n], some))
      ensures n !in names ==> FilteredIfTouched(m[n], some) == m[n] && !Emptied(m[n], some)
    {
      if n in names {
        FilterSame(m[n], ids, some);
      } else if m[n].managed {
        ElsewhereUntouched(m, n, ids, names);
      }
    }
  }

  lemma ElsewhereUntouched(m: Store, n: string, ids: set<string>, names: set<string>)
    requires WellFormed(m) && Managed(m, n) && n !in names
    ensures FilteredIfTouched(m[n], Reachable(m, ids, names)) == m[n] && !Emptied(m[n], Reachable(m, ids, names))
  {
    forall id | id in IdsIn(m[n]) ensures id !in Reachable(m, ids, names) {
      forall a | a in names && Managed(m, a) ensures id !in IdsIn(m[a]) {
        NotBoth(m, n, a, id);
      }
    }
    NotThere(m[n], Reachable(m, ids, names));
  }

  lemma RemovalSnoc(ls: seq<Listed>, ids: set<string>)
    requires ls != []
    ensures BatchDeprovisionCalls(ls, ids) == BatchDeprovisionCalls(ls[..|ls| - 1], ids) + RemovalCall(ls[|ls| - 1], ids)
    ensures |RemovalCall(ls[|ls| - 1], ids)| <= 1
  {
  }

  /** A prefix of the calls is the whole plan of a prefix of the listing. */
  lemma {:induction false} PrefixOfRemoval(ls: seq<Listed>, ids: set<string>, k: nat) returns (i: nat)
    requires k <= |BatchDeprovisionCalls(ls, ids)|
    ensures i <= |ls| && BatchDeprovisionCalls(ls, ids)[..k] == BatchDeprovisionCalls(ls[..i], ids)
  {
    var all := BatchDeprovisionCalls(ls, ids);
    if k == |all| {
      i := |ls|;
      assert all[..k] == all && ls[..i] == ls;
    } else {
      var last := |ls| - 1;
      RemovalSnoc(ls, ids);
      hide *;
      i := PrefixOfRemoval(ls[..last], ids, k);
      assert ls[..last][..i] == ls[..i];
      assert all[..k] == BatchDeprovisionCalls(ls[..last], ids)[..k];
    }
  }

  /** A BatchDeprovision that stops early has removed some of its identifiers, each completely. */
  lemma PartialRemoval(m: Store, ls: seq<Listed>, ids: set<string>, k: nat, m': Store) returns (some: set<string>)
    requires IsListing(ls, m) && WellFormed(m) && k <= |BatchDeprovisionCalls(ls, ids)|
    requires ServeAll(m, BatchDeprovisionCalls(ls, ids)[..k]) == Some(m')
    ensures some <= ids && m' == FilterStore(m, some)
  {
    var i := PrefixOfRemoval(ls, ids, k);
    BatchDeprovisionSteps(m, ls[..i], ids);
    NamedIsFilter(m, ids, Names(ls[..i]));
    some := Reachable(m, ids, Names(ls[..i]));
  }

  lemma FilterBounded(cfg: Config, m: Store, ids: set<string>)
    requires Bounded(cfg, m)
    ensures Bounded(cfg, FilterStore(m, ids))
  {
    var m' := FilterStore(m, ids);
    forall n | Managed(m', n) ensures 1 <= |m'[n].rules| <= cfg.max {
      assert Managed(m, n);
      KeepShorter(m[n].rules, ids);
    }
  }

  lemma {:induction false} KeepShorter(rules: seq<Rule>, ids: set<string>)
    ensures |KeepRules(rules, ids)| <= |rules|
  {
    if rules != [] {
      KeepShorter(rules[..|rules| - 1], ids);
    }
  }

  // ---------------------------------------------------------------- one operation, cut off anywhere

  /** In a cluster of hosts with identifiers of their own an update never changes a rule's host. */
  lemma HostedNoClash(hosts: set<string>, m: Store, mr: Mapped)
    requires DistinctIds(hosts) && WellFormed(m) && Hosted(hosts, Table(m)) && mr.req.host in hosts
    ensures NoClash(m, mr)
  {
    forall n, j | n in m && m[n].managed && 0 <= j < |m[n].rules| && Id(m[n].rules[j]) == RouteId(mr.req.host)
      ensures NoStaleTls(m[n], j, mr)
    {
      TableEntry(m, n, j);
    }
  }

  lemma TableEntry(m: Store, n: string, j: nat)
    requires WellFormed(m) && Managed(m, n) && j < |m[n].rules|
    ensures Id(m[n].rules[j]) in Table(m) && Table(m)[Id(m[n].rules[j])] == EntryAt(m[n], j)
  {
    RouteAt(m[n], j);
    assert n in Parts(m) && Parts(m)[n] == RoutesIn(m[n]);
    Merge.MergedAt(Parts(m), n, Id(m[n].rules[j]));
  }

  lemma ProvisionBounded(cfg: Config, m: Store, ls: seq<Listed>, mr: Mapped, m': Store)
    requires 1 <= cfg.max && IsListing(ls, m) && Bounded(cfg, m) && Serve(m, ProvisionCall(cfg, ls, mr)) == Some(m')
    ensures Bounded(cfg, m')
  {
    var place, room := Find(ls, RouteId(mr.req.host), 0), FindRoom(ls, cfg.max, 0);
    if place.Some? {
      var l, j := ls[place.value.ingress], place.value.rule;
      UpdateOpsEffect(l.ingress, j, mr.rule, mr.tls);
      PutBounded(cfg, m, l.name, IngressTable.Updated(l.ingress, j, mr));
    } else if room.Some? {
      var l := ls[room.value];
      AddCallEffect(m, l.name, [mr], m');
      PutBounded(cfg, m, l.name, Appended(l.ingress, RulesOf([mr]), EntriesOf([mr])));
    } else {
      PutBounded(cfg, m, IngressName(|ls|), Bundle([mr]));
    }
  }

  lemma PutBounded(cfg: Config, m: Store, n: string, ing: Ingress)
    requires Bounded(cfg, m) && 1 <= |ing.rules| <= cfg.max
    ensures Bounded(cfg, m[n := ing])
  {
    var m' := m[n := ing];
    forall a | Managed(m', a) ensures 1 <= |m'[a].rules| <= cfg.max {
      assert a != n ==> Managed(m, a);
    }
  }

  lemma TracedInsert(t: Routes, mr: Mapped)
    ensures Traced(t, Provision(mr), Inserted(t, mr))
  {
    assert Requested(Provision(mr))[0] == mr;
  }

  lemma ProvisionStep(cfg: Config, hosts: set<string>, m: Store, ls: seq<Listed>, mr: Mapped, m': Store)
    requires 1 <= cfg.max && DistinctIds(hosts) && Sound(cfg, hosts, m) && IsListing(ls, m)
    requires ForHost(mr) && mr.req.host in hosts && Serve(m, ProvisionCall(cfg, ls, mr)) == Some(m')
    ensures WellFormed(m') && Bounded(cfg, m') && Table(m') == Inserted(Table(m), mr) && Traced(Table(m), Provision(mr), Table(m'))
  {
    HostedNoClash(hosts, m, mr);
    ProvisionRefines(cfg, m, ls, mr, m');
    ProvisionBounded(cfg, m, ls, mr, m');
    TracedInsert(Table(m), mr);
  }

  lemma RemovalStep(cfg: Config, hosts: set<string>, m: Store, op: Operation, some: set<string>, m': Store)
    requires Sound(cfg, hosts, m) && m' == FilterStore(m, some)
    ensures WellFormed(m') && Bounded(cfg, m') && Table(m') == Table(m) - some && Traced(Table(m), op, Table(m'))
  {
    FilterStoreRefines(m, some);
    FilterBounded(cfg, m, some);
  }

  lemma PartEntry(t: Routes, ms: seq<Mapped>, bs: seq<Batch>, k: nat, id: string) returns (r: nat)
    requires NewRoutes(t, ms) && k <= |bs| && AllFit(ms, bs) && id in Part(ms, bs, k)
    ensures r < |ms| && IdOf(ms[r]) == id && Part(ms, bs, k)[id] == Inserted(t, ms[r])[id]
  {
    var j;
    j, r := PartFrom(ms, bs, k, id);
    PartHas(ms, bs, k, j, r);
  }

  lemma BatchTraced(t: Routes, ms: seq<Mapped>, bs: seq<Batch>, k: nat, part: Routes)
    requires NewRoutes(t, ms) && k <= |bs| && AllFit(ms, bs) && part == Part(ms, bs, k)
    ensures Traced(t, BatchProvision(ms), t + part)
  {
    var op, t' := BatchProvision(ms), t + part;
    assert Requested(op) == ms;
    hide NewRoutes, AllFit, Part, Inserted, Requested;
    forall id | id in t' && !(id in t && t'[id] == t[id])
      ensures exists r :: 0 <= r < |Requested(op)| && IdOf(Requested(op)[r]) == id && t'[id] == Inserted(t, Requested(op)[r])[id]
    {
      var r := PartEntry(t, ms, bs, k, id);
      assert IdOf(Requested(op)[r]) == id;
    }
  }

  lemma BatchStep(cfg: Config, hosts: set<string>, m: Store, ls: seq<Listed>, ms: seq<Mapped>, k: nat, m': Store)
    requires 1 <= cfg.max && Sound(cfg, hosts, m) && IsListing(ls, m) && NewRoutes(Table(m), ms)
    requires k <= |BatchProvisionCalls(cfg, ls, ms)| && ServeAll(m, BatchProvisionCalls(cfg, ls, ms)[..k]) == Some(m')
    ensures WellFormed(m') && Bounded(cfg, m') && Traced(Table(m), BatchProvision(ms), Table(m'))
  {
    var bs := Order(cfg, ls, |ms|);
    OrderIsPlanned(cfg, m, ls, |ms|);
    PlannedFits(cfg, ls, ms, bs);
    PrefixTable(cfg, m, ls, ms, bs, k, m');
    BatchTraced(Table(m), ms, bs, k, Part(ms, bs, k));
    var at := NothingLostOnFailure(cfg, m, ls, ms, k, m');
  }

  lemma NothingDone(cfg: Config, hosts: set<string>, m: Store, op: Operation, calls: seq<Call>, m': Store)
    requires Sound(cfg, hosts, m) && ServeAll(m, calls[..0]) == Some(m')
    ensures WellFormed(m') && Bounded(cfg, m') && Traced(Table(m), op, Table(m'))
  {
  }

  lemma AllDone(m: Store, calls: seq<Call>, m': Store)
    requires ServeAll(m, calls[..|calls|]) == Some(m')
    ensures ServeAll(m, calls) == Some(m')
  {
    assert calls[..|calls|] == calls;
  }

  lemma PartialProvision(cfg: Config, hosts: set<string>, m: Store, ls: seq<Listed>, op: Operation, k: nat, m': Store)
    requires 1 <= cfg.max && DistinctIds(hosts) && Sound(cfg, hosts, m) && IsListing(ls, m) && Allowed(hosts, Table(m), op)
    requires op.Provision? && 1 <= k <= |Plan(cfg, ls, op)| && ServeAll(m, Plan(cfg, ls, op)[..k]) == Some(m')
    ensures WellFormed(m') && Bounded(cfg, m') && Traced(Table(m), op, Table(m'))
  {
    assert op.route == Requested(op)[0];
    assert k == |Plan(cfg, ls, op)|;
    hide WellFormed, Bounded, Traced, IsListing, Table;
    AllDone(m, Plan(cfg, ls, op), m');
    ServeOne(m, ProvisionCall(cfg, ls, op.route));
    ProvisionStep(cfg, hosts, m, ls, op.route, m');
  }

  lemma PartialDeprovision(cfg: Config, hosts: set<string>, m: Store, ls: seq<Listed>, op: Operation, k: nat, m': Store)
    requires 1 <= cfg.max && Sound(cfg, hosts, m) && IsListing(ls, m)
    requires op.Deprovision? && 1 <= k <= |Plan(cfg, ls, op)| && ServeAll(m, Plan(cfg, ls, op)[..k]) == Some(m')
    ensures WellFormed(m') && Bounded(cfg, m') && Traced(Table(m), op, Table(m'))
  {
    assert k == |Plan(cfg, ls, op)|;
    SoundIsWellFormed(cfg, hosts, m);
    hide WellFormed, Bounded, Traced, IsListing, Table, Sound;
    AllDone(m, Plan(cfg, ls, op), m');
    DeprovisionIsFilter(m, ls, op.id);
    RemovalStep(cfg, hosts, m, op, {op.id}, m');
  }

  lemma PartialBatchProvision(cfg: Config, hosts: set<string>, m: Store, ls: seq<Listed>, op: Operation, k: nat,
      m': Store)
    requires 1 <= cfg.max && Sound(cfg, hosts, m) && IsListing(ls, m) && Allowed(hosts, Table(m), op)
    requires op.BatchProvision? && k <= |Plan(cfg, ls, op)| && ServeAll(m, Plan(cfg, ls, op)[..k]) == Some(m')
    ensures WellFormed(m') && Bounded(cfg, m') && Traced(Table(m), op, Table(m'))
  {
    hide WellFormed, Bounded, Traced, IsListing, Table, Sound;
    BatchStep(cfg, hosts, m, ls, op.routes, k, m');
  }

  lemma PartialBatchDeprovision(cfg: Config, hosts: set<string>, m: Store, ls: seq<Listed>, op: Operation, k: nat,
      m': Store)
    requires 1 <= cfg.max && Sound(cfg, hosts, m) && IsListing(ls, m)
    requires op.BatchDeprovision? && k <= |Plan(cfg, ls, op)| && ServeAll(m, Plan(cfg, ls, op)[..k]) == Some(m')
    ensures WellFormed(m') && Bounded(cfg, m') && Traced(Table(m), op, Table(m'))
  {
    SoundIsWellFormed(cfg, hosts, m);
    hide WellFormed, Bounded, Traced, IsListing, Table, Sound;
    var some := PartialRemoval(m, ls, op.ids, k, m');
    RemovalStep(cfg, hosts, m, op, some, m');
  }

  /** After any of its calls an operation leaves a well-formed cluster, every Ingress within bounds,
      and a table of old and requested entries. */
  lemma PartialStep(cfg: Config, hosts: set<string>, m: Store, ls: seq<Listed>, op: Operation, k: nat, m': Store)
    requires 1 <= cfg.max && DistinctIds(hosts) && Sound(cfg, hosts, m) && IsListing(ls, m) && Allowed(hosts, Table(m), op)
    requires k <= |Plan(cfg, ls, op)| && ServeAll(m, Plan(cfg, ls, op)[..k]) == Some(m')
    ensures WellFormed(m') && Bounded(cfg, m') && Traced(Table(m), op, Table(m'))
  {
    hide *;
    if k == 0 {
      NothingDone(cfg, hosts, m, op, Plan(cfg, ls, op), m');
    } else if op.Provision? {
      PartialProvision(cfg, hosts, m, ls, op, k, m');
    } else if op.Deprovision? {
      PartialDeprovision(cfg, hosts, m, ls, op, k, m');
    } else if op.BatchProvision? {
      PartialBatchProvision(cfg, hosts, m, ls, op, k, m');
    } else {
      PartialBatchDeprovision(cfg, hosts, m, ls, op, k, m');
    }
  }

  lemma SoundIsWellFormed(cfg: Config, hosts: set<string>, m: Store)
    requires Sound(cfg, hosts, m)
    ensures WellFormed(m)
  {
  }

  lemma TracedHosted(hosts: set<string>, t: Routes, op: Operation, t': Routes)
    requires Hosted(hosts, t) && Allowed(hosts, t, op) && Traced(t, op, t')
    ensures Hosted(hosts, t')
  {
    forall id | id in t' ensures t'[id].rule.host in hosts && RouteId(t'[id].rule.host) == id {
      if !(id in t && t'[id] == t[id]) {
        var r :| 0 <= r < |Requested(op)| && IdOf(Requested(op)[r]) == id && t'[id] == Inserted(t, Requested(op)[r])[id];
      }
    }
  }

  /** An operation that gets through all its calls does to the table what it means. */
  lemma CompleteStep(cfg: Config, hosts: set<string>, m: Store, ls: seq<Listed>, op: Operation, m': Store)
    requires 1 <= cfg.max && DistinctIds(hosts) && Sound(cfg, hosts, m) && IsListing(ls, m) && Allowed(hosts, Table(m), op)
    requires ServeAll(m, Plan(cfg, ls, op)) == Some(m')
    ensures Table(m') == Applied(Table(m), op)
  {
    match op
    case Provision(mr) =>
      assert mr == Requested(op)[0];
      ServeOne(m, ProvisionCall(cfg, ls, mr));
      ProvisionStep(cfg, hosts, m, ls, mr, m');
    case Deprovision(id) => DeprovisionRefines(m, ls, id, m');
    case BatchProvision(ms) => BatchProvisionRefines(cfg, m, ls, ms, m');
    case BatchDeprovision(ids) => BatchDeprovisionRefines(m, ls, ids, m');
  }

  // ---------------------------------------------------------------- runs

  /** One operation, the listing it took, and how many of its calls took effect. */
  datatype Event = Event(op: Operation, listing: seq<Listed>, done: nat)

  datatype Run = Run(stores: seq<Store>, events: seq<Event>)

  ghost predicate Happens(cfg: Config, hosts: set<string>, m: Store, e: Event, m': Store)
    requires 1 <= cfg.max
  {
    && IsListing(e.listing, m)
    && Allowed(hosts, Table(m), e.op)
    && e.done <= |Plan(cfg, e.listing, e.op)|
    && ServeAll(m, Plan(cfg, e.listing, e.op)[..e.done]) == Some(m')
  }

  /** A run from an empty cluster. */
  ghost predicate IsRun(cfg: Config, hosts: set<string>, r: Run)
    requires 1 <= cfg.max
  {
    && |r.stores| == |r.events| + 1
    && r.stores[0] == map[]
    && forall k :: 0 <= k < |r.events| ==> Happens(cfg, hosts, r.stores[k], r.events[k], r.stores[k + 1])
  }

  predicate Complete(cfg: Config, e: Event)
    requires 1 <= cfg.max
  {
    e.done == |Plan(cfg, e.listing, e.op)|
  }

  lemma EmptySound(cfg: Config, hosts: set<string>, m: Store)
    requires m == map[]
    ensures Sound(cfg, hosts, m) && Table(m) == map[]
  {
    assert Parts(m) == map[];
    assert Table(m).Keys == {};
  }

  lemma SoundStep(cfg: Config, hosts: set<string>, m: Store, e: Event, m': Store)
    requires 1 <= cfg.max && DistinctIds(hosts) && Sound(cfg, hosts, m) && Happens(cfg, hosts, m, e, m')
    ensures Sound(cfg, hosts, m') && Traced(Table(m), e.op, Table(m'))
  {
    PartialStep(cfg, hosts, m, e.listing, e.op, e.done, m');
    TracedHosted(hosts, Table(m), e.op, Table(m'));
  }

  lemma HappensAt(cfg: Config, hosts: set<string>, r: Run, k: nat)
    requires 1 <= cfg.max && IsRun(cfg, hosts, r) && k + 1 < |r.stores|
    ensures |r.stores| == |r.events| + 1 && Happens(cfg, hosts, r.stores[k], r.events[k], r.stores[k + 1])
  {
  }

  lemma StartsSound(cfg: Config, hosts: set<string>, r: Run)
    requires 1 <= cfg.max && IsRun(cfg, hosts, r)
    ensures |r.stores| > 0 && Sound(cfg, hosts, r.stores[0]) && Table(r.stores[0]) == map[]
  {
    EmptySound(cfg, hosts, r.stores[0]);
  }

  /** Over every run, whatever fails and wherever: identifiers are unique across the cluster, each
      TLS entry is for a single host that is unique in its Ingress and has a rule there, and every
      Ingress has between one rule and the configured number. */
  lemma {:induction false} RunsStaySound(cfg: Config, hosts: set<string>, r: Run, k: nat)
    requires 1 <= cfg.max && DistinctIds(hosts) && IsRun(cfg, hosts, r) && k < |r.stores|
    ensures Sound(cfg, hosts, r.stores[k])
  {
    hide *;
    if k == 0 {
      StartsSound(cfg, hosts, r);
    } else {
      HappensAt(cfg, hosts, r, k - 1);
      RunsStaySound(cfg, hosts, r, k - 1);
      SoundStep(cfg, hosts, r.stores[k - 1], r.events[k - 1], r.stores[k]);
    }
  }

  /** The operations of a run, applied to the flat table one after the other. */
  function Folded(t: Routes, events: seq<Event>): Routes {
    if events == [] then t else Applied(Folded(t, events[..|events| - 1]), events[|events| - 1].op)
  }

  lemma FoldNone(t: Routes, events: seq<Event>)
    requires events == []
    ensures Folded(t, events) == t
  {
  }

  lemma FoldNext(t: Routes, events: seq<Event>, k: nat)
    requires k < |events|
    ensures Folded(t, events[..k + 1]) == Applied(Folded(t, events[..k]), events[k].op)
  {
    assert events[..k + 1][..k] == events[..k];
  }

  lemma CompleteHappens(cfg: Config, hosts: set<string>, m: Store, e: Event, m': Store)
    requires 1 <= cfg.max && DistinctIds(hosts) && Sound(cfg, hosts, m) && Happens(cfg, hosts, m, e, m') && Complete(cfg, e)
    ensures Table(m') == Applied(Table(m), e.op)
  {
    var plan := Plan(cfg, e.listing, e.op);
    assert plan[..|plan|] == plan;
    CompleteStep(cfg, hosts, m, e.listing, e.op, m');
  }

  lemma FoldStep(cfg: Config, hosts: set<string>, r: Run, k: nat)
    requires 1 <= cfg.max && DistinctIds(hosts) && IsRun(cfg, hosts, r) && k < |r.events| && |r.stores| == |r.events| + 1
    requires Complete(cfg, r.events[k]) && Table(r.stores[k]) == Folded(map[], r.events[..k])
    ensures Table(r.stores[k + 1]) == Folded(map[], r.events[..k + 1])
  {
    hide *;
    HappensAt(cfg, hosts, r, k);
    RunsStaySound(cfg, hosts, r, k);
    CompleteHappens(cfg, hosts, r.stores[k], r.events[k], r.stores[k + 1]);
    FoldNext(map[], r.events, k);
  }

  /** The first k operations got through all their calls. */
  ghost predicate ErrorFree(cfg: Config, r: Run, k: nat)
    requires 1 <= cfg.max
  {
    k <= |r.events| && forall j :: 0 <= j < k ==> Complete(cfg, r.events[j])
  }

  lemma ErrorFreeBefore(cfg: Config, r: Run, k: nat)
    requires 1 <= cfg.max && ErrorFree(cfg, r, k) && k > 0
    ensures k <= |r.events| && ErrorFree(cfg, r, k - 1) && Complete(cfg, r.events[k - 1])
  {
  }

  /** The packed store refines the flat table: over every error-free run the table of the store is
      the fold of the operations. */
  lemma {:induction false} TableIsFold(cfg: Config, hosts: set<string>, r: Run, k: nat)
    requires 1 <= cfg.max && DistinctIds(hosts) && IsRun(cfg, hosts, r) && k < |r.stores| == |r.events| + 1
    requires ErrorFree(cfg, r, k)
    ensures Table(r.stores[k]) == Folded(map[], r.events[..k])
  {
    hide *;
    if k == 0 {
      StartsSound(cfg, hosts, r);
      FoldNone(map[], r.events[..k]);
    } else {
      ErrorFreeBefore(cfg, r, k);
      TableIsFold(cfg, hosts, r, k - 1);
      FoldStep(cfg, hosts, r, k - 1);
    }
  }

  // ---------------------------------------------------------------- one at a time, and all at once

  /** Provisioning routes one after the other, each call with a listing of its own. */
  function ProvisionedSingly(cfg: Config, m: Store, ms: seq<Mapped>, lists: seq<seq<Listed>>): Option<Store>
    requires |ms| == |lists|
  {
    if ms == [] then Some(m)
    else
      var last := |ms| - 1;
      var before := ProvisionedSingly(cfg, m, ms[..last], lists[..last]);
      if before.None? then None else Serve(before.value, ProvisionCall(cfg, lists[last], ms[last]))
  }

  predicate ProvisionListed(cfg: Config, m: Store, ms: seq<Mapped>, lists: seq<seq<Listed>>)
    requires |ms| == |lists|
  {
    ms == [] ||
    (var last := |ms| - 1;
     var before := ProvisionedSingly(cfg, m, ms[..last], lists[..last]);
     ProvisionListed(cfg, m, ms[..last], lists[..last]) && (before.Some? ==> IsListing(lists[last], before.value)))
  }

  lemma NewNoClash(m: Store, mr: Mapped)
    requires WellFormed(m) && IdOf(mr) !in Table(m)
    ensures NoClash(m, mr)
  {
    forall n, j | n in m && m[n].managed && 0 <= j < |m[n].rules| ensures Id(m[n].rules[j]) != RouteId(mr.req.host) {
      TableEntry(m, n, j);
    }
  }

  lemma NextSingle(cfg: Config, m1: Store, t: Routes, ls: seq<Listed>, mr: Mapped, m2: Store)
    requires IsListing(ls, m1) && WellFormed(m1) && Table(m1) == t && IdOf(mr) !in t && ForHost(mr)
    requires Serve(m1, ProvisionCall(cfg, ls, mr)) == Some(m2)
    ensures WellFormed(m2) && Table(m2) == Inserted(t, mr)
  {
    NewNoClash(m1, mr);
    ProvisionRefines(cfg, m1, ls, mr, m2);
  }

  lemma LastIsNew(t: Routes, ms: seq<Mapped>)
    requires NewRoutes(t, ms) && ms != []
    ensures var last := |ms| - 1; NewRoutes(t, ms[..last]) && ForHost(ms[last]) && IdOf(ms[last]) !in InsertedAll(t, ms[..last])
  {
    var last := |ms| - 1;
    InsertedAllIs(t, ms[..last]);
    if IdOf(ms[last]) in Routed(ms[..last]) {
      var r := RoutedFrom(ms[..last], IdOf(ms[last]));
    }
  }

  lemma UnfoldSingly(cfg: Config, m: Store, ms: seq<Mapped>, lists: seq<seq<Listed>>)
    requires |ms| == |lists| && ProvisionListed(cfg, m, ms, lists) && ProvisionedSingly(cfg, m, ms, lists).Some?
    ensures ms == [] ==> ProvisionedSingly(cfg, m, ms, lists) == Some(m)
    ensures ms != [] ==>
      var last := |ms| - 1;
      && ProvisionListed(cfg, m, ms[..last], lists[..last])
      && ProvisionedSingly(cfg, m, ms[..last], lists[..last]).Some?
      && var m1 := ProvisionedSingly(cfg, m, ms[..last], lists[..last]).value;
         && IsListing(lists[last], m1)
         && Serve(m1, ProvisionCall(cfg, lists[last], ms[last])) == ProvisionedSingly(cfg, m, ms, lists)
  {
  }

  lemma {:induction false} ProvisionedSinglyTable(cfg: Config, m: Store, ms: seq<Mapped>, lists: seq<seq<Listed>>)
    requires |ms| == |lists| && WellFormed(m) && NewRoutes(Table(m), ms) && ProvisionListed(cfg, m, ms, lists)
    requires ProvisionedSingly(cfg, m, ms, lists).Some?
    ensures var m' := ProvisionedSingly(cfg, m, ms, lists).value; WellFormed(m') && Table(m') == InsertedAll(Table(m), ms)
  {
    hide *;
    UnfoldSingly(cfg, m, ms, lists);
    UnfoldInserted(Table(m), ms);
    if ms != [] {
      var last := |ms| - 1;
      var m1, m2 := ProvisionedSingly(cfg, m, ms[..last], lists[..last]).value, ProvisionedSingly(cfg, m, ms, lists).value;
      LastIsNew(Table(m), ms);
      ProvisionedSinglyTable(cfg, m, ms[..last], lists[..last]);
      NextSingle(cfg, m1, InsertedAll(Table(m), ms[..last]), lists[last], ms[last], m2);
    }
  }

  lemma UnfoldInserted(t: Routes, ms: seq<Mapped>)
    ensures InsertedAll(t, ms) == if ms == [] then t else Inserted(InsertedAll(t, ms[..|ms| - 1]), ms[|ms| - 1])
  {
  }

  /** Fresh routes provisioned one at a time, and in one batch, give the same route table. */
  lemma ProvisionedSinglyIsBatch(cfg: Config, m: Store, ms: seq<Mapped>, lists: seq<seq<Listed>>, ls: seq<Listed>,
      batch: Store)
    requires 1 <= cfg.max && |ms| == |lists| && WellFormed(m) && NewRoutes(Table(m), ms) && IsListing(ls, m)
    requires ProvisionListed(cfg, m, ms, lists) && ProvisionedSingly(cfg, m, ms, lists).Some?
    requires ServeAll(m, BatchProvisionCalls(cfg, ls, ms)) == Some(batch)
    ensures Table(ProvisionedSingly(cfg, m, ms, lists).value) == Table(batch)
  {
    ProvisionedSinglyTable(cfg, m, ms, lists);
    BatchProvisionRefines(cfg, m, ls, ms, batch);
  }
}
