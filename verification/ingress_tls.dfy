/** Clusters in which every route has TLS: every JSON Patch the provisioner builds has its target.
    And what goes wrong in clusters without. */
module IngressTls {
  import opened Core
  import opened Kube
  import opened Mapper
  import opened IngressPlan
  import opened IngressTable
  import opened IngressFilter
  import opened IngressStore
  import opened IngressBatch
  import opened IngressRuns
  import opened Packing

  predicate AllTls(t: Routes) {
    forall id :: id in t ==> t[id].tls.Some?
  }

  predicate WantsTls(op: Operation) {
    forall r :: 0 <= r < |Requested(op)| ==> Requested(op)[r].tls.Some?
  }

  lemma TracedTls(t: Routes, op: Operation, t': Routes)
    requires AllTls(t) && WantsTls(op) && Traced(t, op, t')
    ensures AllTls(t')
  {
    forall id | id in t' ensures t'[id].tls.Some? {
      if !(id in t && t'[id] == t[id]) {
        var r :| 0 <= r < |Requested(op)| && IdOf(Requested(op)[r]) == id && t'[id] == Inserted(t, Requested(op)[r])[id];
      }
    }
  }

  lemma NoRoutesAllTls(t: Routes)
    requires t == map[]
    ensures AllTls(t)
  {
  }

  lemma {:induction false} RunsStayTls(cfg: Config, hosts: set<string>, r: Run, k: nat)
    requires 1 <= cfg.max && DistinctIds(hosts) && IsRun(cfg, hosts, r) && k < |r.stores| == |r.events| + 1
    requires forall j :: 0 <= j < k ==> WantsTls(r.events[j].op)
    ensures Sound(cfg, hosts, r.stores[k]) && AllTls(Table(r.stores[k]))
  {
    hide *;
    RunsStaySound(cfg, hosts, r, k);
    if k == 0 {
      StartsSound(cfg, hosts, r);
      NoRoutesAllTls(Table(r.stores[0]));
    } else {
      HappensAt(cfg, hosts, r, k - 1);
      RunsStayTls(cfg, hosts, r, k - 1);
      SoundStep(cfg, hosts, r.stores[k - 1], r.events[k - 1], r.stores[k]);
      TracedTls(Table(r.stores[k - 1]), r.events[k - 1].op, Table(r.stores[k]));
    }
  }

  // ---------------------------------------------------------------- one TLS entry per rule

  predicate NoRepeats(s: seq<string>) {
    forall a, b :: 0 <= a < b < |s| ==> s[a] != s[b]
  }

  lemma {:induction false} DistinctCount(s: seq<string>)
    requires NoRepeats(s)
    ensures |set x | x in s| == |s|
  {
    if s != [] {
      var init, last := s[..|s| - 1], s[|s| - 1];
      DistinctCount(init);
      assert s == init + [last];
      assert (set x | x in s) == (set x | x in init) + {last};
    }
  }

  function RuleHosts(ing: Ingress): seq<string> {
    seq(|ing.rules|, j requires 0 <= j < |ing.rules| => ing.rules[j].host)
  }

  function TlsHosts(tls: seq<Tls>): seq<string>
    requires SingleHosts(tls)
  {
    seq(|tls|, k requires 0 <= k < |tls| => tls[k].hosts[0])
  }

  lemma RuleHostsDistinct(ing: Ingress)
    requires UniqueIn(ing)
    ensures NoRepeats(RuleHosts(ing)) && |RuleHosts(ing)| == |ing.rules|
  {
    forall x, y | 0 <= x < y < |RuleHosts(ing)| ensures RuleHosts(ing)[x] != RuleHosts(ing)[y] {
      assert Id(ing.rules[x]) != Id(ing.rules[y]);
    }
  }

  lemma SameHosts(ing: Ingress, h: string)
    requires Tidy(ing) && forall j :: 0 <= j < |ing.rules| ==> TlsOf(ing.tls, ing.rules[j].host).Some?
    ensures h in RuleHosts(ing) <==> h in TlsHosts(ing.tls)
  {
    var a, b := RuleHosts(ing), TlsHosts(ing.tls);
    if h in a {
      var j :| 0 <= j < |a| && a[j] == h;
      TlsOfHost(ing.tls, ing.rules[j].host);
      assert b[FindEntry(ing.tls, h, 0).value] == h;
    }
    if h in b {
      var k :| 0 <= k < |b| && b[k] == h;
      var j :| 0 <= j < |ing.rules| && ing.rules[j].host == h;
      assert a[j] == h;
    }
  }

  lemma SameLength(a: seq<string>, b: seq<string>)
    requires NoRepeats(a) && NoRepeats(b) && forall h :: h in a <==> h in b
    ensures |a| == |b|
  {
    DistinctCount(a);
    DistinctCount(b);
    assert (set h | h in a) == (set h | h in b);
  }

  lemma TlsHostsDistinct(tls: seq<Tls>)
    requires SingleHosts(tls) && DistinctHosts(tls)
    ensures NoRepeats(TlsHosts(tls)) && |TlsHosts(tls)| == |tls|
  {
  }

  lemma EntryPerRule(ing: Ingress)
    requires UniqueIn(ing) && Tidy(ing) && forall j :: 0 <= j < |ing.rules| ==> TlsOf(ing.tls, ing.rules[j].host).Some?
    ensures |ing.tls| == |ing.rules|
  {
    RuleHostsDistinct(ing);
    TlsHostsDistinct(ing.tls);
    forall h ensures h in RuleHosts(ing) <==> h in TlsHosts(ing.tls) {
      SameHosts(ing, h);
    }
    SameLength(RuleHosts(ing), TlsHosts(ing.tls));
  }

  /** In a cluster whose every route has TLS, each Ingress has as many TLS entries as rules. */
  lemma OneEntryPerRule(m: Store, n: string)
    requires WellFormed(m) && AllTls(Table(m)) && Managed(m, n)
    ensures |m[n].tls| == |m[n].rules|
  {
    forall j | 0 <= j < |m[n].rules| ensures TlsOf(m[n].tls, m[n].rules[j].host).Some? {
      TableEntry(m, n, j);
    }
    EntryPerRule(m[n]);
  }

  predicate HasTls(m: Store) {
    forall n :: n in m && m[n].managed ==> m[n].tls != [] && m[n].rules != []
  }

  lemma SoundHasTls(cfg: Config, hosts: set<string>, m: Store)
    requires Sound(cfg, hosts, m) && AllTls(Table(m))
    ensures HasTls(m)
  {
    forall n | Managed(m, n) ensures m[n].tls != [] && m[n].rules != [] {
      OneEntryPerRule(m, n);
    }
  }

  // ---------------------------------------------------------------- every patch applies

  lemma ProvisionPatchApplies(cfg: Config, m: Store, ls: seq<Listed>, mr: Mapped)
    requires HasTls(m) && IsListing(ls, m) && ProvisionCall(cfg, ls, mr).Patch?
    ensures Serve(m, ProvisionCall(cfg, ls, mr)).Some?
  {
    var place, room := Find(ls, RouteId(mr.req.host), 0), FindRoom(ls, cfg.max, 0);
    if place.Some? {
      var l, j := ls[place.value.ingress], place.value.rule;
      UpdateOpsEffect(l.ingress, j, mr.rule, mr.tls);
    } else {
      AddOpsEffect(ls[room.value].ingress, RulesOf([mr]), EntriesOf([mr]));
    }
  }

  lemma BatchPatchApplies(cfg: Config, m: Store, ls: seq<Listed>, ms: seq<Mapped>, bs: seq<Batch>, k: nat, mk: Store)
    requires HasTls(m) && IsListing(ls, m) && Planned(cfg, ls, bs, |ms|) && k < |bs| && !bs[k].created
    requires ServeAll(m, BatchCalls(ms, bs)[..k]) == Some(mk)
    ensures Serve(mk, BatchCall(ms, bs[k])).Some?
  {
    var at := PrefixSpread(cfg, m, ls, ms, bs, k, mk);
    NextIsNew(cfg, m, ls, ms, bs, k, at, mk);
    var b := bs[k];
    UntouchedPatchApplies(m, ms, b, mk);
  }

  lemma UntouchedPatchApplies(m: Store, ms: seq<Mapped>, b: Batch, mk: Store)
    requires HasTls(m) && Fits(b, |ms|) && !b.created && Managed(m, b.name) && b.name in mk && mk[b.name] == m[b.name]
    ensures Serve(mk, BatchCall(ms, b)).Some?
  {
    AddOpsEffect(mk[b.name], RulesOf(ms[b.lo..b.hi]), EntriesOf(ms[b.lo..b.hi]));
  }

  lemma RemovalSucceeds(m: Store, ls: seq<Listed>, ids: set<string>)
    requires HasTls(m) && IsListing(ls, m)
    ensures ServeAll(m, BatchDeprovisionCalls(ls, ids)).Some?
  {
    BatchDeprovisionIsFilter(m, ls, ids);
  }

  lemma SucceedsEverywhere(m: Store, calls: seq<Call>, k: nat, mk: Store)
    requires ServeAll(m, calls).Some? && k < |calls| && ServeAll(m, calls[..k]) == Some(mk)
    ensures Serve(mk, calls[k]).Some?
  {
    ServeAllPrefix(m, calls, k + 1);
    ServeAllSnoc(m, calls, k);
  }

  /** Whatever calls of an operation have taken effect, its next call, if it is a patch, applies. */
  lemma PatchApplies(cfg: Config, m: Store, ls: seq<Listed>, op: Operation, k: nat, mk: Store)
    requires 1 <= cfg.max && HasTls(m) && WellFormed(m) && IsListing(ls, m)
    requires k < |Plan(cfg, ls, op)| && ServeAll(m, Plan(cfg, ls, op)[..k]) == Some(mk) && Plan(cfg, ls, op)[k].Patch?
    ensures Serve(mk, Plan(cfg, ls, op)[k]).Some?
  {
    match op
    case Provision(mr) =>
      assert Plan(cfg, ls, op)[..0] == [];
      ProvisionPatchApplies(cfg, m, ls, mr);
    case Deprovision(id) =>
      DeprovisionIsFilter(m, ls, id);
      SucceedsEverywhere(m, Plan(cfg, ls, op), k, mk);
    case BatchProvision(ms) =>
      OrderIsPlanned(cfg, m, ls, |ms|);
      BatchPatchApplies(cfg, m, ls, ms, Order(cfg, ls, |ms|), k, mk);
    case BatchDeprovision(ids) =>
      RemovalSucceeds(m, ls, ids);
      SucceedsEverywhere(m, Plan(cfg, ls, op), k, mk);
  }

  /** Over every run in which every route has TLS, whatever failed before: each patch of whatever
      operation comes next finds all its targets, and each Ingress has one TLS entry per rule. */
  lemma EveryPatchApplies(cfg: Config, hosts: set<string>, r: Run, i: nat, ls: seq<Listed>, op: Operation, k: nat,
      mk: Store)
    requires 1 <= cfg.max && DistinctIds(hosts) && IsRun(cfg, hosts, r) && i < |r.stores|
    requires forall j :: 0 <= j < i ==> WantsTls(r.events[j].op)
    requires IsListing(ls, r.stores[i]) && k < |Plan(cfg, ls, op)| && ServeAll(r.stores[i], Plan(cfg, ls, op)[..k]) == Some(mk)
    ensures forall n :: Managed(r.stores[i], n) ==> |r.stores[i][n].tls| == |r.stores[i][n].rules|
    ensures var c := Plan(cfg, ls, op)[k];
      c.Patch? ==> c.name in mk && ApplyPatch(ToDoc(mk[c.name]), c.ops).Some? && Serve(mk, c).Some?
  {
    RunsStayTls(cfg, hosts, r, i);
    SoundHasTls(cfg, hosts, r.stores[i]);
    forall n | Managed(r.stores[i], n) ensures |r.stores[i][n].tls| == |r.stores[i][n].rules| {
      OneEntryPerRule(r.stores[i], n);
    }
    if Plan(cfg, ls, op)[k].Patch? {
      PatchApplies(cfg, r.stores[i], ls, op, k, mk);
    }
  }

  // ---------------------------------------------------------------- what is left to fail

  lemma {:induction false} FirstRefusal(m: Store, calls: seq<Call>) returns (k: nat, mk: Store)
    requires ServeAll(m, calls).None?
    ensures k < |calls| && ServeAll(m, calls[..k]) == Some(mk) && Serve(mk, calls[k]).None?
    decreases |calls|
  {
    var last := |calls| - 1;
    if ServeAll(m, calls[..last]).Some? {
      ServeAllSnoc(m, calls, last);
      assert calls[..last + 1] == calls;
      k, mk := last, ServeAll(m, calls[..last]).value;
    } else {
      k, mk := FirstRefusal(m, calls[..last]);
      assert calls[..last][..k] == calls[..k];
    }
  }

  lemma CreatesHaveRules(cfg: Config, ls: seq<Listed>, op: Operation, k: nat)
    requires 1 <= cfg.max && k < |Plan(cfg, ls, op)| && Plan(cfg, ls, op)[k].Create?
    ensures Plan(cfg, ls, op)[k].ingress.rules != []
  {
    match op
    case Provision(_) =>
    case Deprovision(_) =>
    case BatchProvision(ms) => OrderRoom(cfg, ls, |ms|, k);
    case BatchDeprovision(ids) => NoCreates(ls, ids, k);
  }

  lemma {:induction false} NoCreates(ls: seq<Listed>, ids: set<string>, k: nat)
    requires k < |BatchDeprovisionCalls(ls, ids)|
    ensures !BatchDeprovisionCalls(ls, ids)[k].Create?
  {
    var init := BatchDeprovisionCalls(ls[..|ls| - 1], ids);
    if k < |init| {
      NoCreates(ls[..|ls| - 1], ids, k);
    }
  }

  lemma CreatesAreNew(cfg: Config, m: Store, ls: seq<Listed>, ms: seq<Mapped>, k: nat, mk: Store)
    requires 1 <= cfg.max && IsListing(ls, m) && k < |BatchProvisionCalls(cfg, ls, ms)|
    requires BatchProvisionCalls(cfg, ls, ms)[k].Create? && ServeAll(m, BatchProvisionCalls(cfg, ls, ms)[..k]) == Some(mk)
    ensures BatchProvisionCalls(cfg, ls, ms)[k].name in mk <==> BatchProvisionCalls(cfg, ls, ms)[k].name in m
  {
    var bs := Order(cfg, ls, |ms|);
    OrderIsPlanned(cfg, m, ls, |ms|);
    OrderRoom(cfg, ls, |ms|, k);
    var at := PrefixSpread(cfg, m, ls, ms, bs, k, mk);
    forall j | 0 <= j < k ensures bs[j].name != bs[k].name {
      NewNamesDiffer(cfg, ls, |ms|, j, k);
    }
  }

  lemma NewNamesDiffer(cfg: Config, ls: seq<Listed>, n: nat, j: nat, k: nat)
    requires 1 <= cfg.max && j < k < |Fresh(cfg, ls, n)|
    ensures Fresh(cfg, ls, n)[j].name != Fresh(cfg, ls, n)[k].name
  {
    hide FillNew, CursorAfter, FillExisting, IngressName, Chain;
    FillExistingChain(cfg, ls, 0, 0, n);
    FillNewChain(cfg, |ls|, CursorAfter(cfg, ls, 0, 0, n), n);
    NamesDiffer(|ls| + j, |ls| + k);
  }

  lemma NamesDiffer(a: nat, b: nat)
    requires a != b
    ensures IngressName(a) != IngressName(b)
  {
    if IngressName(a) == IngressName(b) {
      IngressNameInjective(a, b);
    }
  }

  /** A create fails exactly if its name was taken before the operation began. */
  lemma CreateServedIff(cfg: Config, m: Store, ls: seq<Listed>, op: Operation, k: nat, mk: Store)
    requires 1 <= cfg.max && IsListing(ls, m)
    requires k < |Plan(cfg, ls, op)| && Plan(cfg, ls, op)[k].Create? && ServeAll(m, Plan(cfg, ls, op)[..k]) == Some(mk)
    ensures Serve(mk, Plan(cfg, ls, op)[k]).Some? <==> Plan(cfg, ls, op)[k].name !in m
  {
    CreatesHaveRules(cfg, ls, op, k);
    match op
    case Provision(_) => assert Plan(cfg, ls, op)[..0] == [];
    case Deprovision(_) =>
    case BatchProvision(ms) => CreatesAreNew(cfg, m, ls, ms, k, mk);
    case BatchDeprovision(ids) => NoCreates(ls, ids, k);
  }

  predicate NamesFree(m: Store, calls: seq<Call>) {
    forall k :: 0 <= k < |calls| && calls[k].Create? ==> calls[k].name !in m
  }

  /** With TLS everywhere and an API that answers, an operation succeeds exactly if no Ingress has the
      name of one it creates: new names count the listed Ingresses, and deletions leave gaps. */
  lemma SucceedsIff(cfg: Config, m: Store, ls: seq<Listed>, op: Operation)
    requires 1 <= cfg.max && HasTls(m) && WellFormed(m) && IsListing(ls, m)
    ensures ServeAll(m, Plan(cfg, ls, op)).Some? <==> NamesFree(m, Plan(cfg, ls, op))
  {
    var plan := Plan(cfg, ls, op);
    hide WellFormed, HasTls, IsListing, Plan;
    if ServeAll(m, plan).None? {
      var k, mk := FirstRefusal(m, plan);
      if plan[k].Patch? {
        PatchApplies(cfg, m, ls, op, k, mk);
      } else if plan[k].Create? {
        CreateServedIff(cfg, m, ls, op, k, mk);
      }
    } else {
      forall k | 0 <= k < |plan| && plan[k].Create? ensures plan[k].name !in m {
        ServeAllPrefix(m, plan, k);
        SucceedsEverywhere(m, plan, k, ServeAll(m, plan[..k]).value);
        CreateServedIff(cfg, m, ls, op, k, ServeAll(m, plan[..k]).value);
      }
    }
  }

  // ---------------------------------------------------------------- without TLS

  /** In a cluster without TLS a batch removal is refused whenever an Ingress would keep a rule, and
      the same removals one at a time are not. */
  lemma BatchRemovalWithoutTls(m: Store, ls: seq<Listed>, ids: seq<string>, lists: seq<seq<Listed>>, n: string)
    requires WellFormed(m) && IsListing(ls, m) && |ids| == |lists| && ListedSingly(m, ids, lists)
    requires Managed(m, n) && m[n].tls == [] && Touched(m[n], IdSet(ids)) && KeepRules(m[n].rules, IdSet(ids)) != []
    ensures ServeAll(m, BatchDeprovisionCalls(ls, IdSet(ids))).None?
    ensures Singly(m, ids, lists) == Some(FilterStore(m, IdSet(ids)))
  {
    BatchDeprovisionIsFilter(m, ls, IdSet(ids));
    assert !Replaceable(m[n], IdSet(ids));
    SinglyIsFilter(m, ids, lists);
  }

  /** And the first route with TLS cannot join an Ingress that has none. */
  lemma FirstTlsIsRefused(cfg: Config, m: Store, ls: seq<Listed>, mr: Mapped, i: nat)
    requires IsListing(ls, m) && mr.tls.Some? && Find(ls, RouteId(mr.req.host), 0).None?
    requires FindRoom(ls, cfg.max, 0) == Some(i) && ls[i].ingress.tls == []
    ensures Serve(m, ProvisionCall(cfg, ls, mr)).None?
  {
    assert [mr][..0] == [] && EntriesOf([]) == [];
    assert EntriesOf([mr]) == [mr.tls.value];
    if ls[i].ingress.rules != [] {
      AddOpsEffect(ls[i].ingress, RulesOf([mr]), EntriesOf([mr]));
    } else {
      EmptyRulesRefuseAdds(ls[i].ingress, [mr]);
    }
  }
}
