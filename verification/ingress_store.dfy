/** Whole stores: the route table of a cluster, and the refinement of the two single-route calls and
    of the batch removal. */
module IngressStore {
  import opened Core
  import opened Kube
  import opened Mapper
  import opened IngressPlan
  import opened IngressTable
  import opened IngressFilter
  import opened Merge

  predicate Managed(m: Store, n: string) {
    n in m && m[n].managed
  }

  /** The routes of each managed Ingress, by the Ingress's name. */
  function Parts(m: Store): Parts<Entry> {
    map n | n in m && m[n].managed :: RoutesIn(m[n])
  }

  /** Every Ingress is tidy, and a route identifier occurs once in the whole cluster. */
  ghost predicate WellFormed(m: Store) {
    && (forall n :: Managed(m, n) ==> UniqueIn(m[n]) && Tidy(m[n]))
    && Disjoint(Parts(m))
  }

  /** The flat table a store stands for. */
  ghost function Table(m: Store): Routes {
    Merged(Parts(m))
  }

  /** Every managed Ingress has between one rule and the configured number. */
  ghost predicate Bounded(cfg: Config, m: Store) {
    forall n :: Managed(m, n) ==> 1 <= |m[n].rules| <= cfg.max
  }

  lemma InTable(m: Store, n: string, id: string)
    requires Managed(m, n) && id in IdsIn(m[n])
    ensures id in Table(m)
  {
    assert n in Parts(m) && id in Parts(m)[n];
  }

  lemma TableNames(m: Store, id: string) returns (n: string)
    requires id in Table(m)
    ensures Managed(m, n) && id in IdsIn(m[n])
  {
    n := MergedFrom(Parts(m), id);
  }

  lemma PutPart(m: Store, n: string, ing: Ingress, part: Routes)
    requires Disjoint(Parts(m)) && (n in m ==> m[n].managed) && ing.managed && part == RoutesIn(ing)
    requires forall id :: id in part && id in Table(m) ==> n in Parts(m) && id in Parts(m)[n]
    ensures Disjoint(Parts(m[n := ing]))
    ensures Table(m[n := ing]) == (Table(m) - (if n in Parts(m) then Parts(m)[n].Keys else {})) + part
  {
    var p := Parts(m);
    assert Parts(m[n := ing]) == p[n := part];
    forall b, k | b in p && b != n && k in p[b] ensures k !in part {
      MergedAt(p, b, k);
    }
    MergedPut(p, n, part);
  }

  /** Writing one managed Ingress changes its own routes in the table and no others. */
  lemma PutIngress(m: Store, n: string, ing: Ingress, part: Routes)
    requires WellFormed(m) && (n in m ==> m[n].managed) && ing.managed && UniqueIn(ing) && Tidy(ing)
    requires part == RoutesIn(ing)
    requires forall id :: id in part && id in Table(m) ==> n in Parts(m) && id in Parts(m)[n]
    ensures WellFormed(m[n := ing])
    ensures Table(m[n := ing]) == (Table(m) - (if n in Parts(m) then Parts(m)[n].Keys else {})) + part
  {
    PutPart(m, n, ing, part);
    var m' := m[n := ing];
    forall a | Managed(m', a) ensures UniqueIn(m'[a]) && Tidy(m'[a]) {
      if a != n {
        assert Managed(m, a);
      }
    }
  }

  // ---------------------------------------------------------------- Provision

  /** Where the route's identifier already occurs, the update leaves no TLS entry behind. Hosts with
      identifiers of their own never do. */
  predicate NoClash(m: Store, mr: Mapped) {
    forall n, j :: n in m && m[n].managed && 0 <= j < |m[n].rules| && Id(m[n].rules[j]) == RouteId(mr.req.host) ==>
      NoStaleTls(m[n], j, mr)
  }

  lemma BundleOf(m: Mapped)
    requires ForHost(m)
    ensures Bundle([m]) == Ingress(true, [m.rule], if m.tls.Some? then [m.tls.value] else [])
  {
    assert [m][..0] == [] && EntriesOf([]) == [];
  }

  lemma OneRule(b: Ingress, m: Mapped)
    requires ForHost(m) && b == Ingress(true, [m.rule], if m.tls.Some? then [m.tls.value] else [])
    ensures Tidy(b) && UniqueIn(b) && IdsIn(b) == {RouteId(m.req.host)}
    ensures EntryAt(b, 0) == Entry(m.rule, m.tls)
  {
    assert b.rules[0].host == m.req.host;
    assert forall k :: 0 <= k < |b.tls| ==> b.tls[k].hosts[0] == b.rules[0].host;
    assert Id(b.rules[0]) in IdsIn(b);
    if m.tls.Some? {
      TlsOfIs(b.tls, 0);
    }
  }

  lemma BundleOne(m: Mapped)
    requires ForHost(m)
    ensures Tidy(Bundle([m])) && UniqueIn(Bundle([m])) && IdsIn(Bundle([m])) == {RouteId(m.req.host)}
    ensures RoutesIn(Bundle([m])) == map[RouteId(m.req.host) := Entry(m.rule, m.tls)]
  {
    BundleOf(m);
    OneRule(Bundle([m]), m);
    hide Tidy, UniqueIn, IdsIn, EntryAt, RoutesIn;
    RoutesInAre(Bundle([m]), map[RouteId(m.req.host) := Entry(m.rule, m.tls)]);
  }

  /** What Find finds in a listing it finds in the cluster. */
  lemma FindMeansAll(ls: seq<Listed>, m: Store, id: string)
    requires IsListing(ls, m)
    ensures Find(ls, id, 0).None? <==> id !in Table(m)
  {
    var p := Find(ls, id, 0);
    if p.Some? {
      var l := ls[p.value.ingress];
      assert Id(l.ingress.rules[p.value.rule]) == id;
      InTable(m, l.name, id);
    } else {
      forall n | Managed(m, n) ensures id !in IdsIn(m[n]) {
        var i :| 0 <= i < |ls| && ls[i].name == n;
        assert forall j :: 0 <= j < |ls[i].ingress.rules| ==> !HasId(ls[i].ingress.rules[j], id);
      }
      if id in Table(m) {
        var n := TableNames(m, id);
      }
    }
  }

  lemma UpdateInStore(m: Store, n: string, j: nat, mr: Mapped)
    requires WellFormed(m) && Managed(m, n) && Updatable(m[n], j, mr) && NoStaleTls(m[n], j, mr)
    ensures WellFormed(m[n := IngressTable.Updated(m[n], j, mr)])
    ensures Table(m[n := IngressTable.Updated(m[n], j, mr)]) == Inserted(Table(m), mr)
  {
    var ing, part := m[n], RoutesIn(m[n]);
    UpdateTidy(ing, j, mr);
    UpdateRoutes(ing, j, mr);
    RouteAt(ing, j);
    PutIngress(m, n, IngressTable.Updated(ing, j, mr), Inserted(part, mr));
    assert Parts(m)[n] == part;
    InsertedInPart(Parts(m), n, mr);
  }

  /** Replacing an entry in its part is replacing it in the whole. */
  lemma InsertedInPart(p: Parts<Entry>, n: string, mr: Mapped)
    requires Disjoint(p) && n in p && RouteId(mr.req.host) in p[n]
    ensures (Merged(p) - p[n].Keys) + Inserted(p[n], mr) == Inserted(Merged(p), mr)
  {
    forall k | k in p[n] ensures k in Merged(p) && Merged(p)[k] == p[n][k] {
      MergedAt(p, n, k);
    }
  }

  /** Adding entries to a part is adding them to the whole. */
  lemma AddedToPart(p: Parts<Entry>, n: string, more: Routes)
    requires Disjoint(p) && n in p
    ensures (Merged(p) - p[n].Keys) + (p[n] + more) == Merged(p) + more
  {
    forall k | k in p[n] ensures k in Merged(p) && Merged(p)[k] == p[n][k] {
      MergedAt(p, n, k);
    }
  }

  /** A group of routes none of whose identifiers is in the cluster becomes an Ingress of its own. */
  lemma CreateInStore(m: Store, n: string, b: Ingress)
    requires WellFormed(m) && n !in m && b.managed && UniqueIn(b) && Tidy(b)
    requires forall id :: id in RoutesIn(b) ==> id !in Table(m)
    ensures WellFormed(m[n := b]) && Table(m[n := b]) == Table(m) + RoutesIn(b)
  {
    hide WellFormed, UniqueIn, Tidy, Table, RoutesIn;
    PutIngress(m, n, b, RoutesIn(b));
    MinusNothing(Table(m));
  }

  lemma MinusNothing(t: Routes)
    ensures t - {} == t
  {
  }

  /** A group of routes none of whose identifiers is in the cluster is appended to an Ingress. */
  lemma AppendInStore(m: Store, n: string, b: Ingress)
    requires WellFormed(m) && Managed(m, n) && UniqueIn(b) && Tidy(b)
    requires forall id :: id in RoutesIn(b) ==> id !in Table(m)
    ensures WellFormed(m[n := Appended(m[n], b.rules, b.tls)])
    ensures Table(m[n := Appended(m[n], b.rules, b.tls)]) == Table(m) + RoutesIn(b)
  {
    forall id | id in IdsIn(m[n]) ensures id !in IdsIn(b) {
      InTable(m, n, id);
    }
    AppendRoutes(m[n], b);
    var part := RoutesIn(m[n]);
    PutIngress(m, n, Appended(m[n], b.rules, b.tls), part + RoutesIn(b));
    assert Parts(m)[n] == part;
    AddedToPart(Parts(m), n, RoutesIn(b));
  }

  /** The server accepts an addition to an Ingress exactly as an append. */
  lemma AddCallEffect(m: Store, n: string, ms: seq<Mapped>, m': Store)
    requires n in m && ms != [] && Serve(m, AddCall(n, ms)) == Some(m')
    ensures m' == m[n := Appended(m[n], RulesOf(ms), EntriesOf(ms))]
  {
    if m[n].rules == [] {
      EmptyRulesRefuseAdds(m[n], ms);
    } else {
      AddOpsEffect(m[n], RulesOf(ms), EntriesOf(ms));
    }
  }

  /** An error-free Provision inserts its route in the table, or replaces it there. */
  lemma ProvisionRefines(cfg: Config, m: Store, ls: seq<Listed>, mr: Mapped, m': Store)
    requires IsListing(ls, m) && WellFormed(m) && ForHost(mr) && NoClash(m, mr)
    requires Serve(m, ProvisionCall(cfg, ls, mr)) == Some(m')
    ensures WellFormed(m') && Table(m') == Inserted(Table(m), mr)
  {
    FindMeansAll(ls, m, RouteId(mr.req.host));
    if Find(ls, RouteId(mr.req.host), 0).Some? {
      UpdateRefines(cfg, m, ls, mr, m');
    } else {
      InsertRefines(cfg, m, ls, mr, m');
    }
  }

  /** The condition is exact: where the update would leave a TLS entry behind, the store stops being
      well-formed. */
  lemma ProvisionKeepsIff(cfg: Config, m: Store, ls: seq<Listed>, mr: Mapped, m': Store)
    requires IsListing(ls, m) && WellFormed(m) && ForHost(mr)
    requires Serve(m, ProvisionCall(cfg, ls, mr)) == Some(m')
    ensures WellFormed(m') <==> NoClash(m, mr)
  {
    if NoClash(m, mr) {
      ProvisionRefines(cfg, m, ls, mr, m');
    } else {
      ClashLeavesStale(cfg, m, ls, mr, m');
    }
  }

  lemma ClashLeavesStale(cfg: Config, m: Store, ls: seq<Listed>, mr: Mapped, m': Store)
    requires IsListing(ls, m) && WellFormed(m) && ForHost(mr) && !NoClash(m, mr)
    requires Serve(m, ProvisionCall(cfg, ls, mr)) == Some(m')
    ensures !WellFormed(m')
  {
    var id := RouteId(mr.req.host);
    var n, j :| n in m && m[n].managed && 0 <= j < |m[n].rules| && Id(m[n].rules[j]) == id && !NoStaleTls(m[n], j, mr);
    FoundIs(m, ls, n, j);
    ClashCall(cfg, m, ls, mr, n, j, m');
    StaleInStore(m, n, j, mr, m');
  }

  lemma ClashCall(cfg: Config, m: Store, ls: seq<Listed>, mr: Mapped, n: string, j: nat, m': Store)
    requires n in m && j < |m[n].rules| && Find(ls, RouteId(mr.req.host), 0).Some?
    requires var p := Find(ls, RouteId(mr.req.host), 0).value; p.rule == j && ls[p.ingress] == Listed(n, m[n])
    requires Serve(m, ProvisionCall(cfg, ls, mr)) == Some(m')
    ensures m' == m[n := IngressTable.Updated(m[n], j, mr)]
  {
    UpdateOpsEffect(m[n], j, mr.rule, mr.tls);
  }

  /** In a well-formed cluster Find leads to the one place of an identifier. */
  lemma FoundIs(m: Store, ls: seq<Listed>, n: string, j: nat)
    requires IsListing(ls, m) && WellFormed(m) && Managed(m, n) && j < |m[n].rules|
    ensures Find(ls, Id(m[n].rules[j]), 0).Some?
    ensures var p := Find(ls, Id(m[n].rules[j]), 0).value; p.rule == j && ls[p.ingress] == Listed(n, m[n])
  {
    InTable(m, n, Id(m[n].rules[j]));
    FindMeansAll(ls, m, Id(m[n].rules[j]));
    var p := Find(ls, Id(m[n].rules[j]), 0).value;
    SamePlace(m, n, j, ls[p.ingress].name, p.rule);
  }

  lemma StaleInStore(m: Store, n: string, j: nat, mr: Mapped, m': Store)
    requires WellFormed(m) && Managed(m, n) && Updatable(m[n], j, mr) && !NoStaleTls(m[n], j, mr)
    requires m' == m[n := IngressTable.Updated(m[n], j, mr)]
    ensures !WellFormed(m')
  {
    StaleTls(m[n], j, mr);
    assert Managed(m', n);
  }

  lemma SamePlace(m: Store, n: string, j: nat, a: string, i: nat)
    requires WellFormed(m) && Managed(m, n) && Managed(m, a) && j < |m[n].rules| && i < |m[a].rules|
    requires Id(m[n].rules[j]) == Id(m[a].rules[i])
    ensures n == a && j == i
  {
    var p := Parts(m);
    assert Id(m[n].rules[j]) in p[n] && Id(m[a].rules[i]) in p[a];
    assert UniqueIn(m[n]);
  }

  lemma UpdateRefines(cfg: Config, m: Store, ls: seq<Listed>, mr: Mapped, m': Store)
    requires IsListing(ls, m) && WellFormed(m) && ForHost(mr) && NoClash(m, mr)
    requires Serve(m, ProvisionCall(cfg, ls, mr)) == Some(m') && Find(ls, RouteId(mr.req.host), 0).Some?
    ensures WellFormed(m') && Table(m') == Inserted(Table(m), mr)
  {
    var p := Find(ls, RouteId(mr.req.host), 0).value;
    var n, j := ls[p.ingress].name, p.rule;
    assert Id(m[n].rules[j]) == RouteId(mr.req.host);
    UpdateOpsEffect(m[n], j, mr.rule, mr.tls);
    UpdateInStore(m, n, j, mr);
  }

  lemma InsertRefines(cfg: Config, m: Store, ls: seq<Listed>, mr: Mapped, m': Store)
    requires IsListing(ls, m) && WellFormed(m) && ForHost(mr) && RouteId(mr.req.host) !in Table(m)
    requires Serve(m, ProvisionCall(cfg, ls, mr)) == Some(m') && Find(ls, RouteId(mr.req.host), 0).None?
    ensures WellFormed(m') && Table(m') == Inserted(Table(m), mr)
  {
    var room := FindRoom(ls, cfg.max, 0);
    if room.Some? {
      AddCallRefines(m, ls[room.value].name, mr, m');
    } else {
      CreateCallRefines(m, IngressName(|ls|), mr, m');
    }
  }

  lemma NewEntry(t: Routes, mr: Mapped)
    requires RouteId(mr.req.host) !in t
    ensures t + map[RouteId(mr.req.host) := Entry(mr.rule, mr.tls)] == Inserted(t, mr)
  {
  }

  lemma AddCallRefines(m: Store, n: string, mr: Mapped, m': Store)
    requires WellFormed(m) && ForHost(mr) && RouteId(mr.req.host) !in Table(m) && Managed(m, n)
    requires Serve(m, AddCall(n, [mr])) == Some(m')
    ensures WellFormed(m') && Table(m') == Inserted(Table(m), mr)
  {
    AddCallEffect(m, n, [mr], m');
    AppendOneRefines(m, n, mr, Bundle([mr]));
  }

  lemma AppendOneRefines(m: Store, n: string, mr: Mapped, b: Ingress)
    requires WellFormed(m) && ForHost(mr) && RouteId(mr.req.host) !in Table(m) && Managed(m, n) && b == Bundle([mr])
    ensures WellFormed(m[n := Appended(m[n], b.rules, b.tls)])
    ensures Table(m[n := Appended(m[n], b.rules, b.tls)]) == Inserted(Table(m), mr)
  {
    BundleOne(mr);
    AppendInStore(m, n, b);
    NewEntry(Table(m), mr);
  }

  lemma CreateCallRefines(m: Store, n: string, mr: Mapped, m': Store)
    requires WellFormed(m) && ForHost(mr) && RouteId(mr.req.host) !in Table(m)
    requires Serve(m, CreateCall(n, [mr])) == Some(m')
    ensures WellFormed(m') && Table(m') == Inserted(Table(m), mr)
  {
    CreateOneRefines(m, n, mr, Bundle([mr]));
  }

  lemma CreateOneRefines(m: Store, n: string, mr: Mapped, b: Ingress)
    requires WellFormed(m) && ForHost(mr) && RouteId(mr.req.host) !in Table(m) && n !in m && b == Bundle([mr])
    ensures WellFormed(m[n := b]) && Table(m[n := b]) == Inserted(Table(m), mr)
  {
    BundleOne(mr);
    CreateInStore(m, n, b);
    NewEntry(Table(m), mr);
  }

  lemma EmptyRulesRefuseAdds(ing: Ingress, ms: seq<Mapped>)
    requires ing.rules == [] && ms != []
    ensures Patched(ing, AddOps(RulesOf(ms), EntriesOf(ms))).None?
  {
    var ops := AddOps(RulesOf(ms), EntriesOf(ms));
    assert ops[0] == AddRule(ms[0].rule);
  }

  // ---------------------------------------------------------------- removing routes

  predicate Emptied(ing: Ingress, ids: set<string>) {
    ing.managed && Touched(ing, ids) && KeepRules(ing.rules, ids) == []
  }

  function FilteredIfTouched(ing: Ingress, ids: set<string>): Ingress {
    if ing.managed && Touched(ing, ids) then Filtered(ing, ids) else ing
  }

  /** The cluster without the routes that carry one of the identifiers. */
  function FilterStore(m: Store, ids: set<string>): Store {
    map n | n in m && !Emptied(m[n], ids) :: FilteredIfTouched(m[n], ids)
  }

  lemma FilterStoreRefines(m: Store, ids: set<string>)
    requires WellFormed(m)
    ensures WellFormed(FilterStore(m, ids)) && Table(FilterStore(m, ids)) == Table(m) - ids
  {
    var m', p, q := FilterStore(m, ids), Parts(m), Parts(FilterStore(m, ids));
    forall n | Managed(m', n) ensures Managed(m, n) && Tidy(m'[n]) && UniqueIn(m'[n]) && q[n] == p[n] - ids {
      FilterInStore(m[n], ids);
    }
    forall n, k | n in p && n !in q && k in p[n] ensures k in ids {
      KeptIds(m[n], ids);
    }
    MergedMinus(p, ids, q);
  }

  lemma FilterInStore(ing: Ingress, ids: set<string>)
    requires Tidy(ing) && UniqueIn(ing) && ing.managed
    ensures FilteredIfTouched(ing, ids) == Filtered(ing, ids)
    ensures Tidy(Filtered(ing, ids)) && UniqueIn(Filtered(ing, ids))
    ensures IdsIn(Filtered(ing, ids)) == IdsIn(ing) - ids && RoutesIn(Filtered(ing, ids)) == RoutesIn(ing) - ids
  {
    FilterTidy(ing, ids);
    FilterRoutes(ing, ids);
    KeptIds(ing, ids);
    if !Touched(ing, ids) {
      UntouchedIsFiltered(ing, ids);
    }
  }

  /** An Ingress without the route is not filtered. */
  lemma NotThere(ing: Ingress, ids: set<string>)
    requires IdsIn(ing) !! ids
    ensures !Emptied(ing, ids) && FilteredIfTouched(ing, ids) == ing
  {
    TouchedMeets(ing, ids);
  }

  lemma OnlyHome(m: Store, id: string, n: string)
    requires WellFormed(m) && Managed(m, n) && id in IdsIn(m[n])
    ensures FilterStore(m, {id}) ==
      if Emptied(m[n], {id}) then m - {n} else m[n := FilteredIfTouched(m[n], {id})]
  {
    forall a | a in m && a != n ensures !Emptied(m[a], {id}) && FilteredIfTouched(m[a], {id}) == m[a] {
      NotAtHome(m, id, n, a);
    }
    hide WellFormed, Emptied, FilteredIfTouched, IdsIn;
  }

  /** An identifier lives in one Ingress only. */
  lemma NotBoth(m: Store, n: string, a: string, id: string)
    requires WellFormed(m) && Managed(m, n) && Managed(m, a) && a != n && id in IdsIn(m[n])
    ensures id !in IdsIn(m[a])
  {
    var p := Parts(m);
    assert p[a].Keys == IdsIn(m[a]) && p[n].Keys == IdsIn(m[n]);
  }

  /** Only its own Ingress holds the route. */
  lemma NotAtHome(m: Store, id: string, n: string, a: string)
    requires WellFormed(m) && Managed(m, n) && id in IdsIn(m[n]) && a in m && a != n
    ensures !Emptied(m[a], {id}) && FilteredIfTouched(m[a], {id}) == m[a]
  {
    if m[a].managed {
      NotBoth(m, n, a, id);
      NotThere(m[a], {id});
    }
  }

  lemma NoHome(m: Store, id: string)
    requires id !in Table(m)
    ensures FilterStore(m, {id}) == m
  {
    forall a | a in m ensures !Emptied(m[a], {id}) && FilteredIfTouched(m[a], {id}) == m[a] {
      if m[a].managed {
        assert id in IdsIn(m[a]) ==> Managed(m, a);
        if id in IdsIn(m[a]) {
          InTable(m, a, id);
        }
        NotThere(m[a], {id});
      }
    }
  }

  /** Deprovision by index is filtering by identifier, and needs nothing but the API to answer. */
  lemma DeprovisionIsFilter(m: Store, ls: seq<Listed>, id: string)
    requires IsListing(ls, m) && WellFormed(m)
    ensures ServeAll(m, DeprovisionCalls(ls, id)) == Some(FilterStore(m, {id}))
  {
    FindMeansAll(ls, m, id);
    if Find(ls, id, 0).None? {
      NoHome(m, id);
    } else {
      var p := Find(ls, id, 0).value;
      var n, j := ls[p.ingress].name, p.rule;
      assert Id(m[n].rules[j]) == id;
      RemovalIsFilter(m, id, n, j);
      ServeOne(m, DeprovisionCalls(ls, id)[0]);
    }
  }

  lemma RemovalIsFilter(m: Store, id: string, n: string, j: nat)
    requires WellFormed(m) && Managed(m, n) && j < |m[n].rules| && Id(m[n].rules[j]) == id
    ensures var c := if |m[n].rules| == 1 then Delete(n) else Patch(n, RemoveOps(m[n], j));
      Serve(m, c) == Some(FilterStore(m, {id}))
  {
    assert id in IdsIn(m[n]);
    OnlyHome(m, id, n);
    RemovalByIndex(m, n, j);
  }

  lemma RemovalByIndex(m: Store, n: string, j: nat)
    requires Managed(m, n) && Tidy(m[n]) && UniqueIn(m[n]) && j < |m[n].rules|
    ensures var ing := m[n]; var ids := {Id(ing.rules[j])};
      && (Emptied(ing, ids) <==> |ing.rules| == 1)
      && (|ing.rules| > 1 ==> Serve(m, Patch(n, RemoveOps(ing, j))) == Some(m[n := FilteredIfTouched(ing, ids)]))
  {
    var ing := m[n];
    RemoveIsFilter(ing, j);
    RemoveOpsEffect(ing, j);
    assert Id(ing.rules[j]) in {Id(ing.rules[j])};
    assert |Without(ing.rules, j)| == |ing.rules| - 1;
  }

  lemma ServeOne(m: Store, c: Call)
    ensures ServeAll(m, [c]) == Serve(m, c)
  {
    assert [c][1..] == [];
  }

  /** An error-free Deprovision deletes its route from the table, if it is there. */
  lemma DeprovisionRefines(m: Store, ls: seq<Listed>, id: string, m': Store)
    requires IsListing(ls, m) && WellFormed(m) && ServeAll(m, DeprovisionCalls(ls, id)) == Some(m')
    ensures WellFormed(m') && Table(m') == Table(m) - {id}
  {
    DeprovisionIsFilter(m, ls, id);
    FilterStoreRefines(m, {id});
  }

  // ---------------------------------------------------------------- BatchDeprovision

  function Names(ls: seq<Listed>): set<string> {
    set i | 0 <= i < |ls| :: ls[i].name
  }

  /** The cluster after the listed Ingresses have been dealt with. */
  function FilterNamed(m: Store, ids: set<string>, names: set<string>): Store {
    map n | n in m && !(n in names && Emptied(m[n], ids)) ::
      if n in names then FilteredIfTouched(m[n], ids) else m[n]
  }

  /** The one thing that can stop a batch removal, apart from the network: an Ingress that loses
      some of its rules, keeps others, and has no TLS entry. */
  predicate Replaceable(ing: Ingress, ids: set<string>) {
    Touched(ing, ids) && KeepRules(ing.rules, ids) != [] ==> ing.tls != []
  }

  /** A listing that may be incomplete. */
  predicate Lists(ls: seq<Listed>, m: Store) {
    && (forall i :: 0 <= i < |ls| ==> ls[i].name in m && m[ls[i].name] == ls[i].ingress && ls[i].ingress.managed)
    && (forall i, j :: 0 <= i < j < |ls| ==> ls[i].name != ls[j].name)
  }

  predicate AllReplaceable(ls: seq<Listed>, ids: set<string>) {
    forall i :: 0 <= i < |ls| ==> Replaceable(ls[i].ingress, ids)
  }

  lemma Snoc(ls: seq<Listed>, m: Store, ids: set<string>)
    requires Lists(ls, m) && ls != []
    ensures var last := |ls| - 1;
      && Lists(ls[..last], m)
      && ls[last].name !in Names(ls[..last])
      && Names(ls) == Names(ls[..last]) + {ls[last].name}
      && (AllReplaceable(ls, ids) <==> AllReplaceable(ls[..last], ids) && Replaceable(ls[last].ingress, ids))
  {
    var last := |ls| - 1;
    var init := ls[..last];
    assert ls == init + [ls[last]];
    forall n | n in Names(init) ensures n in Names(ls) {
      var i :| 0 <= i < last && init[i].name == n;
      assert ls[i].name == n;
    }
    if AllReplaceable(init, ids) && Replaceable(ls[last].ingress, ids) {
      assert forall i :: 0 <= i < last ==> ls[i] == init[i];
    }
    if AllReplaceable(ls, ids) {
      assert forall i :: 0 <= i < last ==> init[i] == ls[i];
    }
  }

  lemma {:induction false} BatchDeprovisionSteps(m: Store, ls: seq<Listed>, ids: set<string>)
    requires Lists(ls, m)
    ensures ServeAll(m, BatchDeprovisionCalls(ls, ids)) ==
      if AllReplaceable(ls, ids) then Some(FilterNamed(m, ids, Names(ls))) else None
  {
    if ls == [] {
      assert Names(ls) == {};
      assert FilterNamed(m, ids, {}) == m;
    } else {
      var init, l := ls[..|ls| - 1], ls[|ls| - 1];
      Snoc(ls, m, ids);
      BatchDeprovisionSteps(m, init, ids);
      ServeAllConcat(m, BatchDeprovisionCalls(init, ids), RemovalCall(l, ids));
      OneRemoval(m, ids, Names(init), l);
    }
  }

  lemma OneRemoval(m: Store, ids: set<string>, names: set<string>, l: Listed)
    requires l.name in m && m[l.name] == l.ingress && l.ingress.managed && l.name !in names
    ensures ServeAll(FilterNamed(m, ids, names), RemovalCall(l, ids)) ==
      if Replaceable(l.ingress, ids) then Some(FilterNamed(m, ids, names + {l.name})) else None
  {
    var a, b, ing := FilterNamed(m, ids, names), FilterNamed(m, ids, names + {l.name}), l.ingress;
    assert a[l.name] == ing;
    if !Touched(ing, ids) {
      assert a == b;
    } else {
      var left := Filtered(ing, ids);
      ServeOne(a, RemovalCall(l, ids)[0]);
      if left.rules == [] {
        assert b == a - {l.name};
      } else {
        ReplaceOpsEffect(ing, left.rules, left.tls);
        if ing.tls != [] {
          assert b == a[l.name := left];
        }
      }
    }
  }

  /** BatchDeprovision is all or nothing on the identifiers, on any cluster: when the API answers
      every call, it succeeds exactly if no partly emptied Ingress is without TLS, and then it is
      the filter. */
  lemma BatchDeprovisionIsFilter(m: Store, ls: seq<Listed>, ids: set<string>)
    requires IsListing(ls, m)
    ensures ServeAll(m, BatchDeprovisionCalls(ls, ids)) ==
      if forall n :: n in m && m[n].managed ==> Replaceable(m[n], ids) then Some(FilterStore(m, ids)) else None
  {
    BatchDeprovisionSteps(m, ls, ids);
    forall n | n in m && m[n].managed ensures n in Names(ls) {
      var i :| 0 <= i < |ls| && ls[i].name == n;
    }
    assert FilterNamed(m, ids, Names(ls)) == FilterStore(m, ids);
    if AllReplaceable(ls, ids) {
      forall n | n in m && m[n].managed ensures Replaceable(m[n], ids) {
        var i :| 0 <= i < |ls| && ls[i].name == n;
      }
    }
  }

  /** An error-free BatchDeprovision subtracts its identifiers from the table. */
  lemma BatchDeprovisionRefines(m: Store, ls: seq<Listed>, ids: set<string>, m': Store)
    requires IsListing(ls, m) && WellFormed(m) && ServeAll(m, BatchDeprovisionCalls(ls, ids)) == Some(m')
    ensures WellFormed(m') && Table(m') == Table(m) - ids
  {
    BatchDeprovisionIsFilter(m, ls, ids);
    FilterStoreRefines(m, ids);
  }

  // ---------------------------------------------------------------- one at a time, and all at once

  lemma FilterIngressTwice(ing: Ingress, a: set<string>, b: set<string>)
    requires ing.managed && Tidy(ing) && UniqueIn(ing)
    ensures Emptied(ing, a + b) <==> Emptied(ing, a) || Emptied(FilteredIfTouched(ing, a), b)
    ensures FilteredIfTouched(FilteredIfTouched(ing, a), b) == FilteredIfTouched(ing, a + b)
  {
    var f := Filtered(ing, a);
    FilterInStore(ing, a);
    FilterInStore(f, b);
    FilterInStore(ing, a + b);
    FilterTwice(ing, a, b);
    EmptiedIds(ing, a);
    EmptiedIds(f, b);
    EmptiedIds(ing, a + b);
  }

  lemma EmptiedIds(ing: Ingress, ids: set<string>)
    requires ing.managed
    ensures Emptied(ing, ids) <==> IdsIn(ing) != {} && IdsIn(ing) <= ids
  {
    TouchedMeets(ing, ids);
    KeptIds(ing, ids);
    if IdsIn(ing) != {} && IdsIn(ing) <= ids {
      var id :| id in IdsIn(ing);
      assert id in IdsIn(ing) * ids;
    }
  }

  lemma FilterStoreTwice(m: Store, a: set<string>, b: set<string>)
    requires WellFormed(m)
    ensures FilterStore(FilterStore(m, a), b) == FilterStore(m, a + b)
  {
    forall n | n in m
      ensures Emptied(m[n], a + b) <==> Emptied(m[n], a) || Emptied(FilteredIfTouched(m[n], a), b)
      ensures FilteredIfTouched(FilteredIfTouched(m[n], a), b) == FilteredIfTouched(m[n], a + b)
    {
      if m[n].managed {
        FilterIngressTwice(m[n], a, b);
      }
    }
  }

  /** Deprovisioning the identifiers one after the other, each call with a listing of its own. */
  function Singly(m: Store, ids: seq<string>, lists: seq<seq<Listed>>): Option<Store>
    requires |ids| == |lists|
    decreases |ids|
  {
    if ids == [] then Some(m)
    else
      var m' := ServeAll(m, DeprovisionCalls(lists[0], ids[0]));
      if m'.None? then None else Singly(m'.value, ids[1..], lists[1..])
  }

  predicate ListedSingly(m: Store, ids: seq<string>, lists: seq<seq<Listed>>)
    requires |ids| == |lists|
    decreases |ids|
  {
    ids == [] ||
    (&& IsListing(lists[0], m)
     && var m' := ServeAll(m, DeprovisionCalls(lists[0], ids[0]));
        m'.Some? ==> ListedSingly(m'.value, ids[1..], lists[1..]))
  }

  lemma {:induction false} SinglyIsFilter(m: Store, ids: seq<string>, lists: seq<seq<Listed>>)
    requires WellFormed(m) && |ids| == |lists| && ListedSingly(m, ids, lists)
    ensures Singly(m, ids, lists) == Some(FilterStore(m, IdSet(ids)))
    decreases |ids|
  {
    if ids == [] {
      forall n | n in m ensures !Emptied(m[n], {}) && FilteredIfTouched(m[n], {}) == m[n] {
      }
      assert IdSet(ids) == {};
      assert FilterStore(m, {}) == m;
    } else {
      DeprovisionIsFilter(m, lists[0], ids[0]);
      var m1 := FilterStore(m, {ids[0]});
      FilterStoreRefines(m, {ids[0]});
      SinglyIsFilter(m1, ids[1..], lists[1..]);
      FilterStoreTwice(m, {ids[0]}, IdSet(ids[1..]));
      assert IdSet(ids) == {ids[0]} + IdSet(ids[1..]);
    }
  }

  /** Deprovisioning one at a time always succeeds on a well-formed store, and leaves, Ingress by
      Ingress, the very store that one successful BatchDeprovision leaves. */
  lemma SinglyIsBatch(m: Store, ids: seq<string>, lists: seq<seq<Listed>>, ls: seq<Listed>)
    requires WellFormed(m) && |ids| == |lists| && ListedSingly(m, ids, lists) && IsListing(ls, m)
    ensures Singly(m, ids, lists).Some?
    ensures var batch := ServeAll(m, BatchDeprovisionCalls(ls, IdSet(ids))); batch.Some? ==> batch == Singly(m, ids, lists)
  {
    SinglyIsFilter(m, ids, lists);
    BatchDeprovisionIsFilter(m, ls, IdSet(ids));
  }
}
