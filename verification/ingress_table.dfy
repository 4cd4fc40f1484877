/** The flat route table that a packed store stands for, and what each edit of one Ingress does to it. */
module IngressTable {
  import opened Core
  import opened Kube
  import opened Mapper
  import opened IngressPlan

  /** One route: its rule and, when it has one, its TLS entry. */
  datatype Entry = Entry(rule: Rule, tls: Option<Tls>)

  type Routes = map<string, Entry>

  // ---------------------------------------------------------------- one Ingress

  function Id(r: Rule): string {
    RouteId(r.host)
  }

  function IdsIn(ing: Ingress): set<string> {
    set j | 0 <= j < |ing.rules| :: Id(ing.rules[j])
  }

  predicate UniqueIn(ing: Ingress) {
    forall a, b :: 0 <= a < b < |ing.rules| ==> Id(ing.rules[a]) != Id(ing.rules[b])
  }

  function TlsOf(tls: seq<Tls>, host: string): Option<Tls> {
    var k := FindEntry(tls, host, 0);
    if k.Some? then Some(tls[k.value]) else None
  }

  function EntryAt(ing: Ingress, j: nat): Entry
    requires j < |ing.rules|
  {
    Entry(ing.rules[j], TlsOf(ing.tls, ing.rules[j].host))
  }

  function RoutesIn(ing: Ingress): (t: Routes)
    ensures t.Keys == IdsIn(ing)
  {
    map id | id in IdsIn(ing) ::
      var j := FindRule(ing.rules, id, 0);
      if j.Some? then EntryAt(ing, j.value) else assert false; Entry(Rule("", "", "", 0), None)
  }

  lemma RouteAt(ing: Ingress, j: nat)
    requires UniqueIn(ing) && j < |ing.rules|
    ensures Id(ing.rules[j]) in IdsIn(ing)
    ensures RoutesIn(ing)[Id(ing.rules[j])] == EntryAt(ing, j)
  {
    var f := FindRule(ing.rules, Id(ing.rules[j]), 0);
    assert HasId(ing.rules[j], Id(ing.rules[j]));
    assert f.Some? && Id(ing.rules[f.value]) == Id(ing.rules[j]);
  }

  /** To know an Ingress's routes it is enough to know each rule's entry. */
  lemma RoutesInAre(ing: Ingress, t: Routes)
    requires UniqueIn(ing) && t.Keys == IdsIn(ing)
    requires forall j :: 0 <= j < |ing.rules| ==> t[Id(ing.rules[j])] == EntryAt(ing, j)
    ensures RoutesIn(ing) == t
  {
    forall id | id in t ensures RoutesIn(ing)[id] == t[id] {
      var j :| 0 <= j < |ing.rules| && Id(ing.rules[j]) == id;
      RouteAt(ing, j);
    }
  }

  predicate SingleHosts(tls: seq<Tls>) {
    forall k :: 0 <= k < |tls| ==> |tls[k].hosts| == 1
  }

  predicate DistinctHosts(tls: seq<Tls>)
    requires SingleHosts(tls)
  {
    forall a, b :: 0 <= a < b < |tls| ==> tls[a].hosts[0] != tls[b].hosts[0]
  }

  predicate HasRuleFor(rules: seq<Rule>, host: string) {
    exists j :: 0 <= j < |rules| && rules[j].host == host
  }

  /** Each TLS entry is for a single host, which is unique and has a rule in the same Ingress. */
  predicate Tidy(ing: Ingress) {
    && SingleHosts(ing.tls)
    && DistinctHosts(ing.tls)
    && forall k :: 0 <= k < |ing.tls| ==> HasRuleFor(ing.rules, ing.tls[k].hosts[0])
  }

  lemma InSingleton(s: seq<string>, x: string)
    requires |s| == 1
    ensures x in s <==> s[0] == x
  {
  }

  lemma {:induction false} FindsFrom(tls: seq<Tls>, k: nat, a: nat)
    requires SingleHosts(tls) && DistinctHosts(tls) && a <= k < |tls|
    ensures FindEntry(tls, tls[k].hosts[0], a) == Some(k)
    decreases k - a
  {
    InSingleton(tls[a].hosts, tls[k].hosts[0]);
    if a < k {
      FindsFrom(tls, k, a + 1);
    }
  }

  lemma TlsOfIs(tls: seq<Tls>, k: nat)
    requires SingleHosts(tls) && DistinctHosts(tls) && k < |tls|
    ensures FindEntry(tls, tls[k].hosts[0], 0) == Some(k)
  {
    FindsFrom(tls, k, 0);
  }

  lemma TlsOfHost(tls: seq<Tls>, host: string)
    requires SingleHosts(tls) && FindEntry(tls, host, 0).Some?
    ensures tls[FindEntry(tls, host, 0).value].hosts == [host]
  {
    var k := FindEntry(tls, host, 0).value;
    assert |tls[k].hosts| == 1;
  }

  lemma TlsOfAppend(a: seq<Tls>, b: seq<Tls>, host: string)
    ensures TlsOf(a + b, host) == if TlsOf(a, host).Some? then TlsOf(a, host) else TlsOf(b, host)
  {
    var f, g, h := FindEntry(a, host, 0), FindEntry(b, host, 0), FindEntry(a + b, host, 0);
    assert forall k :: 0 <= k < |a| ==> (a + b)[k] == a[k];
    assert forall k :: 0 <= k < |b| ==> (a + b)[|a| + k] == b[k];
    if f.Some? {
      assert host in (a + b)[f.value].hosts;
    } else if g.Some? {
      assert host in (a + b)[|a| + g.value].hosts;
      assert h.Some? && h.value >= |a| && host in b[h.value - |a|].hosts;
    }
  }

  // ---------------------------------------------------------------- editing one Ingress

  predicate ForHost(m: Mapped) {
    && m.rule.host == m.req.host
    && (m.tls.Some? ==> m.tls.value.hosts == [m.req.host])
  }

  /** Putting an entry for `host` where the entry for `prior` stood, or at the end. */
  lemma MovedLookup(tls: seq<Tls>, tls': seq<Tls>, prior: string, host: string, e: Tls, h: string)
    requires SingleHosts(tls) && DistinctHosts(tls) && e.hosts == [host]
    requires prior != host ==> TlsOf(tls, host).None?
    requires var f := FindEntry(tls, prior, 0); tls' == if f.Some? then tls[f.value := e] else tls + [e]
    ensures SingleHosts(tls') && DistinctHosts(tls')
    ensures h == host || h != prior ==> TlsOf(tls', h) == if h == host then Some(e) else TlsOf(tls, h)
  {
    var f := FindEntry(tls, prior, 0);
    if f.Some? {
      TlsOfHost(tls, prior);
    }
    NoOtherEntry(tls, host, prior);
    assert SingleHosts(tls');
    assert DistinctHosts(tls');
    hide DistinctHosts;
    if h == host {
      TlsOfIs(tls', if f.Some? then f.value else |tls|);
    } else if h != prior {
      var g := FindEntry(tls, h, 0);
      if g.Some? {
        TlsOfHost(tls, h);
        assert tls'[g.value] == tls[g.value];
        TlsOfIs(tls', g.value);
      }
    }
  }

  lemma NoOtherEntry(tls: seq<Tls>, host: string, prior: string)
    requires SingleHosts(tls) && DistinctHosts(tls) && (prior != host ==> TlsOf(tls, host).None?)
    ensures forall k :: 0 <= k < |tls| && tls[k].hosts[0] == host ==> prior == host && FindEntry(tls, prior, 0) == Some(k)
  {
    forall k | 0 <= k < |tls| && tls[k].hosts[0] == host
      ensures prior == host && FindEntry(tls, prior, 0) == Some(k)
    {
      TlsOfIs(tls, k);
    }
  }

  /** Insert, or replace; a replacement without TLS leaves the route's TLS entry as it is. */
  function Inserted(t: Routes, m: Mapped): Routes {
    var id := RouteId(m.req.host);
    t[id := Entry(m.rule, if m.tls.Some? then m.tls else if id in t then t[id].tls else None)]
  }

  function Updated(ing: Ingress, j: nat, m: Mapped): Ingress
    requires j < |ing.rules|
  {
    ing.(rules := ing.rules[j := m.rule], tls := TlsAfterUpdate(ing, j, m.tls))
  }

  /** The update leaves no TLS entry behind for a host it takes the rule away from. */
  predicate NoStaleTls(ing: Ingress, j: nat, m: Mapped)
    requires j < |ing.rules|
  {
    ing.rules[j].host == m.req.host || m.tls.Some? || TlsOf(ing.tls, ing.rules[j].host).None?
  }

  predicate Updatable(ing: Ingress, j: nat, m: Mapped) {
    Tidy(ing) && UniqueIn(ing) && j < |ing.rules| && ForHost(m) && Id(ing.rules[j]) == RouteId(m.req.host)
  }

  /** The host that takes over a rule has no TLS entry yet. */
  lemma NewHostNoTls(ing: Ingress, j: nat, m: Mapped)
    requires Updatable(ing, j, m) && ing.rules[j].host != m.req.host
    ensures TlsOf(ing.tls, m.req.host).None?
  {
    forall i | 0 <= i < |ing.rules| ensures ing.rules[i].host != m.req.host {
      assert i < j ==> Id(ing.rules[i]) != Id(ing.rules[j]);
      assert j < i ==> Id(ing.rules[j]) != Id(ing.rules[i]);
    }
    if FindEntry(ing.tls, m.req.host, 0).Some? {
      TlsOfHost(ing.tls, m.req.host);
    }
  }

  /** An update in place leaves every other host's TLS alone. */
  lemma UpdateLookups(ing: Ingress, j: nat, m: Mapped, h: string)
    requires Updatable(ing, j, m) && NoStaleTls(ing, j, m)
    ensures SingleHosts(Updated(ing, j, m).tls) && DistinctHosts(Updated(ing, j, m).tls)
    ensures h == m.req.host ==>
      TlsOf(Updated(ing, j, m).tls, h) == if m.tls.Some? then m.tls else TlsOf(ing.tls, ing.rules[j].host)
    ensures h != m.req.host && h != ing.rules[j].host ==> TlsOf(Updated(ing, j, m).tls, h) == TlsOf(ing.tls, h)
  {
    if ing.rules[j].host != m.req.host {
      NewHostNoTls(ing, j, m);
    }
    if m.tls.Some? {
      MovedLookup(ing.tls, Updated(ing, j, m).tls, ing.rules[j].host, m.req.host, m.tls.value, h);
    }
  }

  lemma UpdateTidy(ing: Ingress, j: nat, m: Mapped)
    requires Updatable(ing, j, m) && NoStaleTls(ing, j, m)
    ensures Tidy(Updated(ing, j, m))
  {
    var ing' := Updated(ing, j, m);
    UpdateLookups(ing, j, m, "");
    forall k | 0 <= k < |ing'.tls| ensures HasRuleFor(ing'.rules, ing'.tls[k].hosts[0]) {
      if m.tls.Some? && ing'.tls[k] == m.tls.value {
        assert ing'.rules[j].host == ing'.tls[k].hosts[0];
      } else {
        KeptEntryHasRule(ing, j, m, k);
      }
    }
  }

  lemma KeptEntryHasRule(ing: Ingress, j: nat, m: Mapped, k: nat)
    requires Updatable(ing, j, m) && NoStaleTls(ing, j, m) && k < |Updated(ing, j, m).tls|
    requires m.tls.Some? ==> Updated(ing, j, m).tls[k] != m.tls.value
    ensures k < |ing.tls| && HasRuleFor(Updated(ing, j, m).rules, ing.tls[k].hosts[0]) && Updated(ing, j, m).tls[k] == ing.tls[k]
  {
    var i :| 0 <= i < |ing.rules| && ing.rules[i].host == ing.tls[k].hosts[0];
    if i == j {
      TlsOfIs(ing.tls, k);
    }
    assert Updated(ing, j, m).rules[i].host == ing.tls[k].hosts[0];
  }

  /** Otherwise a TLS entry is left whose host has no rule any more. */
  lemma StaleTls(ing: Ingress, j: nat, m: Mapped)
    requires Updatable(ing, j, m) && !NoStaleTls(ing, j, m)
    ensures !Tidy(Updated(ing, j, m))
  {
    var ing', prior := Updated(ing, j, m), ing.rules[j].host;
    TlsOfHost(ing.tls, prior);
    var k := FindEntry(ing.tls, prior, 0).value;
    assert ing'.tls[k].hosts[0] == prior;
    forall i | 0 <= i < |ing'.rules| ensures ing'.rules[i].host != prior {
      assert i < j ==> Id(ing.rules[i]) != Id(ing.rules[j]);
      assert j < i ==> Id(ing.rules[j]) != Id(ing.rules[i]);
    }
    assert !HasRuleFor(ing'.rules, prior);
  }

  lemma UpdateEntry(ing: Ingress, j: nat, m: Mapped, i: nat)
    requires Updatable(ing, j, m) && NoStaleTls(ing, j, m) && i < |ing.rules|
    ensures Id(ing.rules[i]) in Inserted(RoutesIn(ing), m)
    ensures Inserted(RoutesIn(ing), m)[Id(ing.rules[i])] == EntryAt(Updated(ing, j, m), i)
  {
    RouteAt(ing, i);
    RouteAt(ing, j);
    UpdateLookups(ing, j, m, if i == j then m.req.host else ing.rules[i].host);
    assert i < j ==> Id(ing.rules[i]) != Id(ing.rules[j]);
    assert j < i ==> Id(ing.rules[j]) != Id(ing.rules[i]);
  }

  lemma SameIds(ing: Ingress, ing': Ingress)
    requires |ing.rules| == |ing'.rules| && forall i :: 0 <= i < |ing.rules| ==> Id(ing'.rules[i]) == Id(ing.rules[i])
    ensures IdsIn(ing) == IdsIn(ing') && (UniqueIn(ing) <==> UniqueIn(ing'))
  {
    assert forall id :: id in IdsIn(ing) ==> id in IdsIn(ing');
    assert forall id :: id in IdsIn(ing') ==> id in IdsIn(ing);
  }

  lemma UpdateIds(ing: Ingress, j: nat, m: Mapped)
    requires Updatable(ing, j, m)
    ensures var ing' := Updated(ing, j, m);
      && UniqueIn(ing') && IdsIn(ing') == IdsIn(ing) == Inserted(RoutesIn(ing), m).Keys
      && |ing'.rules| == |ing.rules| && forall i :: 0 <= i < |ing.rules| ==> Id(ing'.rules[i]) == Id(ing.rules[i])
  {
    SameIds(ing, Updated(ing, j, m));
    RouteAt(ing, j);
  }

  lemma UpdateRoutes(ing: Ingress, j: nat, m: Mapped)
    requires Updatable(ing, j, m) && NoStaleTls(ing, j, m)
    ensures UniqueIn(Updated(ing, j, m)) && IdsIn(Updated(ing, j, m)) == IdsIn(ing)
    ensures RoutesIn(Updated(ing, j, m)) == Inserted(RoutesIn(ing), m)
  {
    var ing', t' := Updated(ing, j, m), Inserted(RoutesIn(ing), m);
    UpdateIds(ing, j, m);
    hide UniqueIn, Tidy, Updatable, NoStaleTls, IdsIn, EntryAt, Inserted;
    forall i | 0 <= i < |ing'.rules| ensures Id(ing'.rules[i]) in t' && t'[Id(ing'.rules[i])] == EntryAt(ing', i) {
      UpdateEntry(ing, j, m, i);
    }
    RoutesInAre(ing', t');
  }

  // ---------------------------------------------------------------- appending to an Ingress

  function Appended(ing: Ingress, rules: seq<Rule>, entries: seq<Tls>): Ingress {
    ing.(rules := ing.rules + rules, tls := ing.tls + entries)
  }

  /** What a group of mapped routes with distinct identifiers looks like as an Ingress of its own. */
  function Bundle(ms: seq<Mapped>): Ingress {
    Ingress(true, RulesOf(ms), EntriesOf(ms))
  }

  /** Appending rules whose identifiers are not there yet. */
  lemma AppendRoutes(a: Ingress, b: Ingress)
    requires UniqueIn(a) && UniqueIn(b) && Tidy(a) && Tidy(b) && IdsIn(a) !! IdsIn(b)
    ensures UniqueIn(Appended(a, b.rules, b.tls)) && Tidy(Appended(a, b.rules, b.tls))
    ensures RoutesIn(Appended(a, b.rules, b.tls)) == RoutesIn(a) + RoutesIn(b)
  {
    var c, t := Appended(a, b.rules, b.tls), RoutesIn(a) + RoutesIn(b);
    AppendTidy(a, b);
    forall i | 0 <= i < |c.rules| ensures Id(c.rules[i]) in t && t[Id(c.rules[i])] == EntryAt(c, i) {
      AppendEntry(a, b, i);
    }
    assert IdsIn(c) == IdsIn(a) + IdsIn(b) by {
      forall id | id in IdsIn(a) + IdsIn(b) ensures id in IdsIn(c) {
        if id in IdsIn(a) {
          var j :| 0 <= j < |a.rules| && Id(a.rules[j]) == id;
          assert Id(c.rules[j]) == id;
        } else {
          var j :| 0 <= j < |b.rules| && Id(b.rules[j]) == id;
          assert Id(c.rules[|a.rules| + j]) == id;
        }
      }
    }
    RoutesInAre(c, t);
  }

  lemma AppendTidy(a: Ingress, b: Ingress)
    requires UniqueIn(a) && UniqueIn(b) && Tidy(a) && Tidy(b) && IdsIn(a) !! IdsIn(b)
    ensures UniqueIn(Appended(a, b.rules, b.tls)) && Tidy(Appended(a, b.rules, b.tls))
  {
    var c := Appended(a, b.rules, b.tls);
    forall i, j | 0 <= i < j < |c.rules| ensures Id(c.rules[i]) != Id(c.rules[j]) {
      if i < |a.rules| <= j {
        assert Id(a.rules[i]) in IdsIn(a) && Id(b.rules[j - |a.rules|]) in IdsIn(b);
      }
    }
    assert forall k :: 0 <= k < |c.tls| ==> c.tls[k] == if k < |a.tls| then a.tls[k] else b.tls[k - |a.tls|];
    forall k | 0 <= k < |c.tls| ensures HasRuleFor(c.rules, c.tls[k].hosts[0]) {
      if k < |a.tls| {
        var j :| 0 <= j < |a.rules| && a.rules[j].host == a.tls[k].hosts[0];
        assert c.rules[j].host == c.tls[k].hosts[0];
      } else {
        var j :| 0 <= j < |b.rules| && b.rules[j].host == b.tls[k - |a.tls|].hosts[0];
        assert c.rules[|a.rules| + j].host == c.tls[k].hosts[0];
      }
    }
    forall x, y | 0 <= x < y < |c.tls| ensures c.tls[x].hosts[0] != c.tls[y].hosts[0] {
      if x < |a.tls| <= y {
        NoForeignEntry(a, b, x, y - |a.tls|);
      }
    }
  }

  lemma NoForeignEntry(a: Ingress, b: Ingress, x: nat, y: nat)
    requires Tidy(a) && Tidy(b) && IdsIn(a) !! IdsIn(b) && x < |a.tls| && y < |b.tls|
    ensures a.tls[x].hosts[0] != b.tls[y].hosts[0]
  {
    var i :| 0 <= i < |a.rules| && a.rules[i].host == a.tls[x].hosts[0];
    var j :| 0 <= j < |b.rules| && b.rules[j].host == b.tls[y].hosts[0];
    assert Id(a.rules[i]) in IdsIn(a) && Id(b.rules[j]) in IdsIn(b);
  }

  /** A host without a rule in an Ingress has no TLS entry there. */
  lemma NoRuleNoTls(a: Ingress, host: string)
    requires Tidy(a) && RouteId(host) !in IdsIn(a)
    ensures TlsOf(a.tls, host).None?
  {
    var f := FindEntry(a.tls, host, 0);
    if f.Some? {
      TlsOfHost(a.tls, host);
    }
  }

  /** A rule of either Ingress keeps its entry. */
  lemma AppendKeeps(a: Ingress, b: Ingress, i: nat)
    requires Tidy(a) && Tidy(b) && IdsIn(a) !! IdsIn(b)
    ensures i < |a.rules| ==> TlsOf(a.tls + b.tls, a.rules[i].host) == TlsOf(a.tls, a.rules[i].host)
    ensures i < |b.rules| ==> TlsOf(a.tls + b.tls, b.rules[i].host) == TlsOf(b.tls, b.rules[i].host)
  {
    hide Tidy, TlsOf;
    if i < |a.rules| {
      assert Id(a.rules[i]) in IdsIn(a);
      TlsOfAppend(a.tls, b.tls, a.rules[i].host);
      NoRuleNoTls(b, a.rules[i].host);
    }
    if i < |b.rules| {
      assert Id(b.rules[i]) in IdsIn(b);
      TlsOfAppend(a.tls, b.tls, b.rules[i].host);
      NoRuleNoTls(a, b.rules[i].host);
    }
  }

  lemma AppendEntry(a: Ingress, b: Ingress, i: nat)
    requires UniqueIn(a) && UniqueIn(b) && Tidy(a) && Tidy(b) && IdsIn(a) !! IdsIn(b)
    requires i < |a.rules| + |b.rules|
    ensures var c, t := Appended(a, b.rules, b.tls), RoutesIn(a) + RoutesIn(b);
      Id(c.rules[i]) in t && t[Id(c.rules[i])] == EntryAt(c, i)
  {
    hide Tidy, TlsOf, UniqueIn;
    if i < |a.rules| {
      RouteAt(a, i);
      AppendKeeps(a, b, i);
    } else {
      RouteAt(b, i - |a.rules|);
      AppendKeeps(a, b, i - |a.rules|);
    }
  }

  // ---------------------------------------------------------------- filtering an Ingress

  /** Filtering out the one rule that carries an identifier is removing it by its index. */
  lemma {:induction false} KeepAllButOne(rules: seq<Rule>, ids: set<string>, j: nat)
    requires j < |rules| && forall i :: 0 <= i < |rules| ==> (Id(rules[i]) in ids <==> i == j)
    ensures KeepRules(rules, ids) == Without(rules, j)
  {
    var last := |rules| - 1;
    if j == last {
      KeepAll(rules[..last], ids);
      assert Without(rules, j) == rules[..last];
    } else {
      KeepAllButOne(rules[..last], ids, j);
      assert Without(rules, j) == Without(rules[..last], j) + [rules[last]];
    }
  }

  lemma {:induction false} KeepAll(rules: seq<Rule>, ids: set<string>)
    requires forall i :: 0 <= i < |rules| ==> Id(rules[i]) !in ids
    ensures KeepRules(rules, ids) == rules
  {
    if rules != [] {
      KeepAll(rules[..|rules| - 1], ids);
    }
  }

  lemma {:induction false} KeepTlsNone(tls: seq<Tls>, removed: set<string>)
    requires SingleHosts(tls) && forall k :: 0 <= k < |tls| ==> tls[k].hosts[0] !in removed
    ensures KeepTls(tls, removed) == tls
  {
    if tls != [] {
      var last := |tls| - 1;
      KeepTlsNone(tls[..last], removed);
      KeepSingle(tls[last].hosts, removed);
    }
  }

  lemma KeepSingle(hosts: seq<string>, removed: set<string>)
    requires |hosts| == 1
    ensures KeepHosts(hosts, removed) == if hosts[0] in removed then [] else hosts
  {
    assert hosts[..0] == [];
    assert hosts == [hosts[0]];
  }

  lemma {:induction false} KeepTlsButOne(tls: seq<Tls>, removed: set<string>, k: nat)
    requires SingleHosts(tls) && k < |tls|
    requires forall i :: 0 <= i < |tls| ==> (tls[i].hosts[0] in removed <==> i == k)
    ensures KeepTls(tls, removed) == Without(tls, k)
  {
    var last := |tls| - 1;
    KeepSingle(tls[last].hosts, removed);
    if k == last {
      KeepTlsNone(tls[..last], removed);
      assert Without(tls, k) == tls[..last];
    } else {
      KeepTlsButOne(tls[..last], removed, k);
      assert Without(tls, k) == Without(tls[..last], k) + [tls[last]];
    }
  }

  /** Taking one route out by its indices gives the same Ingress as filtering by its identifier. */
  lemma RemoveIsFilter(ing: Ingress, j: nat)
    requires Tidy(ing) && UniqueIn(ing) && j < |ing.rules|
    ensures ing.(rules := Without(ing.rules, j), tls := TlsAfterRemove(ing, j)) == Filtered(ing, {Id(ing.rules[j])})
  {
    var host, ids := ing.rules[j].host, {Id(ing.rules[j])};
    KeepAllButOne(ing.rules, ids, j);
    var removed := RemovedHosts(ing.rules, ids);
    assert removed == {host} by {
      assert ing.rules[j] in ing.rules;
    }
    var f := FindEntry(ing.tls, host, 0);
    if f.Some? {
      TlsOfHost(ing.tls, host);
      KeepTlsButOne(ing.tls, removed, f.value);
    } else {
      forall k | 0 <= k < |ing.tls| ensures ing.tls[k].hosts[0] !in removed {
        InSingleton(ing.tls[k].hosts, host);
      }
      KeepTlsNone(ing.tls, removed);
    }
  }
}
