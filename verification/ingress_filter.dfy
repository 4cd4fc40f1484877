/** Filtering routes out of an Ingress: what is kept, and that filtering twice is filtering once. */
module IngressFilter {
  import opened Core
  import opened Kube
  import opened Mapper
  import opened IngressPlan
  import opened IngressTable

  lemma {:induction false} KeptRules(rules: seq<Rule>, ids: set<string>, x: Rule)
    ensures x in KeepRules(rules, ids) <==> x in rules && Id(x) !in ids
  {
    if rules != [] {
      var last := |rules| - 1;
      KeptRules(rules[..last], ids, x);
      assert rules == rules[..last] + [rules[last]];
    }
  }

  lemma KeptIds(ing: Ingress, ids: set<string>)
    ensures IdsIn(Filtered(ing, ids)) == IdsIn(ing) - ids
    ensures KeepRules(ing.rules, ids) == [] <==> IdsIn(ing) <= ids
  {
    var rs := KeepRules(ing.rules, ids);
    forall id | id in IdsIn(Filtered(ing, ids)) ensures id in IdsIn(ing) - ids {
      var j :| 0 <= j < |rs| && Id(rs[j]) == id;
      KeptRules(ing.rules, ids, rs[j]);
    }
    forall id | id in IdsIn(ing) - ids ensures id in IdsIn(Filtered(ing, ids)) {
      var j :| 0 <= j < |ing.rules| && Id(ing.rules[j]) == id;
      KeptRules(ing.rules, ids, ing.rules[j]);
      assert ing.rules[j] in rs;
    }
    if rs != [] {
      assert Id(rs[0]) in IdsIn(Filtered(ing, ids));
    } else {
      assert IdsIn(Filtered(ing, ids)) == {};
      assert forall id :: id in IdsIn(ing) ==> id !in IdsIn(ing) - ids;
    }
  }

  lemma {:induction false} KeptUnique(rules: seq<Rule>, ids: set<string>)
    requires forall a, b :: 0 <= a < b < |rules| ==> Id(rules[a]) != Id(rules[b])
    ensures var rs := KeepRules(rules, ids); forall a, b :: 0 <= a < b < |rs| ==> Id(rs[a]) != Id(rs[b])
  {
    if rules != [] {
      var last, rs := |rules| - 1, KeepRules(rules, ids);
      KeptUnique(rules[..last], ids);
      forall a, b | 0 <= a < b < |rs| ensures Id(rs[a]) != Id(rs[b]) {
        KeptRules(rules[..last], ids, rs[a]);
        if Id(rules[last]) !in ids && b == |rs| - 1 {
          var i :| 0 <= i < last && rules[i] == rs[a];
        }
      }
    }
  }

  lemma {:induction false} KeptTls(tls: seq<Tls>, removed: set<string>, x: Tls)
    requires SingleHosts(tls) && |x.hosts| == 1
    ensures x in KeepTls(tls, removed) <==> x in tls && x.hosts[0] !in removed
  {
    if tls != [] {
      var last := |tls| - 1;
      KeptTls(tls[..last], removed, x);
      KeepSingle(tls[last].hosts, removed);
      assert tls == tls[..last] + [tls[last]];
    }
  }

  lemma {:induction false} KeptTlsDistinct(tls: seq<Tls>, removed: set<string>)
    requires SingleHosts(tls) && DistinctHosts(tls)
    ensures SingleHosts(KeepTls(tls, removed)) && DistinctHosts(KeepTls(tls, removed))
  {
    if tls != [] {
      var last, ts := |tls| - 1, KeepTls(tls, removed);
      KeptTlsDistinct(tls[..last], removed);
      KeepSingle(tls[last].hosts, removed);
      forall a, b | 0 <= a < b < |ts| ensures ts[a].hosts[0] != ts[b].hosts[0] {
        KeptTls(tls[..last], removed, ts[a]);
        if |ts| > |KeepTls(tls[..last], removed)| && b == |ts| - 1 {
          var i :| 0 <= i < last && tls[i] == ts[a];
        }
      }
    }
  }

  lemma Lookup(tls: seq<Tls>, host: string, e: Tls)
    requires SingleHosts(tls) && DistinctHosts(tls) && e in tls && e.hosts == [host]
    ensures TlsOf(tls, host) == Some(e)
  {
    var k :| 0 <= k < |tls| && tls[k] == e;
    TlsOfIs(tls, k);
  }

  lemma KeptLookup(tls: seq<Tls>, removed: set<string>, host: string)
    requires SingleHosts(tls) && DistinctHosts(tls) && host !in removed
    ensures TlsOf(KeepTls(tls, removed), host) == TlsOf(tls, host)
  {
    var ts := KeepTls(tls, removed);
    KeptTlsDistinct(tls, removed);
    if TlsOf(tls, host).Some? {
      TlsOfHost(tls, host);
      var e := TlsOf(tls, host).value;
      KeptTls(tls, removed, e);
      Lookup(ts, host, e);
    } else if TlsOf(ts, host).Some? {
      TlsOfHost(ts, host);
      var e := TlsOf(ts, host).value;
      KeptTls(tls, removed, e);
      Lookup(tls, host, e);
    }
  }

  lemma FilterTidy(ing: Ingress, ids: set<string>)
    requires Tidy(ing) && UniqueIn(ing)
    ensures Tidy(Filtered(ing, ids)) && UniqueIn(Filtered(ing, ids))
  {
    var f, removed := Filtered(ing, ids), RemovedHosts(ing.rules, ids);
    KeptUnique(ing.rules, ids);
    KeptTlsDistinct(ing.tls, removed);
    forall k | 0 <= k < |f.tls| ensures HasRuleFor(f.rules, f.tls[k].hosts[0]) {
      var e := f.tls[k];
      KeptTls(ing.tls, removed, e);
      var i :| 0 <= i < |ing.tls| && ing.tls[i] == e;
      var j :| 0 <= j < |ing.rules| && ing.rules[j].host == e.hosts[0];
      assert ing.rules[j] in ing.rules;
      KeptRules(ing.rules, ids, ing.rules[j]);
      var j' :| 0 <= j' < |f.rules| && f.rules[j'] == ing.rules[j];
    }
  }

  lemma FilterEntry(ing: Ingress, ids: set<string>, j: nat)
    requires Tidy(ing) && UniqueIn(ing) && j < |Filtered(ing, ids).rules|
    ensures var f := Filtered(ing, ids); Id(f.rules[j]) in RoutesIn(ing) && RoutesIn(ing)[Id(f.rules[j])] == EntryAt(f, j)
  {
    var f, removed := Filtered(ing, ids), RemovedHosts(ing.rules, ids);
    KeptRules(ing.rules, ids, f.rules[j]);
    var i :| 0 <= i < |ing.rules| && ing.rules[i] == f.rules[j];
    RouteAt(ing, i);
    assert f.rules[j].host !in removed;
    KeptLookup(ing.tls, removed, f.rules[j].host);
  }

  lemma FilterRoutes(ing: Ingress, ids: set<string>)
    requires Tidy(ing) && UniqueIn(ing)
    ensures RoutesIn(Filtered(ing, ids)) == RoutesIn(ing) - ids
  {
    var f, t := Filtered(ing, ids), RoutesIn(ing) - ids;
    FilterTidy(ing, ids);
    KeptIds(ing, ids);
    forall j | 0 <= j < |f.rules| ensures t[Id(f.rules[j])] == EntryAt(f, j) {
      FilterEntry(ing, ids, j);
      assert Id(f.rules[j]) in IdsIn(f);
    }
    RoutesInAre(f, t);
  }

  /** An Ingress with none of the routes is left as it is. */
  lemma UntouchedIsFiltered(ing: Ingress, ids: set<string>)
    requires Tidy(ing) && !Touched(ing, ids)
    ensures Filtered(ing, ids) == ing
  {
    KeepAll(ing.rules, ids);
    var removed := RemovedHosts(ing.rules, ids);
    assert removed == {};
    KeepTlsNone(ing.tls, removed);
  }

  lemma TouchedMeets(ing: Ingress, ids: set<string>)
    ensures Touched(ing, ids) <==> IdsIn(ing) * ids != {}
  {
    if Touched(ing, ids) {
      var k :| 0 <= k < |ing.rules| && RouteId(ing.rules[k].host) in ids;
      assert Id(ing.rules[k]) in IdsIn(ing) * ids;
    } else {
      assert forall id :: id in IdsIn(ing) ==> id !in ids;
    }
  }

  // ---------------------------------------------------------------- filtering twice

  lemma KeepRulesSnoc(rules: seq<Rule>, x: Rule, ids: set<string>)
    ensures KeepRules(rules + [x], ids) == if Id(x) in ids then KeepRules(rules, ids) else KeepRules(rules, ids) + [x]
  {
    assert (rules + [x])[..|rules|] == rules;
  }

  lemma {:induction false} KeepRulesTwice(rules: seq<Rule>, a: set<string>, b: set<string>)
    ensures KeepRules(KeepRules(rules, a), b) == KeepRules(rules, a + b)
  {
    if rules != [] {
      var last := |rules| - 1;
      KeepRulesTwice(rules[..last], a, b);
      KeepRulesSnoc(KeepRules(rules[..last], a), rules[last], b);
    }
  }

  lemma KeepHostsSnoc(hosts: seq<string>, x: string, removed: set<string>)
    ensures KeepHosts(hosts + [x], removed) ==
      if x in removed then KeepHosts(hosts, removed) else KeepHosts(hosts, removed) + [x]
  {
    assert (hosts + [x])[..|hosts|] == hosts;
  }

  lemma {:induction false} KeepHostsTwice(hosts: seq<string>, a: set<string>, b: set<string>)
    ensures KeepHosts(KeepHosts(hosts, a), b) == KeepHosts(hosts, a + b)
  {
    if hosts != [] {
      var last := |hosts| - 1;
      KeepHostsTwice(hosts[..last], a, b);
      KeepHostsSnoc(KeepHosts(hosts[..last], a), hosts[last], b);
    }
  }

  lemma KeepTlsSnoc(tls: seq<Tls>, x: Tls, removed: set<string>)
    ensures KeepTls(tls + [x], removed) ==
      var hosts := KeepHosts(x.hosts, removed);
      if hosts == [] then KeepTls(tls, removed) else KeepTls(tls, removed) + [x.(hosts := hosts)]
  {
    assert (tls + [x])[..|tls|] == tls;
  }

  lemma {:induction false} KeepTlsTwice(tls: seq<Tls>, a: set<string>, b: set<string>)
    ensures KeepTls(KeepTls(tls, a), b) == KeepTls(tls, a + b)
  {
    if tls != [] {
      var last := |tls| - 1;
      var hosts := KeepHosts(tls[last].hosts, a);
      KeepTlsTwice(tls[..last], a, b);
      KeepHostsTwice(tls[last].hosts, a, b);
      KeepTlsSnoc(KeepTls(tls[..last], a), tls[last].(hosts := hosts), b);
    }
  }

  lemma FilterTwice(ing: Ingress, a: set<string>, b: set<string>)
    ensures Filtered(Filtered(ing, a), b) == Filtered(ing, a + b)
  {
    KeepRulesTwice(ing.rules, a, b);
    var ra, rb := RemovedHosts(ing.rules, a), RemovedHosts(KeepRules(ing.rules, a), b);
    assert ra + rb == RemovedHosts(ing.rules, a + b) by {
      forall h | h in RemovedHosts(ing.rules, a + b) ensures h in ra + rb {
        var r :| r in ing.rules && Id(r) in a + b && r.host == h;
        KeptRules(ing.rules, a, r);
      }
      forall h | h in rb ensures h in RemovedHosts(ing.rules, a + b) {
        var r :| r in KeepRules(ing.rules, a) && Id(r) in b && r.host == h;
        KeptRules(ing.rules, a, r);
      }
    }
    KeepTlsTwice(ing.tls, ra, rb);
  }

  // ---------------------------------------------------------------- entries for several hosts

  lemma {:induction false} KeptHostsAre(hosts: seq<string>, removed: set<string>, h: string)
    ensures h in KeepHosts(hosts, removed) <==> h in hosts && h !in removed
  {
    if hosts != [] {
      var last := |hosts| - 1;
      KeptHostsAre(hosts[..last], removed, h);
      assert hosts == hosts[..last] + [hosts[last]];
    }
  }

  /** Some entry has the host under the Secret. */
  predicate Secured(tls: seq<Tls>, h: string, secretName: string) {
    exists k :: 0 <= k < |tls| && h in tls[k].hosts && tls[k].secretName == secretName
  }

  lemma SecuredSnoc(tls: seq<Tls>, e: Tls, h: string, secretName: string)
    ensures Secured(tls + [e], h, secretName) <==> Secured(tls, h, secretName) || (h in e.hosts && e.secretName == secretName)
  {
    var all := tls + [e];
    assert all[|tls|] == e && forall k :: 0 <= k < |tls| ==> all[k] == tls[k];
  }

  /** Whatever the entries, also those for several hosts that others have written: removing hosts leaves
      every other host its Secret, the removed ones none, and no entry without hosts. */
  lemma {:induction false} KeptTlsSecures(tls: seq<Tls>, removed: set<string>, h: string, secretName: string)
    ensures Secured(KeepTls(tls, removed), h, secretName) <==> Secured(tls, h, secretName) && h !in removed
    ensures forall k :: 0 <= k < |KeepTls(tls, removed)| ==> KeepTls(tls, removed)[k].hosts != []
  {
    if tls != [] {
      var init, last := tls[..|tls| - 1], tls[|tls| - 1];
      KeptTlsSecures(init, removed, h, secretName);
      KeptHostsAre(last.hosts, removed, h);
      SecuredSnoc(init, last, h, secretName);
      SecuredSnoc(KeepTls(init, removed), last.(hosts := KeepHosts(last.hosts, removed)), h, secretName);
      assert tls == init + [last];
    }
  }
}
