/** What the Ingress provisioner asks of the API, as a function of the listing it took: which
    operation a call consists of, and what the patches it builds do to an Ingress. */
module IngressPlan {
  import opened Core
  import opened Kube
  import opened Mapper

  /** `max` is how many routes fit an Ingress; secret names are injected. */
  datatype Config = Config(max: nat, secretName: string -> string, namespace: string)

  datatype Mapped = Mapped(req: RouteRequest, rule: Rule, tls: Option<Tls>)

  function MapRoute(cfg: Config, req: RouteRequest): Result<Mapped, string> {
    match MapRule(req)
    case Err(e) => Err(e)
    case Ok(rule) => Ok(Mapped(req, rule, if req.tls then Some(MapTls(req, cfg.secretName)) else None))
  }

  function MapRoutes(cfg: Config, reqs: seq<RouteRequest>): (r: Result<seq<Mapped>, string>)
    ensures r.Ok? <==> forall k :: 0 <= k < |reqs| ==> MapRoute(cfg, reqs[k]).Ok?
    ensures r.Ok? ==> |r.value| == |reqs| && forall k :: 0 <= k < |reqs| ==> MapRoute(cfg, reqs[k]) == Ok(r.value[k])
  {
    if reqs == [] then Ok([])
    else
      var last := |reqs| - 1;
      var init := MapRoutes(cfg, reqs[..last]);
      if init.Err? then init
      else
        match MapRoute(cfg, reqs[last])
        case Err(e) => Err(e)
        case Ok(m) => Ok(init.value + [m])
  }

  function RulesOf(ms: seq<Mapped>): (rs: seq<Rule>)
    ensures |rs| == |ms| && forall k :: 0 <= k < |ms| ==> rs[k] == ms[k].rule
  {
    seq(|ms|, k requires 0 <= k < |ms| => ms[k].rule)
  }

  /** The TLS entries of the routes that have one, in order. */
  function EntriesOf(ms: seq<Mapped>): seq<Tls> {
    if ms == [] then []
    else
      var last := |ms| - 1;
      EntriesOf(ms[..last]) + (if ms[last].tls.Some? then [ms[last].tls.value] else [])
  }

  // ---------------------------------------------------------------- looking things up

  predicate HasId(r: Rule, id: string) {
    RouteId(r.host) == id
  }

  /** The first rule with the identifier, from position j on. */
  function FindRule(rules: seq<Rule>, id: string, j: nat): (r: Option<nat>)
    requires j <= |rules|
    ensures r.Some? ==> j <= r.value < |rules| && HasId(rules[r.value], id)
    ensures forall k :: j <= k < (if r.Some? then r.value else |rules|) ==> !HasId(rules[k], id)
    decreases |rules| - j
  {
    if j == |rules| then None else if HasId(rules[j], id) then Some(j) else FindRule(rules, id, j + 1)
  }

  datatype Place = Place(ingress: nat, rule: nat)

  function Find(ls: seq<Listed>, id: string, i: nat): (r: Option<Place>)
    requires i <= |ls|
    ensures r.Some? ==> i <= r.value.ingress < |ls|
    ensures r.Some? ==> r.value.rule < |ls[r.value.ingress].ingress.rules|
    ensures r.Some? ==> HasId(ls[r.value.ingress].ingress.rules[r.value.rule], id)
    ensures r.None? ==> forall k, j :: i <= k < |ls| && 0 <= j < |ls[k].ingress.rules| ==> !HasId(ls[k].ingress.rules[j], id)
    decreases |ls| - i
  {
    if i == |ls| then None
    else
      var j := FindRule(ls[i].ingress.rules, id, 0);
      if j.Some? then Some(Place(i, j.value)) else Find(ls, id, i + 1)
  }

  function FindEntry(tls: seq<Tls>, host: string, k: nat): (r: Option<nat>)
    requires k <= |tls|
    ensures r.Some? ==> k <= r.value < |tls| && host in tls[r.value].hosts
    ensures forall m :: k <= m < (if r.Some? then r.value else |tls|) ==> host !in tls[m].hosts
    decreases |tls| - k
  {
    if k == |tls| then None else if host in tls[k].hosts then Some(k) else FindEntry(tls, host, k + 1)
  }

  function FindRoom(ls: seq<Listed>, max: nat, i: nat): (r: Option<nat>)
    requires i <= |ls|
    ensures r.Some? ==> i <= r.value < |ls| && |ls[r.value].ingress.rules| < max
    ensures forall k :: i <= k < (if r.Some? then r.value else |ls|) ==> max <= |ls[k].ingress.rules|
    decreases |ls| - i
  {
    if i == |ls| then None else if |ls[i].ingress.rules| < max then Some(i) else FindRoom(ls, max, i + 1)
  }

  // ---------------------------------------------------------------- patches and what they do

  function RuleAdds(rules: seq<Rule>): (ops: seq<PatchOp>)
    ensures |ops| == |rules|
  {
    seq(|rules|, k requires 0 <= k < |rules| => AddRule(rules[k]))
  }

  function TlsAdds(entries: seq<Tls>): (ops: seq<PatchOp>)
    ensures |ops| == |entries|
  {
    seq(|entries|, k requires 0 <= k < |entries| => AddTls(entries[k]))
  }

  function AddOps(rules: seq<Rule>, entries: seq<Tls>): seq<PatchOp> {
    RuleAdds(rules) + TlsAdds(entries)
  }

  function UpdateOps(ing: Ingress, j: nat, rule: Rule, tls: Option<Tls>): seq<PatchOp>
    requires j < |ing.rules|
  {
    [ReplaceRule(j, rule)] +
    if tls.None? then []
    else
      var k := FindEntry(ing.tls, ing.rules[j].host, 0);
      if k.Some? then [ReplaceTls(k.value, tls.value)] else [AddTls(tls.value)]
  }

  function RemoveOps(ing: Ingress, j: nat): seq<PatchOp>
    requires j < |ing.rules|
  {
    var k := FindEntry(ing.tls, ing.rules[j].host, 0);
    [RemoveRule(j)] + if k.Some? then [RemoveTls(k.value)] else []
  }

  lemma {:induction false} RuleAddsApply(d: Doc, rules: seq<Rule>)
    requires d.rules.Some?
    ensures ApplyPatch(d, RuleAdds(rules)) == Some(d.(rules := Some(d.rules.value + rules)))
    decreases |rules|
  {
    var ops := RuleAdds(rules);
    if rules == [] {
      assert d.rules.value + rules == d.rules.value;
    } else {
      assert ops[1..] == RuleAdds(rules[1..]);
      var d' := Operate(d, ops[0]);
      RuleAddsApply(d', rules[1..]);
      assert d'.rules.value + rules[1..] == d.rules.value + rules;
    }
  }

  lemma {:induction false} TlsAddsApply(d: Doc, entries: seq<Tls>)
    ensures ApplyPatch(d, TlsAdds(entries)) ==
      if entries == [] then Some(d)
      else if d.tls.None? then None
      else Some(d.(tls := Some(d.tls.value + entries)))
    decreases |entries|
  {
    var ops := TlsAdds(entries);
    if entries != [] && d.tls.Some? {
      assert ops[1..] == TlsAdds(entries[1..]);
      var d' := Operate(d, ops[0]);
      TlsAddsApply(d', entries[1..]);
      assert d'.tls.value + entries[1..] == d.tls.value + entries;
      if entries[1..] == [] {
        assert d'.tls.value == d.tls.value + entries;
      }
    }
  }

  /** Adding rules and entries applies exactly when the lists added to are there, and appends. */
  lemma AddOpsEffect(ing: Ingress, rules: seq<Rule>, entries: seq<Tls>)
    requires ing.rules != []
    ensures Patched(ing, AddOps(rules, entries)) ==
      if entries != [] && ing.tls == [] then None
      else Some(ing.(rules := ing.rules + rules, tls := ing.tls + entries))
  {
    var d := ToDoc(ing);
    ApplyPatchConcat(d, RuleAdds(rules), TlsAdds(entries));
    RuleAddsApply(d, rules);
    TlsAddsApply(d.(rules := Some(ing.rules + rules)), entries);
    assert entries == [] ==> ing.tls + entries == ing.tls;
  }

  function TlsAfterUpdate(ing: Ingress, j: nat, tls: Option<Tls>): seq<Tls>
    requires j < |ing.rules|
  {
    if tls.None? then ing.tls
    else
      var k := FindEntry(ing.tls, ing.rules[j].host, 0);
      if k.Some? then ing.tls[k.value := tls.value] else ing.tls + [tls.value]
  }

  lemma TwoOps(d: Doc, a: PatchOp, b: PatchOp)
    ensures ApplyPatch(d, [a]) == if TargetExists(d, a) then Some(Operate(d, a)) else None
    ensures ApplyPatch(d, [a, b]) ==
      if TargetExists(d, a) && TargetExists(Operate(d, a), b) then Some(Operate(Operate(d, a), b)) else None
  {
    assert [a][1..] == [];
    assert [a, b][1..] == [b] && [b][1..] == [];
    if TargetExists(d, a) {
      assert ApplyPatch(Operate(d, a), [b]) ==
        if TargetExists(Operate(d, a), b) then Some(Operate(Operate(d, a), b)) else None;
    }
  }

  /** An update fails exactly when it would add the first TLS entry to an Ingress that has none. */
  lemma UpdateOpsEffect(ing: Ingress, j: nat, rule: Rule, tls: Option<Tls>)
    requires j < |ing.rules|
    ensures Patched(ing, UpdateOps(ing, j, rule, tls)) ==
      if tls.Some? && ing.tls == [] then None
      else Some(ing.(rules := ing.rules[j := rule], tls := TlsAfterUpdate(ing, j, tls)))
  {
    var d, ops := ToDoc(ing), UpdateOps(ing, j, rule, tls);
    TwoOps(d, ops[0], if |ops| > 1 then ops[1] else ops[0]);
    assert ops == if |ops| > 1 then [ops[0], ops[1]] else [ops[0]];
  }

  function TlsAfterRemove(ing: Ingress, j: nat): seq<Tls>
    requires j < |ing.rules|
  {
    var k := FindEntry(ing.tls, ing.rules[j].host, 0);
    if k.Some? then Without(ing.tls, k.value) else ing.tls
  }

  /** Removing one rule by its index always applies. */
  lemma RemoveOpsEffect(ing: Ingress, j: nat)
    requires j < |ing.rules|
    ensures Patched(ing, RemoveOps(ing, j)) == Some(ing.(rules := Without(ing.rules, j), tls := TlsAfterRemove(ing, j)))
  {
    var d, ops := ToDoc(ing), RemoveOps(ing, j);
    TwoOps(d, ops[0], if |ops| > 1 then ops[1] else ops[0]);
    assert ops == if |ops| > 1 then [ops[0], ops[1]] else [ops[0]];
  }

  function ReplaceOps(rules: seq<Rule>, entries: seq<Tls>): seq<PatchOp> {
    [ReplaceRules(rules), ReplaceAllTls(entries)]
  }

  /** Replacing both lists fails exactly when the Ingress has no TLS entry to replace. */
  lemma ReplaceOpsEffect(ing: Ingress, rules: seq<Rule>, entries: seq<Tls>)
    requires ing.rules != []
    ensures Patched(ing, ReplaceOps(rules, entries)) ==
      if ing.tls == [] then None else Some(ing.(rules := rules, tls := entries))
  {
    TwoOps(ToDoc(ing), ReplaceRules(rules), ReplaceAllTls(entries));
  }

  // ---------------------------------------------------------------- filtering

  function KeepRules(rules: seq<Rule>, ids: set<string>): seq<Rule> {
    if rules == [] then []
    else
      var last := |rules| - 1;
      var init := KeepRules(rules[..last], ids);
      if RouteId(rules[last].host) in ids then init else init + [rules[last]]
  }

  function RemovedHosts(rules: seq<Rule>, ids: set<string>): set<string> {
    set r | r in rules && RouteId(r.host) in ids :: r.host
  }

  function KeepHosts(hosts: seq<string>, removed: set<string>): seq<string> {
    if hosts == [] then []
    else
      var last := |hosts| - 1;
      var init := KeepHosts(hosts[..last], removed);
      if hosts[last] in removed then init else init + [hosts[last]]
  }

  function KeepTls(tls: seq<Tls>, removed: set<string>): seq<Tls> {
    if tls == [] then []
    else
      var last := |tls| - 1;
      var init, hosts := KeepTls(tls[..last], removed), KeepHosts(tls[last].hosts, removed);
      if hosts == [] then init else init + [tls[last].(hosts := hosts)]
  }

  predicate Touched(ing: Ingress, ids: set<string>) {
    exists k :: 0 <= k < |ing.rules| && RouteId(ing.rules[k].host) in ids
  }

  function Filtered(ing: Ingress, ids: set<string>): Ingress {
    ing.(rules := KeepRules(ing.rules, ids), tls := KeepTls(ing.tls, RemovedHosts(ing.rules, ids)))
  }

  // ---------------------------------------------------------------- the calls of each operation

  function AddCall(name: string, ms: seq<Mapped>): Call {
    Patch(name, AddOps(RulesOf(ms), EntriesOf(ms)))
  }

  function CreateCall(name: string, ms: seq<Mapped>): Call {
    Create(name, Ingress(true, RulesOf(ms), EntriesOf(ms)))
  }

  function ProvisionCall(cfg: Config, ls: seq<Listed>, m: Mapped): Call {
    var place := Find(ls, RouteId(m.req.host), 0);
    if place.Some? then
      var l := ls[place.value.ingress];
      Patch(l.name, UpdateOps(l.ingress, place.value.rule, m.rule, m.tls))
    else
      var room := FindRoom(ls, cfg.max, 0);
      if room.Some? then AddCall(ls[room.value].name, [m]) else CreateCall(IngressName(|ls|), [m])
  }

  function DeprovisionCalls(ls: seq<Listed>, id: string): seq<Call> {
    var place := Find(ls, id, 0);
    if place.None? then []
    else
      var l := ls[place.value.ingress];
      if |l.ingress.rules| == 1 then [Delete(l.name)] else [Patch(l.name, RemoveOps(l.ingress, place.value.rule))]
  }

  function RemovalCall(l: Listed, ids: set<string>): seq<Call> {
    if !Touched(l.ingress, ids) then []
    else
      var left := Filtered(l.ingress, ids);
      if left.rules == [] then [Delete(l.name)] else [Patch(l.name, ReplaceOps(left.rules, left.tls))]
  }

  function BatchDeprovisionCalls(ls: seq<Listed>, ids: set<string>): seq<Call> {
    if ls == [] then []
    else BatchDeprovisionCalls(ls[..|ls| - 1], ids) + RemovalCall(ls[|ls| - 1], ids)
  }

  // ---------------------------------------------------------------- packing

  function Room(cfg: Config, ing: Ingress): nat {
    if |ing.rules| < cfg.max then cfg.max - |ing.rules| else 0
  }

  function Min(a: nat, b: nat): nat {
    if a < b then a else b
  }

  /** The routes lo to hi go to one Ingress, which exists already or is created with them. */
  datatype Batch = Batch(name: string, lo: nat, hi: nat, created: bool)

  /** Fills the listed Ingresses from index i on with routes cursor to n. */
  function FillExisting(cfg: Config, ls: seq<Listed>, i: nat, cursor: nat, n: nat): seq<Batch>
    requires i <= |ls|
    decreases |ls| - i
  {
    if i == |ls| || n <= cursor then []
    else
      var room := Room(cfg, ls[i].ingress);
      if room == 0 then FillExisting(cfg, ls, i + 1, cursor, n)
      else
        var end := Min(cursor + room, n);
        [Batch(ls[i].name, cursor, end, false)] + FillExisting(cfg, ls, i + 1, end, n)
  }

  /** How far the listed Ingresses take the cursor. */
  function CursorAfter(cfg: Config, ls: seq<Listed>, i: nat, cursor: nat, n: nat): nat
    requires i <= |ls|
    decreases |ls| - i
  {
    if i == |ls| || n <= cursor then cursor
    else CursorAfter(cfg, ls, i + 1, Min(cursor + Room(cfg, ls[i].ingress), n), n)
  }

  /** New Ingresses, numbered from index on, for routes cursor to n. */
  function FillNew(cfg: Config, index: nat, cursor: nat, n: nat): seq<Batch>
    requires 1 <= cfg.max
    decreases n - cursor
  {
    if n <= cursor then []
    else
      var end := Min(cursor + cfg.max, n);
      [Batch(IngressName(index), cursor, end, true)] + FillNew(cfg, index + 1, end, n)
  }

  function Existing(cfg: Config, ls: seq<Listed>, n: nat): seq<Batch> {
    FillExisting(cfg, ls, 0, 0, n)
  }

  function Fresh(cfg: Config, ls: seq<Listed>, n: nat): seq<Batch>
    requires 1 <= cfg.max
  {
    FillNew(cfg, |ls|, CursorAfter(cfg, ls, 0, 0, n), n)
  }

  predicate Fits(b: Batch, n: nat) {
    b.lo < b.hi <= n
  }

  function BatchCall(ms: seq<Mapped>, b: Batch): Call
    requires Fits(b, |ms|)
  {
    if b.created then CreateCall(b.name, ms[b.lo..b.hi]) else AddCall(b.name, ms[b.lo..b.hi])
  }

  function BatchCalls(ms: seq<Mapped>, bs: seq<Batch>): (calls: seq<Call>)
    requires forall k :: 0 <= k < |bs| ==> Fits(bs[k], |ms|)
    ensures |calls| == |bs| && forall k :: 0 <= k < |bs| ==> calls[k] == BatchCall(ms, bs[k])
  {
    seq(|bs|, k requires 0 <= k < |bs| => BatchCall(ms, bs[k]))
  }
}
