/** The part of the Kubernetes API the provisioner uses: a namespace of Ingresses under create,
    delete and JSON Patch (RFC 6902), with calls that can fail. */
module Kube {
  import opened Core

  datatype Rule = Rule(host: string, path: string, service: string, port: int)

  datatype Tls = Tls(hosts: seq<string>, secretName: string)

  /** `managed` says that the Ingress carries the management label. */
  datatype Ingress = Ingress(managed: bool, rules: seq<Rule>, tls: seq<Tls>)

  type Store = map<string, Ingress>

  // ---------------------------------------------------------------- JSON Patch

  /** The operations the provisioner builds; each is one JSON Patch operation on one pointer. */
  datatype PatchOp =
    | AddRule(rule: Rule)                      // add /spec/rules/-
    | AddTls(entry: Tls)                       // add /spec/tls/-
    | RemoveRule(index: nat)                   // remove /spec/rules/<index>
    | RemoveTls(index: nat)                    // remove /spec/tls/<index>
    | ReplaceRule(index: nat, rule: Rule)      // replace /spec/rules/<index>
    | ReplaceTls(index: nat, entry: Tls)       // replace /spec/tls/<index>
    | ReplaceRules(rules: seq<Rule>)           // replace /spec/rules
    | ReplaceAllTls(entries: seq<Tls>)         // replace /spec/tls

  /** The serialized spec: a list with no entries is left out of the document. */
  datatype Doc = Doc(rules: Option<seq<Rule>>, tls: Option<seq<Tls>>)

  function OmitEmpty<T>(s: seq<T>): Option<seq<T>> {
    if |s| == 0 then None else Some(s)
  }

  function OrEmpty<T>(s: Option<seq<T>>): seq<T> {
    if s.None? then [] else s.value
  }

  /** The operation's target exists in the document (sections 4.1 to 4.3 of RFC 6902). */
  predicate TargetExists(d: Doc, op: PatchOp) {
    match op
    case AddRule(_) => d.rules.Some?
    case AddTls(_) => d.tls.Some?
    case RemoveRule(i) => d.rules.Some? && i < |d.rules.value|
    case RemoveTls(i) => d.tls.Some? && i < |d.tls.value|
    case ReplaceRule(i, _) => d.rules.Some? && i < |d.rules.value|
    case ReplaceTls(i, _) => d.tls.Some? && i < |d.tls.value|
    case ReplaceRules(_) => d.rules.Some?
    case ReplaceAllTls(_) => d.tls.Some?
  }

  function Without<T>(s: seq<T>, i: nat): seq<T>
    requires i < |s|
  {
    s[..i] + s[i + 1..]
  }

  function Operate(d: Doc, op: PatchOp): Doc
    requires TargetExists(d, op)
  {
    match op
    case AddRule(r) => d.(rules := Some(d.rules.value + [r]))
    case AddTls(t) => d.(tls := Some(d.tls.value + [t]))
    case RemoveRule(i) => d.(rules := Some(Without(d.rules.value, i)))
    case RemoveTls(i) => d.(tls := Some(Without(d.tls.value, i)))
    case ReplaceRule(i, r) => d.(rules := Some(d.rules.value[i := r]))
    case ReplaceTls(i, t) => d.(tls := Some(d.tls.value[i := t]))
    case ReplaceRules(rs) => d.(rules := Some(rs))
    case ReplaceAllTls(ts) => d.(tls := Some(ts))
  }

  /** A patch applies as a whole or not at all (section 5 of RFC 6902). */
  function ApplyPatch(d: Doc, ops: seq<PatchOp>): Option<Doc>
    decreases |ops|
  {
    if ops == [] then Some(d)
    else if !TargetExists(d, ops[0]) then None
    else ApplyPatch(Operate(d, ops[0]), ops[1..])
  }

  function ToDoc(ing: Ingress): Doc {
    Doc(OmitEmpty(ing.rules), OmitEmpty(ing.tls))
  }

  function Patched(ing: Ingress, ops: seq<PatchOp>): Option<Ingress> {
    var d := ApplyPatch(ToDoc(ing), ops);
    if d.None? then None else Some(ing.(rules := OrEmpty(d.value.rules), tls := OrEmpty(d.value.tls)))
  }

  lemma {:induction false} ApplyPatchConcat(d: Doc, a: seq<PatchOp>, b: seq<PatchOp>)
    ensures ApplyPatch(d, a + b) ==
      if ApplyPatch(d, a).None? then None else ApplyPatch(ApplyPatch(d, a).value, b)
    decreases |a|
  {
    if a == [] {
      assert a + b == b;
    } else {
      assert (a + b)[0] == a[0] && (a + b)[1..] == a[1..] + b;
      if TargetExists(d, a[0]) {
        ApplyPatchConcat(Operate(d, a[0]), a[1..], b);
      }
    }
  }

  // ---------------------------------------------------------------- calls

  datatype Call =
    | Create(name: string, ingress: Ingress)
    | Patch(name: string, ops: seq<PatchOp>)
    | Delete(name: string)

  /** What the server makes of a call; None is an error that changes nothing. A name is created
      once, an Ingress keeps at least one rule, and deleting what is gone counts as done. */
  function Serve(m: Store, c: Call): Option<Store> {
    match c
    case Create(n, ing) => if n in m || ing.rules == [] then None else Some(m[n := ing])
    case Patch(n, ops) =>
      if n !in m then None
      else
        var ing := Patched(m[n], ops);
        if ing.None? || ing.value.rules == [] then None else Some(m[n := ing.value])
    case Delete(n) => Some(m - {n})
  }

  function ServeAll(m: Store, calls: seq<Call>): Option<Store>
    decreases |calls|
  {
    if calls == [] then Some(m)
    else
      var m' := Serve(m, calls[0]);
      if m'.None? then None else ServeAll(m'.value, calls[1..])
  }

  lemma {:induction false} ServeAllConcat(m: Store, a: seq<Call>, b: seq<Call>)
    ensures ServeAll(m, a + b) ==
      if ServeAll(m, a).None? then None else ServeAll(ServeAll(m, a).value, b)
    decreases |a|
  {
    if a == [] {
      assert a + b == b;
    } else {
      assert (a + b)[0] == a[0] && (a + b)[1..] == a[1..] + b;
      if Serve(m, a[0]).Some? {
        ServeAllConcat(Serve(m, a[0]).value, a[1..], b);
      }
    }
  }

  lemma ServeAllSnoc(m: Store, calls: seq<Call>, k: nat)
    requires k < |calls|
    ensures ServeAll(m, calls[..k + 1]) ==
      if ServeAll(m, calls[..k]).None? then None else Serve(ServeAll(m, calls[..k]).value, calls[k])
  {
    assert calls[..k + 1] == calls[..k] + [calls[k]];
    ServeAllConcat(m, calls[..k], [calls[k]]);
    if ServeAll(m, calls[..k]).Some? {
      var m' := ServeAll(m, calls[..k]).value;
      assert [calls[k]][1..] == [];
      assert ServeAll(m', [calls[k]]) == Serve(m', calls[k]);
    }
  }

  lemma ServeAllPrefix(m: Store, calls: seq<Call>, k: nat)
    requires k <= |calls| && ServeAll(m, calls).Some?
    ensures ServeAll(m, calls[..k]).Some?
  {
    assert calls == calls[..k] + calls[k..];
    ServeAllConcat(m, calls[..k], calls[k..]);
  }

  // ---------------------------------------------------------------- listing

  datatype Listed = Listed(name: string, ingress: Ingress)

  /** A listing names every managed Ingress once, in any order. */
  predicate IsListing(ls: seq<Listed>, m: Store) {
    && (forall i :: 0 <= i < |ls| ==> ls[i].name in m && m[ls[i].name] == ls[i].ingress && ls[i].ingress.managed)
    && (forall n :: n in m && m[n].managed ==> exists i :: 0 <= i < |ls| && ls[i].name == n)
    && (forall i, j :: 0 <= i < j < |ls| ==> ls[i].name != ls[j].name)
  }

  /** What a client asks of the API server: a listing, or something that may change the cluster. */
  datatype Request = ListRequest | WriteRequest

  /** A gateway call lists once, before anything it writes. */
  predicate ListFirst(requests: seq<Request>) {
    forall i :: 0 <= i < |requests| ==> (requests[i] == ListRequest <==> i == 0)
  }

  /** Between the two moments one gateway call was made, or none. */
  predicate OneCall(before: seq<Request>, after: seq<Request>) {
    before <= after && ListFirst(after[|before|..])
  }

  /** Between the two moments there were only writes. */
  predicate OnlyWrites(before: seq<Request>, after: seq<Request>) {
    before <= after && forall i :: |before| <= i < |after| ==> after[i] == WriteRequest
  }

  /** Up to so many gateway calls, one after the other. */
  ghost predicate InTurn(before: seq<Request>, after: seq<Request>, n: nat)
    decreases n
  {
    if n == 0 then before == after else exists mid :: OneCall(before, mid) && InTurn(mid, after, n - 1)
  }

  lemma NoCall(requests: seq<Request>)
    ensures OneCall(requests, requests) && OnlyWrites(requests, requests)
  {
  }

  lemma JustList(before: seq<Request>)
    ensures OneCall(before, before + [ListRequest])
  {
  }

  lemma ListThenWrites(before: seq<Request>, after: seq<Request>)
    requires OnlyWrites(before + [ListRequest], after)
    ensures OneCall(before, after) && |before| < |after|
  {
    var requests := after[|before|..];
    assert after[|before|] == (before + [ListRequest])[|before|];
    assert before == (before + [ListRequest])[..|before|] == after[..|before|];
    forall i | 0 <= i < |requests| ensures requests[i] == ListRequest <==> i == 0 {
      assert requests[i] == after[|before| + i];
    }
  }

  lemma WritesGoOn(a: seq<Request>, b: seq<Request>, c: seq<Request>)
    requires OnlyWrites(a, b) && OnlyWrites(b, c)
    ensures OnlyWrites(a, c)
  {
    assert forall i :: |a| <= i < |b| ==> c[i] == b[i];
  }

  lemma ThreeInTurn(a: seq<Request>, b: seq<Request>, c: seq<Request>, d: seq<Request>)
    requires OneCall(a, b) && OneCall(b, c) && OneCall(c, d)
    ensures InTurn(a, d, 3)
  {
    assert InTurn(d, d, 0);
    assert InTurn(c, d, 1);
    assert InTurn(b, d, 2);
  }

  /** `failures` counts the requests that were not answered with success. */
  class KubeApi {
    var store: Store
    ghost var requests: seq<Request>
    ghost var failures: nat

    constructor ()
      ensures store == map[] && requests == [] && failures == 0
    {
      store, requests, failures := map[], [], 0;
    }

    method List() returns (r: Option<seq<Listed>>)
      modifies this`requests, this`failures
      ensures requests == old(requests) + [ListRequest]
      ensures failures == old(failures) + if r.Some? then 0 else 1
      ensures r.Some? ==> IsListing(r.value, store)
    {
      requests := requests + [ListRequest];
      if * {
        failures := failures + 1;
        return None;
      }
      var ls: seq<Listed> := [];
      var todo := store.Keys;
      while todo != {}
        invariant todo <= store.Keys
        invariant forall i :: 0 <= i < |ls| ==> ls[i].name in store && ls[i].name !in todo
        invariant forall i :: 0 <= i < |ls| ==> store[ls[i].name] == ls[i].ingress && ls[i].ingress.managed
        invariant forall n :: n in store && n !in todo && store[n].managed ==> exists i :: 0 <= i < |ls| && ls[i].name == n
        invariant forall i, j :: 0 <= i < j < |ls| ==> ls[i].name != ls[j].name
        decreases todo
      {
        var n :| n in todo;
        todo := todo - {n};
        if store[n].managed {
          ghost var before := ls;
          ls := ls + [Listed(n, store[n])];
          assert ls[|before|].name == n;
          assert forall i :: 0 <= i < |before| ==> ls[i] == before[i];
        }
      }
      return Some(ls);
    }

    /** `took` says whether the call took effect; without an error it did. */
    method Send(call: Call) returns (ok: bool, ghost took: bool)
      modifies this
      ensures took ==> Serve(old(store), call) == Some(store)
      ensures !took ==> store == old(store)
      ensures ok ==> took
      ensures requests == old(requests) + [WriteRequest]
      ensures failures == old(failures) + if ok then 0 else 1
    {
      requests := requests + [WriteRequest];
      if * {
        failures := failures + 1;
        return false, false;
      }
      var served := Serve(store, call);
      if served.None? {
        failures := failures + 1;
        return false, false;
      }
      store := served.value;
      if * {
        failures := failures + 1;
        return false, true;
      }
      return true, true;
    }
  }
}
