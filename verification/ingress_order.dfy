/** What stays when the API always lists in one order: a batch removal stops at the first Ingress that
    resists, and keeps the hosts of those listed after it as well. */
module IngressOrder {
  import opened Core
  import opened Kube
  import opened Mapper
  import opened IngressPlan
  import opened IngressTable
  import opened IngressFilter
  import opened IngressStore
  import opened IngressRuns
  import opened IngressList
  import opened IngressGateway
  import opened IngressConvergence
  import opened IngressStuck
  import opened Diff

  /** The API lists names by rank. */
  predicate InOrder(ls: seq<Listed>, rank: string -> int) {
    forall i, j :: 0 <= i < j < |ls| ==> rank(ls[i].name) < rank(ls[j].name)
  }

  ghost predicate OrderedRemoval(cfg: Config, rank: string -> int, ids: seq<string>, m: Store, m': Store, ok: bool) {
    if ids == [] then m' == m && ok
    else exists ls, done :: InOrder(ls, rank) && Concluded(cfg, m, Operation.BatchDeprovision(IdSet(ids)), ls, done, m', ok)
  }

  /** One cycle, whatever succeeds and fails in it. */
  ghost predicate OrderedCycle(cfg: Config, rank: string -> int, desired: seq<RouteRequest>, m: Store, ls: seq<Listed>,
      m1: Store, removed: bool, m2: Store, added: bool)
    requires 1 <= cfg.max
  {
    && IsListing(ls, m) && InOrder(ls, rank)
    && OrderedRemoval(cfg, rank, ToRemove(HostsOf(desired), ListRoutes(cfg, ls)), m, m1, removed)
    && AdditionOutcome(cfg, ToAdd(desired, ActualHosts(ListRoutes(cfg, ls))), m1, m2, added)
  }

  ghost predicate OrderedFollows(cfg: Config, rank: string -> int, desired: seq<RouteRequest>, m: Store, m2: Store)
    requires 1 <= cfg.max
  {
    m2 == m || exists ls, m1, removed, added :: OrderedCycle(cfg, rank, desired, m, ls, m1, removed, m2, added)
  }

  ghost predicate IsOrderedCycles(cfg: Config, rank: string -> int, desired: seq<RouteRequest>, ms: seq<Store>)
    requires 1 <= cfg.max
  {
    ms != [] && forall k :: 0 <= k < |ms| - 1 ==> OrderedFollows(cfg, rank, desired, ms[k], ms[k + 1])
  }

  predicate NoLater(rank: string -> int, b: string, n: string) {
    b == n || rank(b) < rank(n)
  }

  /** A batch removal cannot get past this Ingress: it, or one listed before it, resists. */
  ghost predicate Obstructed(m: Store, rank: string -> int, n: string, ids: set<string>) {
    exists b :: Managed(m, b) && NoLater(rank, b, n) && !Replaceable(m[b], ids)
  }

  // ---------------------------------------------------------------- what a removal reaches

  lemma OrderedIsAny(cfg: Config, rank: string -> int, ids: seq<string>, m: Store, m': Store, ok: bool)
    requires OrderedRemoval(cfg, rank, ids, m, m', ok)
    ensures RemovalOutcome(cfg, ids, m, m', ok)
  {
  }

  lemma PrefixReplaceable(m: Store, ls: seq<Listed>, rank: string -> int, ids: set<string>, i: nat, n: string)
    requires IsListing(ls, m) && InOrder(ls, rank) && i <= |ls| && AllReplaceable(ls[..i], ids) && n in Names(ls[..i])
    ensures !Obstructed(m, rank, n, ids)
  {
    var k :| 0 <= k < i && ls[..i][k].name == n;
    forall b | Managed(m, b) && NoLater(rank, b, n) ensures Replaceable(m[b], ids) {
      var j :| 0 <= j < |ls| && ls[j].name == b;
      assert j <= k;
      assert Replaceable(ls[..i][j].ingress, ids);
    }
  }

  lemma ReachedNames(cfg: Config, rank: string -> int, m: Store, ls: seq<Listed>, ids: set<string>, done: nat,
      m1: Store)
    returns (names: set<string>)
    requires Attempted(cfg, m, Operation.BatchDeprovision(ids), ls, done, m1) && InOrder(ls, rank)
    ensures m1 == FilterNamed(m, ids, names)
    ensures forall n :: n in names ==> !Obstructed(m, rank, n, ids)
  {
    var i := PrefixOfRemoval(ls, ids, done);
    names := Names(ls[..i]);
    hide Obstructed, Replaceable, AllReplaceable, BatchDeprovisionCalls, ServeAll, FilterNamed, Names, InOrder, IsListing;
    PrefixDone(m, ls, ids, i, m1);
    forall n | n in names ensures !Obstructed(m, rank, n, ids) {
      PrefixReplaceable(m, ls, rank, ids, i, n);
    }
  }

  lemma PrefixDone(m: Store, ls: seq<Listed>, ids: set<string>, i: nat, m1: Store)
    requires IsListing(ls, m) && i <= |ls| && ServeAll(m, BatchDeprovisionCalls(ls[..i], ids)) == Some(m1)
    ensures m1 == FilterNamed(m, ids, Names(ls[..i])) && AllReplaceable(ls[..i], ids)
  {
    hide *;
    assert ls[..i] + ls[i..] == ls;
    ListsPrefix(ls[..i], ls[i..], m);
    BatchDeprovisionSteps(m, ls[..i], ids);
  }

  /** Whatever the removal reports, it has left the obstructed Ingresses alone. */
  lemma OrderedNames(cfg: Config, rank: string -> int, ids: seq<string>, m: Store, m1: Store, ok: bool)
    returns (names: set<string>)
    requires OrderedRemoval(cfg, rank, ids, m, m1, ok)
    ensures m1 == FilterNamed(m, IdSet(ids), names)
    ensures forall n :: n in names ==> !Obstructed(m, rank, n, IdSet(ids))
  {
    NoNames(m, IdSet(ids));
    names := {};
    if ids != [] {
      var ls, done :| InOrder(ls, rank) && Concluded(cfg, m, Operation.BatchDeprovision(IdSet(ids)), ls, done, m1, ok);
      if ok || m1 != m {
        names := ReachedNames(cfg, rank, m, ls, IdSet(ids), done, m1);
      }
    }
  }

  /** An obstructed Ingress goes through a cycle with all its rules. */
  lemma ObstructedKeeps(cfg: Config, rank: string -> int, desired: seq<RouteRequest>, m: Store, ls: seq<Listed>,
      m1: Store, removed: bool, m2: Store, added: bool, n: string, h: string)
    requires 1 <= cfg.max && OrderedCycle(cfg, rank, desired, m, ls, m1, removed, m2, added)
    requires Managed(m, n) && Holds(m[n], h) && Obstructed(m, rank, n, Condemned(HostSet(m), HostsOf(desired)))
    ensures Managed(m2, n) && Holds(m2[n], h) && h in HostSet(m2)
  {
    var ids, add := ToRemove(HostsOf(desired), ListRoutes(cfg, ls)), ToAdd(desired, ActualHosts(ListRoutes(cfg, ls)));
    RemovedIds(cfg, m, ls, HostsOf(desired));
    var names := OrderedNames(cfg, rank, ids, m, m1, removed);
    hide Obstructed, AdditionOutcome, OrderedRemoval, HostSet, Condemned, IsListing;
    assert n !in names;
    assert Managed(m1, n) && m1[n] == m[n];
    AdditionGrows(cfg, add, m1, m2, added, n);
    GrownHolds(m[n], m2[n], h);
    HolderServes(m2, n, h);
  }

  lemma GrownHolds(a: Ingress, b: Ingress, h: string)
    requires PlainlyGrown(a, b) && Holds(a, h)
    ensures Holds(b, h)
  {
    var r :| r in a.rules && r.host == h;
    assert r in b.rules;
  }

  // ---------------------------------------------------------------- one cycle

  /** How many Ingresses a removal can deal with. */
  function Reach(ls: seq<Listed>, ids: set<string>): (i: nat)
    ensures i <= |ls| && AllReplaceable(ls[..i], ids)
    ensures i < |ls| ==> !Replaceable(ls[i].ingress, ids)
  {
    if ls == [] then 0
    else
      var last := |ls| - 1;
      var i := Reach(ls[..last], ids);
      assert ls[..last][..i] == ls[..i];
      if i < last || !Replaceable(ls[last].ingress, ids) then i
      else
        assert AllReplaceable(ls[..last + 1], ids) by {
          assert forall k :: 0 <= k < last ==> ls[..last + 1][k] == ls[..last][..i][k];
        }
        last + 1
  }

  lemma InReach(m: Store, ls: seq<Listed>, rank: string -> int, ids: set<string>, n: string)
    requires IsListing(ls, m) && InOrder(ls, rank) && Managed(m, n) && !Obstructed(m, rank, n, ids)
    ensures n in Names(ls[..Reach(ls, ids)])
  {
    var i := Reach(ls, ids);
    var k :| 0 <= k < |ls| && ls[k].name == n;
    if i <= k {
      assert NoLater(rank, ls[i].name, n);
      assert Managed(m, ls[i].name);
    }
    assert k < i;
    assert ls[..i][k].name == n;
  }

  lemma ReachRemoved(cfg: Config, rank: string -> int, m: Store, ls: seq<Listed>, ids: seq<string>)
    requires IsListing(ls, m) && InOrder(ls, rank) && ids != []
    ensures OrderedRemoval(cfg, rank, ids, m, FilterNamed(m, IdSet(ids), Names(ls[..Reach(ls, IdSet(ids))])), false)
  {
    var gone := IdSet(ids);
    var i := Reach(ls, gone);
    var a, b := ls[..i], ls[i..];
    var m1 := FilterNamed(m, gone, Names(a));
    assert a + b == ls;
    hide IsListing, Attempted, IdSet, FilterNamed, ServeAll, Names, AllReplaceable, Reach, InOrder;
    ListsPrefix(a, b, m);
    BatchDeprovisionSteps(m, a, gone);
    StopsAfter(cfg, m, a, b, gone, m1);
    assert Concluded(cfg, m, Operation.BatchDeprovision(gone), ls, |BatchDeprovisionCalls(a, gone)|, m1, false);
  }

  lemma RuleHolds(ing: Ingress, r: Rule)
    requires r in ing.rules
    ensures Holds(ing, r.host)
  {
  }

  lemma GoneFromNamed(m: Store, ids: set<string>, names: set<string>, h: string)
    requires RouteId(h) in ids && forall n :: Managed(m, n) && Holds(m[n], h) ==> n in names
    ensures h !in HostSet(FilterNamed(m, ids, names))
  {
    var m1 := FilterNamed(m, ids, names);
    forall n, r | Managed(m1, n) && r in m1[n].rules ensures r.host != h {
      if n in names {
        FilteredRules(m[n], ids, r);
      } else {
        RuleHolds(m[n], r);
      }
    }
  }

  /** The order decides how far one cycle can get: the host can be gone after it exactly if no Ingress
      that holds it is obstructed. */
  lemma OneCycleInOrderIff(cfg: Config, rank: string -> int, desired: seq<RouteRequest>, m: Store, ls: seq<Listed>,
      h: string)
    requires 1 <= cfg.max && IsListing(ls, m) && InOrder(ls, rank) && h in HostSet(m) && h !in HostsOf(desired)
    ensures (exists m1, removed, m2, added :: OrderedCycle(cfg, rank, desired, m, ls, m1, removed, m2, added) && h !in HostSet(m2)) <==>
      forall n :: Managed(m, n) && Holds(m[n], h) ==> !Obstructed(m, rank, n, Condemned(HostSet(m), HostsOf(desired)))
  {
    var gone := Condemned(HostSet(m), HostsOf(desired));
    if n :| Managed(m, n) && Holds(m[n], h) && Obstructed(m, rank, n, gone) {
      forall m1, removed, m2, added | OrderedCycle(cfg, rank, desired, m, ls, m1, removed, m2, added) ensures h in HostSet(m2) {
        ObstructedKeeps(cfg, rank, desired, m, ls, m1, removed, m2, added, n, h);
      }
    } else {
      var m1, added := GoneInOrder(cfg, rank, desired, m, ls, h);
    }
  }

  lemma GoneInOrder(cfg: Config, rank: string -> int, desired: seq<RouteRequest>, m: Store, ls: seq<Listed>, h: string)
    returns (m1: Store, added: bool)
    requires 1 <= cfg.max && IsListing(ls, m) && InOrder(ls, rank) && h in HostSet(m) && h !in HostsOf(desired)
    requires forall n :: Managed(m, n) && Holds(m[n], h) ==> !Obstructed(m, rank, n, Condemned(HostSet(m), HostsOf(desired)))
    ensures OrderedCycle(cfg, rank, desired, m, ls, m1, false, m1, added) && h !in HostSet(m1)
  {
    var ids := ToRemove(HostsOf(desired), ListRoutes(cfg, ls));
    RemovedIds(cfg, m, ls, HostsOf(desired));
    assert RouteId(h) in Condemned(HostSet(m), HostsOf(desired));
    NoIds(ids);
    var names := Names(ls[..Reach(ls, IdSet(ids))]);
    m1 := FilterNamed(m, IdSet(ids), names);
    added := NothingAdded(cfg, ToAdd(desired, ActualHosts(ListRoutes(cfg, ls))), m1);
    hide Obstructed, AdditionOutcome, OrderedRemoval, HostSet, Condemned, IsListing, FilterNamed, Reach, Names, ToRemove;
    ReachRemoved(cfg, rank, m, ls, ids);
    forall n | Managed(m, n) && Holds(m[n], h) ensures n in names {
      InReach(m, ls, rank, IdSet(ids), n);
    }
    GoneFromNamed(m, IdSet(ids), names, h);
  }

  // ---------------------------------------------------------------- run after run

  lemma OrderedBlocksStep(cfg: Config, rank: string -> int, desired: seq<RouteRequest>, m: Store, m2: Store,
      b: string, g: string, n: string, h: string)
    requires 1 <= cfg.max && OrderedFollows(cfg, rank, desired, m, m2) && Blocks(m, b, HostsOf(desired), g)
    requires Managed(m, n) && Holds(m[n], h) && NoLater(rank, b, n)
    ensures Blocks(m2, b, HostsOf(desired), g) && Managed(m2, n) && Holds(m2[n], h) && h in HostSet(m2)
  {
    if m2 == m {
      HolderServes(m, n, h);
    } else {
      var ls, m1, removed, added :| OrderedCycle(cfg, rank, desired, m, ls, m1, removed, m2, added);
      assert Obstructed(m, rank, n, Condemned(HostSet(m), HostsOf(desired)));
      hide Obstructed, AdditionOutcome, OrderedRemoval, HostSet, Condemned, IsListing, Blocks, Holds;
      ObstructedKeeps(cfg, rank, desired, m, ls, m1, removed, m2, added, n, h);
      OrderedIsAny(cfg, rank, ToRemove(HostsOf(desired), ListRoutes(cfg, ls)), m, m1, removed);
      BlocksStep(cfg, desired, m, ls, m1, removed, m2, added, b, g);
    }
  }

  /** An Ingress listed after a blocked one keeps its hosts, its own condition being no matter. */
  lemma {:induction false} StaysInOrder(cfg: Config, rank: string -> int, desired: seq<RouteRequest>, ms: seq<Store>,
      b: string, g: string, n: string, h: string, k: nat)
    requires 1 <= cfg.max && IsOrderedCycles(cfg, rank, desired, ms) && k < |ms|
    requires Blocks(ms[0], b, HostsOf(desired), g) && Managed(ms[0], n) && Holds(ms[0][n], h) && NoLater(rank, b, n)
    ensures Blocks(ms[k], b, HostsOf(desired), g) && Managed(ms[k], n) && Holds(ms[k][n], h) && h in HostSet(ms[k])
  {
    hide OrderedFollows, Blocks, Holds, HostSet;
    if k == 0 {
      HolderServes(ms[0], n, h);
    } else {
      StaysInOrder(cfg, rank, desired, ms, b, g, n, h, k - 1);
      OrderedBlocksStep(cfg, rank, desired, ms[k - 1], ms[k], b, g, n, h);
    }
  }

  /** No wanted host that is there shares its identifier with an unwanted one. */
  predicate NoSharedIds(present: set<string>, wanted: set<string>) {
    forall g, u :: g in present && g in wanted && u in present && u !in wanted ==> RouteId(g) != RouteId(u)
  }

  /** Some Ingress that holds the host has a blocked one listed no later than itself. */
  ghost predicate HeldBack(m: Store, rank: string -> int, wanted: set<string>, h: string) {
    exists n, b, g :: Managed(m, n) && Holds(m[n], h) && NoLater(rank, b, n) && Blocks(m, b, wanted, g)
  }

  /** What resists then is blocked for an unwanted host of its own. */
  lemma ResistingBlocks(m: Store, b: string, wanted: set<string>) returns (g: string)
    requires Managed(m, b) && !Replaceable(m[b], Condemned(HostSet(m), wanted)) && NoSharedIds(HostSet(m), wanted)
    ensures Blocks(m, b, wanted, g)
  {
    var k :| 0 <= k < |m[b].rules| && RouteId(m[b].rules[k].host) in Condemned(HostSet(m), wanted);
    var r := m[b].rules[k];
    g := r.host;
    RuleServes(m, b, r);
    assert Holds(m[b], g);
    var u :| u in HostSet(m) && u !in wanted && RouteId(u) == RouteId(g);
  }

  /** For a given listing order, where wanted and unwanted hosts share no identifier: an unwanted host
      survives every run of cycles exactly if an Ingress that holds it, or one listed before that, is
      blocked. */
  lemma StaysInOrderIff(cfg: Config, rank: string -> int, desired: seq<RouteRequest>, m: Store, ls: seq<Listed>,
      h: string)
    requires 1 <= cfg.max && IsListing(ls, m) && InOrder(ls, rank) && h in HostSet(m) && h !in HostsOf(desired)
    requires NoSharedIds(HostSet(m), HostsOf(desired))
    ensures HeldBack(m, rank, HostsOf(desired), h) <==>
      forall ms :: IsOrderedCycles(cfg, rank, desired, ms) && ms[0] == m ==> h in HostSet(ms[|ms| - 1])
  {
    hide IsListing, InOrder, HostSet, OrderedFollows, NoSharedIds, Blocks, Holds;
    if HeldBack(m, rank, HostsOf(desired), h) {
      var n, b, g :| Managed(m, n) && Holds(m[n], h) && NoLater(rank, b, n) && Blocks(m, b, HostsOf(desired), g);
      forall ms | IsOrderedCycles(cfg, rank, desired, ms) && ms[0] == m ensures h in HostSet(ms[|ms| - 1]) {
        StaysInOrder(cfg, rank, desired, ms, b, g, n, h, |ms| - 1);
      }
    } else {
      hide HeldBack;
      NotHeldBack(m, rank, HostsOf(desired), h);
      var m1, added := GoneInOrder(cfg, rank, desired, m, ls, h);
      hide Obstructed, OrderedCycle;
      OneOrderedCycle(cfg, rank, desired, m, ls, m1, added);
      var ms := [m, m1];
      assert ms[0] == m && ms[|ms| - 1] == m1;
    }
  }

  lemma NotHeldBack(m: Store, rank: string -> int, wanted: set<string>, h: string)
    requires !HeldBack(m, rank, wanted, h) && NoSharedIds(HostSet(m), wanted)
    ensures forall n :: Managed(m, n) && Holds(m[n], h) ==> !Obstructed(m, rank, n, Condemned(HostSet(m), wanted))
  {
    hide Blocks, Holds, Replaceable, NoSharedIds, HostSet, Condemned;
    forall n | Managed(m, n) && Holds(m[n], h) ensures !Obstructed(m, rank, n, Condemned(HostSet(m), wanted)) {
      if b :| Managed(m, b) && NoLater(rank, b, n) && !Replaceable(m[b], Condemned(HostSet(m), wanted)) {
        var g := ResistingBlocks(m, b, wanted);
        assert false;
      }
    }
  }

  lemma OneOrderedCycle(cfg: Config, rank: string -> int, desired: seq<RouteRequest>, m: Store, ls: seq<Listed>,
      m1: Store, added: bool)
    requires 1 <= cfg.max && OrderedCycle(cfg, rank, desired, m, ls, m1, false, m1, added)
    ensures IsOrderedCycles(cfg, rank, desired, [m, m1])
  {
    hide OrderedCycle;
    assert OrderedFollows(cfg, rank, desired, m, m1);
  }
}
