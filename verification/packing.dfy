/** How BatchProvision cuts its requests into batches: consecutive, complete, within capacity, and
    with as few new Ingresses as any placement could use. */
module Packing {
  import opened Core
  import opened Kube
  import opened IngressPlan

  // ---------------------------------------------------------------- consecutive batches

  /** The batches are consecutive, non-empty, and lead from a to b. */
  predicate Chain(bs: seq<Batch>, a: nat, b: nat)
    decreases |bs|
  {
    if bs == [] then a == b else bs[0].lo == a < bs[0].hi <= b && Chain(bs[1..], bs[0].hi, b)
  }

  lemma {:induction false} ChainAppend(x: seq<Batch>, y: seq<Batch>, a: nat, c: nat, b: nat)
    requires Chain(x, a, c) && Chain(y, c, b) && a <= c <= b
    ensures Chain(x + y, a, b)
    decreases |x|
  {
    if x == [] {
      assert x + y == y;
    } else {
      assert (x + y)[0] == x[0] && (x + y)[1..] == x[1..] + y;
      ChainAppend(x[1..], y, x[0].hi, c, b);
    }
  }

  /** Each position is in exactly one batch of a chain, and batches do not overlap. */
  lemma {:induction false} ChainCovers(bs: seq<Batch>, a: nat, b: nat, r: nat)
    requires Chain(bs, a, b) && a <= r < b
    ensures exists k :: 0 <= k < |bs| && bs[k].lo <= r < bs[k].hi
    decreases |bs|
  {
    if r < bs[0].hi {
      assert bs[0].lo <= r < bs[0].hi;
    } else {
      ChainCovers(bs[1..], bs[0].hi, b, r);
      var k :| 0 <= k < |bs[1..]| && bs[1..][k].lo <= r < bs[1..][k].hi;
      assert bs[k + 1] == bs[1..][k];
    }
  }

  lemma {:induction false} ChainWithin(bs: seq<Batch>, a: nat, b: nat, k: nat)
    requires Chain(bs, a, b) && k < |bs|
    ensures a <= bs[k].lo < bs[k].hi <= b
    decreases |bs|
  {
    if k > 0 {
      ChainWithin(bs[1..], bs[0].hi, b, k - 1);
    }
  }

  lemma {:induction false} ChainOrdered(bs: seq<Batch>, a: nat, b: nat, j: nat, k: nat)
    requires Chain(bs, a, b) && j < k < |bs|
    ensures bs[j].hi <= bs[k].lo
    decreases |bs|
  {
    if j == 0 {
      ChainWithin(bs[1..], bs[0].hi, b, k - 1);
    } else {
      ChainOrdered(bs[1..], bs[0].hi, b, j - 1, k - 1);
    }
  }

  /** The requests the batches stand for, one batch after the other. */
  function Concatenated<T>(ms: seq<T>, bs: seq<Batch>): seq<T>
    requires forall k :: 0 <= k < |bs| ==> Fits(bs[k], |ms|)
    decreases |bs|
  {
    if bs == [] then []
    else
      assert Fits(bs[0], |ms|);
      ms[bs[0].lo..bs[0].hi] + Concatenated(ms, bs[1..])
  }

  lemma {:induction false} ChainConcatenates<T>(ms: seq<T>, bs: seq<Batch>, a: nat)
    requires forall k :: 0 <= k < |bs| ==> Fits(bs[k], |ms|)
    requires a <= |ms| && Chain(bs, a, |ms|)
    ensures Concatenated(ms, bs) == ms[a..]
    decreases |bs|
  {
    if bs != [] {
      ChainConcatenates(ms, bs[1..], bs[0].hi);
      assert ms[a..] == ms[a..bs[0].hi] + ms[bs[0].hi..];
    }
  }

  // ---------------------------------------------------------------- the two fills

  lemma {:induction false} FillExistingChain(cfg: Config, ls: seq<Listed>, i: nat, cursor: nat, n: nat)
    requires i <= |ls| && cursor <= n
    ensures cursor <= CursorAfter(cfg, ls, i, cursor, n) <= n
    ensures Chain(FillExisting(cfg, ls, i, cursor, n), cursor, CursorAfter(cfg, ls, i, cursor, n))
    decreases |ls| - i
  {
    if i < |ls| && cursor < n {
      var end := Min(cursor + Room(cfg, ls[i].ingress), n);
      FillExistingChain(cfg, ls, i + 1, end, n);
    }
  }

  /** Every batch for a listed Ingress names it, later ones name later Ingresses, and none overfills. */
  lemma {:induction false} FillExistingNames(cfg: Config, ls: seq<Listed>, i: nat, cursor: nat, n: nat, k: nat)
    returns (j: nat)
    requires i <= |ls| && k < |FillExisting(cfg, ls, i, cursor, n)|
    ensures var b := FillExisting(cfg, ls, i, cursor, n)[k];
      i <= j < |ls| && !b.created && b.name == ls[j].name && |ls[j].ingress.rules| + (b.hi - b.lo) <= cfg.max
    decreases |ls| - i
  {
    var room := Room(cfg, ls[i].ingress);
    if room == 0 {
      j := FillExistingNames(cfg, ls, i + 1, cursor, n, k);
    } else if k == 0 {
      j := i;
    } else {
      j := FillExistingNames(cfg, ls, i + 1, Min(cursor + room, n), n, k - 1);
    }
  }

  lemma {:induction false} FillExistingDistinct(cfg: Config, ls: seq<Listed>, i: nat, cursor: nat, n: nat, a: nat,
      b: nat)
    requires forall x, y :: 0 <= x < y < |ls| ==> ls[x].name != ls[y].name
    requires i <= |ls| && a < b < |FillExisting(cfg, ls, i, cursor, n)|
    ensures FillExisting(cfg, ls, i, cursor, n)[a].name != FillExisting(cfg, ls, i, cursor, n)[b].name
    decreases |ls| - i
  {
    var room := Room(cfg, ls[i].ingress);
    if room == 0 {
      FillExistingDistinct(cfg, ls, i + 1, cursor, n, a, b);
    } else {
      var end := Min(cursor + room, n);
      if a == 0 {
        var j := FillExistingNames(cfg, ls, i + 1, end, n, b - 1);
      } else {
        FillExistingDistinct(cfg, ls, i + 1, end, n, a - 1, b - 1);
      }
    }
  }

  /** New Ingresses are numbered upwards and none is overfull; their number is the least that holds
      what is left. */
  lemma {:induction false} FillNewChain(cfg: Config, index: nat, cursor: nat, n: nat)
    requires 1 <= cfg.max && cursor <= n
    ensures var bs := FillNew(cfg, index, cursor, n);
      && Chain(bs, cursor, n)
      && (forall k :: 0 <= k < |bs| ==> bs[k].created && bs[k].hi - bs[k].lo <= cfg.max && bs[k].name == Mapper.IngressName(index + k))
      && n - cursor <= |bs| * cfg.max
      && (bs != [] ==> (|bs| - 1) * cfg.max < n - cursor)
    decreases n - cursor
  {
    if cursor < n {
      var end, bs := Min(cursor + cfg.max, n), FillNew(cfg, index, cursor, n);
      FillNewChain(cfg, index + 1, end, n);
      var rest := FillNew(cfg, index + 1, end, n);
      assert |bs| == 1 + |rest| && bs[0].created;
      assert |bs| * cfg.max == cfg.max + |rest| * cfg.max;
      assert rest != [] ==> |rest| * cfg.max == cfg.max + (|rest| - 1) * cfg.max;
      forall k | 0 <= k < |bs|
        ensures bs[k].created && bs[k].hi - bs[k].lo <= cfg.max && bs[k].name == Mapper.IngressName(index + k)
      {
        if k > 0 {
          assert bs[k] == rest[k - 1];
        }
      }
    }
  }

  // ---------------------------------------------------------------- optimality

  function Rooms(cfg: Config, ls: seq<Listed>): (r: seq<nat>)
    ensures |r| == |ls|
  {
    seq(|ls|, k requires 0 <= k < |ls| => Room(cfg, ls[k].ingress))
  }

  function Sum(s: seq<nat>): nat {
    if s == [] then 0 else Sum(s[..|s| - 1]) + s[|s| - 1]
  }

  lemma {:induction false} SumFront(s: seq<nat>)
    requires s != []
    ensures Sum(s) == s[0] + Sum(s[1..])
  {
    if |s| > 1 {
      SumFront(s[..|s| - 1]);
      assert s[..|s| - 1][1..] == s[1..][..|s| - 2];
    } else {
      assert s[..0] == [] && s[1..] == [];
    }
  }

  /** The listed Ingresses take all the requests they have room for. */
  lemma {:induction false} CursorIsRoom(cfg: Config, ls: seq<Listed>, i: nat, cursor: nat, n: nat)
    requires i <= |ls| && cursor <= n
    ensures CursorAfter(cfg, ls, i, cursor, n) == Min(cursor + Sum(Rooms(cfg, ls)[i..]), n)
    decreases |ls| - i
  {
    if i < |ls| {
      var rs := Rooms(cfg, ls);
      SumFront(rs[i..]);
      assert rs[i..][1..] == rs[i + 1..];
      CursorIsRoom(cfg, ls, i + 1, Min(cursor + rs[i], n), n);
      if cursor == n {
        CursorIsRoom(cfg, ls, i + 1, n, n);
      }
    }
  }

  /** How many requests a placement puts in bin b. */
  function Load(placement: seq<nat>, b: nat): nat {
    if placement == [] then 0
    else Load(placement[..|placement| - 1], b) + if placement[|placement| - 1] == b then 1 else 0
  }

  function Others(placement: seq<nat>, b: nat): seq<nat> {
    if placement == [] then []
    else
      var last := |placement| - 1;
      var init := Others(placement[..last], b);
      if placement[last] == b then init else init + [placement[last]]
  }

  lemma {:induction false} LoadOthers(placement: seq<nat>, b: nat, c: nat)
    requires b != c
    ensures |placement| == Load(placement, b) + |Others(placement, b)|
    ensures Load(Others(placement, b), c) == Load(placement, c)
  {
    if placement != [] {
      var last := |placement| - 1;
      LoadOthers(placement[..last], b, c);
      var init := Others(placement[..last], b);
      assert (init + [placement[last]])[..|init|] == init;
    }
  }

  lemma {:induction false} OthersBelow(placement: seq<nat>, b: nat)
    requires forall r :: 0 <= r < |placement| ==> placement[r] <= b
    ensures forall r :: 0 <= r < |Others(placement, b)| ==> Others(placement, b)[r] < b
  {
    if placement != [] {
      OthersBelow(placement[..|placement| - 1], b);
    }
  }

  function First(placement: seq<nat>): nat {
    if placement == [] then 0 else placement[0]
  }

  /** Every request is in some bin and no bin holds more than its capacity. */
  predicate Places(placement: seq<nat>, caps: seq<nat>) {
    && (forall r :: 0 <= r < |placement| ==> placement[r] < |caps|)
    && (forall b :: 0 <= b < |caps| ==> Load(placement, b) <= caps[b])
  }

  /** A placement holds no more requests than its bins hold together. */
  lemma {:induction false} Pigeonhole(placement: seq<nat>, caps: seq<nat>)
    requires Places(placement, caps)
    ensures |placement| <= Sum(caps)
    decreases |caps|
  {
    if caps == [] {
      assert 0 <= First(placement);
    } else {
      var b := |caps| - 1;
      var rest, caps' := Others(placement, b), caps[..b];
      OthersBelow(placement, b);
      LoadOthers(placement, b, b + 1);
      forall c | 0 <= c < b ensures Load(rest, c) <= caps'[c] {
        LoadOthers(placement, b, c);
      }
      Pigeonhole(rest, caps');
    }
  }

  /** The capacities of the listed Ingresses and of k new ones. */
  function Bins(cfg: Config, ls: seq<Listed>, k: nat): seq<nat> {
    Rooms(cfg, ls) + seq(k, i => cfg.max)
  }

  lemma BinsSnoc(cfg: Config, ls: seq<Listed>, k: nat)
    requires k > 0
    ensures Sum(Bins(cfg, ls, k)) == Sum(Bins(cfg, ls, k - 1)) + cfg.max
  {
    var bins := Bins(cfg, ls, k);
    assert bins[..|bins| - 1] == Bins(cfg, ls, k - 1);
  }

  lemma NoBins(cfg: Config, ls: seq<Listed>)
    ensures Sum(Bins(cfg, ls, 0)) == Sum(Rooms(cfg, ls))
  {
    assert Bins(cfg, ls, 0) == Rooms(cfg, ls);
  }

  lemma OneMore(k: nat, size: nat)
    requires k > 0
    ensures k * size == (k - 1) * size + size
  {
  }

  lemma {:induction false} SumBins(cfg: Config, ls: seq<Listed>, k: nat)
    ensures Sum(Bins(cfg, ls, k)) == Sum(Rooms(cfg, ls)) + k * cfg.max
  {
    hide *;
    if k == 0 {
      NoBins(cfg, ls);
    } else {
      BinsSnoc(cfg, ls, k);
      SumBins(cfg, ls, k - 1);
      OneMore(k, cfg.max);
    }
  }

  /** k is n divided by size, rounded up. */
  predicate Ceiling(k: nat, n: nat, size: nat) {
    n <= k * size && (k > 0 ==> (k - 1) * size < n)
  }

  /** The packing is optimal: with F the free capacity of the listed Ingresses it creates
      ceil(max(0, n - F) / max) new ones, and no placement of the n routes makes do with fewer. */
  lemma OptimalPacking(cfg: Config, ls: seq<Listed>, n: nat)
    requires 1 <= cfg.max
    ensures var free := Sum(Rooms(cfg, ls));
      Ceiling(|Fresh(cfg, ls, n)|, if n > free then n - free else 0, cfg.max)
    ensures forall placement, k: nat :: |placement| == n && Places(placement, Bins(cfg, ls, k)) ==> |Fresh(cfg, ls, n)| <= k
  {
    var free, cursor, fresh' := Sum(Rooms(cfg, ls)), CursorAfter(cfg, ls, 0, 0, n), Fresh(cfg, ls, n);
    CursorIsRoom(cfg, ls, 0, 0, n);
    assert Rooms(cfg, ls)[0..] == Rooms(cfg, ls);
    FillNewChain(cfg, |ls|, cursor, n);
    if |fresh'| > 0 {
      MulMono(0, |fresh'| - 1, cfg.max);
    }
    forall placement, k: nat | |placement| == n && Places(placement, Bins(cfg, ls, k)) ensures |fresh'| <= k {
      Pigeonhole(placement, Bins(cfg, ls, k));
      SumBins(cfg, ls, k);
      if k < |fresh'| {
        MulMono(k, |fresh'| - 1, cfg.max);
      }
    }
  }

  lemma MulMono(a: nat, b: nat, size: nat)
    requires a <= b
    ensures a * size <= b * size
  {
  }

  /** The batches of one call, in the order of its results, are the request list cut in pieces. */
  lemma BatchesAreRequests<T>(cfg: Config, ls: seq<Listed>, ms: seq<T>)
    requires 1 <= cfg.max
    ensures var bs := Existing(cfg, ls, |ms|) + Fresh(cfg, ls, |ms|);
      && Chain(bs, 0, |ms|)
      && (forall k :: 0 <= k < |bs| ==> Fits(bs[k], |ms|))
      && Concatenated(ms, bs) == ms
  {
    var n, cursor := |ms|, CursorAfter(cfg, ls, 0, 0, |ms|);
    var bs := Existing(cfg, ls, n) + Fresh(cfg, ls, n);
    FillExistingChain(cfg, ls, 0, 0, n);
    FillNewChain(cfg, |ls|, cursor, n);
    ChainAppend(Existing(cfg, ls, n), Fresh(cfg, ls, n), 0, cursor, n);
    forall k | 0 <= k < |bs| ensures Fits(bs[k], n) {
      ChainWithin(bs, 0, n, k);
    }
    ChainConcatenates(ms, bs, 0);
    assert ms[0..] == ms;
  }
}
