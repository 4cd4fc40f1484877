/** The three atomic operations on the lease document. */
module LeaseDocument {
  import opened Core

  datatype Lease = Lease(holder: nat, acquiredAt: Time, renewedAt: Time, expiresAt: Time)

  /** Taking the lease: it is free, it has lapsed at the caller's stamp, or the caller has it. */
  predicate Obtainable(doc: Option<Lease>, i: nat, now: Time) {
    doc.None? || doc.value.expiresAt < now || doc.value.holder == i
  }

  function Acquired(doc: Option<Lease>, i: nat, now: Time, duration: Time): Option<Lease> {
    if Obtainable(doc, i, now) then Some(Lease(i, now, now, now + duration)) else doc
  }

  predicate HeldBy(doc: Option<Lease>, i: nat) {
    doc.Some? && doc.value.holder == i
  }

  function Renewed(doc: Option<Lease>, i: nat, now: Time, duration: Time): Option<Lease> {
    if HeldBy(doc, i) then Some(doc.value.(renewedAt := now, expiresAt := now + duration)) else doc
  }

  function Released(doc: Option<Lease>, i: nat): Option<Lease> {
    if HeldBy(doc, i) then None else doc
  }

  /** The document's collection, which every instance shares. */
  class Collection {
    var doc: Option<Lease>

    constructor ()
      ensures doc == None
    {
      doc := None;
    }
  }

  /** One instance's view: its identity and the operations it sends to the collection. */
  class MongoLeaderElector {
    const collection: Collection
    const identity: nat
    const duration: Time

    constructor (collection: Collection, identity: nat, duration: Time)
      ensures this.collection == collection && this.identity == identity && this.duration == duration
    {
      this.collection := collection;
      this.identity := identity;
      this.duration := duration;
    }

    /** `failed` is the error of the call; otherwise `acquired` says who won. The upsert of a
        document that exists but does not match is the duplicate key the source reads as a loss. */
    method TryAcquire(now: Time, outcome: Outcome) returns (acquired: bool, failed: bool)
      modifies collection
      ensures failed == (outcome != Answered)
      ensures collection.doc ==
        if outcome == Refused then old(collection.doc) else Acquired(old(collection.doc), identity, now, duration)
      ensures acquired <==> !failed && Obtainable(old(collection.doc), identity, now)
      ensures outcome == Answered && (old(collection.doc).None? || old(collection.doc).value.holder == identity) ==> acquired
      ensures outcome == Answered && old(collection.doc).Some? && old(collection.doc).value.holder != identity ==>
        (acquired <==> old(collection.doc).value.expiresAt < now)
      ensures acquired ==> collection.doc == Some(Lease(identity, now, now, now + duration))
      ensures outcome == Answered && !acquired ==> collection.doc == old(collection.doc)
    {
      if outcome == Refused {
        return false, true;
      }
      var matched := collection.doc.Some? &&
        (collection.doc.value.expiresAt < now || collection.doc.value.holder == identity);
      var duplicateKey := false;
      if matched || collection.doc.None? {
        collection.doc := Some(Lease(identity, now, now, now + duration));
      } else {
        duplicateKey := true;
      }
      if outcome == AnswerLost {
        return false, true;
      }
      return !duplicateKey, false;
    }

    method TryRenew(now: Time, outcome: Outcome) returns (renewed: bool, failed: bool)
      modifies collection
      ensures failed == (outcome != Answered)
      ensures collection.doc ==
        if outcome == Refused then old(collection.doc) else Renewed(old(collection.doc), identity, now, duration)
      ensures renewed <==> !failed && HeldBy(old(collection.doc), identity)
      ensures outcome == Answered && old(collection.doc).Some? && old(collection.doc).value.holder == identity ==>
        && renewed && collection.doc.Some? && collection.doc.value.holder == identity
        && collection.doc.value.expiresAt == now + duration && collection.doc.value.acquiredAt == old(collection.doc).value.acquiredAt
    {
      if outcome == Refused {
        return false, true;
      }
      var matchedCount := 0;
      if collection.doc.Some? && collection.doc.value.holder == identity {
        collection.doc := Some(collection.doc.value.(renewedAt := now, expiresAt := now + duration));
        matchedCount := 1;
      }
      if outcome == AnswerLost {
        return false, true;
      }
      return matchedCount > 0, false;
    }

    method Release(outcome: Outcome)
      modifies collection
      ensures collection.doc ==
        if outcome == Refused then old(collection.doc) else Released(old(collection.doc), identity)
    {
      if outcome != Refused && collection.doc.Some? && collection.doc.value.holder == identity {
        collection.doc := None;
      }
    }
  }
}

/** Any number of instances running the leader loop against one document. An operation is sent,
    served and answered in three separate steps, so other instances run in between, and the
    client may give up before or after it was served. */
module LeaseProtocol {
  import opened Core
  import opened LeaseDocument

  /** The lease duration, and the three bounds of the timing hypothesis: a leader's next renewal
      attempt has returned `renewWithin` after the stamp of its last success, its callback has
      returned `drainWithin` after cancellation, and clocks differ by at most `skew`. */
  datatype Params = Params(duration: Time, renewWithin: Time, drainWithin: Time, skew: Time)

  datatype Phase =
    | Waiting
    | Acquiring(now: Time, reply: Option<bool>)
    | Leading(stamp: Time)
    | Renewing(stamp: Time, now: Time, reply: Option<bool>)
    | Draining(stamp: Time)
    | Releasing(served: bool)
    | Stopped

  /** `running` is the leader callback; `cancelledAt` is when its context was cancelled. */
  datatype Instance = Instance(
    clock: Time,
    phase: Phase,
    running: bool,
    cancelledAt: Option<Time>,
    ctxDone: bool)

  datatype World = World(doc: Option<Lease>, insts: seq<Instance>)

  datatype Step =
    | Tick(clocks: seq<Time>)
    | ContextDone(i: nat)
    | Stop(i: nat)
    | SendAcquire(i: nat)
    | ServeAcquire(i: nat)
    | AcquireAnswered(i: nat)
    | AcquireFailed(i: nat)
    | SendRenew(i: nat)
    | ServeRenew(i: nat)
    | RenewAnswered(i: nat)
    | RenewFailed(i: nat)
    | RenewLoopEnds(i: nat)
    | CallbackReturns(i: nat)
    | SendRelease(i: nat)
    | ServeRelease(i: nat)
    | ReleaseReturns(i: nat)

  predicate Enabled(w: World, s: Step) {
    if s.Tick? then |s.clocks| == |w.insts| && forall k :: 0 <= k < |s.clocks| ==> w.insts[k].clock <= s.clocks[k]
    else s.i < |w.insts| && EnabledAt(w.insts[s.i], s)
  }

  predicate EnabledAt(x: Instance, s: Step) {
    match s
    case Tick(_) => false
    case ContextDone(_) => true
    case Stop(_) => x.phase.Waiting? && x.ctxDone
    case SendAcquire(_) => x.phase.Waiting? && !x.ctxDone
    case ServeAcquire(_) => x.phase.Acquiring? && x.phase.reply.None?
    case AcquireAnswered(_) => x.phase.Acquiring? && x.phase.reply.Some?
    case AcquireFailed(_) => x.phase.Acquiring?
    case SendRenew(_) => x.phase.Leading?
    case ServeRenew(_) => x.phase.Renewing? && x.phase.reply.None?
    case RenewAnswered(_) => x.phase.Renewing? && x.phase.reply == Some(true)
    case RenewFailed(_) => x.phase.Renewing?
    case RenewLoopEnds(_) => x.phase.Leading? && x.ctxDone
    case CallbackReturns(_) => x.running
    case SendRelease(_) => x.phase.Draining? && !x.running
    case ServeRelease(_) => x.phase.Releasing? && !x.phase.served
    case ReleaseReturns(_) => x.phase.Releasing?
  }

  /** What the step does to the document. */
  function DocAfter(p: Params, w: World, s: Step): Option<Lease>
    requires Enabled(w, s)
  {
    match s
    case ServeAcquire(i) => Acquired(w.doc, i, w.insts[i].phase.now, p.duration)
    case ServeRenew(i) => Renewed(w.doc, i, w.insts[i].phase.now, p.duration)
    case ServeRelease(i) => Released(w.doc, i)
    case _ => w.doc
  }

  /** What the step does to the instance that takes it. */
  function InstanceAfter(w: World, s: Step): Instance
    requires Enabled(w, s) && !s.Tick?
  {
    var x := w.insts[s.i];
    match s
    case ContextDone(_) =>
      x.(ctxDone := true,
         cancelledAt := if (x.phase.Leading? || x.phase.Renewing?) && x.cancelledAt.None? then Some(x.clock)
                        else x.cancelledAt)
    case Stop(_) => x.(phase := Stopped)
    case SendAcquire(_) => x.(phase := Acquiring(x.clock, None))
    case ServeAcquire(i) => x.(phase := Acquiring(x.phase.now, Some(Obtainable(w.doc, i, x.phase.now))))
    case AcquireAnswered(_) =>
      if x.phase.reply.value then
        x.(phase := Leading(x.phase.now), running := true,
           cancelledAt := if x.ctxDone then Some(x.clock) else None)
      else x.(phase := Waiting)
    case AcquireFailed(_) => x.(phase := Stopped)
    case SendRenew(_) => x.(phase := Renewing(x.phase.stamp, x.clock, None))
    case ServeRenew(i) => x.(phase := Renewing(x.phase.stamp, x.phase.now, Some(HeldBy(w.doc, i))))
    case RenewAnswered(_) => x.(phase := Leading(x.phase.now))
    case RenewFailed(_) =>
      x.(phase := Draining(x.phase.stamp),
         cancelledAt := if x.cancelledAt.None? then Some(x.clock) else x.cancelledAt)
    case RenewLoopEnds(_) => x.(phase := Draining(x.phase.stamp))
    case CallbackReturns(_) => x.(running := false)
    case SendRelease(_) => x.(phase := Releasing(false))
    case ServeRelease(_) => x.(phase := Releasing(true))
    case ReleaseReturns(_) => x.(phase := if x.ctxDone then Stopped else Waiting, cancelledAt := None)
  }

  function After(p: Params, w: World, s: Step): World
    requires Enabled(w, s)
  {
    if s.Tick? then
      w.(insts := seq(|w.insts|, k requires 0 <= k < |w.insts| => w.insts[k].(clock := s.clocks[k])))
    else World(DocAfter(p, w, s), w.insts[s.i := InstanceAfter(w, s)])
  }

  /** The loop starts with nobody leading; the document may be a leftover of any kind. */
  predicate Init(w: World) {
    forall i :: 0 <= i < |w.insts| ==> w.insts[i].phase == Waiting && !w.insts[i].running && w.insts[i].cancelledAt.None?
  }

  datatype Run = Run(worlds: seq<World>, steps: seq<Step>)

  predicate IsRun(p: Params, r: Run) {
    && |r.worlds| == |r.steps| + 1
    && Init(r.worlds[0])
    && forall k :: 0 <= k < |r.steps| ==> Enabled(r.worlds[k], r.steps[k]) && r.worlds[k + 1] == After(p, r.worlds[k], r.steps[k])
  }

  // ---------------------------------------------------------------- timing

  predicate InSync(p: Params, w: World) {
    forall i, j :: 0 <= i < |w.insts| && 0 <= j < |w.insts| ==> w.insts[i].clock <= w.insts[j].clock + p.skew
  }

  predicate Prompt(p: Params, x: Instance) {
    && (x.phase.Leading? || x.phase.Renewing? ==> x.clock <= x.phase.stamp + p.renewWithin)
    && (x.running && x.cancelledAt.Some? ==> x.clock <= x.cancelledAt.value + p.drainWithin)
  }

  predicate Timely(p: Params, w: World) {
    InSync(p, w) && forall i :: 0 <= i < |w.insts| ==> Prompt(p, w.insts[i])
  }

  predicate IsTimelyRun(p: Params, r: Run) {
    IsRun(p, r) && forall k :: 0 <= k < |r.worlds| ==> Timely(p, r.worlds[k])
  }

  /** The `leading` flag is set exactly while the renew loop runs. */
  predicate IsLeader(x: Instance) {
    x.phase.Leading? || x.phase.Renewing?
  }

  /** The instance calls itself leader, or its leader callback has not returned yet. */
  predicate Active(x: Instance) {
    x.running || IsLeader(x)
  }

  /** Whoever is active is the document's holder; a document has one holder. */
  predicate Exclusive(w: World) {
    && (forall i :: 0 <= i < |w.insts| && Active(w.insts[i]) ==> HeldBy(w.doc, i))
    && (forall i, j :: 0 <= i < |w.insts| && 0 <= j < |w.insts| && Active(w.insts[i]) && Active(w.insts[j]) ==> i == j)
  }

  /** What one instance keeps true. The lease it leads on is good for the full duration from its
      stamp; an acquire that won either still holds, or is already too late to be answered. */
  predicate Sound(p: Params, doc: Option<Lease>, i: nat, x: Instance) {
    && (x.running ==> x.phase.Leading? || x.phase.Renewing? || x.phase.Draining?)
    && (Active(x) ==> HeldBy(doc, i) && x.phase.stamp + p.duration <= doc.value.expiresAt)
    && (x.phase.Draining? ==> x.cancelledAt.Some?)
    && (x.cancelledAt.Some? && (x.phase.Leading? || x.phase.Renewing? || x.phase.Draining?) ==>
          x.cancelledAt.value <= x.phase.stamp + p.renewWithin)
    && (x.phase.Leading? && x.ctxDone ==> x.cancelledAt.Some?)
    && (x.phase.Renewing? && x.ctxDone ==> x.cancelledAt.Some?)
    && (x.phase.Leading? || x.phase.Renewing? || x.phase.Draining? ==> x.phase.stamp <= x.clock)
    && (x.phase.Acquiring? ==> x.phase.now <= x.clock)
    && (x.phase.Renewing? ==> x.phase.stamp <= x.phase.now <= x.clock)
    && (x.phase.Renewing? && x.phase.reply == Some(true) ==> x.phase.now + p.duration <= doc.value.expiresAt)
    && (x.phase.Acquiring? && x.phase.reply == Some(true) ==>
          || (HeldBy(doc, i) && x.phase.now + p.duration <= doc.value.expiresAt)
          || x.phase.now + p.renewWithin < x.clock)
  }

  predicate Inv(p: Params, w: World) {
    forall i :: 0 <= i < |w.insts| ==> Sound(p, w.doc, i, w.insts[i])
  }

  predicate Margins(p: Params) {
    0 <= p.renewWithin && 0 <= p.drainWithin && 0 <= p.skew
  }

  predicate LongEnough(p: Params) {
    p.renewWithin + p.drainWithin + p.skew <= p.duration
  }

  /** Nobody can take over from an active instance. */
  lemma NoTakeover(p: Params, w: World, i: nat, j: nat)
    requires Margins(p) && LongEnough(p) && Timely(p, w) && Inv(p, w)
    requires i < |w.insts| && j < |w.insts| && i != j
    requires Active(w.insts[i]) && w.insts[j].phase.Acquiring?
    ensures !Obtainable(w.doc, j, w.insts[j].phase.now)
  {
    var x, y := w.insts[i], w.insts[j];
    assert Sound(p, w.doc, i, x) && Sound(p, w.doc, j, y) && Prompt(p, x);
    assert y.clock <= x.clock + p.skew;
  }

  /** The instance that takes the step stays sound. */
  lemma ActorSound(p: Params, w: World, s: Step)
    requires Margins(p) && LongEnough(p) && Timely(p, w) && Inv(p, w)
    requires Enabled(w, s) && !s.Tick? && Timely(p, After(p, w, s))
    ensures Sound(p, DocAfter(p, w, s), s.i, InstanceAfter(w, s))
  {
    assert Sound(p, w.doc, s.i, w.insts[s.i]) && Prompt(p, w.insts[s.i]);
    assert After(p, w, s).insts[s.i] == InstanceAfter(w, s);
    assert Prompt(p, InstanceAfter(w, s));
  }

  /** Everyone else stays sound. */
  lemma BystanderSound(p: Params, w: World, s: Step, i: nat)
    requires Margins(p) && LongEnough(p) && Timely(p, w) && Inv(p, w)
    requires Enabled(w, s) && !s.Tick? && i < |w.insts| && i != s.i
    ensures Sound(p, DocAfter(p, w, s), i, w.insts[i])
  {
    assert Sound(p, w.doc, i, w.insts[i]) && Sound(p, w.doc, s.i, w.insts[s.i]);
    if s.ServeAcquire? {
      if Active(w.insts[i]) {
        NoTakeover(p, w, i, s.i);
      }
      assert w.insts[s.i].clock <= w.insts[i].clock + p.skew;
    }
  }

  lemma InvStep(p: Params, w: World, s: Step)
    requires Margins(p) && LongEnough(p) && Timely(p, w) && Inv(p, w)
    requires Enabled(w, s) && Timely(p, After(p, w, s))
    ensures Inv(p, After(p, w, s))
  {
    var w' := After(p, w, s);
    forall i | 0 <= i < |w'.insts| ensures Sound(p, w'.doc, i, w'.insts[i]) {
      if s.Tick? {
        assert Sound(p, w.doc, i, w.insts[i]);
      } else if i == s.i {
        ActorSound(p, w, s);
      } else {
        BystanderSound(p, w, s, i);
      }
    }
  }

  lemma RunStep(p: Params, r: Run, k: nat)
    requires IsTimelyRun(p, r) && k < |r.steps|
    ensures k + 1 < |r.worlds| && Enabled(r.worlds[k], r.steps[k]) && r.worlds[k + 1] == After(p, r.worlds[k], r.steps[k])
    ensures Timely(p, r.worlds[k]) && Timely(p, r.worlds[k + 1])
  {
  }

  lemma {:induction false} InvHolds(p: Params, r: Run, k: nat)
    requires Margins(p) && LongEnough(p) && IsTimelyRun(p, r) && k < |r.worlds|
    ensures Inv(p, r.worlds[k])
  {
    if k > 0 {
      InvHolds(p, r, k - 1);
      RunStep(p, r, k - 1);
      InvStep(p, r.worlds[k - 1], r.steps[k - 1]);
    }
  }

  /** Mutual exclusion in every state of every timely run. */
  lemma MutualExclusion(p: Params, r: Run, k: nat)
    requires Margins(p) && LongEnough(p) && IsTimelyRun(p, r) && k < |r.worlds|
    ensures Exclusive(r.worlds[k])
  {
    InvHolds(p, r, k);
    var w := r.worlds[k];
    forall i | 0 <= i < |w.insts| && Active(w.insts[i]) ensures HeldBy(w.doc, i) {
      assert Sound(p, w.doc, i, w.insts[i]);
    }
  }

  // ---------------------------------------------------------------- what the operations achieve

  /** A served acquire wins the lease if there is none, if it is the instance's own, expired or not, or
      if it has expired at the stamp; in every other case it loses and the document stays. */
  lemma AcquireServed(p: Params, w: World, i: nat)
    requires Enabled(w, ServeAcquire(i))
    ensures var now, w' := w.insts[i].phase.now, After(p, w, ServeAcquire(i));
      && w'.insts[i].phase == Acquiring(now, w'.insts[i].phase.reply)
      && (w.doc.None? || w.doc.value.holder == i || w.doc.value.expiresAt < now ==>
            w'.insts[i].phase.reply == Some(true) && w'.doc == Some(Lease(i, now, now, now + p.duration)))
      && (w.doc.Some? && w.doc.value.holder != i && now <= w.doc.value.expiresAt ==>
            w'.insts[i].phase.reply == Some(false) && w'.doc == w.doc)
  {
  }

  /** A served renewal succeeds exactly for the holder, and then the lease is good for its full duration
      from the stamp. */
  lemma RenewServed(p: Params, w: World, i: nat)
    requires Enabled(w, ServeRenew(i))
    ensures var now, w' := w.insts[i].phase.now, After(p, w, ServeRenew(i));
      && w'.insts[i].phase == Renewing(w.insts[i].phase.stamp, now, Some(w.doc.Some? && w.doc.value.holder == i))
      && (w.doc.Some? && w.doc.value.holder == i ==>
            w'.doc == Some(Lease(i, w.doc.value.acquiredAt, now, now + p.duration)))
      && (w.doc.None? || w.doc.value.holder != i ==> w'.doc == w.doc)
  {
  }

  /** Taken one after the other. */
  predicate Leads(p: Params, w: World, steps: seq<Step>, w': World)
    decreases |steps|
  {
    if steps == [] then w' == w else Enabled(w, steps[0]) && Leads(p, After(p, w, steps[0]), steps[1..], w')
  }

  function AcquireSteps(i: nat): seq<Step> {
    [SendAcquire(i), ServeAcquire(i), AcquireAnswered(i)]
  }

  lemma ThreeLead(p: Params, w: World, a: Step, b: Step, c: Step)
    requires Enabled(w, a) && Enabled(After(p, w, a), b) && Enabled(After(p, After(p, w, a), b), c)
    ensures Leads(p, w, [a, b, c], After(p, After(p, After(p, w, a), b), c))
  {
    hide Enabled, After;
    var w1, w2 := After(p, w, a), After(p, After(p, w, a), b);
    var w3 := After(p, w2, c);
    assert Leads(p, w3, [], w3);
    assert [c][1..] == [] && [b, c][1..] == [c] && [a, b, c][1..] == [b, c];
    assert Leads(p, w2, [c], w3);
    assert Leads(p, w1, [b, c], w3);
  }

  /** The lease is not lost to everyone: a waiting instance that finds it free, its own or expired leads
      after one answered attempt, with its callback running. */
  lemma WaitingCanLead(p: Params, w: World, i: nat) returns (w': World)
    requires i < |w.insts| && w.insts[i].phase.Waiting? && !w.insts[i].ctxDone
    requires w.doc.None? || w.doc.value.holder == i || w.doc.value.expiresAt < w.insts[i].clock
    ensures |w'.insts| == |w.insts| && Leads(p, w, AcquireSteps(i), w') && w'.insts[i].phase == Leading(w.insts[i].clock) && w'.insts[i].running
    ensures w'.doc == Some(Lease(i, w.insts[i].clock, w.insts[i].clock, w.insts[i].clock + p.duration))
  {
    var w1 := After(p, w, SendAcquire(i));
    var w2 := After(p, w1, ServeAcquire(i));
    w' := After(p, w2, AcquireAnswered(i));
    ThreeLead(p, w, SendAcquire(i), ServeAcquire(i), AcquireAnswered(i));
  }

  /** A leader that is answered keeps leading, on a lease good for the full duration from the stamp. */
  lemma LeaderCanRenew(p: Params, w: World, i: nat) returns (w': World)
    requires i < |w.insts| && w.insts[i].phase.Leading? && HeldBy(w.doc, i)
    ensures |w'.insts| == |w.insts| && Leads(p, w, [SendRenew(i), ServeRenew(i), RenewAnswered(i)], w')
    ensures w'.insts[i] == w.insts[i].(phase := Leading(w.insts[i].clock))
    ensures w'.doc == Some(w.doc.value.(renewedAt := w.insts[i].clock, expiresAt := w.insts[i].clock + p.duration))
  {
    var w1 := After(p, w, SendRenew(i));
    var w2 := After(p, w1, ServeRenew(i));
    w' := After(p, w2, RenewAnswered(i));
    ThreeLead(p, w, SendRenew(i), ServeRenew(i), RenewAnswered(i));
  }

  /** An instance whose callback has returned gives the lease back, and anyone may have it at once. */
  lemma DrainedGivesBack(p: Params, w: World, i: nat) returns (w': World)
    requires i < |w.insts| && w.insts[i].phase.Draining? && !w.insts[i].running && HeldBy(w.doc, i)
    ensures |w'.insts| == |w.insts| && Leads(p, w, [SendRelease(i), ServeRelease(i), ReleaseReturns(i)], w') && w'.doc.None?
    ensures w'.insts[i].phase == if w.insts[i].ctxDone then Stopped else Waiting
  {
    var w1 := After(p, w, SendRelease(i));
    var w2 := After(p, w1, ServeRelease(i));
    w' := After(p, w2, ReleaseReturns(i));
    ThreeLead(p, w, SendRelease(i), ServeRelease(i), ReleaseReturns(i));
  }

  // ---------------------------------------------------------------- the bound is exact

  /** Two instances: the first leads, is cancelled as late as it may be and drains as slowly as it
      may; meanwhile the second, whose clock is ahead by the whole skew, takes the lease. */
  function LateDrainSteps(p: Params): seq<Step> {
    var a, b := p.renewWithin, p.renewWithin + p.drainWithin;
    [ SendAcquire(0), ServeAcquire(0), AcquireAnswered(0),
      Tick([a, a + p.skew]), SendRenew(0), RenewFailed(0),
      Tick([b, b + p.skew]), SendAcquire(1), ServeAcquire(1), AcquireAnswered(1) ]
  }

  function LateDrainWorld(p: Params, k: nat): World {
    var L, a, b := p.duration, p.renewWithin, p.renewWithin + p.drainWithin;
    var doc0 := Some(Lease(0, 0, 0, L));
    var ahead := Instance(b + p.skew, Waiting, false, None, false);
    var drained := Instance(b, Draining(0), true, Some(a), false);
    if k == 0 then World(None, [Instance(0, Waiting, false, None, false), ahead.(clock := p.skew)])
    else if k == 1 then World(None, [Instance(0, Acquiring(0, None), false, None, false), ahead.(clock := p.skew)])
    else if k == 2 then World(doc0, [Instance(0, Acquiring(0, Some(true)), false, None, false), ahead.(clock := p.skew)])
    else if k == 3 then World(doc0, [Instance(0, Leading(0), true, None, false), ahead.(clock := p.skew)])
    else if k == 4 then World(doc0, [Instance(a, Leading(0), true, None, false), ahead.(clock := a + p.skew)])
    else if k == 5 then World(doc0, [Instance(a, Renewing(0, a, None), true, None, false), ahead.(clock := a + p.skew)])
    else if k == 6 then World(doc0, [drained.(clock := a), ahead.(clock := a + p.skew)])
    else if k == 7 then World(doc0, [drained, ahead])
    else if k == 8 then World(doc0, [drained, ahead.(phase := Acquiring(b + p.skew, None))])
    else
      var doc1 := Some(Lease(1, b + p.skew, b + p.skew, b + p.skew + L));
      if k == 9 then World(doc1, [drained, ahead.(phase := Acquiring(b + p.skew, Some(true)))])
      else World(doc1, [drained, ahead.(phase := Leading(b + p.skew), running := true)])
  }

  lemma LateDrainStep(p: Params, k: nat)
    requires Margins(p) && !LongEnough(p) && k < 10
    ensures Enabled(LateDrainWorld(p, k), LateDrainSteps(p)[k])
    ensures LateDrainWorld(p, k + 1) == After(p, LateDrainWorld(p, k), LateDrainSteps(p)[k])
  {
    var w, w', s := LateDrainWorld(p, k), LateDrainWorld(p, k + 1), LateDrainSteps(p)[k];
    assert |w.insts| == |w'.insts| == 2;
    assert w'.insts == After(p, w, s).insts;
  }

  lemma LateDrainRun(p: Params) returns (r: Run)
    requires Margins(p) && !LongEnough(p)
    ensures IsTimelyRun(p, r)
    ensures exists k :: 0 <= k < |r.worlds| && !Exclusive(r.worlds[k])
  {
    r := Run(seq(11, k requires 0 <= k => LateDrainWorld(p, k)), LateDrainSteps(p));
    forall k | 0 <= k < 10
      ensures Enabled(r.worlds[k], r.steps[k]) && r.worlds[k + 1] == After(p, r.worlds[k], r.steps[k])
    {
      LateDrainStep(p, k);
    }
    forall k | 0 <= k < 11 ensures Timely(p, r.worlds[k]) {
      LateDrainTimely(p, k);
    }
    var last := r.worlds[10];
    assert Active(last.insts[0]) && Active(last.insts[1]);
  }

  lemma LateDrainTimely(p: Params, k: nat)
    requires Margins(p) && !LongEnough(p) && k < 11
    ensures Timely(p, LateDrainWorld(p, k))
  {
  }

  /** The timing inequality is exactly what exclusion needs: it holds in every timely run of any
      number of instances if and only if the lease outlasts the three delays together. */
  lemma ExclusionIff(p: Params)
    requires Margins(p)
    ensures LongEnough(p) <==> forall r, k :: IsTimelyRun(p, r) && 0 <= k < |r.worlds| ==> Exclusive(r.worlds[k])
  {
    if LongEnough(p) {
      forall r, k | IsTimelyRun(p, r) && 0 <= k < |r.worlds| ensures Exclusive(r.worlds[k]) {
        MutualExclusion(p, r, k);
      }
    } else {
      var r := LateDrainRun(p);
    }
  }

  // ---------------------------------------------------------------- history, no timing at all

  /** The step's actor takes the lease from a holder whose stored expiry its stamp has passed. */
  predicate Expired(w: World, s: Step, from: nat) {
    && s.ServeAcquire? && s.i != from && Enabled(w, s) && HeldBy(w.doc, from)
    && w.doc.value.expiresAt < w.insts[s.i].phase.now
  }

  /** The holder itself gives the lease back. */
  predicate GivenBack(w: World, s: Step, from: nat) {
    s.ServeRelease? && s.i == from && Enabled(w, s) && HeldBy(w.doc, from)
  }

  /** One step: the holder only ever loses the lease by expiry at the taker's stamp or by its own release. */
  lemma HolderLosesLease(p: Params, w: World, s: Step, i: nat)
    requires Enabled(w, s) && HeldBy(w.doc, i)
    ensures !HeldBy(After(p, w, s).doc, i) <==> Expired(w, s, i) || GivenBack(w, s, i)
  {
  }

  /** A renew or release served for one instance leaves any lease another instance holds as it was. */
  lemma OthersUntouched(p: Params, w: World, s: Step, i: nat)
    requires Enabled(w, s) && HeldBy(w.doc, i) && !s.Tick? && s.i != i
    ensures After(p, w, s).doc == w.doc || Expired(w, s, i)
    ensures !s.ServeAcquire? ==> After(p, w, s).doc == w.doc
  {
  }

  /** Between two states with different holders, some step in between either took an expired lease
      from the first holder or was the first holder's own release. */
  lemma {:induction false} HolderChange(p: Params, r: Run, from: nat, to: nat, a: nat, b: nat)
    requires IsRun(p, r) && a < b < |r.worlds| && from != to
    requires HeldBy(r.worlds[a].doc, from) && HeldBy(r.worlds[b].doc, to)
    ensures exists k :: a <= k < b && (Expired(r.worlds[k], r.steps[k], from) || GivenBack(r.worlds[k], r.steps[k], from))
    decreases b - a
  {
    HolderLosesLease(p, r.worlds[a], r.steps[a], from);
    if HeldBy(r.worlds[a + 1].doc, from) {
      HolderChange(p, r, from, to, a + 1, b);
    }
  }

  /** A callback runs only under the renew loop or while being drained. */
  predicate CallbackPlaced(w: World) {
    forall i :: 0 <= i < |w.insts| && w.insts[i].running ==> IsLeader(w.insts[i]) || w.insts[i].phase.Draining?
  }

  /** In any run, with any clocks and any failures, an instance releases only once its own callback
      has returned. */
  lemma {:induction false} ReleaseAfterCallback(p: Params, r: Run, k: nat)
    requires IsRun(p, r) && k < |r.worlds|
    ensures CallbackPlaced(r.worlds[k])
    ensures k < |r.steps| && (r.steps[k].SendRelease? || r.steps[k].ServeRelease?) ==>
      !r.worlds[k].insts[r.steps[k].i].running
  {
    if k > 0 {
      ReleaseAfterCallback(p, r, k - 1);
      var w, s, w' := r.worlds[k - 1], r.steps[k - 1], r.worlds[k];
      forall i | 0 <= i < |w'.insts| && w'.insts[i].running
        ensures IsLeader(w'.insts[i]) || w'.insts[i].phase.Draining?
      {
        assert w.insts[i].running || (s == AcquireAnswered(i));
      }
    }
  }
}
