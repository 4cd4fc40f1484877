/** One leadership term of the orchestrator: the initial reconciliation, then the event loop and the
    periodic loop under one mutex. A handler touches the gateway in many small steps: a List, or one
    write whose effect on the gateway is left open (a write may fail, and may fail after it took
    effect). Other goroutines run between any two of them. */
module Orchestrator {
  import opened Core
  import opened Kube

  /** Which optional parts are configured; and whether calls of the gateway go to an API server, which
      each of them lists first, or work on the gateway's memory. */
  datatype Config = Config(reconciler: bool, periodic: bool, trigger: bool, listing: bool)

  datatype Job = Reconcile | Handle(event: RouteEvent)

  /** How far a handler has got; a reconciliation and an event share the stages they have in common. */
  datatype Stage =
    | Fresh
    | DesiredListed
    | Listing
    | ActualListed
    | Deprovisioning
    | Issuing
    | Provisioning
    | Finished

  /** `call` is what the handler has asked for in the gateway call it is in. */
  datatype Handler = Handler(number: nat, job: Job, stage: Stage, call: seq<Request>)

  datatype MainLoop =
    | Initial(h: Handler)
    | Selecting
    | Waiting(event: RouteEvent)
    | Handling(h: Handler)
    | Returned

  datatype TickLoop =
    | NotStarted
    | Ticking
    | TickWaiting
    | TickHandling(h: Handler)
    | TickReturned

  datatype Thread = Main | Periodic

  /** One gateway access, with the gateway's state before and after it; a List changes nothing. */
  datatype Access<G> = Access(number: nat, write: bool, before: G, after: G)

  datatype World<G> = World(
    gateway: G,
    mu: Option<Thread>,
    main: MainLoop,
    loop: TickLoop,
    events: bool,
    ctxDone: bool,
    handlers: nat,
    history: seq<Access<G>>)

  /** What a handler does next: something away from the gateway, a List, or a write. */
  datatype Deed<G> = Think(next: Stage) | List | Write(gateway: G)

  datatype Step<G> =
    | HandlerStep(thread: Thread, deed: Deed<G>)
    | InitialDone
    | ContextDone
    | MainStops
    | TriggerFails
    | TakeEvent(event: RouteEvent)
    | MainLocks
    | MainUnlocks
    | TickFires
    | TickLocks
    | TickUnlocks
    | TickStops

  /** What a handler may do next. Over an API server its gateway call has to remain of the form that the
      methods of the gateway keep to; a call may end anywhere. */
  predicate Allowed<G>(cfg: Config, h: Handler, d: Deed<G>) {
    match d
    case Think(next) => Follows(h, next)
    case List => h.stage in {Listing, Deprovisioning, Provisioning} && (cfg.listing ==> ListFirst(h.call + [ListRequest]))
    case Write(_) => h.stage in {Deprovisioning, Provisioning} && (cfg.listing ==> ListFirst(h.call + [WriteRequest]))
  }

  /** The order of a handler's stages. A reconciliation lists the desired then the actual routes,
      deprovisions (going on whatever came of it), issues, provisions; an event issues and
      provisions, or deprovisions. */
  predicate Follows(h: Handler, next: Stage) {
    match h.job
    case Reconcile =>
      || (h.stage == Fresh && next in {DesiredListed, Finished})
      || (h.stage == DesiredListed && next == Listing)
      || (h.stage == Listing && next in {ActualListed, Finished})
      || (h.stage == ActualListed && next in {Deprovisioning, Issuing})
      || (h.stage == Deprovisioning && next == Issuing)
      || (h.stage == Issuing && next in {Issuing, Provisioning, Finished})
      || (h.stage == Provisioning && next == Finished)
    case Handle(ev) =>
      || (ev.kind in {RouteCreated, RouteUpdated} && h.stage == Fresh && next in {Issuing, Finished})
      || (ev.kind in {RouteCreated, RouteUpdated} && h.stage == Issuing && next in {Provisioning, Finished})
      || (ev.kind == RouteDeleted && h.stage == Fresh && next in {Deprovisioning, Finished})
      || (ev.kind == OtherEvent && h.stage == Fresh && next == Finished)
      || (h.stage in {Deprovisioning, Provisioning} && next == Finished)
  }

  /** The handler a thread is inside, if any. */
  function ActiveOn<G>(w: World<G>, t: Thread): Option<Handler> {
    match t
    case Main => if w.main.Initial? || w.main.Handling? then Some(w.main.h) else None
    case Periodic => if w.loop.TickHandling? then Some(w.loop.h) else None
  }

  predicate Enabled<G>(cfg: Config, w: World<G>, s: Step<G>) {
    match s
    case HandlerStep(t, d) => ActiveOn(w, t).Some? && Allowed(cfg, ActiveOn(w, t).value, d)
    case InitialDone => w.main.Initial? && w.main.h.stage.Finished?
    case ContextDone => true
    case MainStops => w.main.Selecting? && w.ctxDone
    case TriggerFails => w.main.Selecting? && w.events
    case TakeEvent(_) => w.main.Selecting? && w.events
    case MainLocks => w.main.Waiting? && w.mu.None?
    case MainUnlocks => w.main.Handling? && w.main.h.stage.Finished?
    case TickFires => w.loop.Ticking?
    case TickLocks => w.loop.TickWaiting? && w.mu.None?
    case TickUnlocks => w.loop.TickHandling? && w.loop.h.stage.Finished?
    case TickStops => w.loop.Ticking? && w.ctxDone
  }

  function Staged<G>(w: World<G>, t: Thread, h: Handler): World<G> {
    match t
    case Main => w.(main := if w.main.Initial? then Initial(h) else Handling(h))
    case Periodic => w.(loop := TickHandling(h))
  }

  function After<G>(cfg: Config, w: World<G>, s: Step<G>): World<G>
    requires Enabled(cfg, w, s)
  {
    match s
    case HandlerStep(t, d) =>
      var h := ActiveOn(w, t).value;
      (match d
       case Think(next) => Staged(w, t, h.(stage := next, call := []))
       case List =>
         Staged(w, t, h.(call := h.call + [ListRequest])).(history := w.history + [Access(h.number, false, w.gateway, w.gateway)])
       case Write(g) =>
         Staged(w, t, h.(call := h.call + [WriteRequest])).(gateway := g, history := w.history + [Access(h.number, true, w.gateway, g)]))
    case InitialDone =>
      w.(main := Selecting, events := cfg.trigger,
         loop := if cfg.reconciler && cfg.periodic then Ticking else NotStarted)
    case ContextDone => w.(ctxDone := true)
    case MainStops => w.(main := Returned)
    case TriggerFails => w.(events := false)
    case TakeEvent(ev) => w.(main := Waiting(ev))
    case MainLocks =>
      w.(mu := Some(Main), main := Handling(Handler(w.handlers, Handle(w.main.event), Fresh, [])), handlers := w.handlers + 1)
    case MainUnlocks => w.(mu := None, main := Selecting)
    case TickFires => w.(loop := TickWaiting)
    case TickLocks =>
      w.(mu := Some(Periodic), loop := TickHandling(Handler(w.handlers, Reconcile, Fresh, [])), handlers := w.handlers + 1)
    case TickUnlocks => w.(mu := None, loop := Ticking)
    case TickStops => w.(loop := TickReturned)
  }

  /** The term begins inside the initial reconciliation, or past it when none is configured. */
  ghost predicate Init<G>(cfg: Config, w: World<G>) {
    && w.mu.None? && w.loop.NotStarted? && w.handlers == 1 && w.history == [] && !w.events
    && w.main == Initial(Handler(0, Reconcile, if cfg.reconciler then Fresh else Finished, []))
  }

  datatype Run<G> = Run(worlds: seq<World<G>>, steps: seq<Step<G>>)

  ghost predicate IsRun<G>(cfg: Config, r: Run<G>) {
    && |r.worlds| == |r.steps| + 1
    && Init(cfg, r.worlds[0])
    && forall k :: 0 <= k < |r.steps| ==> Enabled(cfg, r.worlds[k], r.steps[k]) && r.worlds[k + 1] == After(cfg, r.worlds[k], r.steps[k])
  }

  /** Each access finds the gateway as the previous one left it, handlers never go back. */
  ghost predicate Chained<G>(hist: seq<Access<G>>) {
    forall k :: 0 < k < |hist| ==> hist[k - 1].after == hist[k].before && hist[k - 1].number <= hist[k].number
  }

  /** Between the access and the handler's last List before it there is nothing but writes of the same
      handler. */
  ghost predicate OwnList<G>(hist: seq<Access<G>>, q: nat)
    requires q < |hist|
  {
    exists p :: 0 <= p < q && ListedAt(hist, p, q)
  }

  ghost predicate ListedAt<G>(hist: seq<Access<G>>, p: nat, q: nat)
    requires p < q < |hist|
  {
    && !hist[p].write && hist[p].number == hist[q].number
    && forall m :: p < m < q ==> hist[m].write && hist[m].number == hist[q].number
  }

  /** The last accesses are those of the call the handler is in. */
  predicate InCall<G>(hist: seq<Access<G>>, h: Handler) {
    && |h.call| <= |hist|
    && ListFirst(h.call)
    && forall i :: |hist| - |h.call| <= i < |hist| ==>
      hist[i].number == h.number && (hist[i].write <==> h.call[i - (|hist| - |h.call|)] == WriteRequest)
  }

  /** The mutex, and before it the fact that nothing else has been started, keep one handler active;
      it is the newest one. */
  predicate Locked<G>(w: World<G>) {
    && (w.main.Initial? ==> w.mu.None? && w.loop.NotStarted? && w.main.h.number == 0 && w.handlers == 1)
    && (w.main.Handling? <==> w.mu == Some(Main))
    && (w.loop.TickHandling? <==> w.mu == Some(Periodic))
    && (w.main.Handling? ==> w.main.h.number + 1 == w.handlers)
    && (w.loop.TickHandling? ==> w.loop.h.number + 1 == w.handlers)
  }

  ghost predicate Recorded<G>(w: World<G>) {
    && Chained(w.history)
    && (forall k :: 0 <= k < |w.history| ==> w.history[k].number < w.handlers)
    && (forall k :: 0 <= k < |w.history| && !w.history[k].write ==> w.history[k].before == w.history[k].after)
    && (w.history != [] ==> w.history[|w.history| - 1].after == w.gateway)
  }

  ghost predicate Listed<G>(w: World<G>) {
    && (ActiveOn(w, Main).Some? ==> InCall(w.history, ActiveOn(w, Main).value))
    && (ActiveOn(w, Periodic).Some? ==> InCall(w.history, ActiveOn(w, Periodic).value))
    && (forall q :: 0 <= q < |w.history| && w.history[q].write ==> OwnList(w.history, q))
  }

  ghost predicate Inv<G>(cfg: Config, w: World<G>) {
    Locked(w) && Recorded(w) && (cfg.listing ==> Listed(w))
  }

  lemma LockedStep<G>(cfg: Config, w: World<G>, s: Step<G>)
    requires Locked(w) && Enabled(cfg, w, s)
    ensures Locked(After(cfg, w, s))
  {
    if s.HandlerStep? {
      assert ActiveOn(w, s.thread).value.number + 1 == w.handlers;
    }
  }

  lemma RecordedExtends<G>(w: World<G>, w': World<G>, a: Access<G>)
    requires Recorded(w) && w'.history == w.history + [a] && w'.handlers == w.handlers
    requires a.number + 1 == w.handlers && a.before == w.gateway && a.after == w'.gateway
    requires a.write || a.before == a.after
    ensures Recorded(w')
  {
    forall k | 0 < k < |w'.history|
      ensures w'.history[k - 1].after == w'.history[k].before && w'.history[k - 1].number <= w'.history[k].number
    {
      if k < |w.history| {
        assert w'.history[k - 1] == w.history[k - 1] && w'.history[k] == w.history[k];
      }
    }
  }

  lemma RecordedStep<G>(cfg: Config, w: World<G>, s: Step<G>)
    requires Locked(w) && Recorded(w) && Enabled(cfg, w, s)
    ensures Recorded(After(cfg, w, s))
  {
    if s.HandlerStep? && !s.deed.Think? {
      var number := ActiveOn(w, s.thread).value.number;
      assert number + 1 == w.handlers;
      if s.deed.List? {
        RecordedExtends(w, After(cfg, w, s), Access(number, false, w.gateway, w.gateway));
      } else {
        RecordedExtends(w, After(cfg, w, s), Access(number, true, w.gateway, s.deed.gateway));
      }
    }
  }

  lemma CallGoesOn<G>(hist: seq<Access<G>>, h: Handler, h': Handler, r: Request, a: Access<G>)
    requires InCall(hist, h) && h' == h.(call := h.call + [r]) && ListFirst(h'.call)
    requires a.number == h.number && (a.write <==> r == WriteRequest)
    ensures InCall(hist + [a], h')
    ensures a.write ==> OwnList(hist + [a], |hist|)
  {
    var hist', first := hist + [a], |hist| - |h.call|;
    forall i | first <= i < |hist'| ensures hist'[i].number == h.number && (hist'[i].write <==> h'.call[i - first] == WriteRequest) {
      if i < |hist| {
        assert hist'[i] == hist[i];
      }
    }
    if a.write {
      assert h'.call[0] == ListRequest;
      assert ListedAt(hist', first, |hist|);
    }
  }

  lemma OwnListStays<G>(hist: seq<Access<G>>, a: Access<G>, q: nat)
    requires q < |hist| && OwnList(hist, q)
    ensures OwnList(hist + [a], q)
  {
    var p :| 0 <= p < q && ListedAt(hist, p, q);
    assert ListedAt(hist + [a], p, q);
  }

  lemma HandlerListed<G>(cfg: Config, w: World<G>, s: Step<G>)
    requires cfg.listing && Locked(w) && Listed(w) && Enabled(cfg, w, s) && s.HandlerStep? && !s.deed.Think?
    ensures Listed(After(cfg, w, s))
  {
    var w', h := After(cfg, w, s), ActiveOn(w, s.thread).value;
    var r := if s.deed.List? then ListRequest else WriteRequest;
    var a := w'.history[|w.history|];
    var h' := h.(call := h.call + [r]);
    assert ActiveOn(w', s.thread) == Some(h') && ActiveOn(w', if s.thread == Main then Periodic else Main).None?;
    hide ListFirst, InCall, OwnList;
    CallGoesOn(w.history, h, h', r, a);
    forall q | 0 <= q < |w'.history| && w'.history[q].write ensures OwnList(w'.history, q) {
      if q < |w.history| {
        OwnListStays(w.history, a, q);
      }
    }
  }

  lemma ListedStep<G>(cfg: Config, w: World<G>, s: Step<G>)
    requires cfg.listing && Locked(w) && Listed(w) && Enabled(cfg, w, s)
    ensures Listed(After(cfg, w, s))
  {
    if s.HandlerStep? && !s.deed.Think? {
      HandlerListed(cfg, w, s);
    } else {
      assert After(cfg, w, s).history == w.history;
    }
  }

  lemma {:induction false} InvHolds<G>(cfg: Config, r: Run<G>, k: nat)
    requires IsRun(cfg, r) && k < |r.worlds|
    ensures Inv(cfg, r.worlds[k])
  {
    if k > 0 {
      InvHolds(cfg, r, k - 1);
      LockedStep(cfg, r.worlds[k - 1], r.steps[k - 1]);
      RecordedStep(cfg, r.worlds[k - 1], r.steps[k - 1]);
      if cfg.listing {
        ListedStep(cfg, r.worlds[k - 1], r.steps[k - 1]);
      }
    }
  }

  /** At any moment at most one goroutine is inside a handler. */
  lemma OneHandlerAtATime<G>(cfg: Config, r: Run<G>, k: nat)
    requires IsRun(cfg, r) && k < |r.worlds|
    ensures ActiveOn(r.worlds[k], Main).None? || ActiveOn(r.worlds[k], Periodic).None?
  {
    InvHolds(cfg, r, k);
  }

  lemma {:induction false} NumbersGrow<G>(hist: seq<Access<G>>, p: nat, q: nat)
    requires Chained(hist) && p <= q < |hist|
    ensures hist[p].number <= hist[q].number
    decreases q - p
  {
    if p < q {
      NumbersGrow(hist, p, q - 1);
    }
  }

  /** Every run is serial: between two gateway accesses of one handler there is none of another,
      handlers follow each other in the order they took the mutex, and each access starts from the
      gateway the one before it left. */
  lemma SerialOrder<G>(cfg: Config, r: Run<G>, k: nat, p: nat, q: nat)
    requires IsRun(cfg, r) && k < |r.worlds| && p <= q < |r.worlds[k].history|
    ensures var hist := r.worlds[k].history;
      && hist[p].number <= hist[q].number
      && (hist[p].number == hist[q].number ==> forall m :: p <= m <= q ==> hist[m].number == hist[p].number)
      && (p < q ==> hist[q - 1].after == hist[q].before)
      && hist[|hist| - 1].after == r.worlds[k].gateway
  {
    InvHolds(cfg, r, k);
    var hist := r.worlds[k].history;
    NumbersGrow(hist, p, q);
    forall m | p <= m <= q ensures hist[p].number <= hist[m].number <= hist[q].number {
      NumbersGrow(hist, p, m);
      NumbersGrow(hist, m, q);
    }
  }

  /** Over an API server every write has a List of its own handler before it, with only writes of that
      handler in between: what it was computed from is the cluster as listed, but for its own writes. */
  lemma WritesFollowLists<G>(cfg: Config, r: Run<G>, k: nat, q: nat) returns (p: nat)
    requires cfg.listing && IsRun(cfg, r) && k < |r.worlds| && q < |r.worlds[k].history| && r.worlds[k].history[q].write
    ensures p < q && ListedAt(r.worlds[k].history, p, q)
    ensures r.worlds[k].history[p + 1].before == r.worlds[k].history[p].after
  {
    InvHolds(cfg, r, k);
    var hist := r.worlds[k].history;
    p :| 0 <= p < q && ListedAt(hist, p, q);
  }

  /** No snapshot is stale: what a handler's List returned is still the gateway's state when that
      handler next writes, whatever ran in between. */
  lemma {:induction false} NoStaleSnapshot<G>(cfg: Config, r: Run<G>, k: nat, p: nat, q: nat)
    requires IsRun(cfg, r) && k < |r.worlds|
    requires p < q < |r.worlds[k].history|
    requires r.worlds[k].history[p].number == r.worlds[k].history[q].number
    requires forall m :: p <= m < q && r.worlds[k].history[m].number == r.worlds[k].history[p].number ==> !r.worlds[k].history[m].write
    ensures r.worlds[k].history[q].before == r.worlds[k].history[p].after
    decreases q - p
  {
    InvHolds(cfg, r, k);
    if p + 1 < q {
      SerialOrder(cfg, r, k, p, q);
      NoStaleSnapshot(cfg, r, k, p, q - 1);
      assert !r.worlds[k].history[q - 1].write;
    }
  }

  /** Once the trigger has failed no further event is ever handled, but the periodic loop goes on. */
  lemma {:induction false} DegradesToReconciliation<G>(cfg: Config, r: Run<G>, k: nat, j: nat)
    requires IsRun(cfg, r) && k < j < |r.worlds| && r.steps[k].TriggerFails?
    ensures !r.worlds[j].events && (r.worlds[j].main.Selecting? || r.worlds[j].main.Returned?)
    ensures j < |r.steps| ==> !r.steps[j].TakeEvent? && !r.steps[j].MainLocks?
  {
    if k + 1 < j {
      DegradesToReconciliation(cfg, r, k, j - 1);
    }
  }

  // ---------------------------------------------------------------- handlers do get done

  /** The steps can be taken one after the other. */
  ghost predicate Leads<G>(cfg: Config, w: World<G>, steps: seq<Step<G>>, w': World<G>)
    decreases |steps|
  {
    if steps == [] then w' == w else Enabled(cfg, w, steps[0]) && Leads(cfg, After(cfg, w, steps[0]), steps[1..], w')
  }

  lemma {:induction false} LeadsOn<G>(cfg: Config, w: World<G>, a: seq<Step<G>>, w1: World<G>, b: seq<Step<G>>,
      w2: World<G>)
    requires Leads(cfg, w, a, w1) && Leads(cfg, w1, b, w2)
    ensures Leads(cfg, w, a + b, w2)
    decreases |a|
  {
    if a == [] {
      assert a + b == b;
    } else {
      LeadsOn(cfg, After(cfg, w, a[0]), a[1..], w1, b, w2);
      assert (a + b)[1..] == a[1..] + b;
    }
  }

  lemma OneLeads<G>(cfg: Config, w: World<G>, s: Step<G>)
    requires Enabled(cfg, w, s)
    ensures Leads(cfg, w, [s], After(cfg, w, s))
  {
    assert [s][1..] == [];
    assert Leads(cfg, After(cfg, w, s), [], After(cfg, w, s));
  }

  /** The thread's handler goes on to the next stage. */
  lemma Moves<G>(cfg: Config, w: World<G>, t: Thread, next: Stage) returns (w': World<G>)
    requires ActiveOn(w, t).Some? && Follows(ActiveOn(w, t).value, next)
    ensures Leads(cfg, w, [HandlerStep(t, Think(next))], w')
    ensures ActiveOn(w', t) == Some(ActiveOn(w, t).value.(stage := next, call := []))
    ensures w'.gateway == w.gateway && w'.history == w.history
  {
    w' := After(cfg, w, HandlerStep(t, Think(next)));
    OneLeads(cfg, w, HandlerStep(t, Think(next)));
  }

  /** A call of the gateway that lists and then writes once. */
  lemma Calls<G>(cfg: Config, w: World<G>, t: Thread, g: G) returns (w': World<G>)
    requires ActiveOn(w, t).Some? && ActiveOn(w, t).value.call == []
    requires ActiveOn(w, t).value.stage in {Deprovisioning, Provisioning}
    ensures Leads(cfg, w, [HandlerStep(t, List), HandlerStep(t, Write(g))], w')
    ensures ActiveOn(w', t) == Some(ActiveOn(w, t).value.(call := [ListRequest, WriteRequest])) && w'.gateway == g
    ensures var n := ActiveOn(w, t).value.number;
      w'.history == w.history + [Access(n, false, w.gateway, w.gateway), Access(n, true, w.gateway, g)]
  {
    var a, b: Step<G> := HandlerStep(t, List), HandlerStep(t, Write(g));
    assert [] + [ListRequest] == [ListRequest] && [ListRequest] + [WriteRequest] == [ListRequest, WriteRequest];
    var w1 := After(cfg, w, a);
    w' := After(cfg, w1, b);
    OneLeads(cfg, w, a);
    OneLeads(cfg, w1, b);
    LeadsOn(cfg, w, [a], w1, [b], w');
    assert [a] + [b] == [a, b];
  }

  /** An event that is ready can be handled to the end, with one write: a created or updated route is
      provisioned, a deleted one deprovisioned. */
  lemma EventCanBeHandled<G>(cfg: Config, w: World<G>, t: Thread, g: G) returns (steps: seq<Step<G>>, w': World<G>)
    requires ActiveOn(w, t).Some? && ActiveOn(w, t).value.stage == Fresh && ActiveOn(w, t).value.job.Handle?
    requires ActiveOn(w, t).value.job.event.kind != OtherEvent
    ensures Leads(cfg, w, steps, w') && ActiveOn(w', t).Some? && ActiveOn(w', t).value.stage == Finished
    ensures ActiveOn(w', t).value.number == ActiveOn(w, t).value.number && w'.gateway == g
    ensures var n := ActiveOn(w, t).value.number;
      w'.history == w.history + [Access(n, false, w.gateway, w.gateway), Access(n, true, w.gateway, g)]
  {
    var w1 := w;
    steps := [];
    if ActiveOn(w, t).value.job.event.kind == RouteDeleted {
      w1 := Moves(cfg, w, t, Deprovisioning);
      steps := [HandlerStep(t, Think(Deprovisioning))];
    } else {
      var w0 := Moves(cfg, w, t, Issuing);
      w1 := Moves(cfg, w0, t, Provisioning);
      steps := [HandlerStep(t, Think(Issuing))] + [HandlerStep(t, Think(Provisioning))];
      LeadsOn(cfg, w, [HandlerStep(t, Think(Issuing))], w0, [HandlerStep(t, Think(Provisioning))], w1);
    }
    var w2 := Calls(cfg, w1, t, g);
    w' := Moves(cfg, w2, t, Finished);
    var call: seq<Step<G>>, end: seq<Step<G>> := [HandlerStep(t, List), HandlerStep(t, Write(g))], [HandlerStep(t, Think(Finished))];
    hide Leads, Enabled, After;
    LeadsOn(cfg, w, steps, w1, call, w2);
    LeadsOn(cfg, w, steps + call, w2, end, w');
    steps := steps + call + end;
  }

  /** A reconciliation can go through all its stages: it lists, removes, issues and adds. */
  lemma ReconciliationCanFinish<G>(cfg: Config, w: World<G>, t: Thread, removed: G, added: G)
    returns (steps: seq<Step<G>>, w': World<G>)
    requires ActiveOn(w, t).Some? && ActiveOn(w, t).value.stage == Fresh && ActiveOn(w, t).value.job.Reconcile?
    ensures Leads(cfg, w, steps, w') && ActiveOn(w', t).Some? && ActiveOn(w', t).value.stage == Finished
    ensures ActiveOn(w', t).value.number == ActiveOn(w, t).value.number && w'.gateway == added
    ensures var n := ActiveOn(w, t).value.number;
      w'.history == w.history + [Access(n, false, w.gateway, w.gateway)]
        + [Access(n, false, w.gateway, w.gateway), Access(n, true, w.gateway, removed)]
        + [Access(n, false, removed, removed), Access(n, true, removed, added)]
  {
    var w3 := ReachesListed(cfg, w, t);
    var w4 := Moves(cfg, w3, t, Deprovisioning);
    var w5 := Calls(cfg, w4, t, removed);
    var w6 := Moves(cfg, w5, t, Issuing);
    var w7 := Moves(cfg, w6, t, Provisioning);
    var w8 := Calls(cfg, w7, t, added);
    w' := Moves(cfg, w8, t, Finished);
    hide Leads, Enabled, After;
    steps := ListedSteps(t);
    steps := Longer(cfg, w, steps, w3, [HandlerStep(t, Think(Deprovisioning))], w4);
    steps := Longer(cfg, w, steps, w4, [HandlerStep(t, List), HandlerStep(t, Write(removed))], w5);
    steps := Longer(cfg, w, steps, w5, [HandlerStep(t, Think(Issuing))], w6);
    steps := Longer(cfg, w, steps, w6, [HandlerStep(t, Think(Provisioning))], w7);
    steps := Longer(cfg, w, steps, w7, [HandlerStep(t, List), HandlerStep(t, Write(added))], w8);
    steps := Longer(cfg, w, steps, w8, [HandlerStep(t, Think(Finished))], w');
  }

  lemma Longer<G>(cfg: Config, w: World<G>, a: seq<Step<G>>, w1: World<G>, b: seq<Step<G>>, w2: World<G>)
    returns (steps: seq<Step<G>>)
    requires Leads(cfg, w, a, w1) && Leads(cfg, w1, b, w2)
    ensures Leads(cfg, w, steps, w2)
  {
    LeadsOn(cfg, w, a, w1, b, w2);
    steps := a + b;
  }

  function ListedSteps<G>(t: Thread): seq<Step<G>> {
    [HandlerStep(t, Think(DesiredListed))] + [HandlerStep(t, Think(Listing))] + [HandlerStep(t, List)] + [HandlerStep(t, Think(ActualListed))]
  }

  lemma ReachesListed<G>(cfg: Config, w: World<G>, t: Thread) returns (w': World<G>)
    requires ActiveOn(w, t).Some? && ActiveOn(w, t).value.stage == Fresh && ActiveOn(w, t).value.job.Reconcile?
    ensures Leads(cfg, w, ListedSteps(t), w')
    ensures ActiveOn(w', t) == Some(ActiveOn(w, t).value.(stage := ActualListed, call := [])) && w'.gateway == w.gateway
    ensures w'.history == w.history + [Access(ActiveOn(w, t).value.number, false, w.gateway, w.gateway)]
  {
    var w1 := Moves(cfg, w, t, DesiredListed);
    var w2 := Moves(cfg, w1, t, Listing);
    var list: Step<G> := HandlerStep(t, List);
    var w3 := After(cfg, w2, list);
    OneLeads(cfg, w2, list);
    w' := Moves(cfg, w3, t, ActualListed);
    var a: seq<Step<G>>, b: seq<Step<G>>, c: seq<Step<G>>, d: seq<Step<G>> :=
      [HandlerStep(t, Think(DesiredListed))], [HandlerStep(t, Think(Listing))], [HandlerStep(t, List)], [HandlerStep(t, Think(ActualListed))];
    assert ListedSteps(t) == a + b + c + d;
    hide Leads, Enabled, After, ListedSteps;
    LeadsOn(cfg, w, a, w1, b, w2);
    LeadsOn(cfg, w, a + b, w2, c, w3);
    LeadsOn(cfg, w, a + b + c, w3, d, w');
  }

  /** After the initial reconciliation the trigger is listened to and the periodic loop runs, if they are
      configured. */
  lemma TermGoesOn<G>(cfg: Config, w: World<G>)
    requires Enabled(cfg, w, InitialDone)
    ensures var w' := After(cfg, w, InitialDone);
      && w'.main.Selecting? && w'.events == cfg.trigger
      && (w'.loop.Ticking? <==> cfg.reconciler && cfg.periodic) && w'.gateway == w.gateway
  {
  }

  /** While the mutex is free an event that comes in is handled next, and a tick reconciles; whether the
      trigger has failed makes no difference to the tick. */
  lemma NextIsHandled<G>(cfg: Config, w: World<G>, ev: RouteEvent)
    requires w.mu.None?
    ensures w.main.Selecting? && w.events ==>
      exists w' :: Leads(cfg, w, [TakeEvent(ev), MainLocks], w')
        && w'.main == Handling(Handler(w.handlers, Handle(ev), Fresh, [])) && w'.mu == Some(Main) && w'.gateway == w.gateway
    ensures w.loop.Ticking? ==>
      exists w' :: Leads(cfg, w, [TickFires, TickLocks], w')
        && w'.loop == TickHandling(Handler(w.handlers, Reconcile, Fresh, [])) && w'.mu == Some(Periodic) && w'.gateway == w.gateway
  {
    if w.main.Selecting? && w.events {
      TwoLead(cfg, w, TakeEvent(ev), MainLocks);
    }
    if w.loop.Ticking? {
      TwoLead(cfg, w, TickFires, TickLocks);
    }
  }

  lemma TwoLead<G>(cfg: Config, w: World<G>, a: Step<G>, b: Step<G>)
    requires Enabled(cfg, w, a) && Enabled(cfg, After(cfg, w, a), b)
    ensures Leads(cfg, w, [a, b], After(cfg, After(cfg, w, a), b))
  {
    OneLeads(cfg, w, a);
    OneLeads(cfg, After(cfg, w, a), b);
    LeadsOn(cfg, w, [a], After(cfg, w, a), [b], After(cfg, After(cfg, w, a), b));
    assert [a] + [b] == [a, b];
  }

  /** A handler that is done gives the mutex back. */
  lemma DoneUnlocks<G>(cfg: Config, w: World<G>)
    ensures w.main.Handling? && w.main.h.stage == Finished ==>
      Enabled(cfg, w, MainUnlocks) && After(cfg, w, MainUnlocks) == w.(mu := None, main := Selecting)
    ensures w.loop.TickHandling? && w.loop.h.stage == Finished ==>
      Enabled(cfg, w, TickUnlocks) && After(cfg, w, TickUnlocks) == w.(mu := None, loop := Ticking)
  {
  }
}
