/** The HTTP source: its handlers, its bounded event channel, and why dropped events do no harm. */
module HttpSource {
  import opened Core
  import opened LogGateway
  import opened LogConvergence
  import opened Diff

  type Routes = map<string, RouteRequest>

  const CHANNEL_CAPACITY := 64

  datatype Status = Accepted | Created | NoContent | BadRequest | NotFound

  /** Everything that can happen to the source: requests (None is a body that does not decode), and
      the trigger starting, taking an event off the channel, and stopping. An event is recorded under
      the lock and sent after it, to the channel that was open then. */
  datatype Input =
    | PostEvent(event: Option<RouteEvent>)
    | SendEvent(sent: RouteEvent, channel: nat)
    | PostRoute(route: Option<RouteRequest>)
    | DeleteRoute(host: string)
    | TriggerStarts
    | TriggerTakes
    | TriggerStops

  function EventApplied(routes: Routes, ev: RouteEvent): Routes {
    match ev.kind
    case RouteCreated => if ev.route.host != "" then routes[ev.route.host := ev.route] else routes
    case RouteUpdated => if ev.route.host != "" then routes[ev.route.host := ev.route] else routes
    case RouteDeleted => routes - {ev.route.host}
    case OtherEvent => routes
  }

  /** What an input does to the desired state; the channel plays no part in it. */
  function Applied(routes: Routes, input: Input): Routes {
    match input
    case PostEvent(ev) => if ev.Some? then EventApplied(routes, ev.value) else routes
    case PostRoute(r) => if r.Some? && r.value.host != "" then routes[r.value.host := r.value] else routes
    case DeleteRoute(host) => if host == "" then routes else routes - {host}
    case _ => routes
  }

  function Folded(routes: Routes, inputs: seq<Input>): Routes {
    if inputs == [] then routes else Applied(Folded(routes, inputs[..|inputs| - 1]), inputs[|inputs| - 1])
  }

  /** The channels opened so far; the last one is open while the trigger runs. */
  datatype Channels = Channels(current: Option<seq<RouteEvent>>, number: nat)

  /** What an input does to the channel: absent unless the trigger runs, and full at its capacity. An
      event sent to an earlier channel is never taken. */
  function Forwarded(ch: Channels, input: Input): Channels {
    match input
    case SendEvent(ev, channel) =>
      if ch.current.Some? && channel == ch.number && |ch.current.value| < CHANNEL_CAPACITY
      then ch.(current := Some(ch.current.value + [ev])) else ch
    case TriggerStarts => Channels(Some([]), ch.number + 1)
    case TriggerTakes =>
      if ch.current.Some? && ch.current.value != [] then ch.(current := Some(ch.current.value[1..])) else ch
    case TriggerStops => ch.(current := None)
    case _ => ch
  }

  predicate ByHost(routes: Routes) {
    "" !in routes && forall h :: h in routes ==> routes[h].host == h
  }

  predicate Lists(rs: seq<RouteRequest>, routes: Routes) {
    && (forall k :: 0 <= k < |rs| ==> rs[k].host in routes && routes[rs[k].host] == rs[k])
    && (forall h :: h in routes ==> routes[h] in rs)
    && (forall a, b :: 0 <= a < b < |rs| ==> rs[a].host != rs[b].host)
  }

  // ---------------------------------------------------------------- the channel

  function Sends(evs: seq<RouteEvent>, channel: nat): (inputs: seq<Input>) {
    seq(|evs|, k requires 0 <= k < |evs| => SendEvent(evs[k], channel))
  }

  function ForwardedAll(ch: Channels, inputs: seq<Input>): Channels {
    if inputs == [] then ch else Forwarded(ForwardedAll(ch, inputs[..|inputs| - 1]), inputs[|inputs| - 1])
  }

  /** Events sent faster than they are taken: the channel keeps those that find room, in order, and the
      rest is dropped. */
  lemma {:induction false} BurstFills(waiting: seq<RouteEvent>, number: nat, evs: seq<RouteEvent>)
    requires |waiting| <= 64
    ensures ForwardedAll(Channels(Some(waiting), number), Sends(evs, number)) ==
      Channels(Some(waiting + if |waiting| + |evs| <= 64 then evs else evs[..64 - |waiting|]), number)
  {
    if evs != [] {
      var last := |evs| - 1;
      BurstFills(waiting, number, evs[..last]);
      assert Sends(evs, number)[..last] == Sends(evs[..last], number);
      if |waiting| + |evs| <= 64 {
        assert waiting + evs == waiting + evs[..last] + [evs[last]];
      } else if |waiting| + last <= 64 {
        assert evs[..64 - |waiting|] == evs[..last];
      } else {
        assert evs[..last][..64 - |waiting|] == evs[..64 - |waiting|];
      }
    } else {
      assert waiting + evs == waiting;
    }
  }

  /** What is taken is the oldest, one after the other. */
  lemma {:induction false} TakesDrain(waiting: seq<RouteEvent>, number: nat, n: nat)
    requires n <= |waiting|
    ensures ForwardedAll(Channels(Some(waiting), number), seq(n, k => TriggerTakes)) == Channels(Some(waiting[n..]), number)
  {
    if n > 0 {
      TakesDrain(waiting, number, n - 1);
      assert seq(n, k => TriggerTakes)[..n - 1] == seq(n - 1, k => TriggerTakes);
    }
  }

  /** A channel is opened empty and under a new number; what is sent to one that is not open is lost. */
  lemma ClosedDrops(ch: Channels, ev: RouteEvent, channel: nat)
    ensures Forwarded(ch, TriggerStarts) == Channels(Some([]), ch.number + 1)
    ensures Forwarded(ch, TriggerStops).current.None? && Forwarded(ch, TriggerStops).number == ch.number
    ensures ch.current.None? || channel != ch.number ==> Forwarded(ch, SendEvent(ev, channel)) == ch
  {
  }

  class HTTPSource {
    var routes: Routes
    var events: seq<RouteEvent>
    var eventC: Channels

    ghost predicate Valid()
      reads this
    {
      ByHost(routes) && (eventC.current.Some? ==> |eventC.current.value| <= CHANNEL_CAPACITY)
    }

    constructor ()
      ensures Valid() && routes == map[] && events == [] && eventC == Channels(None, 0)
    {
      routes, events, eventC := map[], [], Channels(None, 0);
    }

    /** The part under the lock; `send` is the channel the event is then sent to, if one is open. */
    method HandlePostEvent(body: Option<RouteEvent>) returns (status: Status, send: Option<nat>)
      requires Valid()
      modifies this
      ensures Valid() && eventC == old(eventC)
      ensures routes == Applied(old(routes), PostEvent(body))
      ensures events == if body.Some? then old(events) + [body.value] else old(events)
      ensures status == if body.Some? then Accepted else BadRequest
      ensures send == if body.Some? && eventC.current.Some? then Some(eventC.number) else None
    {
      if body.None? {
        return BadRequest, None;
      }
      var ev := body.value;
      events := events + [ev];
      match ev.kind {
        case RouteCreated | RouteUpdated =>
          if ev.route.host != "" {
            routes := routes[ev.route.host := ev.route];
          }
        case RouteDeleted =>
          routes := routes - {ev.route.host};
        case OtherEvent =>
      }
      return Accepted, if eventC.current.Some? then Some(eventC.number) else None;
    }

    /** The part after it: a send that never blocks. */
    method Send(ev: RouteEvent, channel: nat) returns (dropped: bool)
      requires Valid()
      modifies this
      ensures Valid() && routes == old(routes) && events == old(events)
      ensures eventC == Forwarded(old(eventC), SendEvent(ev, channel))
      ensures dropped <==> old(eventC).current.Some? && channel == old(eventC).number && eventC == old(eventC)
    {
      if eventC.current.Some? && channel == eventC.number {
        dropped := |eventC.current.value| >= CHANNEL_CAPACITY;
        if !dropped {
          eventC := eventC.(current := Some(eventC.current.value + [ev]));
        }
      } else {
        dropped := false;
      }
    }

    method HandlePostRoute(body: Option<RouteRequest>) returns (status: Status)
      requires Valid()
      modifies this
      ensures Valid()
      ensures routes == Applied(old(routes), PostRoute(body)) && eventC == Forwarded(old(eventC), PostRoute(body)) && events == old(events)
      ensures status == if body.Some? && body.value.host != "" then Created else BadRequest
    {
      if body.None? || body.value.host == "" {
        return BadRequest;
      }
      routes := routes[body.value.host := body.value];
      return Created;
    }

    method HandleDeleteRoute(host: string) returns (status: Status)
      requires Valid()
      modifies this
      ensures Valid()
      ensures routes == Applied(old(routes), DeleteRoute(host)) && eventC == Forwarded(old(eventC), DeleteRoute(host)) && events == old(events)
      ensures status == if host == "" then BadRequest else if host in old(routes) then NoContent else NotFound
    {
      if host == "" {
        return BadRequest;
      }
      var existed := host in routes;
      routes := routes - {host};
      return if existed then NoContent else NotFound;
    }

    method Start()
      requires Valid()
      modifies this
      ensures Valid() && routes == old(routes) && events == old(events) && eventC == Forwarded(old(eventC), TriggerStarts)
    {
      eventC := Channels(Some([]), eventC.number + 1);
    }

    /** The trigger's loop takes the oldest event, if there is one, and hands it on. */
    method Take() returns (event: Option<RouteEvent>)
      requires Valid()
      modifies this
      ensures Valid() && routes == old(routes) && events == old(events) && eventC == Forwarded(old(eventC), TriggerTakes)
      ensures event == if old(eventC).current.Some? && old(eventC).current.value != [] then Some(old(eventC).current.value[0]) else None
    {
      if eventC.current.None? || eventC.current.value == [] {
        return None;
      }
      event := Some(eventC.current.value[0]);
      eventC := eventC.(current := Some(eventC.current.value[1..]));
    }

    method Stop()
      requires Valid()
      modifies this
      ensures Valid() && routes == old(routes) && events == old(events) && eventC == Forwarded(old(eventC), TriggerStops)
    {
      eventC := eventC.(current := None);
    }

    method List() returns (rs: seq<RouteRequest>)
      requires Valid()
      ensures Lists(rs, routes)
    {
      rs := [];
      var todo := routes.Keys;
      while todo != {}
        invariant todo <= routes.Keys
        invariant Lists(rs, routes - todo)
        decreases todo
      {
        var h :| h in todo;
        ListsNext(rs, routes - todo, h, routes[h]);
        assert routes - (todo - {h}) == (routes - todo)[h := routes[h]];
        todo := todo - {h};
        rs := rs + [routes[h]];
      }
      assert routes - {} == routes;
    }
  }

  lemma ListsNext(rs: seq<RouteRequest>, routes: Routes, h: string, r: RouteRequest)
    requires Lists(rs, routes) && h !in routes && r.host == h
    ensures Lists(rs + [r], routes[h := r])
  {
    var rs' := rs + [r];
    assert rs'[|rs|] == r;
    assert forall k :: 0 <= k < |rs| ==> rs'[k] == rs[k];
    forall g | g in routes ensures routes[g] in rs' {
      assert routes[g] in rs;
    }
  }

  lemma {:induction false} FoldKeyed(inputs: seq<Input>)
    ensures ByHost(Folded(map[], inputs))
  {
    if inputs != [] {
      FoldKeyed(inputs[..|inputs| - 1]);
    }
  }

  /** The input asks for the host to be there, or not to be there; None says nothing about it. */
  function Says(input: Input, host: string): Option<Option<RouteRequest>> {
    match input
    case PostEvent(Some(ev)) =>
      if ev.route.host != host || ev.kind == OtherEvent || (host == "" && ev.kind != RouteDeleted) then None
      else if ev.kind == RouteDeleted then Some(None)
      else Some(Some(ev.route))
    case PostRoute(Some(r)) => if r.host == host && host != "" then Some(Some(r)) else None
    case DeleteRoute(h) => if h == host && h != "" then Some(None) else None
    case _ => None
  }

  /** The desired state holds for each host what the last accepted change said of it, whatever the
      channel forwarded or dropped. */
  lemma {:induction false} LastChangeWins(inputs: seq<Input>, k: nat, host: string)
    requires k < |inputs| && Says(inputs[k], host).Some?
    requires forall j :: k < j < |inputs| ==> Says(inputs[j], host).None?
    ensures var routes := Folded(map[], inputs);
      if host in routes then Says(inputs[k], host) == Some(Some(routes[host])) else Says(inputs[k], host) == Some(None)
  {
    var last := |inputs| - 1;
    if k < last {
      LastChangeWins(inputs[..last], k, host);
      assert Says(inputs[last], host).None?;
    }
  }

  /** A host nothing was ever said of is not wanted. */
  lemma {:induction false} NeverMentioned(inputs: seq<Input>, host: string)
    requires forall j :: 0 <= j < |inputs| ==> Says(inputs[j], host).None?
    ensures host !in Folded(map[], inputs)
  {
    if inputs != [] {
      NeverMentioned(inputs[..|inputs| - 1], host);
      assert Says(inputs[|inputs| - 1], host).None?;
    }
  }

  /** No two wanted routes share an effective identifier. */
  predicate OwnIds(routes: Routes) {
    forall g, h :: g in routes && h in routes && EffectiveId(routes[g]) == EffectiveId(routes[h]) ==> g == h
  }

  lemma ListUnambiguous(rs: seq<RouteRequest>, routes: Routes)
    requires Lists(rs, routes) && OwnIds(routes)
    ensures Unambiguous(rs) && HostsOf(rs) == routes.Keys
  {
    forall h | h in routes ensures h in HostsOf(rs) {
      assert routes[h] in rs;
      var k :| 0 <= k < |rs| && rs[k] == routes[h];
      assert rs[k].host == routes[rs[k].host].host;
    }
  }

  /** Dropped events are healed: once changes stop, whatever was dropped before, and in whatever order
      the source lists its routes from cycle to cycle, the reconciled gateway reaches exactly the
      hosts that the accepted changes leave wanted, and stays there. */
  lemma Healed(inputs: seq<Input>, lists: seq<seq<RouteRequest>>, certs: seq<map<string, Certificate>>,
      ts: seq<Table>, k: nat)
    requires OwnIds(Folded(map[], inputs))
    requires |ts| == |certs| + 1 && |lists| == |certs| && |certs| > 0
    requires forall j :: 0 <= j < |certs| ==> Lists(lists[j], Folded(map[], inputs)) && ts[j + 1] == Cycle(ts[j], lists[j], certs[j])
    requires Bound(lists[0]) <= k < |ts|
    ensures HostsIn(ts[k]) == Folded(map[], inputs).Keys
    ensures k + 1 < |ts| ==> ts[k + 1] == ts[k]
  {
    var routes, d := Folded(map[], inputs), lists[0];
    FoldKeyed(inputs);
    ListUnambiguous(d, routes);
    forall j | 0 <= j < |certs| ensures ts[j + 1] == Cycle(ts[j], d, certs[j]) {
      SameLists(d, lists[j], routes);
      CycleOrder(ts[j], d, lists[j], certs[j]);
    }
    Converges(ts, d, certs, k);
  }

  lemma SameLists(a: seq<RouteRequest>, b: seq<RouteRequest>, routes: Routes)
    requires Lists(a, routes) && Lists(b, routes)
    ensures SameRoutes(a, b)
  {
  }
}
