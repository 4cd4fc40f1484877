/** One event, handled under the orchestrator's mutex, over either gateway. */
module EventHandling {
  import opened Core
  import opened Kube
  import opened Mapper
  import opened IngressPlan
  import opened IngressTable
  import opened IngressStore
  import opened IngressRequest
  import opened IngressRuns
  import opened IngressGateway
  import opened Reconciliation
  import LogGateway

  predicate Provisions(kind: EventType) {
    kind == RouteCreated || kind == RouteUpdated
  }

  /** A route that wants TLS is not provisioned without a certificate. */
  predicate Ready(route: RouteRequest, answer: Option<Certificate>) {
    route.tls ==> answer.Some?
  }

  /** What an event does to the identifier-keyed gateway. */
  function LogHandled(t: LogGateway.Table, event: RouteEvent, answer: Option<Certificate>): LogGateway.Table {
    if Provisions(event.kind) && Ready(event.route, answer) then
      LogGateway.Provisioned(t, event.route, if event.route.tls then answer else None)
    else if event.kind == RouteDeleted then t - {event.route.id}
    else t
  }

  /** What an event does to the cluster, which may fail at any call; `ok` if it does not. */
  ghost predicate IngressHandled(cfg: Config, event: RouteEvent, answer: Option<Certificate>, m: Store, ls: seq<Listed>,
      done: nat, m': Store, ok: bool) {
    if Provisions(event.kind) && Ready(event.route, answer) then
      match MapRoute(cfg, event.route)
      case Err(_) => m' == m && !ok
      case Ok(mr) => Concluded(cfg, m, Operation.Provision(mr), ls, done, m', ok)
    else if event.kind == RouteDeleted then Concluded(cfg, m, Operation.Deprovision(event.route.id), ls, done, m', ok)
    else m' == m && ok == !Provisions(event.kind)
  }

  /** The event leads to a call of the gateway. */
  predicate CallsGateway(event: RouteEvent, answer: Option<Certificate>) {
    match event.kind
    case RouteCreated => event.route.backends != [] && (event.route.tls ==> answer.Some?)
    case RouteUpdated => event.route.backends != [] && (event.route.tls ==> answer.Some?)
    case RouteDeleted => true
    case OtherEvent => false
  }

  class Orchestrator {
    const gateway: Gateway

    constructor (gateway: Gateway)
      ensures this.gateway == gateway
    {
      this.gateway := gateway;
    }

    ghost predicate Valid()
      reads Footprint(gateway)
    {
      gateway.Log? ==> gateway.log.Valid()
    }

    /** `answer` is what the issuer returns if it is asked. Errors are logged, never returned. */
    method HandleEvent(event: RouteEvent, answer: Option<Certificate>)
      returns (asked: bool, ghost ls: seq<Listed>, ghost done: nat, ghost ok: bool)
      requires Valid()
      modifies Footprint(gateway)
      ensures Valid()
      ensures asked <==> (event.kind == RouteCreated || event.kind == RouteUpdated) && event.route.tls
      ensures gateway.Log? ==> gateway.log.routes == LogHandled(old(gateway.log.routes), event, answer)
      ensures gateway.Ingress? ==>
        IngressHandled(gateway.ingress.cfg, event, answer, old(gateway.ingress.api.store), ls, done, gateway.ingress.api.store, ok)
      ensures gateway.Ingress? ==>
        (gateway.ingress.api.requests != old(gateway.ingress.api.requests) <==> CallsGateway(event, answer))
      ensures gateway.Ingress? && CallsGateway(event, answer) ==>
        gateway.ingress.api.failures == old(gateway.ingress.api.failures) + if ok then 0 else 1
      ensures gateway.Ingress? ==> OneCall(old(gateway.ingress.api.requests), gateway.ingress.api.requests)
    {
      if gateway.Ingress? {
        NoCall(gateway.ingress.api.requests);
      }
      hide OneCall;
      asked, ls, done, ok := false, [], 0, true;
      match event.kind {
        case RouteCreated | RouteUpdated =>
          asked, ls, done, ok := ProvisionRoute(event.route, answer);
        case RouteDeleted =>
          match gateway {
            case Log(log) => log.Deprovision(event.route.id);
            case Ingress(prov) => ok, ls, done := prov.Deprovision(event.route.id);
          }
        case OtherEvent =>
      }
    }

    method ProvisionRoute(route: RouteRequest, answer: Option<Certificate>)
      returns (asked: bool, ghost ls: seq<Listed>, ghost done: nat, ghost ok: bool)
      requires Valid()
      modifies Footprint(gateway)
      ensures Valid() && asked == route.tls
      ensures gateway.Log? ==>
        gateway.log.routes ==
          if Ready(route, answer) then LogGateway.Provisioned(old(gateway.log.routes), route, if route.tls then answer else None)
          else old(gateway.log.routes)
      ensures gateway.Ingress? ==>
        IngressHandled(gateway.ingress.cfg, RouteEvent(RouteUpdated, route), answer, old(gateway.ingress.api.store), ls, done,
                       gateway.ingress.api.store, ok)
      ensures gateway.Ingress? ==>
        var calls := CallsGateway(RouteEvent(RouteUpdated, route), answer);
        && (gateway.ingress.api.requests != old(gateway.ingress.api.requests) <==> calls)
        && (calls ==> gateway.ingress.api.failures == old(gateway.ingress.api.failures) + if ok then 0 else 1)
      ensures gateway.Ingress? ==> OneCall(old(gateway.ingress.api.requests), gateway.ingress.api.requests)
    {
      if gateway.Ingress? {
        NoCall(gateway.ingress.api.requests);
      }
      hide OneCall;
      asked, ls, done, ok := false, [], 0, false;
      var cert := None;
      if route.tls {
        asked := true;
        cert := answer;
        if cert.None? {
          return;
        }
      }
      match gateway {
        case Log(log) =>
          var r := log.Provision(route, cert);
        case Ingress(prov) =>
          var r;
          r, ls, done := prov.Provision(route, cert);
          ok := r.Ok?;
      }
    }
  }

  // ---------------------------------------------------------------- what the kinds of event mean

  /** Over the log gateway a created and an updated event do the same: the route is there afterwards under
      its identifier, or else its host, with the host of the certificate obtained for it, and nothing else
      changes. A route that wants TLS and gets no certificate changes nothing, nor does another event. */
  lemma LogEventIs(t: LogGateway.Table, event: RouteEvent, answer: Option<Certificate>)
    ensures var t', r := LogHandled(t, event, answer), event.route;
      var id := if r.id != "" then r.id else r.host;
      match event.kind
      case RouteCreated => if r.tls && answer.None? then t' == t else LogHolds(t, t', id, r, answer)
      case RouteUpdated => if r.tls && answer.None? then t' == t else LogHolds(t, t', id, r, answer)
      case RouteDeleted => t' == t - {r.id}
      case OtherEvent => t' == t
  {
  }

  predicate LogHolds(t: LogGateway.Table, t': LogGateway.Table, id: string, r: RouteRequest,
      answer: Option<Certificate>) {
    && id in t'
    && t'[id] == ProvisionedRoute(id, r.host, "log-console", if r.tls && answer.Some? then answer.value.host else "", "active", "log")
    && t' - {id} == t - {id}
  }

  /** Over Ingresses, where the handling succeeds: a created and an updated event leave the route served
      and the rest of the table as it was; a deleted one takes out just the identifier it names. A route
      without backends, or one that wants TLS and gets no certificate, never succeeds and changes
      nothing; nor does another event change anything. */
  lemma IngressEventIs(cfg: Config, m: Store, event: RouteEvent, answer: Option<Certificate>, ls: seq<Listed>,
      done: nat,
      m': Store, ok: bool)
    requires WellFormed(m) && IngressHandled(cfg, event, answer, m, ls, done, m', ok)
    ensures match event.kind
      case RouteCreated =>
        if event.route.backends == [] || (event.route.tls && answer.None?) then m' == m && !ok
        else ok ==> Provided(cfg, event.route, Table(m), Table(m'))
      case RouteUpdated =>
        if event.route.backends == [] || (event.route.tls && answer.None?) then m' == m && !ok
        else ok ==> Provided(cfg, event.route, Table(m), Table(m'))
      case RouteDeleted => ok ==> Table(m') == Table(m) - {event.route.id}
      case OtherEvent => m' == m
  {
    MapsIff(cfg, event.route);
    hide WellFormed, Table, Provided, MapRoute, Attempted;
    if ok && event.kind == RouteDeleted {
      AllServed(cfg, m, Operation.Deprovision(event.route.id), ls, done, m');
      DeprovisionRefines(m, ls, event.route.id, m');
    } else if ok && event.kind != OtherEvent && Ready(event.route, answer) && event.route.backends != [] {
      ServedProvides(cfg, m, ls, event.route, MapRoute(cfg, event.route).value, done, m');
    }
  }

  lemma AllServed(cfg: Config, m: Store, op: Operation, ls: seq<Listed>, done: nat, m': Store)
    requires op.Deprovision? && Attempted(cfg, m, op, ls, done, m') && done == |Plan(cfg, ls, op)|
    ensures IsListing(ls, m) && ServeAll(m, DeprovisionCalls(ls, op.id)) == Some(m')
  {
    AllDone(m, DeprovisionCalls(ls, op.id), m');
  }

  // ---------------------------------------------------------------- events that miss

  /** A delete event names the source's identifier, a route without one is stored under its host: the
      event undoes the creation exactly if the two agree. */
  lemma LogDeleteIff(t: LogGateway.Table, route: RouteRequest, answer: Option<Certificate>)
    requires Ready(route, answer)
    ensures var created := LogHandled(t, RouteEvent(RouteCreated, route), answer);
      LogGateway.EffectiveId(route) !in LogHandled(created, RouteEvent(RouteDeleted, route), answer) <==>
        route.id != "" || route.host == ""
  {
  }

  /** For instance host "a" without identifier: created, deleted, and still there. */
  lemma LogDeleteMisses(answer: Option<Certificate>)
    ensures var route := RouteRequest("", "a", "", [Backend("web", 80, 1)], false);
      var created := LogHandled(map[], RouteEvent(RouteCreated, route), answer);
      LogHandled(created, RouteEvent(RouteDeleted, route), answer) == created && created.Keys == {"a"}
  {
    var route := RouteRequest("", "a", "", [Backend("web", 80, 1)], false);
    var created := LogHandled(map[], RouteEvent(RouteCreated, route), answer);
    assert created - {""} == created;
  }

  /** On the Ingress gateway identifiers derive from hosts: a successful delete event removes the
      route exactly if the source's identifier happens to be the derived one, or it was not there. */
  lemma IngressDeleteIff(m: Store, ls: seq<Listed>, route: RouteRequest, m': Store)
    requires IsListing(ls, m) && WellFormed(m) && ServeAll(m, DeprovisionCalls(ls, route.id)) == Some(m')
    ensures RouteId(route.host) !in Table(m') <==> RouteId(route.host) !in Table(m) || route.id == RouteId(route.host)
  {
    DeprovisionRefines(m, ls, route.id, m');
  }
}
