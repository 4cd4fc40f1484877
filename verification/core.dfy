/** The domain records every component shares, and the two result wrappers. */
module Core {

  datatype Option<+T> = None | Some(value: T)

  datatype Result<+T, +E> = Ok(value: T) | Err(error: E)

  /** A byte string; a file, a Secret entry and a PEM block are all sequences of characters here. */
  type Bytes = string

  /** A point on a clock, in nanoseconds. */
  type Time = int

  datatype Backend = Backend(serviceName: string, port: int, weight: int)

  datatype RouteRequest = RouteRequest(
    id: string,
    host: string,
    path: string,
    backends: seq<Backend>,
    tls: bool)

  datatype EventType = RouteCreated | RouteUpdated | RouteDeleted | OtherEvent

  datatype RouteEvent = RouteEvent(kind: EventType, route: RouteRequest)

  datatype Certificate = Certificate(
    host: string,
    certPEM: Bytes,
    keyPEM: Bytes,
    caCertPEM: Bytes,
    notBefore: Time,
    notAfter: Time,
    issuerName: string)

  datatype ProvisionedRoute = ProvisionedRoute(
    routeID: string,
    host: string,
    gatewayID: string,
    certificateID: string,
    status: string,
    providerName: string)

  /** The certificate obtained for a host, if any. */
  function CertFor(certs: map<string, Certificate>, host: string): Option<Certificate> {
    if host in certs then Some(certs[host]) else None
  }

  function IdSet(ids: seq<string>): set<string> {
    set id | id in ids
  }

  /** What a remote call did: it took effect and answered, it never took effect, or it took
      effect and its answer was lost. The caller sees an error in the last two cases. */
  datatype Outcome = Answered | Refused | AnswerLost
}
