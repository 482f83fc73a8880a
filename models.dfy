/**
 * The entities the watchdog core reads: the configured OneBusAway servers and
 * the parts of a parsed GTFS static bundle that are kept in memory.
 * Parsing itself is done by collaborators outside this model; their results
 * arrive here as values of these types.
 */
module Models {

  /** An error produced by a collaborator outside the model (HTTP client, file system, parser). */
  datatype Failure = Failure(message: string)

  /** What a OneBusAway API call produced: an error, a nil response, or a response. */
  datatype ApiResponse<T> = ApiError(cause: Failure) | NilResponse | Response(payload: T)

  /** One monitored OneBusAway server, read-only configuration. */
  datatype ObaServer = ObaServer(
    id: int,
    name: string,
    obaBaseUrl: string,
    obaApiKey: string,
    gtfsUrl: string,
    vehiclePositionUrl: string,
    gtfsRtApiKey: string,
    gtfsRtApiValue: string)

  /** A stop with its coordinates; any totally ordered coordinate type would do. */
  datatype Stop = Stop(id: string, latitude: real, longitude: real)

  /** A calendar entry; dates are day numbers, compared only by order. */
  datatype Service = Service(id: string, endDate: int)

  datatype Route = Route(id: string)

  datatype Trip = Trip(id: string, route: Route)

  datatype Agency = Agency(id: string)

  /** The reduced snapshot of a static bundle that the stores hold. */
  datatype StaticData = StaticData(
    stops: seq<Stop>,
    services: seq<Service>,
    trips: seq<Trip>,
    routes: seq<Route>,
    agencies: seq<Agency>)

  /** The reduced snapshot of a realtime feed; its contents are opaque to the core. */
  datatype RealtimeData = RealtimeData(vehicleIds: seq<string>)
}
