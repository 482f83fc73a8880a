/**
 * Reconciliation of a route's scheduled trips: the count in a static bundle
 * on disk against the count the OneBusAway API reports.
 */
module ScheduledTrips {
  import opened Wrappers
  import opened Models
  import opened Gauges

  /** The entry of a schedule-for-route response: the route and its trips. */
  datatype ScheduleForRoute = ScheduleForRoute(routeID: string, tripIDs: seq<string>)

  /** The trips of `trips` that run on route `routeID`, in order. */
  function TripsOnRoute(trips: seq<Trip>, routeID: string): (r: seq<Trip>)
    ensures |r| <= |trips|
    ensures forall t :: t in r ==> t in trips && t.route.id == routeID
  {
    if |trips| == 0 then []
    else
      var rest := TripsOnRoute(trips[1..], routeID);
      if trips[0].route.id == routeID then [trips[0]] + rest else rest
  }

  /** Every trip on the route is kept, and no trip off it. */
  lemma {:induction false} TripsOnRouteComplete(trips: seq<Trip>, routeID: string, t: Trip)
    ensures t in TripsOnRoute(trips, routeID) <==> t in trips && t.route.id == routeID
  {
    if |trips| > 0 {
      TripsOnRouteComplete(trips[1..], routeID, t);
      assert t in trips <==> t == trips[0] || t in trips[1..];
    }
  }

  /** The count is zero exactly when no trip runs on the route. */
  lemma {:induction false} TripsOnRouteEmpty(trips: seq<Trip>, routeID: string)
    ensures |TripsOnRoute(trips, routeID)| == 0 <==> forall i :: 0 <= i < |trips| ==> trips[i].route.id != routeID
  {
    if |trips| > 0 {
      TripsOnRouteEmpty(trips[1..], routeID);
      assert forall i :: 1 <= i < |trips| ==> trips[i] == trips[1..][i - 1];
    }
  }

  /** Appending a trip adds one to the count when it runs on the route. */
  lemma {:induction false} TripsOnRouteAppend(trips: seq<Trip>, t: Trip, routeID: string)
    ensures |TripsOnRoute(trips + [t], routeID)| == |TripsOnRoute(trips, routeID)| + (if t.route.id == routeID then 1 else 0)
  {
    if |trips| == 0 {
      assert trips + [t] == [t];
      assert [t][1..] == [];
    } else {
      assert (trips + [t])[1..] == trips[1..] + [t];
      TripsOnRouteAppend(trips[1..], t, routeID);
    }
  }

  /**
   * The number of trips of the bundle on route `routeID`. `bundle` is what
   * opening, reading and parsing the bundle file produced.
   */
  method CountScheduledTripRoute(bundle: Result<StaticData, Failure>, server: ObaServer, routeID: string)
    returns (count: nat, err: Option<Failure>)
    ensures bundle.Err? ==> count == 0 && err == Some(bundle.error)
    ensures bundle.Ok? ==> err.None? && count == |TripsOnRoute(bundle.value.trips, routeID)|
  {
    if bundle.Err? {
      return 0, Some(bundle.error);
    }
    var trips := bundle.value.trips;
    count := 0;
    var k := 0;
    while k < |trips|
      invariant k <= |trips|
      invariant count == |TripsOnRoute(trips[..k], routeID)|
    {
      assert trips[..k + 1] == trips[..k] + [trips[k]];
      TripsOnRouteAppend(trips[..k], trips[k], routeID);
      if trips[k].route.id == routeID {
        count := count + 1;
      }
      k := k + 1;
    }
    assert trips[..k] == trips;
    return count, None;
  }

  /**
   * The API's trip count for the route: 0 with the error on failure, 0 on a
   * nil response, else the number of trips, which is also set on the
   * route's ScheduleTripForRoute gauge.
   */
  method GetScheduledTripRoute(server: ObaServer, routeID: string, api: ApiResponse<ScheduleForRoute>, gauges: GaugeRegistry)
    returns (count: nat, err: Option<Failure>)
    modifies gauges
    ensures api.ApiError? ==> count == 0 && err == Some(api.cause) && gauges.values == old(gauges.values)
    ensures api.NilResponse? ==> count == 0 && err.None? && gauges.values == old(gauges.values)
    ensures api.Response? ==>
              && count == |api.payload.tripIDs| && err.None?
              && gauges.values == old(gauges.values)[ScheduleTripForRoute(server.id, routeID) := count]
  {
    match api
    case ApiError(cause) =>
      return 0, Some(cause);
    case NilResponse =>
      return 0, None;
    case Response(entry) =>
      gauges.Set(ScheduleTripForRoute(server.id, routeID), |entry.tripIDs|);
      return |entry.tripIDs|, None;
  }

  datatype CheckError = ApiCountFailed(cause: Failure) | StaticCountFailed(cause: Failure)

  /**
   * Compares the two trip counts of a route. An API error is returned first;
   * a static-side error is returned next; otherwise the 0/1 match is set on
   * the same ScheduleTripForRoute gauge the API count was written to,
   * replacing that count.
   */
  method CheckScheduledTripRoute(bundle: Result<StaticData, Failure>, server: ObaServer, routeID: string,
                                 api: ApiResponse<ScheduleForRoute>, gauges: GaugeRegistry)
    returns (err: Option<CheckError>)
    modifies gauges
    ensures api.ApiError? ==> err == Some(ApiCountFailed(api.cause)) && gauges.values == old(gauges.values)
    ensures !api.ApiError? && bundle.Err? ==>
              && err == Some(StaticCountFailed(bundle.error))
              && gauges.values == if api.Response? then old(gauges.values)[ScheduleTripForRoute(server.id, routeID) := |api.payload.tripIDs|]
                                  else old(gauges.values)
    ensures !api.ApiError? && bundle.Ok? ==>
              var apiCount := if api.Response? then |api.payload.tripIDs| else 0;
              var staticCount := |TripsOnRoute(bundle.value.trips, routeID)|;
              && err.None?
              && gauges.values == old(gauges.values)[ScheduleTripForRoute(server.id, routeID) := MatchValue(apiCount, staticCount)]
  {
    var apiTripRoutes, apiErr := GetScheduledTripRoute(server, routeID, api, gauges);
    if apiErr.Some? {
      return Some(ApiCountFailed(apiErr.value));
    }
    var gtfsTripRoutes, staticErr := CountScheduledTripRoute(bundle, server, routeID);
    if staticErr.Some? {
      return Some(StaticCountFailed(staticErr.value));
    }
    var matchValue := 0;
    if apiTripRoutes == gtfsTripRoutes {
      matchValue := 1;
    }
    gauges.Set(ScheduleTripForRoute(server.id, routeID), matchValue);
    return None;
  }
}
