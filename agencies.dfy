/**
 * Reconciliation of agency counts: the agencies of the static bundle in the
 * cache against the agencies-with-coverage list of the OneBusAway API.
 */
module AgenciesWithCoverage {
  import opened Wrappers
  import opened Models
  import opened Gauges

  /** One entry of the agencies-with-coverage list. */
  datatype AgencyCoverage = AgencyCoverage(agencyID: string)

  datatype AgencyError = CacheFailed(cause: Failure) | NoAgenciesFound

  /**
   * The number of agencies in the cached bundle, also set on the server's
   * AgenciesInStaticGtfs gauge; a bundle without agencies is an error.
   * `bundle` is what opening, reading and parsing the cache file produced.
   */
  method CheckAgenciesWithCoverage(bundle: Result<StaticData, Failure>, server: ObaServer, gauges: GaugeRegistry)
    returns (count: nat, err: Option<AgencyError>)
    modifies gauges
    ensures bundle.Err? ==> count == 0 && err == Some(CacheFailed(bundle.error)) && gauges.values == old(gauges.values)
    ensures bundle.Ok? && |bundle.value.agencies| == 0 ==>
              count == 0 && err == Some(NoAgenciesFound) && gauges.values == old(gauges.values)
    ensures bundle.Ok? && |bundle.value.agencies| > 0 ==>
              && count == |bundle.value.agencies| && err.None?
              && gauges.values == old(gauges.values)[AgenciesInStaticGtfs(server.id) := count]
  {
    if bundle.Err? {
      return 0, Some(CacheFailed(bundle.error));
    }
    var agencies := bundle.value.agencies;
    if |agencies| == 0 {
      return 0, Some(NoAgenciesFound);
    }
    gauges.Set(AgenciesInStaticGtfs(server.id), |agencies|);
    return |agencies|, None;
  }

  /**
   * The API's agency count: 0 with the error on failure, 0 on a nil
   * response, else the length of the list, also set on the server's
   * AgenciesInCoverageEndpoint gauge.
   */
  method GetAgenciesWithCoverage(server: ObaServer, api: ApiResponse<seq<AgencyCoverage>>, gauges: GaugeRegistry)
    returns (count: nat, err: Option<Failure>)
    modifies gauges
    ensures api.ApiError? ==> count == 0 && err == Some(api.cause) && gauges.values == old(gauges.values)
    ensures api.NilResponse? ==> count == 0 && err.None? && gauges.values == old(gauges.values)
    ensures api.Response? ==>
              && count == |api.payload| && err.None?
              && gauges.values == old(gauges.values)[AgenciesInCoverageEndpoint(server.id) := count]
  {
    match api
    case ApiError(cause) =>
      return 0, Some(cause);
    case NilResponse =>
      return 0, None;
    case Response(list) =>
      gauges.Set(AgenciesInCoverageEndpoint(server.id), |list|);
      return |list|, None;
  }

  /**
   * Compares the two agency counts of a server. A static-side failure is
   * returned and no match is set; an API-side error is dropped, its count of
   * 0 is compared like any other, and nil is returned.
   */
  method CheckAgenciesWithCoverageMatch(bundle: Result<StaticData, Failure>, server: ObaServer,
                                        api: ApiResponse<seq<AgencyCoverage>>, gauges: GaugeRegistry)
    returns (err: Option<AgencyError>)
    modifies gauges
    ensures bundle.Err? ==> err == Some(CacheFailed(bundle.error)) && gauges.values == old(gauges.values)
    ensures bundle.Ok? && |bundle.value.agencies| == 0 ==> err == Some(NoAgenciesFound) && gauges.values == old(gauges.values)
    ensures bundle.Ok? && |bundle.value.agencies| > 0 ==>
              var staticCount := |bundle.value.agencies|;
              var coverageCount := if api.Response? then |api.payload| else 0;
              var afterCounts := old(gauges.values)[AgenciesInStaticGtfs(server.id) := staticCount];
              var afterApi := if api.Response? then afterCounts[AgenciesInCoverageEndpoint(server.id) := coverageCount] else afterCounts;
              && err.None?
              && gauges.values == afterApi[AgenciesMatch(server.id) := MatchValue(staticCount, coverageCount)]
  {
    var staticGtfsAgenciesCount, staticErr := CheckAgenciesWithCoverage(bundle, server, gauges);
    if staticErr.Some? {
      return staticErr;
    }
    var coverageAgenciesCount, _ := GetAgenciesWithCoverage(server, api, gauges);
    var matchValue := 0;
    if coverageAgenciesCount == staticGtfsAgenciesCount {
      matchValue := 1;
    }
    gauges.Set(AgenciesMatch(server.id), matchValue);
    return None;
  }
}
