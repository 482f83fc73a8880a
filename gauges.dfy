/**
 * The gauges the reconcilers write, as one map from a gauge and its label
 * values to the last value set. Server ids are labels through
 * `strconv.Itoa`, which is injective, so the id itself stands for the label.
 */
module Gauges {

  datatype Gauge =
    | ScheduleTripForRoute(serverID: int, routeID: string)
    | AgenciesInStaticGtfs(serverID: int)
    | AgenciesInCoverageEndpoint(serverID: int)
    | AgenciesMatch(serverID: int)

  class GaugeRegistry {
    var values: map<Gauge, int>

    constructor ()
      ensures values == map[]
    {
      values := map[];
    }

    /** Sets the gauge with these labels, replacing any earlier value. */
    method Set(gauge: Gauge, value: int)
      modifies this
      ensures values == old(values)[gauge := value]
    {
      values := values[gauge := value];
    }
  }

  /** The 0/1 match indicator of two counts. */
  function MatchValue(a: int, b: int): (m: int)
    ensures m == 0 || m == 1
    ensures m == 1 <==> a == b
  {
    if a == b then 1 else 0
  }
}
