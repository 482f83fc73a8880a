/**
 * The GTFS snapshot pipeline: the static and realtime stores, storing a
 * parsed static bundle with its bounding box, the sequential effect of
 * downloading every server's bundle, the realtime fetch, and two queries over
 * a stored snapshot. HTTP, body reading and parsing are collaborators whose
 * outcomes are inputs.
 */
module Gtfs {
  import opened Wrappers
  import opened Models
  import opened Geo

  /** The static snapshot of each server, replaced wholesale. */
  class StaticStore {
    var snapshots: map<int, StaticData>

    constructor ()
      ensures snapshots == map[]
    {
      snapshots := map[];
    }

    method Set(serverID: int, data: StaticData)
      modifies this
      ensures snapshots == old(snapshots)[serverID := data]
    {
      snapshots := snapshots[serverID := data];
    }

    method Get(serverID: int) returns (data: Option<StaticData>)
      ensures data.Some? <==> serverID in snapshots
      ensures data.Some? ==> data.value == snapshots[serverID]
    {
      data := if serverID in snapshots then Some(snapshots[serverID]) else None;
    }
  }

  /** The realtime store holds a single snapshot, not one per server. */
  class RealtimeStore {
    var current: Option<RealtimeData>

    constructor ()
      ensures current == None
    {
      current := None;
    }

    method Set(data: RealtimeData)
      modifies this
      ensures current == Some(data)
    {
      current := Some(data);
    }
  }

  datatype StoreError = BoundingBoxFailed(serverID: int, cause: GeoError)

  /**
   * Stores `data` as the static snapshot of `serverID`, then stores its
   * bounding box; when there is none the box store is left as it was.
   */
  method StoreGTFSBundle(data: StaticData, serverID: int, staticStore: StaticStore, boxStore: BoundingBoxStore)
    returns (err: Option<StoreError>)
    modifies staticStore, boxStore
    ensures staticStore.snapshots == old(staticStore.snapshots)[serverID := data]
    ensures err.None? <==> |data.stops| > 0
    ensures err.Some? ==> err.value == BoundingBoxFailed(serverID, NoStops)
    ensures err.None? ==> boxStore.boxes == old(boxStore.boxes)[serverID := ComputeBoundingBox(data.stops).value]
    ensures err.Some? ==> boxStore.boxes == old(boxStore.boxes)
  {
    staticStore.Set(serverID, data);
    var box := ComputeBoundingBox(data.stops);
    if box.Err? {
      return Some(BoundingBoxFailed(serverID, box.error));
    }
    boxStore.Set(serverID, box.value);
    return None;
  }

  /** Some download of `servers[..k]` with this id succeeded. */
  ghost predicate DownloadedAmong(servers: seq<ObaServer>, downloads: seq<Result<StaticData, Failure>>, id: int, k: nat)
    requires k <= |servers| == |downloads|
  {
    exists i :: 0 <= i < k && servers[i].id == id && downloads[i].Ok?
  }

  predicate DistinctServerIds(servers: seq<ObaServer>)
  {
    forall i, j :: 0 <= i < j < |servers| ==> servers[i].id != servers[j].id
  }

  /**
   * The effect of one refresh of every server's static bundle, taken one
   * server after another: `downloads[i]` is what downloading the bundle of
   * `servers[i]` produced. A failed download leaves that server's entries
   * alone and processing goes on with the next server.
   */
  method DownloadGTFSBundles(servers: seq<ObaServer>, downloads: seq<Result<StaticData, Failure>>,
                             staticStore: StaticStore, boxStore: BoundingBoxStore)
    requires |downloads| == |servers|
    requires DistinctServerIds(servers)
    modifies staticStore, boxStore
    ensures forall id :: !DownloadedAmong(servers, downloads, id, |servers|) ==>
              SameEntry(staticStore.snapshots, old(staticStore.snapshots), id) &&
              SameEntry(boxStore.boxes, old(boxStore.boxes), id)
    ensures forall i :: 0 <= i < |servers| && downloads[i].Ok? ==>
              var id, stops := servers[i].id, downloads[i].value.stops;
              && id in staticStore.snapshots && staticStore.snapshots[id] == downloads[i].value
              && (|stops| > 0 ==> id in boxStore.boxes && boxStore.boxes[id] == ComputeBoundingBox(stops).value)
              && (|stops| == 0 ==> SameEntry(boxStore.boxes, old(boxStore.boxes), id))
  {
    var k := 0;
    while k < |servers|
      invariant k <= |servers|
      invariant forall id :: !DownloadedAmong(servers, downloads, id, k) ==>
                  SameEntry(staticStore.snapshots, old(staticStore.snapshots), id) &&
                  SameEntry(boxStore.boxes, old(boxStore.boxes), id)
      invariant forall i :: 0 <= i < k && downloads[i].Ok? ==>
                  var id, stops := servers[i].id, downloads[i].value.stops;
                  && id in staticStore.snapshots && staticStore.snapshots[id] == downloads[i].value
                  && (|stops| > 0 ==> id in boxStore.boxes && boxStore.boxes[id] == ComputeBoundingBox(stops).value)
                  && (|stops| == 0 ==> SameEntry(boxStore.boxes, old(boxStore.boxes), id))
    {
      var server := servers[k];
      ghost var snapshotsBefore, boxesBefore := staticStore.snapshots, boxStore.boxes;
      if downloads[k].Ok? {
        assert DownloadedAmong(servers, downloads, server.id, k + 1);
        var _ := StoreGTFSBundle(downloads[k].value, server.id, staticStore, boxStore);
      }
      forall id | !DownloadedAmong(servers, downloads, id, k + 1)
        ensures SameEntry(staticStore.snapshots, old(staticStore.snapshots), id)
        ensures SameEntry(boxStore.boxes, old(boxStore.boxes), id)
      {
        assert !DownloadedAmong(servers, downloads, id, k);
        assert SameEntry(staticStore.snapshots, snapshotsBefore, id) && SameEntry(boxStore.boxes, boxesBefore, id);
      }
      k := k + 1;
    }
  }

  /** The last stop in `stops` whose id is `id`: later stops with the same id replace earlier ones. */
  function LastStopWithId(stops: seq<Stop>, id: string): (r: Option<Stop>)
    ensures r.Some? ==> r.value.id == id && r.value in stops
    ensures r.None? <==> forall i :: 0 <= i < |stops| ==> stops[i].id != id
  {
    if |stops| == 0 then None
    else if stops[|stops| - 1].id == id then Some(stops[|stops| - 1])
    else
      assert forall i :: 0 <= i < |stops| - 1 ==> stops[..|stops| - 1][i] == stops[i];
      LastStopWithId(stops[..|stops| - 1], id)
  }

  /** A stop with no later stop of the same id is the one LastStopWithId picks. */
  lemma {:induction false} LastStopWithIdIsLatest(stops: seq<Stop>, i: nat)
    requires i < |stops|
    requires forall j :: i < j < |stops| ==> stops[j].id != stops[i].id
    ensures LastStopWithId(stops, stops[i].id) == Some(stops[i])
  {
    if i < |stops| - 1 {
      var prefix := stops[..|stops| - 1];
      assert forall j :: 0 <= j < |prefix| ==> prefix[j] == stops[j];
      LastStopWithIdIsLatest(prefix, i);
    }
  }

  lemma LastStopWithIdStep(stops: seq<Stop>, k: nat, id: string)
    requires k < |stops|
    ensures LastStopWithId(stops[..k + 1], id) ==
              if stops[k].id == id then Some(stops[k]) else LastStopWithId(stops[..k], id)
  {
    assert stops[..k + 1][..k] == stops[..k];
  }

  datatype LookupError = NoStaticData(serverID: int)

  /**
   * The stored stops of `serverID` whose ids were requested, keyed by id;
   * for an id shared by several stops, the last one.
   */
  method GetStopLocationsByIDs(serverID: int, stopIDs: seq<string>, staticStore: StaticStore)
    returns (r: Result<map<string, Stop>, LookupError>)
    ensures r.Err? <==> serverID !in staticStore.snapshots
    ensures r.Err? ==> r.error == NoStaticData(serverID)
    ensures r.Ok? ==> var stops := staticStore.snapshots[serverID].stops;
              forall id :: id in r.value <==> id in stopIDs && LastStopWithId(stops, id).Some?
    ensures r.Ok? ==> var stops := staticStore.snapshots[serverID].stops;
              forall id :: id in r.value ==> LastStopWithId(stops, id) == Some(r.value[id])
  {
    var found := staticStore.Get(serverID);
    if found.None? {
      return Err(NoStaticData(serverID));
    }
    var stops := found.value.stops;

    var stopIDSet: set<string> := {};
    var n := 0;
    while n < |stopIDs|
      invariant n <= |stopIDs|
      invariant forall id :: id in stopIDSet <==> id in stopIDs[..n]
    {
      assert stopIDs[..n + 1] == stopIDs[..n] + [stopIDs[n]];
      stopIDSet := stopIDSet + {stopIDs[n]};
      n := n + 1;
    }
    assert stopIDs[..n] == stopIDs;

    var result: map<string, Stop> := map[];
    var k := 0;
    while k < |stops|
      invariant k <= |stops|
      invariant forall id :: id in result <==> id in stopIDSet && LastStopWithId(stops[..k], id).Some?
      invariant forall id :: id in result ==> LastStopWithId(stops[..k], id) == Some(result[id])
    {
      var stop := stops[k];
      forall id | true
        ensures LastStopWithId(stops[..k + 1], id) ==
                  if stop.id == id then Some(stop) else LastStopWithId(stops[..k], id)
      {
        LastStopWithIdStep(stops, k, id);
      }
      if stop.id in stopIDSet {
        result := result[stop.id := stop];
      }
      k := k + 1;
    }
    assert stops[..k] == stops;
    return Ok(result);
  }

  datatype DatesError = NilStaticData | NoServices

  /**
   * The earliest and latest service end dates of a snapshot; there are none
   * for a missing snapshot or one without services.
   */
  method GetEarliestAndLatestServiceDates(staticData: Option<StaticData>)
    returns (r: Result<(int, int), DatesError>)
    ensures staticData.None? ==> r == Err(NilStaticData)
    ensures staticData.Some? && |staticData.value.services| == 0 ==> r == Err(NoServices)
    ensures staticData.Some? && |staticData.value.services| > 0 ==>
              var services := staticData.value.services;
              && r.Ok?
              && (forall i :: 0 <= i < |services| ==> r.value.0 <= services[i].endDate <= r.value.1)
              && (exists i :: 0 <= i < |services| && services[i].endDate == r.value.0)
              && (exists i :: 0 <= i < |services| && services[i].endDate == r.value.1)
  {
    if staticData.None? {
      return Err(NilStaticData);
    }
    var services := staticData.value.services;
    if |services| == 0 {
      return Err(NoServices);
    }
    var earliestEndDate := services[0].endDate;
    var latestEndDate := services[0].endDate;
    ghost var earliestAt, latestAt := 0, 0;
    var k := 0;
    while k < |services|
      invariant k <= |services|
      invariant earliestAt < |services| && services[earliestAt].endDate == earliestEndDate
      invariant latestAt < |services| && services[latestAt].endDate == latestEndDate
      invariant forall i :: 0 <= i < k ==> earliestEndDate <= services[i].endDate <= latestEndDate
    {
      var service := services[k];
      if service.endDate < earliestEndDate {
        earliestEndDate, earliestAt := service.endDate, k;
      }
      if service.endDate > latestEndDate {
        latestEndDate, latestAt := service.endDate, k;
      }
      k := k + 1;
    }
    return Ok((earliestEndDate, latestEndDate));
  }

  datatype Header = Header(name: string, value: string)

  /** A GET request: its URL and the optional credential header. */
  datatype Request = Request(url: string, header: Option<Header>)

  /** A response; `body` is what reading the whole body produced. */
  datatype HttpResponse = HttpResponse(statusCode: int, body: Result<seq<bv8>, Failure>)

  /** The collaborators of the realtime fetch, as the environment plays them. */
  datatype HttpEnv = HttpEnv(
    parseUrl: string -> Result<string, Failure>,
    newRequest: string -> Option<Failure>,
    client: Request -> Result<HttpResponse, Failure>,
    parseRealtime: seq<bv8> -> Result<RealtimeData, Failure>)

  datatype FeedError =
    | InvalidFeedUrl(cause: Failure)
    | RequestNotBuilt(cause: Failure)
    | FeedFetchFailed(cause: Failure)
    | BodyReadFailed(cause: Failure)
    | FeedParseFailed(cause: Failure)

  /**
   * Fetches the vehicle-position feed of `server` once and, if every step
   * succeeds, replaces the realtime snapshot. `sent` is the request handed to
   * the client, if one was built. The status code of the response is not
   * looked at.
   */
  method FetchAndStoreGTFSRTFeed(server: ObaServer, realtimeStore: RealtimeStore, env: HttpEnv)
    returns (err: Option<FeedError>, sent: Option<Request>)
    modifies realtimeStore
    ensures var u := env.parseUrl(server.vehiclePositionUrl);
              && (u.Err? ==> err == Some(InvalidFeedUrl(u.error)) && sent.None?)
              && (u.Ok? && env.newRequest(u.value).Some? ==> err == Some(RequestNotBuilt(env.newRequest(u.value).value)) && sent.None?)
              && (u.Ok? && env.newRequest(u.value).None? ==> sent.Some? && sent.value.url == u.value)
    ensures sent.Some? ==>
              (sent.value.header.Some? <==> server.gtfsRtApiKey != "" && server.gtfsRtApiValue != "")
    ensures sent.Some? && sent.value.header.Some? ==>
              sent.value.header.value == Header(server.gtfsRtApiKey, server.gtfsRtApiValue)
    ensures sent.Some? ==>
              var fetched := env.client(sent.value);
              if fetched.Err? then err == Some(FeedFetchFailed(fetched.error))
              else if fetched.value.body.Err? then err == Some(BodyReadFailed(fetched.value.body.error))
              else
                var parsed := env.parseRealtime(fetched.value.body.value);
                if parsed.Err? then err == Some(FeedParseFailed(parsed.error))
                else err.None? && realtimeStore.current == Some(parsed.value)
    ensures err.Some? ==> realtimeStore.current == old(realtimeStore.current)
  {
    sent := None;
    var parsedUrl := env.parseUrl(server.vehiclePositionUrl);
    if parsedUrl.Err? {
      return Some(InvalidFeedUrl(parsedUrl.error)), sent;
    }
    var requestErr := env.newRequest(parsedUrl.value);
    if requestErr.Some? {
      return Some(RequestNotBuilt(requestErr.value)), sent;
    }
    var header: Option<Header> := None;
    if server.gtfsRtApiKey != "" && server.gtfsRtApiValue != "" {
      header := Some(Header(server.gtfsRtApiKey, server.gtfsRtApiValue));
    }
    var req := Request(parsedUrl.value, header);
    sent := Some(req);
    var resp := env.client(req);
    if resp.Err? {
      return Some(FeedFetchFailed(resp.error)), sent;
    }
    if resp.value.body.Err? {
      return Some(BodyReadFailed(resp.value.body.error)), sent;
    }
    var gtfsRT := env.parseRealtime(resp.value.body.value);
    if gtfsRT.Err? {
      return Some(FeedParseFailed(gtfsRT.error)), sent;
    }
    realtimeStore.Set(gtfsRT.value);
    return None, sent;
  }
}
