# Watchdog core in Dafny

This project models the sequential core of a transit-feed watchdog. The
watchdog polls OneBusAway servers, keeps their GTFS static and realtime
snapshots and reports Prometheus gauges. The model covers four parts:

- **Per-server backoff** (`Backoff`). A `BackoffStore` maps a server id to its
  current delay and next retry time. `UpdateBackoff` creates an entry or
  doubles its delay, `ResetBackoff` deletes it and `NextRetryAt` looks it up.
  Delays are Go `time.Duration` values: signed 64-bit nanosecond counts whose
  multiplication and addition wrap around, written out with `Wrap64`.
  `DoWithBackoff` is the request retry loop, run over a sequence of attempts
  that the environment plays. Each attempt holds the outcome of the request
  and whether the context was cancelled during the wait that follows it.
- **Snapshot storage and queries** (`Gtfs`, `Geo`). `StoreGTFSBundle` writes
  the static store and then the bounding-box store. `DownloadGTFSBundles`
  models one refresh of all servers, taken one server after another. Other
  parts:
  - the stop lookup by id;
  - the service end-date range;
  - the realtime fetch with its optional credential header.

  The realtime store is a single slot, not a per-server map.
- **Count reconciliation** (`ScheduledTrips`, `AgenciesWithCoverage`,
  `Gauges`). Trip and agency counts come from a static bundle and from the
  OneBusAway API. The model covers how those counts map from results, the
  order in which errors short-circuit, and the 0/1 match gauge. Gauges are a
  map from a gauge with its label values to an `int`.

File I/O, HTTP, the parsers and the OneBusAway client are collaborators.
Their outcomes are inputs to the model: a `Result<StaticData, Failure>` for
a bundle read from disk, an `ApiResponse` for an API call and an `HttpEnv`
for the realtime fetch. The clock (`now`) and the random jitter are inputs
too.

The retry loop's proved properties are stated as lemmas over the ghost
predicate `IsRetryRun`, which `DoWithBackoff` establishes:

- the first response is returned;
- with a positive budget, exactly `maxRetries + 1` requests are made before
  "max retries exceeded";
- a cancellation stops the loop;
- an unbounded budget never reports exhaustion.

The wait delays are the schedule `WaitSchedule`, which is
BASE·2^j capped at MAX.

Two behaviours that look like mistakes are modelled exactly as the code
behaves:

- `CheckScheduledTripRoute` writes its match value to the same
  `ScheduleTripForRoute` gauge that `GetScheduledTripRoute` filled with the
  API count, so it overwrites that count.
- `CheckAgenciesWithCoverageMatch` ignores the error from
  `GetAgenciesWithCoverage`: the count of 0 is compared and nil is returned.

The doc comment of `DoWithBackoff` (internal/config/backoff_time_store.go:85)
makes zero the unbounded budget; the model follows the code, which retries
without limit for every `maxRetries <= 0` because the check at line 99 requires
`maxRetries > 0`.

`realtimeStore.Set` takes no server id (internal/gtfs/gtfs_bundles.go:322), so
the realtime store is a single slot and a later fetch for any server replaces
the snapshot.

## Model

| member | source | states |
|---|---|---|
| Backoff.CalculateNewBackoffDelay | internal/config/backoff_time_store.go:130-136 | The result never exceeds MAX_BACKOFF. Where doubling does not overflow int64, it is min(2·d, MAX_BACKOFF). For 0 < d ≤ MAX_BACKOFF the new delay is at least d. |
| Backoff.CalculateNextRetryAt | internal/config/backoff_time_store.go:115-126 | Take a non-negative backoff and a jitter in [0, backoff·JITTER_FACTOR]. The next retry is now + min(backoff + jitter, MAX_BACKOFF), so its offset lies between min(backoff, MAX_BACKOFF) and MAX_BACKOFF. |
| Backoff.ScheduledDelay | internal/config/backoff_time_store.go:12-16 | After k doublings of BASE_BACKOFF, the delay stays within [BASE_BACKOFF, MAX_BACKOFF]. |
| Backoff.ScheduledDelayClosedForm | internal/config/backoff_time_store.go:64-73 | After k doublings the delay is min(BASE·2^k, MAX). |
| Backoff.ScheduledDelayMonotonic | internal/config/backoff_time_store.go:130-136 | Delays never decrease along the doubling schedule. |
| Backoff.BackoffStore.constructor | internal/config/backoff_time_store.go:41-45 | A new store has no entries. |
| Backoff.BackoffStore.NextRetryAt | internal/config/backoff_time_store.go:49-56 | Reports true with the stored retry time exactly for ids present. Otherwise it reports false and the zero time. |
| Backoff.BackoffStore.UpdateBackoff | internal/config/backoff_time_store.go:60-74 | An absent id gets delay BASE_BACKOFF. A present id gets calculateNewBackoffDelay of its old delay, which is never smaller. Both get the next retry time from calculateNextRetryAt. No other id's entry changes. After the Nth update since the entry was created, the delay is min(BASE·2^(N−1), MAX). |
| Backoff.BackoffStore.ResetBackoff | internal/config/backoff_time_store.go:77-82 | Removes that id's entry and keeps every other entry. NextRetryAt then reports false, and the next UpdateBackoff takes the absent-id branch and restarts at BASE_BACKOFF. |
| Backoff.DoWithBackoff | internal/config/backoff_time_store.go:88-113 | The run satisfies IsRetryRun: every attempt before the last one failed, had budget left and waited in full. That last attempt gives the result: its response, "max retries exceeded" wrapping its error, or the context error. The waits begun are the first entries of WaitSchedule. |
| Backoff.WaitSchedule | internal/config/backoff_time_store.go:89-111 | The schedule of the first n waits has exactly n delays. |
| Backoff.WaitScheduleClosedForm | internal/config/backoff_time_store.go:89-111 | Wait j lasts BASE·2^j, capped at MAX_BACKOFF. |
| Backoff.RunReachesAttempt | internal/config/backoff_time_store.go:92-111 | If attempts 0..k−1 all continued, request k is sent. |
| Backoff.RunReturnsFirstResponse | internal/config/backoff_time_store.go:93-96 | The loop returns the first response it receives, after exactly k + 1 requests. |
| Backoff.RunExhaustsRetries | internal/config/backoff_time_store.go:98-101 | Take maxRetries > 0, with every attempt failing and no cancellation. Exactly maxRetries + 1 requests are made, then MaxRetriesExceeded wraps the last error. |
| Backoff.RunStopsOnCancellation | internal/config/backoff_time_store.go:103-108 | A cancellation during wait k returns the context error, and no request after k is sent. |
| Backoff.RunUnboundedNeverExhausts | internal/config/backoff_time_store.go:98-99 | With maxRetries ≤ 0 the loop only ends with a response or the context error. |
| Geo.ComputeBoundingBox | internal/gtfs/gtfs_bundles.go:229-232 | Fails exactly on an empty stop list. Otherwise the box encloses every stop, and each of its four edges is the coordinate of some stop. |
| Geo.BoundingBoxIsSmallest | internal/gtfs/gtfs_bundles.go:229 | Any box enclosing every stop contains the computed box. |
| Geo.BoundingBoxOfThreeStops | internal/gtfs/gtfs_bundles.go:229 | Stops at (10, 20), (12, 18) and (11, 19) give latitudes 10 to 12 and longitudes 18 to 20. |
| Geo.BoundingBoxStore.Set | internal/gtfs/gtfs_bundles.go:233-234 | Replaces the box of one server id only. |
| Gtfs.StaticStore.Set | internal/gtfs/gtfs_bundles.go:227 | Replaces the snapshot of one server id only. |
| Gtfs.StaticStore.Get | internal/gtfs/gtfs_bundles.go:242 | Finds the stored snapshot exactly when the id is present. |
| Gtfs.RealtimeStore.Set | internal/gtfs/gtfs_bundles.go:322 | The single realtime slot holds the new snapshot. |
| Gtfs.StoreGTFSBundle | internal/gtfs/gtfs_bundles.go:220-236 | Always replaces serverID's static snapshot. Succeeds exactly when there are stops, and then sets serverID's box to ComputeBoundingBox. On an empty stop list it returns the error and leaves the box store unchanged. |
| Gtfs.DownloadGTFSBundles | internal/gtfs/gtfs_bundles.go:47-83 | An id whose download did not succeed keeps both store entries. Every server whose download succeeded gets its snapshot stored, and its box set or, with no stops, kept. One failure does not stop the others. |
| Gtfs.LastStopWithId | internal/gtfs/gtfs_bundles.go:256-261 | Returns nothing exactly when no stop has that id. Otherwise it returns a stop of the list with that id. |
| Gtfs.LastStopWithIdIsLatest | internal/gtfs/gtfs_bundles.go:257-260 | A stop with no later stop of the same id is the one kept: later writes to the result map win. |
| Gtfs.GetStopLocationsByIDs | internal/gtfs/gtfs_bundles.go:241-263 | Returns an error exactly when nothing is stored for serverID. Otherwise the keys are exactly the requested ids that some stored stop has. Each such key maps to the last stored stop with that id. |
| Gtfs.GetEarliestAndLatestServiceDates | internal/gtfs/gtfs_bundles.go:336-354 | Fails on missing data and on an empty service list. Otherwise earliest ≤ every service end date ≤ latest, and both are end dates of some service. |
| Gtfs.FetchAndStoreGTFSRTFeed | internal/gtfs/gtfs_bundles.go:273-324 | A bad URL or an unbuildable request ends with no request sent. The credential header is attached exactly when the key and the value are both non-empty, and is then (key, value) with the key as given. A fetch, body-read or parse error is returned as that error. Only full success replaces the realtime slot; any error leaves it unchanged. |
| Gauges.GaugeRegistry.Set | internal/metrics/scheduled_trips.go:72-75 | Sets one labelled gauge and leaves all the others. |
| Gauges.MatchValue | internal/metrics/scheduled_trips.go:92-95 | The match is 0 or 1, and it is 1 exactly when the counts are equal. |
| ScheduledTrips.TripsOnRoute | internal/metrics/scheduled_trips.go:42-50 | The matching trips number at most len(Trips), and each is a trip of the bundle on routeID. |
| ScheduledTrips.TripsOnRouteComplete | internal/metrics/scheduled_trips.go:44-48 | A trip is counted exactly when it is in the bundle and its Route.Id is routeID. |
| ScheduledTrips.TripsOnRouteEmpty | internal/metrics/scheduled_trips.go:42-50 | The count is 0 exactly when no trip is on routeID. |
| ScheduledTrips.TripsOnRouteAppend | internal/metrics/scheduled_trips.go:44-47 | Each trip adds one to the count when it is on the route and nothing otherwise. |
| ScheduledTrips.CountScheduledTripRoute | internal/metrics/scheduled_trips.go:16-51 | A failed read or parse gives (0, that error). Otherwise the count is the number of trips whose Route.Id is routeID. |
| ScheduledTrips.GetScheduledTripRoute | internal/metrics/scheduled_trips.go:53-78 | An API error gives (0, err) and a nil response gives (0, nil), with gauges untouched in both cases. Otherwise the result is the number of trips in the entry, which is also set on the route's gauge. |
| ScheduledTrips.CheckScheduledTripRoute | internal/metrics/scheduled_trips.go:80-100 | The API error is returned first, with no gauge written. A static error comes next, and leaves only the API count on the gauge. Otherwise the 0/1 match of the two counts overwrites that gauge and nil is returned. |
| AgenciesWithCoverage.CheckAgenciesWithCoverage | internal/metrics/agencies_with_coverage.go:18-87 | A failed read or parse gives (0, that error), and so does an empty agency list. Otherwise the result is the number of agencies, also set on the server's static-agency gauge. |
| AgenciesWithCoverage.GetAgenciesWithCoverage | internal/metrics/agencies_with_coverage.go:89-118 | An API error gives (0, err) and a nil response gives (0, nil), with gauges untouched in both cases. Otherwise the result is the length of the coverage list, also set on the coverage gauge. |
| AgenciesWithCoverage.CheckAgenciesWithCoverageMatch | internal/metrics/agencies_with_coverage.go:120-136 | A static-side failure is returned with no gauge written. Otherwise any API error is dropped and its count of 0 is compared. The AgenciesMatch gauge is set to 1 exactly when the counts are equal, and nil is returned. |

## Left out

- HTTP, file I/O and the parsers are not modelled: `http.Client.Do`, `io.ReadAll`, `os.Open`/`Stat`/`Read`, `gtfs.ParseStatic`, `ParseRealtime` and the OneBusAway client. Their results are inputs. A partial `file.Read` and the sizing of the read buffer therefore do not appear.
- `downloadGTFSBundle` is not modelled: building the request, calling `DoWithBackoff`, checking the status and parsing. `DownloadGTFSBundles` takes each server's download outcome as an input.
- `models.NewStaticData` and `NewRealtimeData` are not modelled. The snapshot types hold only the fields the core reads.
- Sentry reporting and logging are left out. They do not affect any state the core keeps.
- Concurrency is left out: goroutines, `sync.WaitGroup`, `sync.RWMutex`, and the ticker loops of `refreshGTFSBundles` and the realtime refresher. DownloadGTFSBundles models only the sequential effect of one refresh.
- DownloadGTFSBundles: requires distinct server ids so that each id's entries come from one download. With duplicate ids the goroutines race, and the entry that wins is not determined.
- `rand.Float64` and `time.Now` are parameters: the jitter is a `Duration` and the clock a nanosecond count. Absolute times are unbounded nanosecond counts with the zero time as 0; `UTC()` is not modelled.
- CalculateNextRetryAt: states its bound only for a non-negative backoff whose jittered value does not overflow int64. The floating-point product `rand.Float64() * float64(backoff) * 0.5` is replaced by any integer jitter in [0, backoff/2].
- CalculateNewBackoffDelay: states min(2·d, MAX) only where doubling cannot overflow. Outside that range the body wraps around as Go does, and only the MAX bound is claimed.
- DoWithBackoff: the attempts are a finite sequence. When they run out while the loop would continue, the run is `StillRetrying`, which stands for the part of an endless run that was observed. The `select` between cancellation and timer is decided by the attempt's flag. All context errors are one `ContextDone`, and the HTTP response is opaque.
- Coordinates are `real`, so floating-point rounding and NaN do not appear. The `internal/geo` package is not among the modelled files; `ComputeBoundingBox` is modelled as a min/max fold that fails on an empty list.
- The stores' own source is not part of this model. They are modelled as int-keyed maps, plus one slot for realtime data. A nil snapshot stored in the static store, which the source also rejects in `getStopLocationsByIDs`, cannot occur in the model.
- Gauges hold `int` counts. The conversion to float64, Prometheus exposition and the label formatting by `strconv.Itoa` are not modelled; server ids stand for their labels. `metrics.go` declares `AgenciesInStaticGtfs` and `AgenciesInCoverageEndpoint` without labels, while the reconcilers call `WithLabelValues(serverID)`. The model follows the reconcilers.
- FetchAndStoreGTFSRTFeed: the header name is not canonicalized as `Header.Set` does (`x-api-key` is sent as `X-Api-Key`); the model keeps the key as configured.
- `fetchAndStoreGTFSRTFeed` does not check the status code and the model does not either. Closing the body is not modelled.
