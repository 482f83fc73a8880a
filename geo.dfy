/**
 * The geographic part of the snapshot pipeline: the bounding box of a stop
 * list and the per-server store of bounding boxes.
 */
module Geo {
  import opened Wrappers
  import opened Models

  datatype BoundingBox = BoundingBox(minLat: real, maxLat: real, minLon: real, maxLon: real)

  datatype GeoError = NoStops

  /** `stop` lies inside `box`, edges included. */
  predicate Encloses(box: BoundingBox, stop: Stop)
  {
    box.minLat <= stop.latitude <= box.maxLat && box.minLon <= stop.longitude <= box.maxLon
  }

  function BoxOf(stop: Stop): BoundingBox
  {
    BoundingBox(stop.latitude, stop.latitude, stop.longitude, stop.longitude)
  }

  /** The smallest box enclosing `box` and `stop`. */
  function Extend(box: BoundingBox, stop: Stop): BoundingBox
  {
    BoundingBox(
      if stop.latitude < box.minLat then stop.latitude else box.minLat,
      if stop.latitude > box.maxLat then stop.latitude else box.maxLat,
      if stop.longitude < box.minLon then stop.longitude else box.minLon,
      if stop.longitude > box.maxLon then stop.longitude else box.maxLon)
  }

  /**
   * The smallest axis-aligned box enclosing every stop, folded from the first
   * stop onwards; an empty list has none.
   */
  function ComputeBoundingBox(stops: seq<Stop>): (r: Result<BoundingBox, GeoError>)
    ensures r.Err? <==> |stops| == 0
    ensures r.Err? ==> r.error == NoStops
    ensures r.Ok? ==> forall i :: 0 <= i < |stops| ==> Encloses(r.value, stops[i])
    ensures r.Ok? ==> exists i :: 0 <= i < |stops| && stops[i].latitude == r.value.minLat
    ensures r.Ok? ==> exists i :: 0 <= i < |stops| && stops[i].latitude == r.value.maxLat
    ensures r.Ok? ==> exists i :: 0 <= i < |stops| && stops[i].longitude == r.value.minLon
    ensures r.Ok? ==> exists i :: 0 <= i < |stops| && stops[i].longitude == r.value.maxLon
  {
    if |stops| == 0 then Err(NoStops)
    else if |stops| == 1 then Ok(BoxOf(stops[0]))
    else
      var prefix := stops[..|stops| - 1];
      var last := stops[|stops| - 1];
      assert forall i :: 0 <= i < |prefix| ==> prefix[i] == stops[i];
      Ok(Extend(ComputeBoundingBox(prefix).value, last))
  }

  /** A box that encloses every stop contains the computed one: the computed box is the smallest. */
  lemma {:induction false} BoundingBoxIsSmallest(stops: seq<Stop>, box: BoundingBox)
    requires |stops| > 0
    requires forall i :: 0 <= i < |stops| ==> Encloses(box, stops[i])
    ensures var b := ComputeBoundingBox(stops).value;
      box.minLat <= b.minLat && b.maxLat <= box.maxLat && box.minLon <= b.minLon && b.maxLon <= box.maxLon
  {
    var b := ComputeBoundingBox(stops).value;
    var i :| 0 <= i < |stops| && stops[i].latitude == b.minLat;
    var j :| 0 <= j < |stops| && stops[j].latitude == b.maxLat;
    var k :| 0 <= k < |stops| && stops[k].longitude == b.minLon;
    var l :| 0 <= l < |stops| && stops[l].longitude == b.maxLon;
    assert Encloses(box, stops[i]) && Encloses(box, stops[j]) && Encloses(box, stops[k]) && Encloses(box, stops[l]);
  }

  /** Stops at (10, 20), (12, 18) and (11, 19) span latitudes 10 to 12 and longitudes 18 to 20. */
  lemma BoundingBoxOfThreeStops()
    ensures ComputeBoundingBox([Stop("a", 10.0, 20.0), Stop("b", 12.0, 18.0), Stop("c", 11.0, 19.0)])
              == Ok(BoundingBox(10.0, 12.0, 18.0, 20.0))
  {
    var stops := [Stop("a", 10.0, 20.0), Stop("b", 12.0, 18.0), Stop("c", 11.0, 19.0)];
    assert stops[..2] == [Stop("a", 10.0, 20.0), Stop("b", 12.0, 18.0)];
    assert stops[..2][..1] == [Stop("a", 10.0, 20.0)];
  }

  /** One bounding box per server id. */
  class BoundingBoxStore {
    var boxes: map<int, BoundingBox>

    constructor ()
      ensures boxes == map[]
    {
      boxes := map[];
    }

    /** Replaces the box of `serverID` wholesale. */
    method Set(serverID: int, box: BoundingBox)
      modifies this
      ensures boxes == old(boxes)[serverID := box]
    {
      boxes := boxes[serverID := box];
    }
  }
}
