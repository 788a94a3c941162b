/** The congestion zone: the Manhattan taxi zones whose centroid lies south of a fixed
    latitude (an approximation of 60th Street). Geometry is abstracted to one number per
    zone: the latitude of its centroid. */
module Geospatial {
  import opened Wrappers
  import opened Aggregates

  const ManhattanBorough: string := "Manhattan"

  /** Latitude of 60th Street, approximately; the cutoff is strict. */
  const LatitudeThreshold: real := 40.764

  /** The geographic latitude/longitude reference system. */
  const Wgs84: string := "EPSG:4326"

  /** A taxi zone; `centroidY` is the centroid's vertical coordinate in the layer's own
      reference system. */
  datatype Zone = Zone(locationId: int, borough: string, centroidY: real)

  /** The zone layer as read from the shapefile; `crs` is absent when the file declares none. */
  datatype ZoneLayer = ZoneLayer(crs: Option<string>, zones: seq<Zone>)

  datatype GeometryError =
    | MissingCrs           // the layer declares no reference system to compare
    | ReprojectionFailed   // a zone could not be transformed to latitude/longitude

  /** The borough filter: Manhattan zones, in layer order. */
  function ManhattanZones(zones: seq<Zone>): (r: seq<Zone>)
    ensures forall i :: 0 <= i < |r| ==> r[i].borough == ManhattanBorough
    ensures forall z :: z in r <==> z in zones && z.borough == ManhattanBorough
    ensures forall z :: multiset(r)[z] == if z.borough == ManhattanBorough then multiset(zones)[z] else 0
    ensures SubsequenceOf(r, zones)
  {
    var p := (z: Zone) => z.borough == ManhattanBorough;
    FilterIsSubsequence(zones, p);
    forall z ensures multiset(Filter(zones, p))[z] == if p(z) then multiset(zones)[z] else 0 {
      FilterCounts(zones, p, z);
    }
    Filter(zones, p)
  }

  /** The centroid latitude of each zone after the reprojection step: the layer's own
      coordinate when it is already in EPSG:4326, otherwise what `reproject` gives
      (None when the transformation fails). */
  function Latitudes(crs: string, zones: seq<Zone>, reproject: Zone -> Option<real>): (r: Option<seq<real>>)
    ensures crs == Wgs84 ==> r == Some(seq(|zones|, i requires 0 <= i < |zones| => zones[i].centroidY))
    ensures r.Some? ==> |r.value| == |zones|
    ensures r.Some? && crs != Wgs84 ==> forall i :: 0 <= i < |zones| ==> reproject(zones[i]) == Some(r.value[i])
    ensures r.None? <==> crs != Wgs84 && exists i :: 0 <= i < |zones| && reproject(zones[i]).None?
  {
    if crs == Wgs84 then Some(seq(|zones|, i requires 0 <= i < |zones| => zones[i].centroidY))
    else if exists i :: 0 <= i < |zones| && reproject(zones[i]).None? then None
    else Some(seq(|zones|, i requires 0 <= i < |zones| => reproject(zones[i]).value))
  }

  /** The ids of the zones whose latitude is strictly below the threshold, in order. */
  function SouthOfThreshold(zones: seq<Zone>, lats: seq<real>): (ids: seq<int>)
    requires |lats| == |zones|
    ensures |ids| <= |zones|
    ensures forall id :: id in ids <==> exists i :: 0 <= i < |zones| && zones[i].locationId == id && lats[i] < LatitudeThreshold
  {
    if |zones| == 0 then []
    else
      var rest := SouthOfThreshold(zones[1..], lats[1..]);
      assert forall i :: 1 <= i < |zones| ==> zones[i] == zones[1..][i - 1] && lats[i] == lats[1..][i - 1];
      if lats[0] < LatitudeThreshold then [zones[0].locationId] + rest else rest
  }

  /** `get_congestion_zones`: Manhattan zones, reprojected to EPSG:4326 unless already
      there, whose centroid latitude is below 40.764. */
  function CongestionZones(layer: ZoneLayer, reproject: Zone -> Option<real>): (r: Result<seq<int>, GeometryError>)
    ensures r.Failure? && r.error == MissingCrs <==> layer.crs.None?
    ensures layer.crs == Some(Wgs84) ==> r.Success?
  {
    if layer.crs.None? then Failure(MissingCrs)
    else
      var manhattan := ManhattanZones(layer.zones);
      var lats := Latitudes(layer.crs.value, manhattan, reproject);
      if lats.None? then Failure(ReprojectionFailed)
      else Success(SouthOfThreshold(manhattan, lats.value))
  }

  /** The centroid latitude of one zone in a layer with reference system `crs`: its own
      coordinate in EPSG:4326, otherwise the transformed one (None when that fails). */
  function ZoneLatitude(crs: string, reproject: Zone -> Option<real>, z: Zone): Option<real> {
    if crs == Wgs84 then Some(z.centroidY) else reproject(z)
  }

  /** Membership in the congestion zone, for any layer that declares a reference system:
      the filter succeeds exactly when every Manhattan zone has a latitude, and then an id is
      returned exactly when some Manhattan zone with that id lies south of the threshold. */
  lemma CongestionZoneMembership(layer: ZoneLayer, reproject: Zone -> Option<real>, id: int)
    requires layer.crs.Some?
    ensures CongestionZones(layer, reproject).Success?
        <==> forall z :: z in layer.zones && z.borough == ManhattanBorough ==> ZoneLatitude(layer.crs.value, reproject, z).Some?
    ensures CongestionZones(layer, reproject).Success? ==>
              (id in CongestionZones(layer, reproject).value <==>
                 exists z :: && z in layer.zones && z.locationId == id && z.borough == ManhattanBorough
                             && ZoneLatitude(layer.crs.value, reproject, z).Some?
                             && ZoneLatitude(layer.crs.value, reproject, z).value < LatitudeThreshold)
  {
    CongestionSuccess(layer, reproject);
    CongestionIds(layer, reproject, id);
  }

  lemma CongestionSuccess(layer: ZoneLayer, reproject: Zone -> Option<real>)
    requires layer.crs.Some?
    ensures CongestionZones(layer, reproject).Success?
        <==> forall z :: z in layer.zones && z.borough == ManhattanBorough ==> ZoneLatitude(layer.crs.value, reproject, z).Some?
  {
    var crs := layer.crs.value;
    var manhattan := ManhattanZones(layer.zones);
    var lats := Latitudes(crs, manhattan, reproject);
    if lats.Some? {
      forall z | z in layer.zones && z.borough == ManhattanBorough
        ensures ZoneLatitude(crs, reproject, z).Some?
      {
        assert z in manhattan;
        var i :| 0 <= i < |manhattan| && manhattan[i] == z;
      }
    } else {
      var i :| 0 <= i < |manhattan| && reproject(manhattan[i]).None?;
      assert manhattan[i] in manhattan;
      assert ZoneLatitude(crs, reproject, manhattan[i]).None?;
    }
  }

  /** The exists-clause of CongestionZoneMembership: a Manhattan zone with id `id` lying
      south of the threshold. */
  predicate SouthernManhattanId(layer: ZoneLayer, reproject: Zone -> Option<real>, id: int)
    requires layer.crs.Some?
  {
    exists z :: && z in layer.zones && z.locationId == id && z.borough == ManhattanBorough
                && ZoneLatitude(layer.crs.value, reproject, z).Some?
                && ZoneLatitude(layer.crs.value, reproject, z).value < LatitudeThreshold
  }

  lemma CongestionIds(layer: ZoneLayer, reproject: Zone -> Option<real>, id: int)
    requires layer.crs.Some?
    ensures CongestionZones(layer, reproject).Success? ==>
              (id in CongestionZones(layer, reproject).value <==> SouthernManhattanId(layer, reproject, id))
  {
    if CongestionZones(layer, reproject).Success? {
      CongestionIdsSound(layer, reproject, id);
      CongestionIdsComplete(layer, reproject, id);
    }
  }

  lemma CongestionIdsSound(layer: ZoneLayer, reproject: Zone -> Option<real>, id: int)
    requires layer.crs.Some? && CongestionZones(layer, reproject).Success?
    ensures id in CongestionZones(layer, reproject).value ==> SouthernManhattanId(layer, reproject, id)
  {
    var crs := layer.crs.value;
    var manhattan := ManhattanZones(layer.zones);
    var lats := Latitudes(crs, manhattan, reproject).value;
    var ids := SouthOfThreshold(manhattan, lats);
    assert CongestionZones(layer, reproject).value == ids;
    if id in ids {
      var i :| 0 <= i < |manhattan| && manhattan[i].locationId == id && lats[i] < LatitudeThreshold;
      assert manhattan[i] in manhattan;
      assert ZoneLatitude(crs, reproject, manhattan[i]) == Some(lats[i]);
    }
  }

  lemma CongestionIdsComplete(layer: ZoneLayer, reproject: Zone -> Option<real>, id: int)
    requires layer.crs.Some? && CongestionZones(layer, reproject).Success?
    ensures SouthernManhattanId(layer, reproject, id) ==> id in CongestionZones(layer, reproject).value
  {
    var crs := layer.crs.value;
    var manhattan := ManhattanZones(layer.zones);
    var lats := Latitudes(crs, manhattan, reproject).value;
    var ids := SouthOfThreshold(manhattan, lats);
    assert CongestionZones(layer, reproject).value == ids;
    if z :| && z in layer.zones && z.locationId == id && z.borough == ManhattanBorough
            && ZoneLatitude(crs, reproject, z).Some? && ZoneLatitude(crs, reproject, z).value < LatitudeThreshold {
      assert z in manhattan;
      var i :| 0 <= i < |manhattan| && manhattan[i] == z;
      assert ZoneLatitude(crs, reproject, manhattan[i]) == Some(lats[i]);
      assert lats[i] < LatitudeThreshold;
    }
  }

  /** The cutoff is strict: a Manhattan zone exactly on 40.764 is outside the zone. */
  lemma ThresholdIsStrict(id: int, reproject: Zone -> Option<real>)
    ensures CongestionZones(ZoneLayer(Some(Wgs84), [Zone(id, ManhattanBorough, LatitudeThreshold)]), reproject) == Success([])
    ensures CongestionZones(ZoneLayer(Some(Wgs84), [Zone(id, ManhattanBorough, 40.7639)]), reproject) == Success([id])
  {
    var onLine := [Zone(id, ManhattanBorough, LatitudeThreshold)];
    var below := [Zone(id, ManhattanBorough, 40.7639)];
    assert ManhattanZones(onLine) == onLine by { assert onLine[1..] == []; }
    assert ManhattanZones(below) == below by { assert below[1..] == []; }
    var lats := Latitudes(Wgs84, below, reproject).value;
    assert lats == [40.7639];
    assert SouthOfThreshold(below[1..], lats[1..]) == [];
    assert SouthOfThreshold(below, lats) == [id];
    assert CongestionZones(ZoneLayer(Some(Wgs84), below), reproject) == Success(SouthOfThreshold(below, lats));
  }

  /** A layer already in EPSG:4326 is not reprojected: the result does not depend on the
      transformation at all. */
  lemma NoReprojectionInWgs84(zones: seq<Zone>, f: Zone -> Option<real>, g: Zone -> Option<real>)
    ensures CongestionZones(ZoneLayer(Some(Wgs84), zones), f) == CongestionZones(ZoneLayer(Some(Wgs84), zones), g)
  {
  }

  /** Only Manhattan zones are reprojected: a transformation that fails outside Manhattan
      changes nothing. */
  lemma ReprojectionOnlyOfManhattan(layer: ZoneLayer, f: Zone -> Option<real>, g: Zone -> Option<real>)
    requires forall z :: z in layer.zones && z.borough == ManhattanBorough ==> f(z) == g(z)
    ensures CongestionZones(layer, f) == CongestionZones(layer, g)
  {
    if layer.crs.Some? && layer.crs.value != Wgs84 {
      var manhattan := ManhattanZones(layer.zones);
      assert forall i :: 0 <= i < |manhattan| ==> f(manhattan[i]) == g(manhattan[i]) by {
        forall i | 0 <= i < |manhattan| ensures f(manhattan[i]) == g(manhattan[i]) {
          assert manhattan[i] in manhattan;
        }
      }
      var crs := layer.crs.value;
      assert (exists i :: 0 <= i < |manhattan| && f(manhattan[i]).None?) <==> (exists i :: 0 <= i < |manhattan| && g(manhattan[i]).None?);
      var lf, lg := Latitudes(crs, manhattan, f), Latitudes(crs, manhattan, g);
      if lf.Some? {
        assert lg.Some? && |lf.value| == |lg.value|;
        assert forall i :: 0 <= i < |lf.value| ==> lf.value[i] == lg.value[i];
        assert lf.value == lg.value;
      }
    }
  }

  /** The ids come out in layer order: they form a subsequence of the layer's ids. */
  lemma {:induction false} CongestionZonesInLayerOrder(zones: seq<Zone>, lats: seq<real>)
    requires |lats| == |zones|
    ensures SubsequenceOf(SouthOfThreshold(zones, lats), IdsOf(zones))
  {
    if |zones| > 0 {
      CongestionZonesInLayerOrder(zones[1..], lats[1..]);
      assert IdsOf(zones)[1..] == IdsOf(zones[1..]);
      if lats[0] >= LatitudeThreshold {
        SubsequenceSkip(SouthOfThreshold(zones, lats), IdsOf(zones));
      }
    }
  }

  function IdsOf(zones: seq<Zone>): seq<int>
  {
    seq(|zones|, i requires 0 <= i < |zones| => zones[i].locationId)
  }

  /** Taking ids keeps a subsequence relation between zone lists. */
  lemma {:induction false} IdsKeepSubsequence(xs: seq<Zone>, ys: seq<Zone>)
    requires SubsequenceOf(xs, ys)
    ensures SubsequenceOf(IdsOf(xs), IdsOf(ys))
    decreases |ys|
  {
    if |xs| > 0 {
      assert IdsOf(xs)[1..] == IdsOf(xs[1..]) && IdsOf(ys)[1..] == IdsOf(ys[1..]);
      if xs[0] == ys[0] && SubsequenceOf(xs[1..], ys[1..]) {
        IdsKeepSubsequence(xs[1..], ys[1..]);
      } else {
        IdsKeepSubsequence(xs, ys[1..]);
      }
    }
  }

  /** Whatever the reference system, a successful result lists ids of the layer's own zones
      in layer order. */
  lemma CongestionZonesAreOrderedSubset(layer: ZoneLayer, reproject: Zone -> Option<real>)
    ensures CongestionZones(layer, reproject).Success? ==>
              SubsequenceOf(CongestionZones(layer, reproject).value, IdsOf(layer.zones))
  {
    if layer.crs.Some? {
      var manhattan := ManhattanZones(layer.zones);
      var lats := Latitudes(layer.crs.value, manhattan, reproject);
      if lats.Some? {
        CongestionZonesInLayerOrder(manhattan, lats.value);
        IdsKeepSubsequence(manhattan, layer.zones);
        SubsequenceTrans(CongestionZones(layer, reproject).value, IdsOf(manhattan), IdsOf(layer.zones));
      }
    }
  }
}
