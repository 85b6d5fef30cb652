/** `DataExporter.to_geojson`: a FeatureCollection with one Point Feature per
    position. */
module GeoJsonExport {
  import opened Positions

  /** A Feature's `properties` object. */
  datatype Properties = Properties(
    deviceName: string,
    time: Value,
    speed: Value,
    course: Value,
    accuracy: Value)

  /** A Feature whose `geometry` is a Point with the given `coordinates`. */
  datatype Feature = Feature(coordinates: seq<Value>, properties: Properties)

  datatype FeatureCollection = FeatureCollection(features: seq<Feature>)

  /** What a Feature says about the position it was written from: the
      coordinates in GeoJSON's `[longitude, latitude, altitude]` order, and the
      properties, each absent key replaced by `0`, or by `''` for the time. */
  predicate Describes(f: Feature, p: Position, deviceName: string)
  {
    && |f.coordinates| == 3
    && f.coordinates[0] == GetOr(p.longitude, Zero)
    && f.coordinates[1] == GetOr(p.latitude, Zero)
    && f.coordinates[2] == GetOr(p.altitude, Zero)
    && f.properties.deviceName == deviceName
    && f.properties.time == GetOr(p.fixTime, EmptyText)
    && f.properties.speed == GetOr(p.speed, Zero)
    && f.properties.course == GetOr(p.course, Zero)
    && f.properties.accuracy == GetOr(p.accuracy, Zero)
  }

  function FeatureOf(p: Position, deviceName: string): Feature
  {
    Feature(
      [GetOr(p.longitude, Zero), GetOr(p.latitude, Zero), GetOr(p.altitude, Zero)],
      Properties(deviceName, GetOr(p.fixTime, EmptyText), GetOr(p.speed, Zero),
                 GetOr(p.course, Zero), GetOr(p.accuracy, Zero)))
  }

  /** What a GeoJSON reader recovers from a Feature: every field the Feature
      carries, as a present key; the address is not in GeoJSON. */
  function ReadFeature(f: Feature): Position
    requires |f.coordinates| == 3
  {
    Position(
      Some(f.coordinates[1]), Some(f.coordinates[0]), Some(f.coordinates[2]),
      Some(f.properties.time), Some(f.properties.speed), Some(f.properties.course),
      Some(f.properties.accuracy), None)
  }

  /** GeoJSON keeps every field but the address: each of the other seven keys
      is read back as the position's own value, or as its default (`''` for
      the time, `0` otherwise) when the key is absent; a position with all
      seven keys present and no address is read back unchanged. */
  lemma WriteThenRead(p: Position, deviceName: string)
    ensures |FeatureOf(p, deviceName).coordinates| == 3
    ensures ReadFeature(FeatureOf(p, deviceName)) == Position(
      Some(GetOr(p.latitude, Zero)), Some(GetOr(p.longitude, Zero)), Some(GetOr(p.altitude, Zero)),
      Some(GetOr(p.fixTime, EmptyText)), Some(GetOr(p.speed, Zero)), Some(GetOr(p.course, Zero)),
      Some(GetOr(p.accuracy, Zero)), None)
    ensures FeatureOf(p, deviceName).properties.deviceName == deviceName
    ensures p.latitude.Some? && p.longitude.Some? && p.altitude.Some? && p.fixTime.Some?
            && p.speed.Some? && p.course.Some? && p.accuracy.Some? && p.address.None?
            ==> ReadFeature(FeatureOf(p, deviceName)) == p
  {
  }

  /** `to_geojson` up to serialization: exactly one Feature per position, in
      input order, each naming the device. */
  method ToGeoJson(positions: seq<Position>, deviceName: string) returns (doc: FeatureCollection)
    ensures |doc.features| == |positions|
    ensures forall i :: 0 <= i < |positions| ==> Describes(doc.features[i], positions[i], deviceName)
  {
    var features: seq<Feature> := [];
    for i := 0 to |positions|
      invariant |features| == i
      invariant forall k :: 0 <= k < i ==> Describes(features[k], positions[k], deviceName)
    {
      features := features + [FeatureOf(positions[i], deviceName)];
    }
    doc := FeatureCollection(features);
  }
}
