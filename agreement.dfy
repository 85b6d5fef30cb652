/** The four encoders read the same position records; these lemmas say where
    their documents agree and where they differ. */
module FormatAgreement {
  import opened Positions
  import GpxExport
  import KmlExport
  import GeoJsonExport
  import CsvExport

  /** Latitude, longitude and altitude (each `0` when absent) are the same in
      the KML coordinate, the GeoJSON coordinates and the CSV row, and GPX's
      `lat`/`lon` attributes carry the same latitude and longitude. */
  lemma CoordinatesAgree(p: Position, deviceName: string)
    ensures
      var c := KmlExport.CoordOf(p);
      var f := GeoJsonExport.FeatureOf(p, deviceName);
      var row := CsvExport.RowOf(p);
      var t := GpxExport.TrackPointOf(p);
      && f.coordinates == [c.lon, c.lat, c.alt]
      && row[1] == c.lat && row[2] == c.lon && row[3] == c.alt
      && t.lat == c.lat && t.lon == c.lon
  {
  }

  /** GPX writes an `ele` exactly when the altitude is truthy, and then the
      same altitude as KML; when it writes none, KML's altitude is falsy (`0`
      for an absent key). */
  lemma ElevationAgrees(p: Position)
    ensures GpxExport.TrackPointOf(p).ele.Some? ==> GpxExport.TrackPointOf(p).ele.value == KmlExport.CoordOf(p).alt
    ensures GpxExport.TrackPointOf(p).ele.None? <==> !Truthy(KmlExport.CoordOf(p).alt)
  {
  }

  /** The fix time: GPX's `time` child and a KML waypoint's `when` appear
      together, exactly when the fix time is truthy, and then hold the value
      that GeoJSON's `time` property and the CSV `time` column hold. */
  lemma TimeAgrees(i: nat, p: Position, deviceName: string)
    ensures GpxExport.TrackPointOf(p).time == KmlExport.WaypointOf(i, p).when
    ensures GpxExport.TrackPointOf(p).time.Some? ==>
      && GpxExport.TrackPointOf(p).time.value == GeoJsonExport.FeatureOf(p, deviceName).properties.time
      && GpxExport.TrackPointOf(p).time.value == CsvExport.RowOf(p)[0]
  {
  }

  /** Speed, course and accuracy agree between GeoJSON and CSV. */
  lemma PropertiesAgree(p: Position, deviceName: string)
    ensures
      var props := GeoJsonExport.FeatureOf(p, deviceName).properties;
      var row := CsvExport.RowOf(p);
      props.time == row[0] && props.speed == row[4] && props.course == row[5] && props.accuracy == row[6]
  {
  }
}
