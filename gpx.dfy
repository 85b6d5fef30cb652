/** `DataExporter.to_gpx`: the GPX 1.1 element tree, one track point per
    position. */
module GpxExport {
  import opened Positions

  /** A `trkpt`: the `lat`/`lon` attributes and the optional `ele`, `time`,
      `speed` and `course` children, each holding the value it is written from. */
  datatype TrackPoint = TrackPoint(
    lat: Value,
    lon: Value,
    ele: Option<Value>,
    time: Option<Value>,
    speed: Option<Value>,
    course: Option<Value>)

  /** The `gpx` root: its attributes, `metadata` (`name`, `time`), and one `trk`
      with a `name` and a single `trkseg`. */
  datatype Gpx = Gpx(
    attributes: seq<(string, string)>,
    metadataName: string,
    metadataTime: string,
    trackName: string,
    segment: seq<TrackPoint>)

  const RootAttributes: seq<(string, string)> := [
    ("version", "1.1"),
    ("creator", "Traccar Exporter"),
    ("xmlns", "http://www.topografix.com/GPX/1/1"),
    ("xmlns:xsi", "http://www.w3.org/2001/XMLSchema-instance"),
    ("xsi:schemaLocation", "http://www.topografix.com/GPX/1/1 http://www.topografix.com/GPX/1/1/gpx.xsd")
  ]

  /** A child element that is written exactly when its field is truthy, and
      then carries that field's value. */
  predicate ChildFor(c: Option<Value>, f: Field)
  {
    (c.Some? <==> Present(f)) && (c.Some? ==> c == f)
  }

  /** What a track point says about the position it was written from. */
  predicate Encodes(t: TrackPoint, p: Position)
  {
    && t.lat == GetOr(p.latitude, Zero)
    && t.lon == GetOr(p.longitude, Zero)
    && ChildFor(t.ele, p.altitude)
    && ChildFor(t.time, p.fixTime)
    && ChildFor(t.speed, p.speed)
    && ChildFor(t.course, p.course)
  }

  function TrackPointOf(p: Position): (t: TrackPoint)
    ensures Encodes(t, p)
  {
    TrackPoint(
      GetOr(p.latitude, Zero), GetOr(p.longitude, Zero),
      IfPresent(p.altitude), IfPresent(p.fixTime), IfPresent(p.speed), IfPresent(p.course))
  }

  /** The encoding of one position is fully determined: two track points that
      both encode `p` are the same. */
  lemma EncodesDeterminesPoint(t: TrackPoint, p: Position)
    requires Encodes(t, p)
    ensures t == TrackPointOf(p)
  {
  }

  /** A zero or empty field is dropped, not written as `0`: a position standing
      still (speed 0) at sea level (altitude 0) yields a point with neither an
      `ele` nor a `speed` child. */
  lemma FalsyFieldsOmitted(p: Position)
    requires p.speed == Some(Int(0)) || p.speed == Some(Float(0.0))
    requires p.altitude == Some(Int(0)) || p.altitude == Some(Float(0.0))
    ensures TrackPointOf(p).speed == None && TrackPointOf(p).ele == None
  {
  }

  /** What a GPX reader recovers from a track point: latitude, longitude and
      the children that are there; accuracy and address are not in GPX. */
  function ReadTrackPoint(t: TrackPoint): Position
  {
    Position(Some(t.lat), Some(t.lon), t.ele, t.time, t.speed, t.course, None, None)
  }

  /** A track point whose children all hold truthy values, as every point the
      encoder writes does. */
  predicate WellFormed(t: TrackPoint)
  {
    && (t.ele.Some? ==> Truthy(t.ele.value))
    && (t.time.Some? ==> Truthy(t.time.value))
    && (t.speed.Some? ==> Truthy(t.speed.value))
    && (t.course.Some? ==> Truthy(t.course.value))
  }

  /** Every point the encoder writes is well formed. */
  lemma WrittenPointWellFormed(p: Position)
    ensures WellFormed(TrackPointOf(p))
  {
  }

  /** A well-formed point, read back and written again, is the same point. */
  lemma ReadThenWrite(t: TrackPoint)
    requires WellFormed(t)
    ensures TrackPointOf(ReadTrackPoint(t)) == t
  {
  }

  /** What GPX keeps of any position: latitude and longitude (`0` when
      absent), and each of altitude, fix time, speed and course only when it is
      truthy; accuracy and address are always lost. */
  lemma WhatGpxKeeps(p: Position)
    ensures ReadTrackPoint(TrackPointOf(p)) == Position(
      Some(GetOr(p.latitude, Zero)), Some(GetOr(p.longitude, Zero)),
      if Present(p.altitude) then p.altitude else None,
      if Present(p.fixTime) then p.fixTime else None,
      if Present(p.speed) then p.speed else None,
      if Present(p.course) then p.course else None,
      None, None)
  {
  }

  /** GPX loses nothing from a position that has both coordinates, no accuracy
      or address, and only truthy optional fields. Any other position loses its
      falsy optional fields, its accuracy and its address, and gains `0`
      coordinates where they were missing. */
  lemma WriteThenRead(p: Position)
    requires p.latitude.Some? && p.longitude.Some?
    requires p.accuracy.None? && p.address.None?
    requires p.altitude.None? || Present(p.altitude)
    requires p.fixTime.None? || Present(p.fixTime)
    requires p.speed.None? || Present(p.speed)
    requires p.course.None? || Present(p.course)
    ensures WellFormed(TrackPointOf(p))
    ensures ReadTrackPoint(TrackPointOf(p)) == p
  {
  }

  /** `to_gpx` up to serialization: the root and metadata, then one `trkpt` per
      position, in input order. The current time stamped into the metadata is
      a parameter. */
  method ToGpx(positions: seq<Position>, deviceName: string, utcNow: string) returns (doc: Gpx)
    ensures doc.attributes == RootAttributes
    ensures doc.metadataName == deviceName + " Track" && doc.metadataTime == utcNow
    ensures doc.trackName == deviceName
    ensures |doc.segment| == |positions|
    ensures forall i :: 0 <= i < |positions| ==> Encodes(doc.segment[i], positions[i])
  {
    var trkseg: seq<TrackPoint> := [];
    for i := 0 to |positions|
      invariant |trkseg| == i
      invariant forall k :: 0 <= k < i ==> Encodes(trkseg[k], positions[k])
    {
      trkseg := trkseg + [TrackPointOf(positions[i])];
    }
    doc := Gpx(RootAttributes, deviceName + " Track", utcNow, deviceName, trkseg);
  }
}
