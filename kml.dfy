/** `DataExporter.to_kml`: a KML document holding the whole track as one
    LineString, followed by a thinned-out set of waypoint Placemarks. */
module KmlExport {
  import opened Positions

  // ---------------------------------------------------------------------------
  // Document structure

  /** One `lon,lat,alt` entry; each part defaults to `0` when its key is absent. */
  datatype Coord = Coord(lon: Value, lat: Value, alt: Value)

  /** A waypoint Placemark: its `name`, the `TimeStamp/when` it carries when the
      fix time is truthy, and its `Point` coordinates. */
  datatype Waypoint = Waypoint(name: string, when: Option<Value>, point: Coord)

  datatype LineStyle = LineStyle(id: string, color: string, width: string)

  /** The track Placemark: `name`, `styleUrl`, and its LineString's
      `tessellate`, `altitudeMode` and `coordinates`. */
  datatype TrackPlacemark = TrackPlacemark(
    name: string,
    styleUrl: string,
    tessellate: string,
    altitudeMode: string,
    coordinates: seq<Coord>)

  /** The `kml` root and its `Document`: name, style, track, then waypoints. */
  datatype Kml = Kml(
    xmlns: string,
    documentName: string,
    style: LineStyle,
    track: TrackPlacemark,
    waypoints: seq<Waypoint>)

  const KmlNamespace: string := "http://www.opengis.net/kml/2.2"
  const TrackStyle: LineStyle := LineStyle("trackStyle", "ff0000ff", "3")

  function CoordOf(p: Position): Coord
  {
    Coord(GetOr(p.longitude, Zero), GetOr(p.latitude, Zero), GetOr(p.altitude, Zero))
  }

  // ---------------------------------------------------------------------------
  // Waypoint selection

  function Max(a: int, b: int): int
  {
    if a < b then b else a
  }

  /** `max(1, len(positions) // 20)`: Python's `//` and `%` agree with Dafny's
      on the non-negative operands used here. */
  function Stride(n: nat): nat
  {
    Max(1, n / 20)
  }

  /** The waypoint test of `to_kml`: index `i` of a track of `n` positions gets a
      waypoint. */
  predicate IsWaypoint(i: nat, n: nat)
  {
    i % Stride(n) == 0
  }

  /** The indices below `m` that get a waypoint in a track of `n` positions,
      in increasing order: what the enumerate loop has visited after `m` rounds. */
  function IndicesBelow(m: nat, n: nat): (r: seq<nat>)
    ensures |r| <= m
    ensures forall k :: 0 <= k < |r| ==> r[k] < m && IsWaypoint(r[k], n)
  {
    if m == 0 then []
    else IndicesBelow(m - 1, n) + (if IsWaypoint(m - 1, n) then [m - 1] else [])
  }

  /** The indices of a track of `n` positions that get a waypoint. */
  function WaypointIndices(n: nat): (r: seq<nat>)
    ensures forall k :: 0 <= k < |r| ==> r[k] < n
  {
    IndicesBelow(n, n)
  }

  lemma {:induction false} IndicesBelowComplete(m: nat, n: nat, i: nat)
    requires i < m && IsWaypoint(i, n)
    ensures i in IndicesBelow(m, n)
  {
    if i < m - 1 {
      IndicesBelowComplete(m - 1, n, i);
    }
  }

  lemma {:induction false} IndicesBelowIncreasing(m: nat, n: nat)
    ensures forall j, k :: 0 <= j < k < |IndicesBelow(m, n)| ==> IndicesBelow(m, n)[j] < IndicesBelow(m, n)[k]
  {
    if m > 0 {
      IndicesBelowIncreasing(m - 1, n);
    }
  }

  /** The waypoint rule: index `i` gets a waypoint iff `i < n` and
      `i % max(1, n // 20) == 0`; the waypoints come in track order, each once. */
  lemma WaypointRule(n: nat, i: nat)
    ensures i in WaypointIndices(n) <==> i < n && i % Max(1, n / 20) == 0
    ensures forall j, k :: 0 <= j < k < |WaypointIndices(n)| ==> WaypointIndices(n)[j] < WaypointIndices(n)[k]
  {
    if i < n && IsWaypoint(i, n) {
      IndicesBelowComplete(n, n, i);
    }
    IndicesBelowIncreasing(n, n);
  }

  /** A non-empty track always starts with a waypoint at its first position. */
  lemma FirstIsWaypoint(n: nat)
    requires n >= 1
    ensures |WaypointIndices(n)| >= 1 && WaypointIndices(n)[0] == 0
  {
    IndicesBelowComplete(n, n, 0);
    IndicesBelowIncreasing(n, n);
  }

  lemma {:induction false} IndicesBelowAll(m: nat, n: nat)
    requires Stride(n) == 1
    ensures |IndicesBelow(m, n)| == m
    ensures forall k :: 0 <= k < m ==> IndicesBelow(m, n)[k] == k
  {
    if m > 0 {
      IndicesBelowAll(m - 1, n);
    }
  }

  /** Below 40 positions the stride is 1: every position is a waypoint. */
  lemma ShortTrackAllWaypoints(n: nat)
    requires n < 40
    ensures |WaypointIndices(n)| == n
    ensures forall k :: 0 <= k < n ==> WaypointIndices(n)[k] == k
  {
    IndicesBelowAll(n, n);
  }

  // Division facts for the waypoint count.

  lemma MulMono(x: int, y: int, s: int)
    requires x <= y && s >= 0
    ensures x * s <= y * s
  {
  }

  lemma DivUnique(a: int, s: int, q: int, r: int)
    requires s >= 1 && 0 <= r < s && a == q * s + r
    ensures a / s == q
  {
    var d := a / s;
    assert a == d * s + a % s;
    if q > d {
      MulMono(d + 1, q, s);
    } else if q < d {
      MulMono(q + 1, d, s);
    }
  }

  lemma DivStep(m: nat, s: nat)
    requires s >= 1
    ensures (m + s) / s == (m + s - 1) / s + (if m % s == 0 then 1 else 0)
  {
    var q, r := m / s, m % s;
    assert m == q * s + r;
    assert (q + 1) * s == q * s + s;
    if r == 0 {
      DivUnique(m + s - 1, s, q, s - 1);
      DivUnique(m + s, s, q + 1, 0);
    } else {
      DivUnique(m + s - 1, s, q + 1, r - 1);
      DivUnique(m + s, s, q + 1, r);
    }
  }

  /** The positions below `m` that get a waypoint are the multiples of the
      stride below `m`: there are ceil(m / stride) of them. */
  lemma {:induction false} IndicesBelowCount(m: nat, n: nat)
    ensures |IndicesBelow(m, n)| == (m + Stride(n) - 1) / Stride(n)
  {
    var s := Stride(n);
    if m == 0 {
      DivUnique(s - 1, s, 0, s - 1);
    } else {
      IndicesBelowCount(m - 1, n);
      DivStep(m - 1, s);
    }
  }

  lemma CountRange(n: nat, s: nat)
    requires s >= 1 && 20 * s <= n <= 20 * s + 19
    ensures 20 <= (n + s - 1) / s <= 39
  {
    var c, r := (n + s - 1) / s, (n + s - 1) % s;
    assert n + s - 1 == c * s + r;
    if c < 20 {
      MulMono(c, 19, s);
    } else if c > 39 {
      MulMono(40, c, s);
    }
  }

  /** What "waypoints at intervals" amounts to: a track of fewer than 20
      positions gets a waypoint at every position; a longer one gets between
      20 and 39 waypoints, however long it is. */
  lemma WaypointCount(n: nat)
    ensures |WaypointIndices(n)| == (n + Stride(n) - 1) / Stride(n)
    ensures n < 20 ==> |WaypointIndices(n)| == n
    ensures n >= 20 ==> 20 <= |WaypointIndices(n)| <= 39
  {
    IndicesBelowCount(n, n);
    if n < 20 {
      ShortTrackAllWaypoints(n);
    } else {
      CountRange(n, Stride(n));
    }
  }

  // ---------------------------------------------------------------------------
  // Waypoint names

  function Digit(d: nat): char
    requires d < 10
  {
    "0123456789"[d]
  }

  /** `str(k)` for a natural number: its decimal digits, no leading zero. */
  function Decimal(k: nat): (s: string)
    ensures 1 <= |s|
    ensures k < 10 <==> |s| == 1
    ensures forall j :: 0 <= j < |s| ==> '0' <= s[j] <= '9'
    ensures s[0] != '0' || k == 0
  {
    if k < 10 then [Digit(k)] else Decimal(k / 10) + [Digit(k % 10)]
  }

  lemma {:induction false} DecimalInjective(a: nat, b: nat)
    requires Decimal(a) == Decimal(b)
    ensures a == b
  {
    if a >= 10 && b >= 10 {
      var da, db := Decimal(a), Decimal(b);
      assert da[..|da| - 1] == Decimal(a / 10);
      assert db[..|db| - 1] == Decimal(b / 10);
      DecimalInjective(a / 10, b / 10);
      assert Digit(a % 10) == da[|da| - 1] == Digit(b % 10);
    } else {
      assert Digit(a) == Decimal(a)[0] == Digit(b);
    }
  }

  /** The number a string of decimal digits denotes, most significant first. */
  function DigitsValue(s: string): nat
    requires forall j :: 0 <= j < |s| ==> '0' <= s[j] <= '9'
  {
    if s == [] then 0
    else 10 * DigitsValue(s[..|s| - 1]) + ((s[|s| - 1] as int) - ('0' as int))
  }

  /** The digits of `Decimal(k)` denote `k`: it is `k` written in base ten. */
  lemma {:induction false} DecimalValue(k: nat)
    ensures DigitsValue(Decimal(k)) == k
  {
    var s := Decimal(k);
    if k >= 10 {
      assert s[..|s| - 1] == Decimal(k / 10);
      DecimalValue(k / 10);
      DigitValue(k % 10);
    } else {
      DigitValue(k);
      assert s[..0] == [];
    }
  }

  lemma DigitValue(d: nat)
    requires d < 10
    ensures (Digit(d) as int) - ('0' as int) == d
  {
    if d == 0 {} else if d == 1 {} else if d == 2 {} else if d == 3 {} else if d == 4 {}
    else if d == 5 {} else if d == 6 {} else if d == 7 {} else if d == 8 {} else {}
  }

  /** `f'Point {i+1}'`: waypoints are numbered from 1. */
  function WaypointName(i: nat): string
  {
    "Point " + Decimal(i + 1)
  }

  function WaypointOf(i: nat, p: Position): Waypoint
  {
    Waypoint(WaypointName(i), IfPresent(p.fixTime), CoordOf(p))
  }

  /** No two waypoints of a document share a name. */
  lemma WaypointNamesDistinct(n: nat, j: nat, k: nat)
    requires j < k < |WaypointIndices(n)|
    ensures WaypointName(WaypointIndices(n)[j]) != WaypointName(WaypointIndices(n)[k])
  {
    var w := WaypointIndices(n);
    IndicesBelowIncreasing(n, n);
    if WaypointName(w[j]) == WaypointName(w[k]) {
      var prefix := "Point ";
      assert WaypointName(w[j])[|prefix|..] == Decimal(w[j] + 1);
      assert WaypointName(w[k])[|prefix|..] == Decimal(w[k] + 1);
      DecimalInjective(w[j] + 1, w[k] + 1);
    }
  }

  // ---------------------------------------------------------------------------
  // The encoder

  /** `to_kml` up to serialization: one coordinate entry per position in input
      order inside the single LineString, then one waypoint Placemark per
      selected index, in index order, carrying that position's coordinates. */
  method ToKml(positions: seq<Position>, deviceName: string) returns (doc: Kml)
    ensures doc.xmlns == KmlNamespace && doc.documentName == deviceName + " Track"
    ensures doc.style == TrackStyle
    ensures doc.track.name == deviceName && doc.track.styleUrl == "#" + TrackStyle.id
    ensures doc.track.tessellate == "1" && doc.track.altitudeMode == "clampToGround"
    ensures |doc.track.coordinates| == |positions|
    ensures forall i :: 0 <= i < |positions| ==> doc.track.coordinates[i] == CoordOf(positions[i])
    ensures |doc.waypoints| == |WaypointIndices(|positions|)|
    ensures forall k :: 0 <= k < |doc.waypoints| ==>
      doc.waypoints[k] == WaypointOf(WaypointIndices(|positions|)[k], positions[WaypointIndices(|positions|)[k]])
    ensures forall k :: 0 <= k < |doc.waypoints| ==>
      doc.waypoints[k].point == doc.track.coordinates[WaypointIndices(|positions|)[k]]
  {
    var n := |positions|;
    var coordinates: seq<Coord> := [];
    for i := 0 to n
      invariant |coordinates| == i
      invariant forall j :: 0 <= j < i ==> coordinates[j] == CoordOf(positions[j])
    {
      coordinates := coordinates + [CoordOf(positions[i])];
    }
    var track := TrackPlacemark(deviceName, "#" + TrackStyle.id, "1", "clampToGround", coordinates);

    var waypoints: seq<Waypoint> := [];
    for i := 0 to n
      invariant |waypoints| == |IndicesBelow(i, n)|
      invariant forall k :: 0 <= k < |waypoints| ==>
        waypoints[k] == WaypointOf(IndicesBelow(i, n)[k], positions[IndicesBelow(i, n)[k]])
    {
      if i % Max(1, n / 20) == 0 {
        waypoints := waypoints + [WaypointOf(i, positions[i])];
      }
    }
    doc := Kml(KmlNamespace, deviceName + " Track", TrackStyle, track, waypoints);
  }
}
