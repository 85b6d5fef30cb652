# Traccar exporter: the format encoders

The Traccar exporter fetches a device's position history from a Traccar server
and writes it out as GPX, KML/KMZ, GeoJSON or CSV. This project models the
logic the exporter itself contains in `traccar_exporter.py`:

- the four encoders of `DataExporter`: `to_gpx`, `to_kml`, `to_geojson` and `to_csv`;
- the server-URL normalisation in `TraccarExporter.__init__`.

Each encoder is modelled up to the abstract document it builds, before any
text is produced. GPX becomes a root with metadata and a list of track points.
KML becomes a document with one LineString and a list of waypoint Placemarks.
GeoJSON becomes a list of Features. CSV becomes a header and rows of cells.

A position record is a JSON object. `Positions.Position` gives it one optional
field per key the exporter reads. An absent key is `None`; a key present with
JSON null is `Some(Null)`. The two differ in the source: `pos.get(key, 0)`
replaces only an absent key, so a null altitude reaches the KML and GeoJSON
documents as the `Null` token (written `None` in KML, `null` in GeoJSON). Numbers are opaque tokens, because the exporter never
computes with them. Python truthiness (`Positions.Truthy`) is explicit. The
default `0` is a Python int (`Positions.Zero`), and `''` is an empty string.

Each encoder is a method with a loop. The loop appends to a sequence, as the
source appends sub-elements, list items or rows. The method's postcondition
ties its output to the input position by position. Lemmas state what the
per-position encodings mean and where the formats agree with each other. The
KML waypoint selection has its own lemmas about the index arithmetic.

## Model

| member | source | states |
|---|---|---|
| `GpxExport.ToGpx` | traccar_exporter.py:110-142 | the root carries the five fixed GPX 1.1 attributes; metadata name is "<device> Track" and metadata time is the given clock reading; the track is named after the device; exactly one track point per position, in input order, each encoding its position |
| `GpxExport.TrackPointOf` | traccar_exporter.py:127-142 | `lat`/`lon` are the position's latitude/longitude, or `0` when absent; `ele`, `time`, `speed` and `course` are present iff the field is truthy, and then hold that field's value |
| `GpxExport.EncodesDeterminesPoint` | traccar_exporter.py:127-142 | the encoding relation fixes the track point completely: any point that encodes a position is the one the encoder writes |
| `GpxExport.FalsyFieldsOmitted` | traccar_exporter.py:132-139 | a speed of 0 and an altitude of 0 (int or float) produce no `speed` and no `ele` child |
| `GpxExport.WrittenPointWellFormed` | traccar_exporter.py:132-142 | every track point written from any position has only truthy children |
| `GpxExport.ReadThenWrite` | traccar_exporter.py:127-142 | a well-formed track point read back into a position and written again is unchanged |
| `GpxExport.WhatGpxKeeps` | traccar_exporter.py:127-142 | reading back any written point gives latitude and longitude (`0` when absent), each of altitude, fix time, speed and course only when truthy, and never accuracy or address |
| `GpxExport.WriteThenRead` | traccar_exporter.py:127-142 | a position with both coordinates, no accuracy or address and only truthy optional fields survives GPX unchanged |
| `KmlExport.ToKml` | traccar_exporter.py:159-203 | fixed namespace, document name "<device> Track", style `trackStyle` (color ff0000ff, width 3), track Placemark named after the device with `#trackStyle`, tessellate 1, clampToGround; one coordinate per position in input order, each `lon,lat,alt` with `0` defaults; one waypoint per selected index in index order, named `Point {i+1}`, with a `when` iff the fix time is truthy, carrying the coordinates of the track entry at that index |
| `KmlExport.IndicesBelow` | traccar_exporter.py:190-191 | after m rounds of the enumerate loop, the chosen indices are below m and each passes the stride test |
| `KmlExport.WaypointIndices` | traccar_exporter.py:190-191 | every chosen waypoint index is a valid position index |
| `KmlExport.IndicesBelowComplete` | traccar_exporter.py:190-191 | every index below m that passes the stride test is chosen |
| `KmlExport.IndicesBelowIncreasing` | traccar_exporter.py:190-191 | chosen indices are strictly increasing, so in track order and without repeats |
| `KmlExport.WaypointRule` | traccar_exporter.py:191 | index i is a waypoint iff i < n and i % max(1, n // 20) == 0; waypoints come in increasing index order |
| `KmlExport.FirstIsWaypoint` | traccar_exporter.py:191 | a non-empty track always has a waypoint, and the first one is at index 0 |
| `KmlExport.IndicesBelowAll` | traccar_exporter.py:191 | with stride 1, the first m indices are all chosen, in order |
| `KmlExport.ShortTrackAllWaypoints` | traccar_exporter.py:191 | a track of fewer than 40 positions has a waypoint at every index |
| `KmlExport.IndicesBelowCount` | traccar_exporter.py:190-191 | the number of waypoints below m is ceil(m / stride) |
| `KmlExport.WaypointCount` | traccar_exporter.py:189-191 | a track of n positions gets ceil(n / stride) waypoints: all n when n < 20, and between 20 and 39 when n >= 20, however long the track |
| `KmlExport.Decimal` | traccar_exporter.py:193 | `str(k)` of a natural number is a non-empty string of decimal digits with no leading zero (unless k is 0), one character long exactly for k < 10 |
| `KmlExport.DecimalValue` | traccar_exporter.py:193 | the digits of `str(k)` denote k in base ten |
| `KmlExport.DecimalInjective` | traccar_exporter.py:193 | different numbers have different decimal strings |
| `KmlExport.WaypointNamesDistinct` | traccar_exporter.py:190-193 | no two waypoints of one document share a `Point {i+1}` name |
| `GeoJsonExport.WriteThenRead` | traccar_exporter.py:223-240 | a Feature reads back as the position's latitude, longitude, altitude, time, speed, course and accuracy, each key absent in the position coming back as its default (`''` for the time, `0` otherwise); the address is not kept; the Feature names the device; a position with all seven keys and no address is recovered exactly |
| `GeoJsonExport.ToGeoJson` | traccar_exporter.py:220-246 | a FeatureCollection with exactly one Feature per position, in input order, each describing its position |
| `CsvExport.RowColumns` | traccar_exporter.py:273-281 | a row is time, latitude, longitude, altitude, speed, course, accuracy, address; absent time and address give `''`, absent numeric fields give `0` |
| `CsvExport.ToCsv` | traccar_exporter.py:264-284 | no output iff there are no positions; otherwise the header is the fixed eight field names and there is exactly one row per position, in input order |
| `Traccar.TrimTrailingSlashes` | traccar_exporter.py:31 | the result is a prefix of the input, does not end in '/', and only '/' characters were removed |
| `Traccar.TrimUnique` | traccar_exporter.py:31 | the trimmed URL is the one prefix that does not end in '/' and is followed only by slashes |
| `Traccar.TrimIdempotent` | traccar_exporter.py:31 | trimming a trimmed URL changes nothing |
| `Traccar.TrimIgnoresAddedSlashes` | traccar_exporter.py:31 | a URL with any number of slashes appended trims to the same server URL |
| `Traccar.TraccarExporter.constructor` | traccar_exporter.py:23-33 | stores the server URL with all trailing slashes removed, so it never ends in '/'; stores email and password unchanged |
| `FormatAgreement.CoordinatesAgree` | traccar_exporter.py:182-185 | latitude, longitude and altitude agree between the KML coordinate, the GeoJSON coordinates and the CSV row, and GPX carries the same latitude and longitude |
| `FormatAgreement.ElevationAgrees` | traccar_exporter.py:132-133 | GPX writes `ele` iff KML's altitude is truthy, and then with the same value |
| `FormatAgreement.TimeAgrees` | traccar_exporter.py:135-136 | GPX `time` and the KML waypoint `when` appear together and hold the same value; that value is also GeoJSON's time property and the CSV time column |
| `FormatAgreement.PropertiesAgree` | traccar_exporter.py:235-238 | time, speed, course and accuracy agree between GeoJSON and CSV |

## Left out

- HTTP client: `test_connection`, `get_devices` and `get_positions` (traccar_exporter.py:38-93) are network I/O. The position list they return is a parameter of every encoder. The `session` and `devices` attributes that the constructor sets up serve only these calls, so they are not modelled.
- Interactive prompts: `get_user_input`, `select_device`, `get_time_range` and `select_format` are console input loops.
- `main` is not modelled. It handles file writing, process exit and error reporting.
- `to_kmz` is not modelled. It only zips the KML text.
- Text production is not modelled. This covers `ET.tostring`, `minidom.toprettyxml`, `json.dumps`, and the quoting and line endings of `csv.DictWriter`. The KML coordinates text joined by newlines is also left out. Values stay tokens, and `str()` of a number (float formatting) is not modelled.
- GpxExport.ToGpx: the metadata time comes from `datetime.utcnow()` in the source; the model takes the clock reading as the parameter `utcNow`.
- The `tqdm` progress bars are display only.
- A non-string truthy fix time is passed through as a token. ElementTree would refuse to serialise it; that failure belongs to the serialisation step.
