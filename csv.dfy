/** `DataExporter.to_csv`: a header row of fixed field names, then one row per
    position, written through a `csv.DictWriter`. */
module CsvExport {
  import opened Positions

  /** The `fieldnames` of the writer, in column order. */
  const Fieldnames: seq<string> :=
    ["time", "latitude", "longitude", "altitude", "speed", "course", "accuracy", "address"]

  /** The rows the writer emits: no output at all, or a header and data rows. */
  datatype CsvDocument =
    | Blank
    | Table(header: seq<string>, rows: seq<seq<Value>>)

  /** The dictionary handed to `writerow` for one position. */
  function RowDict(p: Position): map<string, Value>
  {
    map[
      "time" := GetOr(p.fixTime, EmptyText),
      "latitude" := GetOr(p.latitude, Zero),
      "longitude" := GetOr(p.longitude, Zero),
      "altitude" := GetOr(p.altitude, Zero),
      "speed" := GetOr(p.speed, Zero),
      "course" := GetOr(p.course, Zero),
      "accuracy" := GetOr(p.accuracy, Zero),
      "address" := GetOr(p.address, EmptyText)
    ]
  }

  /** `writerow`: the dictionary's values laid out in `fieldnames` order. */
  function Cells(d: map<string, Value>): seq<Value>
    requires forall k :: 0 <= k < |Fieldnames| ==> Fieldnames[k] in d
  {
    seq(|Fieldnames|, k requires 0 <= k < |Fieldnames| => d[Fieldnames[k]])
  }

  function RowOf(p: Position): seq<Value>
  {
    Cells(RowDict(p))
  }

  /** Each column holds the position's own value for that key, and the key's
      default when the key is absent: `''` for time and address, `0` for the
      six numeric columns. */
  lemma RowColumns(p: Position)
    ensures RowOf(p) == [
      GetOr(p.fixTime, EmptyText), GetOr(p.latitude, Zero), GetOr(p.longitude, Zero),
      GetOr(p.altitude, Zero), GetOr(p.speed, Zero), GetOr(p.course, Zero),
      GetOr(p.accuracy, Zero), GetOr(p.address, EmptyText)]
    ensures p.latitude.None? ==> RowOf(p)[1] == Int(0)
    ensures p.fixTime.None? ==> RowOf(p)[0] == Str("")
    ensures p.address.None? ==> RowOf(p)[7] == Str("")
  {
  }

  /** `to_csv` up to text encoding: no output for no positions; otherwise the
      fixed header and then exactly one row per position, in input order. */
  method ToCsv(positions: seq<Position>, deviceName: string) returns (doc: CsvDocument)
    ensures doc == Blank <==> positions == []
    ensures doc.Table? ==> doc.header == Fieldnames && |doc.rows| == |positions|
    ensures doc.Table? ==> forall i :: 0 <= i < |positions| ==> doc.rows[i] == RowOf(positions[i])
  {
    if positions == [] {
      return Blank;
    }
    var rows: seq<seq<Value>> := [];
    for i := 0 to |positions|
      invariant |rows| == i
      invariant forall k :: 0 <= k < i ==> rows[k] == RowOf(positions[k])
    {
      rows := rows + [RowOf(positions[i])];
    }
    doc := Table(Fieldnames, rows);
  }
}
