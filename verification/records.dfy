/**
 * What the two lookup handlers read from the store and what they answer:
 * the scanned row, the ResultData record, the JsonResponse envelope, and
 * the loops that drain a cursor into records.
 */
module Records {
  import opened Wrappers

  /** The one partition the seed writes and both lookups read. */
  const PartitionKey: string := "P1"

  /** An instant; Time(0) stands for Go's zero time.Time. */
  datatype Time = Time(sinceZero: int)

  const ZeroTime: Time := Time(0)

  /** The six columns both SELECTs read, in select-list order. */
  datatype ScannedRow = ScannedRow(
    secondaryId: string,
    clusterCol1: string,
    clusterCol2: string,
    dataCol1: int,
    dataCol2: bool,
    dataCol3: Time)

  /**
   * A query's result: the rows it yields, in the store's order, and the
   * error, if any, that only closing the cursor reports.
   */
  datatype Cursor = Cursor(rows: seq<ScannedRow>, closeError: Option<string>)

  /** One element of the response's `data` list. */
  datatype ResultData = ResultData(
    primaryId: string,
    secondaryId: string,
    clusterCol1: string,
    clusterCol2: string,
    dataCol1: int,
    dataCol2: bool,
    dataCol3: Time)

  /** The response body; `kind` is the JSON field `type`. */
  datatype JsonResponse = JsonResponse(kind: string, data: seq<ResultData>, message: string)

  /** What a client learns from an envelope. */
  datatype Reply = Rows(data: seq<ResultData>) | Failed(message: string)

  /** A search record keeps four of the scanned columns; the rest stay Go zero values. */
  predicate SearchShaped(r: ScannedRow, d: ResultData) {
    && d.primaryId == ""
    && d.secondaryId == r.secondaryId
    && d.clusterCol1 == r.clusterCol1
    && d.clusterCol2 == r.clusterCol2
    && d.dataCol1 == r.dataCol1
    && d.dataCol2 == false
    && d.dataCol3 == ZeroTime
  }

  /** A find record keeps all six scanned columns; primaryId is never set. */
  predicate FindShaped(r: ScannedRow, d: ResultData) {
    && d.primaryId == ""
    && d.secondaryId == r.secondaryId
    && d.clusterCol1 == r.clusterCol1
    && d.clusterCol2 == r.clusterCol2
    && d.dataCol1 == r.dataCol1
    && d.dataCol2 == r.dataCol2
    && d.dataCol3 == r.dataCol3
  }

  /** One record per row, in cursor order, each shaped as a search record. */
  predicate SearchMapped(rows: seq<ScannedRow>, data: seq<ResultData>) {
    |data| == |rows| && forall i :: 0 <= i < |rows| ==> SearchShaped(rows[i], data[i])
  }

  /** One record per row, in cursor order, each shaped as a find record. */
  predicate FindMapped(rows: seq<ScannedRow>, data: seq<ResultData>) {
    |data| == |rows| && forall i :: 0 <= i < |rows| ==> FindShaped(rows[i], data[i])
  }

  /** The envelope invariant: a success carries no message and an error carries no data. */
  predicate WellFormedEnvelope(r: JsonResponse) {
    || (r.kind == "success" && r.message == "")
    || (r.kind == "error" && r.data == [])
  }

  /** How a client reads an envelope back. */
  function ReadEnvelope(r: JsonResponse): Reply {
    if r.kind == "success" then Rows(r.data) else Failed(r.message)
  }

  /** The envelope chosen once the cursor is drained: its close error decides. */
  function Respond(closeError: Option<string>, data: seq<ResultData>): (r: JsonResponse)
    ensures WellFormedEnvelope(r)
    ensures r.kind == "error" <==> closeError.Some?
    ensures ReadEnvelope(r) == if closeError.Some? then Failed(closeError.value) else Rows(data)
  {
    match closeError
    case Some(err) => JsonResponse("error", [], err)
    case None => JsonResponse("success", data, "")
  }

  /** The scan loop of Search: every row becomes a four-column record. */
  method DrainSearch(rows: seq<ScannedRow>) returns (data: seq<ResultData>)
    ensures SearchMapped(rows, data)
  {
    data := [];
    var i := 0;
    while i < |rows|
      invariant 0 <= i <= |rows|
      invariant SearchMapped(rows[..i], data)
    {
      var r := rows[i];
      data := data + [ResultData(
        primaryId := "",
        secondaryId := r.secondaryId,
        clusterCol1 := r.clusterCol1,
        clusterCol2 := r.clusterCol2,
        dataCol1 := r.dataCol1,
        dataCol2 := false,
        dataCol3 := ZeroTime)];
      i := i + 1;
    }
    assert rows[..i] == rows;
  }

  /** The scan loop of FindById: every row becomes a full record. */
  method DrainFind(rows: seq<ScannedRow>) returns (data: seq<ResultData>)
    ensures FindMapped(rows, data)
  {
    data := [];
    var i := 0;
    while i < |rows|
      invariant 0 <= i <= |rows|
      invariant FindMapped(rows[..i], data)
    {
      var r := rows[i];
      data := data + [ResultData(
        primaryId := "",
        secondaryId := r.secondaryId,
        clusterCol1 := r.clusterCol1,
        clusterCol2 := r.clusterCol2,
        dataCol1 := r.dataCol1,
        dataCol2 := r.dataCol2,
        dataCol3 := r.dataCol3)];
      i := i + 1;
    }
    assert rows[..i] == rows;
  }

  /** A search record is a find record with its two payload columns reset. */
  lemma SearchIsFindProjected(r: ScannedRow, d: ResultData, f: ResultData)
    requires FindShaped(r, f)
    ensures SearchShaped(r, d) <==> d == f.(dataCol2 := false, dataCol3 := ZeroTime)
  {
  }
}
