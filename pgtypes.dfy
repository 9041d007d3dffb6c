/** The shape of what the Postgres driver hands back to the relay. */
module PgTypes {

  /** `pgtype.Text`: a nullable text column. */
  datatype Text = Text(str: string, valid: bool)

  /** `isNull`: a NULL column, or one holding the empty string. */
  predicate IsNull(t: Text): (b: bool)
    ensures !t.valid ==> b
    ensures t.valid ==> (b <==> t.str == "")
  {
    !t.valid || t.str == ""
  }

  /** One `rows.Next()` step: either the row scanned, or `rows.Scan` returned an error. */
  datatype Scan<+Row> = Scanned(row: Row) | ScanFailed(err: string)

  /** The index of the first row that failed to scan, if any. */
  function FirstScanFailure<Row>(scans: seq<Scan<Row>>): (k: int)
    ensures -1 <= k < |scans|
    ensures k == -1 <==> forall j :: 0 <= j < |scans| ==> scans[j].Scanned?
    ensures k >= 0 ==> scans[k].ScanFailed? && forall j :: 0 <= j < k ==> scans[j].Scanned?
  {
    if scans == [] then -1
    else if scans[0].ScanFailed? then 0
    else
      var k := FirstScanFailure(scans[1..]);
      if k == -1 then -1 else k + 1
  }

  /** The rows of a result set in which every row scanned. */
  function Rows<Row>(scans: seq<Scan<Row>>): (rows: seq<Row>)
    requires forall j :: 0 <= j < |scans| ==> scans[j].Scanned?
    ensures |rows| == |scans|
    ensures forall j :: 0 <= j < |scans| ==> rows[j] == scans[j].row
  {
    if scans == [] then [] else [scans[0].row] + Rows(scans[1..])
  }

  /** The failure the row loop meets first is the one FirstScanFailure names. */
  lemma FirstScanFailureAt<Row>(scans: seq<Scan<Row>>, i: nat)
    requires i < |scans| && scans[i].ScanFailed?
    requires forall j :: 0 <= j < i ==> scans[j].Scanned?
    ensures FirstScanFailure(scans) == i
  {
  }

  /** Scanning one more good row appends it. */
  lemma RowsSnoc<Row>(scans: seq<Scan<Row>>, i: nat)
    requires i < |scans|
    requires forall j :: 0 <= j <= i ==> scans[j].Scanned?
    ensures Rows(scans[..i + 1]) == Rows(scans[..i]) + [scans[i].row]
  {
  }
}
