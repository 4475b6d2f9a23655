/** The CSV download of the result table (app.py, export_fms): a header line
    from the first row's keys, then one line per row from its values. A line
    is modelled as its list of fields, before csv.writer quotes and joins them. */
module CsvExport {
  import opened Wrappers
  import opened Numerals
  import opened Values

  /** What csv.writer writes for one value: None becomes the empty field. */
  function Field(v: Value): (f: string)
    ensures v.Null? ==> f == ""
    ensures v.Text? ==> f == v.s
    ensures v.Int? ==> f == Str(v)
  {
    if v.Null? then "" else Str(v)
  }

  /** A field can be read back: the empty field stands for NULL or empty text
      and for nothing else, and an integer's field is its numeral. */
  lemma {:induction false} FieldReadsBack(v: Value)
    ensures Field(v) == "" <==> v == Null || v == Text("")
    ensures v.Int? && v.n >= 0 ==> AllDigits(Field(v)) && DigitsValue(Field(v)) == v.n
    ensures v.Int? && v.n < 0 ==> Field(v) == "-" + Field(Int(-v.n))
  {
    if v.Int? && v.n >= 0 {
      NatToTextValue(v.n);
    }
  }

  /** The fields of one row, in the row's own key order. */
  function Cells(r: Row): seq<string> {
    var vs := ValuesOf(r);
    seq(|vs|, j requires 0 <= j < |vs| => Field(vs[j]))
  }

  /** A row's line has one field per key: field j is what is stored under key j. */
  lemma {:induction false} CellsSpec(r: Row)
    ensures |Cells(r)| == |r.keys|
    ensures forall j :: 0 <= j < |r.keys| ==> r.keys[j] in r.fields && Cells(r)[j] == Field(r.fields[r.keys[j]])
  {
    var vs := ValuesOf(r);
    assert forall j :: 0 <= j < |vs| ==> Cells(r)[j] == Field(vs[j]);
  }

  /** The in-memory text buffer csv.writer appends to, one line at a time. */
  class Sink {
    var lines: seq<seq<string>>

    constructor ()
      ensures lines == []
    {
      lines := [];
    }

    /** cw.writerow: one more line at the end of the buffer. */
    method WriteRow(cells: seq<string>)
      modifies this
      ensures lines == old(lines) + [cells]
    {
      lines := lines + [cells];
    }
  }

  /** The shaping part of export_fms: nothing for no rows; otherwise the
      header, then each row's values under it, in row order. */
  method WriteTable(rows: seq<Row>) returns (lines: seq<seq<string>>)
    ensures rows == [] ==> lines == []
    ensures rows != [] ==> |lines| == |rows| + 1 && lines[0] == rows[0].keys
    ensures forall i :: 0 <= i < |rows| ==> i + 1 < |lines| && lines[i + 1] == Cells(rows[i])
  {
    var sink := new Sink();
    if rows != [] {
      sink.WriteRow(rows[0].keys);
      var i := 0;
      while i < |rows|
        invariant 0 <= i <= |rows|
        invariant |sink.lines| == i + 1 && sink.lines[0] == rows[0].keys
        invariant forall k :: 0 <= k < i ==> sink.lines[k + 1] == Cells(rows[k])
      {
        sink.WriteRow(Cells(rows[i]));
        i := i + 1;
      }
    }
    lines := sink.lines;
  }

  /** The response of the export route: the CSV lines, or the error text
      when the query failed. */
  datatype Download = Csv(lines: seq<seq<string>>) | Failure(message: string)

  const DownloadError: string := "다운로드 중 오류가 발생했습니다."

  method ExportFms(fetched: Option<seq<Row>>) returns (d: Download)
    ensures fetched.None? ==> d == Failure(DownloadError)
    ensures fetched.Some? && fetched.value == [] ==> d == Csv([])
    ensures fetched.Some? && fetched.value != [] ==>
              d.Csv? && |d.lines| == |fetched.value| + 1 && d.lines[0] == fetched.value[0].keys
    ensures fetched.Some? ==>
              d.Csv? && (forall i :: 0 <= i < |fetched.value| ==> d.lines[i + 1] == Cells(fetched.value[i]))
  {
    match fetched
    case None =>
      d := Failure(DownloadError);
    case Some(rows) =>
      var lines := WriteTable(rows);
      d := Csv(lines);
  }

  /** When every row has the first row's keys in the same order, every line
      has one field per header column, and field j of line i + 1 is row i's
      value for header column j. A row with its keys in another order is not
      re-keyed: its fields follow its own order. */
  lemma {:induction false} ColumnsAlign(rows: seq<Row>, lines: seq<seq<string>>)
    requires rows != [] && |lines| == |rows| + 1 && lines[0] == rows[0].keys
    requires forall i :: 0 <= i < |rows| ==> lines[i + 1] == Cells(rows[i])
    requires forall i :: 0 <= i < |rows| ==> rows[i].keys == rows[0].keys
    ensures forall i :: 0 <= i < |lines| ==> |lines[i]| == |lines[0]|
    ensures forall i, j :: 0 <= i < |rows| && 0 <= j < |lines[0]| ==>
              lines[0][j] in rows[i].fields && lines[i + 1][j] == Field(rows[i].fields[lines[0][j]])
  {
    forall i | 0 <= i < |rows|
      ensures |lines[i + 1]| == |lines[0]|
      ensures forall j :: 0 <= j < |lines[0]| ==>
                lines[0][j] in rows[i].fields && lines[i + 1][j] == Field(rows[i].fields[lines[0][j]])
    {
      CellsSpec(rows[i]);
    }
    forall i | 0 < i < |lines|
      ensures |lines[i]| == |lines[0]|
    {
      var k := i - 1;
      assert lines[k + 1] == Cells(rows[k]);
      CellsSpec(rows[k]);
    }
  }
}
