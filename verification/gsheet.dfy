/**
 * The two pieces of the Google Sheets adapter that are plain computation:
 * the row padding applied when a sheet is saved as CSV, and the search for
 * the requested tab among the spreadsheet's sheets. The API calls around
 * them are not modelled: the values fetched from the sheet are an input.
 */
module Gsheet {
  import opened Wrappers

  /** One CSV row: its cells in order. */
  type Row = seq<string>

  /** Length of the longest row, 0 when there are no rows (the loop's running maximum, last row last). */
  function MaxLen(values: seq<Row>): nat
  {
    if values == [] then 0
    else
      var m := MaxLen(values[..|values| - 1]);
      if |values[|values| - 1]| > m then |values[|values| - 1]| else m
  }

  /** MaxLen bounds every row and is reached by some row. */
  lemma {:induction false} MaxLenBounds(values: seq<Row>)
    ensures forall i :: 0 <= i < |values| ==> |values[i]| <= MaxLen(values)
    ensures values != [] ==> exists i :: 0 <= i < |values| && |values[i]| == MaxLen(values)
  {
    if values != [] {
      var n := |values| - 1;
      var init := values[..n];
      MaxLenBounds(init);
      assert forall i :: 0 <= i < n ==> init[i] == values[i];
      if |values[n]| <= MaxLen(init) && init != [] {
        var j :| 0 <= j < n && |init[j]| == MaxLen(init);
        assert |values[j]| == MaxLen(values);
      }
    }
  }

  /** n empty cells. */
  function Blanks(n: nat): (r: Row)
    ensures |r| == n && forall k :: 0 <= k < n ==> r[k] == ""
  {
    seq(n, _ => "")
  }

  /** A row extended with empty cells up to width; a row already that long is kept. */
  function PadRow(row: Row, width: nat): Row
  {
    if |row| < width then row + Blanks(width - |row|) else row
  }

  /** The rows handed to the CSV writer: each padded to the longest row when padLines is set. */
  function Padded(values: seq<Row>, padLines: bool): seq<Row>
  {
    if padLines then seq(|values|, i requires 0 <= i < |values| => PadRow(values[i], MaxLen(values)))
    else values
  }

  /**
   * Padding keeps the number and order of rows, keeps each row's cells as a
   * prefix, only adds empty cells, and (when enabled) makes every row as long
   * as the longest one; without padLines nothing changes.
   */
  lemma PaddedShape(values: seq<Row>, padLines: bool)
    ensures |Padded(values, padLines)| == |values|
    ensures forall i :: 0 <= i < |values| ==> values[i] <= Padded(values, padLines)[i]
    ensures forall i, k :: 0 <= i < |values| && |values[i]| <= k < |Padded(values, padLines)[i]| ==>
              Padded(values, padLines)[i][k] == ""
    ensures padLines ==> forall i :: 0 <= i < |values| ==> |Padded(values, padLines)[i]| == MaxLen(values)
    ensures !padLines ==> Padded(values, padLines) == values
  {
    MaxLenBounds(values);
  }

  /** The `max_len` loop of save_to_csv. */
  method MaxRowLength(values: seq<Row>) returns (maxLen: nat)
    ensures maxLen == MaxLen(values)
    ensures forall i :: 0 <= i < |values| ==> |values[i]| <= maxLen
    ensures values == [] ==> maxLen == 0
    ensures values != [] ==> exists i :: 0 <= i < |values| && |values[i]| == maxLen
  {
    maxLen := 0;
    var i := 0;
    while i < |values|
      invariant 0 <= i <= |values|
      invariant maxLen == MaxLen(values[..i])
    {
      assert values[..i + 1][..i] == values[..i];
      if |values[i]| > maxLen {
        maxLen := |values[i]|;
      }
      i := i + 1;
    }
    assert values[..i] == values;
    MaxLenBounds(values);
  }

  /**
   * The rows save_to_csv writes: each row, when padLines is set, has '' appended
   * until it reaches the longest row's length.
   */
  method SaveRows(values: seq<Row>, padLines: bool) returns (written: seq<Row>)
    ensures written == Padded(values, padLines)
  {
    var maxLen := MaxRowLength(values);
    written := [];
    var i := 0;
    while i < |values|
      invariant 0 <= i <= |values|
      invariant |written| == i
      invariant forall j :: 0 <= j < i ==> written[j] == Padded(values, padLines)[j]
    {
      var row := values[i];
      if padLines {
        while |row| < maxLen
          invariant |values[i]| <= |row| <= maxLen
          invariant row == values[i] + Blanks(|row| - |values[i]|)
          decreases maxLen - |row|
        {
          assert Blanks(|row| - |values[i]|) + [""] == Blanks(|row| + 1 - |values[i]|);
          row := row + [""];
        }
        assert row == PadRow(values[i], maxLen);
      }
      written := written + [row];
      i := i + 1;
    }
  }

  /** The properties the sheet listing reports for one tab. */
  datatype SheetProperties = SheetProperties(title: Option<string>, sheetId: int)

  /** The tab the Sheet object ends up bound to. */
  datatype SheetRef = SheetRef(sheetId: int, sheetName: string)

  /**
   * The tab search of Sheet.__init__: the first sheet whose title equals the
   * requested name; sheets without a title are skipped. None stands for the
   * failing `assert self.sheet_id != None`.
   */
  method FindSheet(sheets: seq<SheetProperties>, findSheet: string) returns (r: Option<SheetRef>)
    ensures r.None? <==> forall i :: 0 <= i < |sheets| ==> sheets[i].title != Some(findSheet)
    ensures r.Some? ==> exists i :: 0 <= i < |sheets| && sheets[i].title == Some(findSheet)
                          && r.value == SheetRef(sheets[i].sheetId, findSheet)
                          && forall j :: 0 <= j < i ==> sheets[j].title != Some(findSheet)
  {
    var sheetId: Option<int> := None;
    var i := 0;
    while i < |sheets|
      invariant 0 <= i <= |sheets|
      invariant sheetId == None
      invariant forall j :: 0 <= j < i ==> sheets[j].title != Some(findSheet)
    {
      if sheets[i].title.Some? {
        if sheets[i].title.value == findSheet {
          sheetId := Some(sheets[i].sheetId);
          break;
        }
      }
      i := i + 1;
    }
    if sheetId == None {
      r := None;
    } else {
      r := Some(SheetRef(sheetId.value, findSheet));
    }
  }
}
