/**
 The REDCap export: one row per participant and event. `gatherdata` reads one
 variable for each listed participant at one event.
 */
module Mbi {
  import opened Wrappers
  import opened Frames

  /** Row `row` belongs to participant `sid` at `event`; a missing key column reads as "". */
  predicate RowMatches(columns: seq<string>, row: seq<string>, sid: string, event: string)
    requires |row| == |columns|
  {
    CellOr(columns, row, "record_id", "") == sid && CellOr(columns, row, "redcap_event_name", "") == event
  }

  /** The first row of `rows` for participant `sid` at `event`. */
  function FirstMatchingRow(columns: seq<string>, rows: seq<seq<string>>, sid: string, event: string): (r: Option<nat>)
    requires Rectangular(columns, rows)
    ensures r.None? <==> forall k :: 0 <= k < |rows| ==> !RowMatches(columns, rows[k], sid, event)
    ensures r.Some? ==> r.value < |rows| && RowMatches(columns, rows[r.value], sid, event)
    ensures r.Some? ==> forall k :: 0 <= k < r.value ==> !RowMatches(columns, rows[k], sid, event)
  {
    if |rows| == 0 then None
    else if RowMatches(columns, rows[0], sid, event) then Some(0)
    else
      match FirstMatchingRow(columns, rows[1..], sid, event)
      case None => None
      case Some(k) => Some(k + 1)
  }

  /**
   What `gatherdata(varName, event)` returns for participant `sid`: the
   variable's cell in the first row for `sid` at `event`, and `None` when the
   variable is no column, when there is no such row or when the cell is empty.
   */
  function Gathered(t: Table, sid: string, varName: string, event: string): (r: Option<string>)
    requires Rectangular(t.columns, t.rows)
    ensures varName !in t.columns ==> r.None?
    ensures r.Some? ==> r.value != ""
    ensures r.Some? ==> exists k :: 0 <= k < |t.rows| && RowMatches(t.columns, t.rows[k], sid, event)
                                    && t.rows[k][ColumnIndex(t.columns, varName).value] == r.value
                                    && forall j :: 0 <= j < k ==> !RowMatches(t.columns, t.rows[j], sid, event)
    ensures (forall k :: 0 <= k < |t.rows| ==> !RowMatches(t.columns, t.rows[k], sid, event)) ==> r.None?
    ensures varName in t.columns && FirstMatchingRow(t.columns, t.rows, sid, event).Some? ==>
              var cell := t.rows[FirstMatchingRow(t.columns, t.rows, sid, event).value][ColumnIndex(t.columns, varName).value];
              r == (if cell == "" then None else Some(cell))
  {
    match ColumnIndex(t.columns, varName)
    case None => None
    case Some(vi) =>
      match FirstMatchingRow(t.columns, t.rows, sid, event)
      case None => None
      case Some(k) => if t.rows[k][vi] == "" then None else Some(t.rows[k][vi])
  }

  /** `gatherdata(varName, event)`: one entry per listed participant, in order. */
  method GatherData(t: Table, sids: seq<string>, varName: string, event: string) returns (results: seq<Option<string>>)
    requires Rectangular(t.columns, t.rows)
    ensures |results| == |sids|
    ensures forall i :: 0 <= i < |sids| ==> results[i] == Gathered(t, sids[i], varName, event)
  {
    var varIndex := ColumnIndex(t.columns, varName);
    if varIndex.None? {
      return seq(|sids|, _ => None);
    }
    var vi := varIndex.value;
    results := [];
    for i := 0 to |sids|
      invariant |results| == i
      invariant forall p :: 0 <= p < i ==> results[p] == Gathered(t, sids[p], varName, event)
    {
      var found: Option<string> := None;
      var k := 0;
      while k < |t.rows|
        invariant 0 <= k <= |t.rows|
        invariant forall j :: 0 <= j < k ==> !RowMatches(t.columns, t.rows[j], sids[i], event)
      {
        if RowMatches(t.columns, t.rows[k], sids[i], event) {
          found := Some(t.rows[k][vi]);
          break;
        }
        k := k + 1;
      }
      ghost var first := FirstMatchingRow(t.columns, t.rows, sids[i], event);
      assert found.Some? ==> first == Some(k) && found.value == t.rows[k][vi];
      assert found.None? ==> first.None?;
      results := results + [if found == Some("") then None else found];
    }
  }
}
