/**
 The PartnerReport table, one row per app session. The script changes it in
 place twice: `safe_int_column` coerces the session duration (and heart-rate)
 cells, and the four snapshot columns are normalised or created. The later
 loops read each row through the `Session` view.
 */
module Partner {
  import opened Wrappers
  import opened PyStr
  import opened Calendar
  import opened Snapshot
  import opened Frames

  /** One session row, as the window, duration, count and stage loops read it. */
  datatype Session = Session(
    sid: string,
    start: Option<int>,     // ordinal of the session start date, None where strptime fails
    duration: int,
    sessionType: string,
    stage: string,
    startPre: string,
    finishPre: string,
    startPost: string,
    finishPost: string)

  /** The ordinal of `strptime(raw.replace("-", "/"), "%Y/%m/%d")`, `None` where it raises. */
  function StartDate(raw: string): (r: Option<int>)
    ensures r.Some? <==> ParseDate(ReplaceChar(raw, '-', '/')).Some?
    ensures r.Some? ==> r.value == Ordinal(ParseDate(ReplaceChar(raw, '-', '/')).value)
  {
    match ParseDate(ReplaceChar(raw, '-', '/'))
    case Some(d) => Some(Ordinal(d))
    case None => None
  }

  /**
   A row read as a session. A missing session_duration column is the
   `KeyError` the duration loops catch, so it reads as 0; the duration cell
   is read with `int()`, which agrees with `int(float(...))` on the
   coerced column for durations below 2^53 in magnitude. Type and stage
   default to "" (`row.get`), a missing snapshot column to "null".
   */
  function SessionOf(columns: seq<string>, row: seq<string>): (s: Session)
    requires |row| == |columns|
    ensures "sid" in columns ==> s.sid == row[ColumnIndex(columns, "sid").value]
    ensures "session_duration" !in columns ==> s.duration == 0
    ensures "session_duration" in columns ==>
              s.duration == ParseInt(row[ColumnIndex(columns, "session_duration").value]).GetOr(0)
    ensures "snapshot_start_pre" !in columns ==> s.startPre == NullSnapshot
  {
    Session(
      CellOr(columns, row, "sid", ""),
      StartDate(CellOr(columns, row, "session_start_date", "")),
      ParseInt(CellOr(columns, row, "session_duration", "")).GetOr(0),
      CellOr(columns, row, "session_type", ""),
      CellOr(columns, row, "session_stage", ""),
      CellOr(columns, row, "snapshot_start_pre", NullSnapshot),
      CellOr(columns, row, "snapshot_finish_pre", NullSnapshot),
      CellOr(columns, row, "snapshot_start_post", NullSnapshot),
      CellOr(columns, row, "snapshot_finish_post", NullSnapshot))
  }

  function SessionsOf(columns: seq<string>, cells: seq<seq<string>>): (s: seq<Session>)
    requires Rectangular(columns, cells)
    ensures |s| == |cells|
    ensures forall r :: 0 <= r < |cells| ==> s[r] == SessionOf(columns, cells[r])
  {
    seq(|cells|, r requires 0 <= r < |cells| => SessionOf(columns, cells[r]))
  }

  /** What `safe_int_column` leaves in a cell: the cell when `int(str(val))` accepts it, else "0". */
  function CoercedCell(v: string): (r: string)
    ensures ParseInt(r).Some?
    ensures ParseInt(v).Some? ==> r == v
    ensures ParseInt(v).None? ==> r == "0"
  {
    ParseIntOfString(0);
    if ParseInt(v).Some? then v else "0"
  }

  /** Column `c` of every row coerced as `safe_int_column` does it, row by row. */
  function CoerceColumn(rows: seq<seq<string>>, c: nat): (r: seq<seq<string>>)
    requires forall k :: 0 <= k < |rows| ==> c < |rows[k]|
    ensures |r| == |rows|
    decreases |rows|
  {
    if rows == [] then []
    else
      var last := rows[|rows| - 1];
      CoerceColumn(rows[..|rows| - 1], c) + [last[c := CoercedCell(last[c])]]
  }

  /** Rows each coerced in column `c` are the coerced column. */
  lemma {:induction false} CoerceColumnRowwise(rows: seq<seq<string>>, c: nat, result: seq<seq<string>>)
    requires forall k :: 0 <= k < |rows| ==> c < |rows[k]|
    requires |result| == |rows|
    requires forall k :: 0 <= k < |rows| ==> result[k] == rows[k][c := CoercedCell(rows[k][c])]
    ensures result == CoerceColumn(rows, c)
    decreases |rows|
  {
    if rows != [] {
      var n := |rows| - 1;
      CoerceColumnRowwise(rows[..n], c, result[..n]);
      assert result == result[..n] + [result[n]];
    }
  }

  /**
   After the coercion every cell of column `c` is accepted by `int()`; a cell
   that was accepted is unchanged, one that was not is "0", and every other
   cell and the number of rows are as before.
   */
  lemma {:induction false} CoerceColumnCells(rows: seq<seq<string>>, c: nat)
    requires forall k :: 0 <= k < |rows| ==> c < |rows[k]|
    ensures var r := CoerceColumn(rows, c);
            forall k :: 0 <= k < |rows| ==>
              && |r[k]| == |rows[k]| && r[k] == rows[k][c := r[k][c]]
              && ParseInt(r[k][c]).Some?
              && (ParseInt(rows[k][c]).Some? ==> r[k][c] == rows[k][c])
              && (ParseInt(rows[k][c]).None? ==> r[k][c] == "0")
    decreases |rows|
  {
    if rows != [] {
      CoerceColumnCells(rows[..|rows| - 1], c);
    }
  }

  /** `safe_int_column(df, col_index.get(name))`: the column coerced when the header has it, else the rows as they are. */
  function CoerceNamed(columns: seq<string>, rows: seq<seq<string>>, name: string): (r: seq<seq<string>>)
    requires Rectangular(columns, rows)
    ensures Rectangular(columns, r)
    ensures name !in columns ==> r == rows
    ensures |r| == |rows|
    ensures name in columns ==>
              forall k :: 0 <= k < |rows| ==>
                && r[k] == rows[k][ColumnIndex(columns, name).value := r[k][ColumnIndex(columns, name).value]]
                && ParseInt(r[k][ColumnIndex(columns, name).value]).Some?
                && (ParseInt(rows[k][ColumnIndex(columns, name).value]).Some? ==>
                      r[k][ColumnIndex(columns, name).value] == rows[k][ColumnIndex(columns, name).value])
                && (ParseInt(rows[k][ColumnIndex(columns, name).value]).None? ==>
                      r[k][ColumnIndex(columns, name).value] == "0")
  {
    match ColumnIndex(columns, name)
    case Some(c) =>
      CoerceColumnCells(rows, c);
      CoerceColumn(rows, c)
    case None => rows
  }

  /** The snapshot column `name` of a row after the cleaning step: normalised, or a new "null" cell. */
  function NormalizedRow(columns: seq<string>, row: seq<string>, name: string): (r: seq<string>)
    requires |row| == |columns|
    ensures name in columns ==> |r| == |row| && r == row[ColumnIndex(columns, name).value := SnapshotToStandard(row[ColumnIndex(columns, name).value])]
    ensures name !in columns ==> r == row + [NullSnapshot]
  {
    match ColumnIndex(columns, name)
    case Some(i) => row[i := SnapshotToStandard(row[i])]
    case None => row + [NullSnapshot]
  }

  /** The header after the cleaning step: `name` appended when it was missing. */
  function NormalizedColumns(columns: seq<string>, name: string): (r: seq<string>)
    ensures name in r
    ensures name in columns ==> r == columns
    ensures name !in columns ==> r == columns + [name]
  {
    if name in columns then columns else columns + [name]
  }

  /** After the cleaning step the column holds "null" or a normalised timestamp. */
  lemma NormalizedCellShape(columns: seq<string>, row: seq<string>, name: string)
    requires |row| == |columns|
    ensures var v := CellOr(NormalizedColumns(columns, name), NormalizedRow(columns, row, name), name, NullSnapshot);
            v == NullSnapshot || (HasNoSeparator(v) && !IsBlank(v))
  {
    var cols', row' := NormalizedColumns(columns, name), NormalizedRow(columns, row, name);
    if name !in columns {
      assert ColumnIndex(cols', name) == Some(|columns|);
    }
  }

  /** Cleaning a snapshot column a second time changes nothing. */
  lemma NormalizedRowIdempotent(columns: seq<string>, row: seq<string>, name: string)
    requires |row| == |columns|
    ensures var cols', row' := NormalizedColumns(columns, name), NormalizedRow(columns, row, name);
            |row'| == |cols'| && NormalizedColumns(cols', name) == cols' && NormalizedRow(cols', row', name) == row'
  {
    if name in columns {
      var i := ColumnIndex(columns, name).value;
      NormalizedExistingIdempotent(row, i);
    } else {
      NormalizedAppendedIdempotent(columns, row, name);
    }
  }

  lemma NormalizedAppendedIdempotent(columns: seq<string>, row: seq<string>, name: string)
    requires |row| == |columns| && name !in columns
    ensures NormalizedRow(columns + [name], row + [NullSnapshot], name) == row + [NullSnapshot]
  {
    var i := |columns|;
    assert ColumnIndex(columns + [name], name) == Some(i) by {
      assert (columns + [name])[i] == name;
    }
    NormalisedIsFixed(NullSnapshot);
    assert (row + [NullSnapshot])[i := SnapshotToStandard(NullSnapshot)] == row + [NullSnapshot];
  }

  lemma NormalizedExistingIdempotent(row: seq<string>, i: nat)
    requires i < |row|
    ensures var row' := row[i := SnapshotToStandard(row[i])];
            row'[i := SnapshotToStandard(row'[i])] == row'
  {
    SnapshotToStandardIdempotent(row[i]);
  }

  /** A session field read from a column other than the rewritten one is the same before and after. */
  lemma CellOrUntouched(columns: seq<string>, row: seq<string>, c: nat, v: string, name: string, default: string)
    requires |row| == |columns| && c < |columns| && columns[c] != name
    ensures CellOr(columns, row[c := v], name, default) == CellOr(columns, row, name, default)
  {
  }

  /** A column appended under another name leaves every lookup of `name` as it was. */
  lemma CellOrAppended(columns: seq<string>, row: seq<string>, added: string, v: string, name: string, default: string)
    requires |row| == |columns| && added != name
    ensures CellOr(columns + [added], row + [v], name, default) == CellOr(columns, row, name, default)
  {
    var ci := ColumnIndex(columns + [added], name);
    if name in columns {
      var i := ColumnIndex(columns, name).value;
      assert (columns + [added])[i] == name;
      assert ci == Some(i);
    } else {
      assert name !in columns + [added];
    }
  }

  /** Two readings of the same rows agree on the participant and the start date of every session. */
  predicate SameKeys(a: seq<Session>, b: seq<Session>) {
    |a| == |b| && forall r :: 0 <= r < |a| ==> a[r].sid == b[r].sid && a[r].start == b[r].start
  }

  /** ... and on the duration of every session. */
  predicate SameDurations(a: seq<Session>, b: seq<Session>) {
    SameKeys(a, b) && forall r :: 0 <= r < |a| ==> a[r].duration == b[r].duration
  }

  lemma SameKeysTransitive(a: seq<Session>, b: seq<Session>, c: seq<Session>)
    requires SameKeys(a, b) && SameKeys(b, c)
    ensures SameKeys(a, c)
  {
  }

  lemma SameDurationsTransitive(a: seq<Session>, b: seq<Session>, c: seq<Session>)
    requires SameDurations(a, b) && SameDurations(b, c)
    ensures SameDurations(a, c)
  {
  }

  /** Coercing a column other than sid and session_start_date keeps every session's keys. */
  lemma CoerceKeepsKeys(columns: seq<string>, cells: seq<seq<string>>, c: nat)
    requires Rectangular(columns, cells) && c < |columns|
    requires columns[c] != "sid" && columns[c] != "session_start_date"
    ensures Rectangular(columns, CoerceColumn(cells, c))
    ensures SameKeys(SessionsOf(columns, cells), SessionsOf(columns, CoerceColumn(cells, c)))
  {
    var after := CoerceColumn(cells, c);
    CoerceColumnCells(cells, c);
    forall r | 0 <= r < |cells|
      ensures |after[r]| == |columns|
      ensures SessionOf(columns, after[r]).sid == SessionOf(columns, cells[r]).sid
      ensures SessionOf(columns, after[r]).start == SessionOf(columns, cells[r]).start
    {
      CellOrUntouched(columns, cells[r], c, after[r][c], "sid", "");
      CellOrUntouched(columns, cells[r], c, after[r][c], "session_start_date", "");
    }
  }

  /** A session as the cleaning of snapshot column `name` leaves it: that snapshot normalised, the rest as it was. */
  function CleanField(s: Session, name: string): Session {
    if name == "snapshot_start_pre" then s.(startPre := SnapshotToStandard(s.startPre))
    else if name == "snapshot_finish_pre" then s.(finishPre := SnapshotToStandard(s.finishPre))
    else if name == "snapshot_start_post" then s.(startPost := SnapshotToStandard(s.startPost))
    else if name == "snapshot_finish_post" then s.(finishPost := SnapshotToStandard(s.finishPost))
    else s
  }

  /** A session as the four cleanings leave it: each snapshot normalised, the other fields as they were. */
  function CleanSnapshots(s: Session): Session {
    s.(startPre := SnapshotToStandard(s.startPre), finishPre := SnapshotToStandard(s.finishPre),
       startPost := SnapshotToStandard(s.startPost), finishPost := SnapshotToStandard(s.finishPost))
  }

  /** Every session of `s` with its four snapshots normalised. */
  function CleanedOf(s: seq<Session>): (c: seq<Session>)
    ensures |c| == |s| && forall r :: 0 <= r < |s| ==> c[r] == CleanSnapshots(s[r])
  {
    seq(|s|, r requires 0 <= r < |s| => CleanSnapshots(s[r]))
  }

  /** Normalising the snapshots keeps every session's participant, start date and duration. */
  lemma CleanedKeepsDurations(s: seq<Session>)
    ensures SameDurations(s, CleanedOf(s))
  {
  }

  /** The snapshot columns the script cleans. */
  predicate IsSnapshotColumn(name: string) {
    name == "snapshot_start_pre" || name == "snapshot_finish_pre" || name == "snapshot_start_post" || name == "snapshot_finish_post"
  }

  /** Cleaning column `name` normalises it; a column the table lacks reads "null" before and after. */
  lemma NormalizedOwn(columns: seq<string>, row: seq<string>, name: string)
    requires |row| == |columns|
    ensures CellOr(NormalizedColumns(columns, name), NormalizedRow(columns, row, name), name, NullSnapshot)
            == SnapshotToStandard(CellOr(columns, row, name, NullSnapshot))
  {
    if name !in columns {
      var cols' := NormalizedColumns(columns, name);
      assert ColumnIndex(cols', name) == Some(|columns|) by {
        assert cols'[|columns|] == name;
      }
      NormalisedIsFixed(NullSnapshot);
    }
  }

  /** Cleaning column `name` leaves the lookup of every other column as it was. */
  lemma NormalizedOther(columns: seq<string>, row: seq<string>, name: string, other: string, d: string)
    requires |row| == |columns| && other != name
    ensures CellOr(NormalizedColumns(columns, name), NormalizedRow(columns, row, name), other, d) == CellOr(columns, row, other, d)
  {
    if name in columns {
      var i := ColumnIndex(columns, name).value;
      CellOrUntouched(columns, row, i, SnapshotToStandard(row[i]), other, d);
    } else {
      CellOrAppended(columns, row, name, NullSnapshot, other, d);
    }
  }

  /** Cleaning snapshot column `name` in a row cleans that snapshot of the row's session and keeps its other fields. */
  lemma NormalizedSession(columns: seq<string>, row: seq<string>, name: string)
    requires |row| == |columns| && IsSnapshotColumn(name)
    ensures SessionOf(NormalizedColumns(columns, name), NormalizedRow(columns, row, name)) == CleanField(SessionOf(columns, row), name)
  {
    NormalizedOwn(columns, row, name);
    NormalizedOther(columns, row, name, "sid", "");
    NormalizedOther(columns, row, name, "session_start_date", "");
    NormalizedOther(columns, row, name, "session_duration", "");
    NormalizedOther(columns, row, name, "session_type", "");
    NormalizedOther(columns, row, name, "session_stage", "");
    if name != "snapshot_start_pre" {
      NormalizedOther(columns, row, name, "snapshot_start_pre", NullSnapshot);
    }
    if name != "snapshot_finish_pre" {
      NormalizedOther(columns, row, name, "snapshot_finish_pre", NullSnapshot);
    }
    if name != "snapshot_start_post" {
      NormalizedOther(columns, row, name, "snapshot_start_post", NullSnapshot);
    }
    if name != "snapshot_finish_post" {
      NormalizedOther(columns, row, name, "snapshot_finish_post", NullSnapshot);
    }
  }

  /** Cleaning snapshot column `name` cleans that snapshot of every session and keeps the rest. */
  lemma NormalizeCleansField(columns: seq<string>, cells: seq<seq<string>>, name: string, after: seq<seq<string>>)
    requires Rectangular(columns, cells) && IsSnapshotColumn(name)
    requires |after| == |cells| && forall r :: 0 <= r < |cells| ==> after[r] == NormalizedRow(columns, cells[r], name)
    ensures Rectangular(NormalizedColumns(columns, name), after)
    ensures forall r :: 0 <= r < |cells| ==>
              SessionOf(NormalizedColumns(columns, name), after[r]) == CleanField(SessionOf(columns, cells[r]), name)
  {
    forall r | 0 <= r < |cells|
      ensures |after[r]| == |NormalizedColumns(columns, name)|
      ensures SessionOf(NormalizedColumns(columns, name), after[r]) == CleanField(SessionOf(columns, cells[r]), name)
    {
      NormalizedSession(columns, cells[r], name);
    }
  }

  /** The PartnerReport data frame. */
  class PartnerFrame {
    var columns: seq<string>
    var cells: seq<seq<string>>

    ghost predicate Valid()
      reads this
    {
      Rectangular(columns, cells)
    }

    constructor (t: Table)
      requires Rectangular(t.columns, t.rows)
      ensures Valid() && columns == t.columns && cells == t.rows
    {
      columns := t.columns;
      cells := t.rows;
    }

    /** The rows read as sessions. */
    function Sessions(): (s: seq<Session>)
      reads this
      requires Valid()
      ensures |s| == |cells|
    {
      SessionsOf(columns, cells)
    }

    /**
     `safe_int_column(df, col)`: every cell of column `col` that `int()`
     rejects becomes "0", the others stay; nothing else changes, and a `None`
     column changes nothing.
     */
    method SafeIntColumn(col: Option<nat>)
      requires Valid()
      requires col.Some? ==> col.value < |columns|
      modifies this
      ensures Valid() && columns == old(columns)
      ensures col.None? ==> cells == old(cells)
      ensures col.Some? ==> cells == CoerceColumn(old(cells), col.value)
    {
      if col.None? {
        return;
      }
      var c := col.value;
      var r := 0;
      while r < |cells|
        invariant 0 <= r <= |cells| == |old(cells)|
        invariant columns == old(columns) && Valid()
        invariant forall k :: 0 <= k < r ==> cells[k] == old(cells)[k][c := CoercedCell(old(cells)[k][c])]
        invariant forall k :: r <= k < |cells| ==> cells[k] == old(cells)[k]
      {
        var v := cells[r][c];
        if ParseInt(v).None? {
          cells := cells[r := cells[r][c := "0"]];
        }
        r := r + 1;
      }
      CoerceColumnRowwise(old(cells), c, cells);
    }

    /**
     The cleaning of snapshot column `name`: `snapshot_to_standard` applied
     to every cell when the column exists, else a new column of "null".
     */
    method NormalizeSnapshotColumn(name: string)
      requires Valid()
      modifies this
      ensures Valid() && columns == NormalizedColumns(old(columns), name) && |cells| == |old(cells)|
      ensures forall r :: 0 <= r < |cells| ==> cells[r] == NormalizedRow(old(columns), old(cells)[r], name)
    {
      var r := 0;
      while r < |cells|
        invariant 0 <= r <= |cells| == |old(cells)|
        invariant columns == old(columns)
        invariant forall k :: 0 <= k < r ==> cells[k] == NormalizedRow(old(columns), old(cells)[k], name)
        invariant forall k :: r <= k < |cells| ==> cells[k] == old(cells)[k]
      {
        cells := cells[r := NormalizedRow(columns, cells[r], name)];
        r := r + 1;
      }
      columns := NormalizedColumns(columns, name);
    }

    /**
     The two `safe_int_column` calls of the script, on session_duration and
     on heartrate_pre: the sessions' participants and start dates stay.
     */
    method CoerceNumericColumns()
      requires Valid()
      modifies this
      ensures Valid() && columns == old(columns)
      ensures cells == CoerceNamed(columns, CoerceNamed(columns, old(cells), "session_duration"), "heartrate_pre")
      ensures SameKeys(SessionsOf(old(columns), old(cells)), Sessions())
    {
      var duration := ColumnIndex(columns, "session_duration");
      ghost var before := cells;
      SafeIntColumn(duration);
      if duration.Some? {
        CoerceKeepsKeys(columns, before, duration.value);
      }
      var heartrate := ColumnIndex(columns, "heartrate_pre");
      ghost var middle := cells;
      SafeIntColumn(heartrate);
      if heartrate.Some? {
        CoerceKeepsKeys(columns, middle, heartrate.value);
      }
      SameKeysTransitive(SessionsOf(columns, before), SessionsOf(columns, middle), Sessions());
    }

    /**
     The cleaning of the four snapshot columns: every session has its four
     snapshots passed through `snapshot_to_standard` ("null" for a column the
     table lacks) and keeps its other fields.
     */
    method NormalizeSnapshots()
      requires Valid()
      modifies this
      ensures Valid() && |cells| == |old(cells)|
      ensures forall r :: 0 <= r < |cells| ==> Sessions()[r] == CleanSnapshots(SessionsOf(old(columns), old(cells))[r])
    {
      ghost var s0 := Sessions();
      ghost var cols, before := columns, cells;
      NormalizeSnapshotColumn("snapshot_start_pre");
      NormalizeCleansField(cols, before, "snapshot_start_pre", cells);
      ghost var s1 := Sessions();
      cols, before := columns, cells;
      NormalizeSnapshotColumn("snapshot_finish_pre");
      NormalizeCleansField(cols, before, "snapshot_finish_pre", cells);
      ghost var s2 := Sessions();
      cols, before := columns, cells;
      NormalizeSnapshotColumn("snapshot_start_post");
      NormalizeCleansField(cols, before, "snapshot_start_post", cells);
      ghost var s3 := Sessions();
      cols, before := columns, cells;
      NormalizeSnapshotColumn("snapshot_finish_post");
      NormalizeCleansField(cols, before, "snapshot_finish_post", cells);
      forall r | 0 <= r < |cells| ensures Sessions()[r] == CleanSnapshots(s0[r]) {
        assert s1[r] == CleanField(s0[r], "snapshot_start_pre");
        assert s2[r] == CleanField(s1[r], "snapshot_finish_pre");
        assert s3[r] == CleanField(s2[r], "snapshot_start_post");
        assert Sessions()[r] == CleanField(s3[r], "snapshot_finish_post");
      }
    }
  }
}
