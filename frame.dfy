/**
 CSV tables as the script reads them: every cell a string, empty cells kept
 as "", a header naming the columns. Column names are taken to be distinct,
 so the first and the last position of a name agree.
 */
module Frames {
  import opened Wrappers

  /** A table read with `dtype=str` and `keep_default_na=False`. */
  datatype Table = Table(columns: seq<string>, rows: seq<seq<string>>)

  /** Every row has one cell per column, as in a data frame. */
  predicate Rectangular(columns: seq<string>, rows: seq<seq<string>>) {
    forall r :: 0 <= r < |rows| ==> |rows[r]| == |columns|
  }

  /** The position of `name` among the columns (`columns.get_loc`, `col_index.get`). */
  function ColumnIndex(columns: seq<string>, name: string): (r: Option<nat>)
    ensures r.None? <==> name !in columns
    ensures r.Some? ==> r.value < |columns| && columns[r.value] == name
    ensures r.Some? ==> forall j :: 0 <= j < r.value ==> columns[j] != name
  {
    if |columns| == 0 then None
    else if columns[0] == name then Some(0)
    else
      match ColumnIndex(columns[1..], name)
      case None => None
      case Some(i) => Some(i + 1)
  }

  /** `row.get(name, default)` and `row[name]`: the cell under `name`, or `default` without that column. */
  function CellOr(columns: seq<string>, row: seq<string>, name: string, default: string): string
    requires |row| == |columns|
  {
    match ColumnIndex(columns, name)
    case Some(i) => row[i]
    case None => default
  }

  /**
   `c.lower()` on ASCII letters; other characters are kept. For the comparisons
   with the lower-case ASCII names below this agrees with Python: the only
   non-ASCII characters that lower-case into ASCII are U+212A (to 'k', in
   neither name) and U+0130 (to two characters).
   */
  function AsciiLower(s: string): (r: string)
    ensures |r| == |s|
    ensures forall i :: 0 <= i < |s| ==> r[i] == (if 'A' <= s[i] <= 'Z' then (s[i] as int + 32) as char else s[i])
    decreases |s|
  {
    if s == [] then []
    else [if 'A' <= s[0] <= 'Z' then (s[0] as int + 32) as char else s[0]] + AsciiLower(s[1..])
  }

  /** The first column whose lower-case form is `name`. */
  function FirstLowerMatch(columns: seq<string>, name: string): (r: Option<nat>)
    ensures r.None? <==> forall j :: 0 <= j < |columns| ==> AsciiLower(columns[j]) != name
    ensures r.Some? ==> r.value < |columns| && AsciiLower(columns[r.value]) == name
    ensures r.Some? ==> forall j :: 0 <= j < r.value ==> AsciiLower(columns[j]) != name
  {
    if |columns| == 0 then None
    else if AsciiLower(columns[0]) == name then Some(0)
    else
      match FirstLowerMatch(columns[1..], name)
      case None => None
      case Some(i) => Some(i + 1)
  }

  /** `rename(columns={from: to})`: every column called `from` is called `to`. */
  function RenameColumn(columns: seq<string>, from: string, to: string): (r: seq<string>)
    ensures |r| == |columns|
    ensures forall j :: 0 <= j < |columns| ==> r[j] == (if columns[j] == from then to else columns[j])
  {
    seq(|columns|, j requires 0 <= j < |columns| => if columns[j] == from then to else columns[j])
  }

  /**
   Looking a required column up with the case-insensitive fallback: the
   columns as they are when `name` is among them; otherwise the first column
   whose lower-case form is `name` renamed to `name`; `None` where the
   `KeyError` is raised again.
   */
  function ResolveColumn(columns: seq<string>, name: string): (r: Option<seq<string>>)
    ensures name in columns ==> r == Some(columns)
    ensures r.None? <==> name !in columns && forall j :: 0 <= j < |columns| ==> AsciiLower(columns[j]) != name
    ensures r.Some? ==> |r.value| == |columns| && name in r.value
    ensures r.Some? ==> forall j :: 0 <= j < |columns| && columns[j] != r.value[j] ==> AsciiLower(columns[j]) == name
    ensures r.Some? && name !in columns ==>
              FirstLowerMatch(columns, name).Some?
              && forall j :: 0 <= j < |columns| ==>
                   r.value[j] == (if columns[j] == columns[FirstLowerMatch(columns, name).value] then name else columns[j])
  {
    if name in columns then Some(columns)
    else
      match FirstLowerMatch(columns, name)
      case None => None
      case Some(i) =>
        var renamed := RenameColumn(columns, columns[i], name);
        assert renamed[i] == name;
        Some(renamed)
  }
}
