/**
 The whole adherence report: the REDCap lookups, the PartnerReport
 cleaning and aggregation, and the final `zip` of eighteen labelled
 vectors into the rows of the output file.
 */
module Report {
  import opened Wrappers
  import opened PyStr
  import opened Frames
  import opened Mbi
  import opened Partner
  import opened Windows
  import opened Durations
  import opened Classifier
  import opened Summaries

  /**
   A value the report writes: a string, a number, `None` (an empty field),
   or one of the labels of the title row, written as its CaptionText.
   */
  datatype Cell = Text(text: string) | Number(value: int) | Missing | Label(caption: Caption)

  /** The two groups the labels report on: A is the MBI group, B the control group. */
  datatype Group = GroupA | GroupB

  /** The labels of the first three vectors, holding the counts they are made from. */
  datatype Caption =
    | ZoneCaption(completedMbi: nat, completedControl: nat, totalMbi: nat, totalControl: nat)
    | CountCaption(group: Group, count: nat)
    | AdherenceCaption(group: Group, completed: nat, total: nat)

  /** The length of the shortest vector. */
  function MinLength(vs: seq<seq<Cell>>): (m: nat)
    requires |vs| > 0
    ensures forall j :: 0 <= j < |vs| ==> m <= |vs[j]|
    ensures exists j :: 0 <= j < |vs| && m == |vs[j]|
    decreases |vs|
  {
    if |vs| == 1 then |vs[0]|
    else
      var m := MinLength(vs[1..]);
      assert forall j :: 1 <= j < |vs| ==> vs[j] == vs[1..][j - 1];
      if |vs[0]| <= m then |vs[0]| else m
  }

  /**
   `list(zip(*vs))`: as many rows as the shortest vector has entries, row
   `i` holding entry `i` of every vector in order; the longer vectors'
   remaining entries are dropped.
   */
  function Zip(vs: seq<seq<Cell>>): (rows: seq<seq<Cell>>)
    ensures |vs| == 0 ==> rows == []
    ensures |vs| > 0 ==> |rows| == MinLength(vs)
    ensures forall i :: 0 <= i < |rows| ==> |rows[i]| == |vs|
    ensures forall i, j :: 0 <= i < |rows| && 0 <= j < |vs| ==> i < |vs[j]| && rows[i][j] == vs[j][i]
  {
    if |vs| == 0 then []
    else
      var m := MinLength(vs);
      seq(m, i requires 0 <= i < m => seq(|vs|, j requires 0 <= j < |vs| => vs[j][i]))
  }

  function Texts(xs: seq<string>): (r: seq<Cell>)
    ensures |r| == |xs| && forall i :: 0 <= i < |xs| ==> r[i] == Text(xs[i])
  {
    seq(|xs|, i requires 0 <= i < |xs| => Text(xs[i]))
  }

  function Numbers(xs: seq<int>): (r: seq<Cell>)
    ensures |r| == |xs| && forall i :: 0 <= i < |xs| ==> r[i] == Number(xs[i])
  {
    seq(|xs|, i requires 0 <= i < |xs| => Number(xs[i]))
  }

  function OptionCell(x: Option<string>): Cell {
    match x
    case Some(v) => Text(v)
    case None => Missing
  }

  function Options(xs: seq<Option<string>>): (r: seq<Cell>)
    ensures |r| == |xs| && forall i :: 0 <= i < |xs| ==> r[i] == OptionCell(xs[i])
  {
    seq(|xs|, i requires 0 <= i < |xs| => OptionCell(xs[i]))
  }

  /** `xs.insert(0, header)` */
  function WithHeader(header: string, xs: seq<Cell>): (r: seq<Cell>)
    ensures |r| == |xs| + 1 && r[0] == Text(header) && r[1..] == xs
  {
    [Text(header)] + xs
  }

  /** `count` empty strings; a negative `range` or repetition gives none. */
  function Blanks(count: int): (r: seq<Cell>)
    ensures |r| == (if count > 0 then count else 0)
    ensures forall i :: 0 <= i < |r| ==> r[i] == Text("")
  {
    seq(if count > 0 then count else 0, _ => Text(""))
  }

  /** The three zones of the label. */
  datatype Zone = Green | Amber | Red

  function ZoneName(z: Zone): string {
    match z
    case Green => "GREEN"
    case Amber => "AMBER"
    case Red => "RED"
  }

  /**
   `zone_percentage` is `cm + cc / tm + tc` as written (the division binds
   first): the fraction of this numerator over `tm`.
   */
  function ZoneNumerator(cm: nat, cc: nat, tm: nat, tc: nat): nat {
    (cm + tc) * tm + cc
  }

  /** In exact arithmetic the numerator over `tm` is the script's `cm + cc / tm + tc`. */
  lemma ZoneNumeratorExact(cm: nat, cc: nat, tm: nat, tc: nat)
    requires tm > 0
    ensures ZoneNumerator(cm, cc, tm, tc) as real / tm as real == cm as real + cc as real / tm as real + tc as real
  {
    var num := ZoneNumerator(cm, cc, tm, tc);
    assert num as real == (cm + tc) as real * tm as real + cc as real;
    assert num as real / tm as real == (cm + tc) as real * tm as real / tm as real + cc as real / tm as real;
  }

  /**
   The zone of the percentage `num / tm`. The script sets the label with
   three `if`s in turn (below 50, strictly between 49 and 71, above 70), so
   a later test that holds overrides an earlier one: the zone is the last
   of the tests that holds, and one of them always holds.
   */
  function ZoneOf(num: int, tm: int): (z: Zone)
    requires tm > 0
    ensures z == Green <==> num > 70 * tm
    ensures z == Amber <==> 49 * tm < num < 71 * tm && !(num > 70 * tm)
    ensures z == Red <==> num < 50 * tm && !(49 * tm < num < 71 * tm) && !(num > 70 * tm)
  {
    if num > 70 * tm then Green
    else if num > 49 * tm then Amber
    else Red
  }

  /** Multiples of a positive number at least one step apart are at least that number apart. */
  lemma {:induction false} MultiplesApart(d: int, a: int, b: int)
    requires d > 0 && a > b
    ensures d * a >= d * b + d
    decreases a - b
  {
    if a - 1 > b {
      MultiplesApart(d, a - 1, b);
    }
    assert d * a == d * (a - 1) + d;
  }

  /** Division by a positive divisor is pinned down by a quotient and remainder that satisfy its equation. */
  lemma QuotientUnique(n: int, d: int, q: int, r: int)
    requires d > 0 && 0 <= r < d && n == d * q + r
    ensures n / d == q
  {
    var q', r' := n / d, n % d;
    assert n == d * q' + r' && 0 <= r' < d;
    if q' > q {
      MultiplesApart(d, q', q);
      assert false;
    } else if q' < q {
      MultiplesApart(d, q, q');
      assert false;
    }
  }

  /**
   `int(zone_percentage)`: the whole part of `cm + cc / tm + tc` is the two
   whole counts plus the whole part of `cc / tm`.
   */
  lemma ZonePercentWhole(cm: nat, cc: nat, tm: nat, tc: nat)
    requires tm > 0
    ensures ZoneNumerator(cm, cc, tm, tc) / tm == cm + tc + cc / tm
  {
    var q, r := cc / tm, cc % tm;
    assert cc == tm * q + r;
    assert ZoneNumerator(cm, cc, tm, tc) == tm * (cm + tc + q) + r;
    QuotientUnique(ZoneNumerator(cm, cc, tm, tc), tm, cm + tc + q, r);
  }

  function ZoneSuffix(): string {
    "% of all listed participants completed 70% of app activity"
  }

  function GroupName(g: Group): string {
    match g
    case GroupA => "GROUPA"
    case GroupB => "GROUPB"
  }

  /** The start of a group's adherence label, with the reference it was judged against as the script words it. */
  function AdherenceHeading(g: Group): string {
    match g
    case GroupA => "GROUPA adherence (threshold of 7492, or 70% of modules 1 through 4 [10688]): "
    case GroupB => "GROUPB adherence (threshold of 6720s, or 70% of 16 sham sessions [9600s]): "
  }

  /** The zone label for a zone and a whole percentage. */
  function ZoneText(z: Zone, percent: nat): string {
    ZoneName(z) + " Zone: " + NatToString(percent) + ZoneSuffix()
  }

  /**
   The string a label cell holds: the zone label shows the percentage
   rounded down (`int`), the counts are written in decimal (`str`).
   */
  function CaptionText(c: Caption): string
    requires c.ZoneCaption? ==> c.totalMbi > 0
  {
    match c
    case ZoneCaption(cm, cc, tm, tc) =>
      var num := ZoneNumerator(cm, cc, tm, tc);
      ZoneText(ZoneOf(num, tm), num / tm)
    case CountCaption(g, n) => GroupName(g) + " group count: " + NatToString(n)
    case AdherenceCaption(g, k, n) => AdherenceHeading(g) + NatToString(k) + "/" + NatToString(n)
  }

  /**
   The zone label names the zone of the exact percentage and shows its
   whole part, which is both counts plus the whole part of `cc / tm`.
   */
  lemma ZoneCaptionText(cm: nat, cc: nat, tm: nat, tc: nat)
    requires tm > 0
    ensures CaptionText(ZoneCaption(cm, cc, tm, tc)) == ZoneText(ZoneOf(ZoneNumerator(cm, cc, tm, tc), tm), cm + tc + cc / tm)
  {
    ZonePercentWhole(cm, cc, tm, tc);
  }

  /** A count label is the group's name and the group's size in decimal, which `int()` reads back. */
  lemma CountCaptionText(g: Group, n: nat)
    ensures |CaptionText(CountCaption(g, n))| > 20
    ensures CaptionText(CountCaption(g, n))[..20] == GroupName(g) + " group count: "
    ensures ParseInt(CaptionText(CountCaption(g, n))[20..]) == Some(n)
  {
    var text := CaptionText(CountCaption(g, n));
    assert text[20..] == NatToString(n);
    ParseIntOfString(n);
  }

  /**
   An adherence label is the group's heading, then the group's passes and
   its size written in decimal and separated by a slash; `int()` reads both
   back.
   */
  lemma AdherenceCaptionText(g: Group, k: nat, n: nat)
    ensures |CaptionText(AdherenceCaption(g, k, n))| > |AdherenceHeading(g)|
    ensures CaptionText(AdherenceCaption(g, k, n))[..|AdherenceHeading(g)|] == AdherenceHeading(g)
    ensures var fields := Split(CaptionText(AdherenceCaption(g, k, n))[|AdherenceHeading(g)|..], '/');
            |fields| == 2 && ParseInt(fields[0]) == Some(k) && ParseInt(fields[1]) == Some(n)
  {
    var heading := AdherenceHeading(g);
    var text := CaptionText(AdherenceCaption(g, k, n));
    assert text == heading + (NatToString(k) + "/" + NatToString(n));
    SliceConcat(heading, NatToString(k) + "/" + NatToString(n));
    SplitDecimalPair(k, n);
    ParseIntOfString(k);
    ParseIntOfString(n);
  }

  /** The column titles of the fifteen vectors that get one (vectors 3 to 17). */
  function Headers(): (h: seq<string>)
    ensures |h| == 15
  {
    [
     "sid", "randomization", "MRI2 Completed", "Week4 Qs Completed", "debreifed",
     "session_duration_sum", "session_duration+snapshots",
     "sessionduration_wk1", "sessionduration_wk2", "sessionduration_wk3", "sessionduration_wk4",
     "sessiontype_journey_totalcount", "sessiontype_standalonesnap_totalcount",
     "session_stage_max", "adherence_stage"]
  }

  /** The exception the script stops with. */
  datatype Failure = KeyError(column: string) | ZeroDivisionError

  /** The written rows, or the exception raised before the file is written. */
  datatype Outcome = Written(rows: seq<seq<Cell>>) | Raised(error: Failure)

  /** `randomization = gatherdata('randomization', 'day_1_arm_1')` */
  function Randomization(mbi: Table, sids: seq<string>): (r: seq<Option<string>>)
    requires Rectangular(mbi.columns, mbi.rows)
    ensures |r| == |sids|
    ensures forall i :: 0 <= i < |sids| ==> r[i] == Gathered(mbi, sids[i], "randomization", "day_1_arm_1")
  {
    seq(|sids|, i requires 0 <= i < |sids| => Gathered(mbi, sids[i], "randomization", "day_1_arm_1"))
  }

  /**
   The REDCap export once the script has resolved its `record_id` and
   `redcap_event_name` columns, ignoring case where it must; `None` when
   one of them is not there even ignoring case.
   */
  function ResolvedMbi(mbi: Table): (r: Option<Table>)
    ensures r.Some? <==>
              ResolveColumn(mbi.columns, "record_id").Some?
              && ResolveColumn(ResolveColumn(mbi.columns, "record_id").value, "redcap_event_name").Some?
    ensures r.Some? ==> r.value.rows == mbi.rows && |r.value.columns| == |mbi.columns|
    ensures r.Some? ==> "record_id" in r.value.columns && "redcap_event_name" in r.value.columns
    ensures r.Some? ==>
              forall j :: 0 <= j < |mbi.columns| && r.value.columns[j] != mbi.columns[j] ==>
                AsciiLower(mbi.columns[j]) == "record_id" || AsciiLower(mbi.columns[j]) == "redcap_event_name"
  {
    match ResolveColumn(mbi.columns, "record_id")
    case None => None
    case Some(cols1) =>
      match ResolveColumn(cols1, "redcap_event_name")
      case None => None
      case Some(cols2) => Some(Table(cols2, mbi.rows))
  }

  /**
   The exception the script raises once the REDCap key columns are
   resolved: no session_start_date column in the PartnerReport, no sid
   column while it has rows, and no participant in the MBI group when the
   zone percentage is computed.
   */
  function PartnerFailure(resolved: Table, sids: seq<string>, partner: Table): (r: Option<Failure>)
    requires Rectangular(resolved.columns, resolved.rows)
    ensures r.None? || r == Some(KeyError("session_start_date")) || r == Some(KeyError("sid")) || r == Some(ZeroDivisionError)
    ensures r == Some(KeyError("session_start_date")) <==> "session_start_date" !in partner.columns
    ensures r == Some(KeyError("sid")) <==>
              "session_start_date" in partner.columns && "sid" !in partner.columns && |partner.rows| > 0
    ensures r == Some(ZeroDivisionError) <==>
              && "session_start_date" in partner.columns && ("sid" in partner.columns || |partner.rows| == 0)
              && GroupCount(Randomization(resolved, sids), "0") == 0
    ensures r.None? <==>
              && "session_start_date" in partner.columns && ("sid" in partner.columns || |partner.rows| == 0)
              && GroupCount(Randomization(resolved, sids), "0") > 0
  {
    if "session_start_date" !in partner.columns then Some(KeyError("session_start_date"))
    else if "sid" !in partner.columns && |partner.rows| > 0 then Some(KeyError("sid"))
    else if GroupCount(Randomization(resolved, sids), "0") == 0 then Some(ZeroDivisionError)
    else None
  }

  /**
   The exception the script raises, in the order it would meet them: no
   record_id column in the REDCap export even ignoring case, no redcap_event_name
   column, no session_start_date column in the PartnerReport, no sid
   column while it has rows, and no participant in the MBI group when the
   zone percentage is computed.
   */
  function ExpectedFailure(mbi: Table, sids: seq<string>, partner: Table): (r: Option<Failure>)
    requires Rectangular(mbi.columns, mbi.rows)
    ensures r == Some(KeyError("record_id")) <==>
              "record_id" !in mbi.columns && forall j :: 0 <= j < |mbi.columns| ==> AsciiLower(mbi.columns[j]) != "record_id"
    ensures r == Some(KeyError("redcap_event_name")) <==>
              ResolveColumn(mbi.columns, "record_id").Some?
              && ResolveColumn(ResolveColumn(mbi.columns, "record_id").value, "redcap_event_name").None?
    ensures r == Some(KeyError("session_start_date")) ==> "session_start_date" !in partner.columns
    ensures r == Some(KeyError("sid")) ==> "sid" !in partner.columns && |partner.rows| > 0
    ensures ResolvedMbi(mbi).Some? ==> r == PartnerFailure(ResolvedMbi(mbi).value, sids, partner)
    ensures r.None? || r == Some(ZeroDivisionError) ==>
              && "session_start_date" in partner.columns && ("sid" in partner.columns || |partner.rows| == 0)
              && ("record_id" in mbi.columns || exists j :: 0 <= j < |mbi.columns| && AsciiLower(mbi.columns[j]) == "record_id")
              && ResolvedMbi(mbi).Some? && "redcap_event_name" in ResolvedMbi(mbi).value.columns
  {
    if ResolveColumn(mbi.columns, "record_id").None? then Some(KeyError("record_id"))
    else if ResolvedMbi(mbi).None? then Some(KeyError("redcap_event_name"))
    else PartnerFailure(ResolvedMbi(mbi).value, sids, partner)
  }

  /**
   The vectors handed to `zip`, for `n` listed participants: the zone label
   padded with `n - 1` blanks, the two group counts and the two group
   adherence titles each padded with `n - 2` blanks, then the data vectors,
   each under its column title.
   */
  function ReportVectors(n: nat, zone: Cell, counts: (Cell, Cell), adherence: (Cell, Cell),
                         titles: seq<string>, data: seq<seq<Cell>>): (vs: seq<seq<Cell>>)
    requires |data| == |titles|
    ensures |vs| == 3 + |titles|
    ensures vs[0] == [zone] + Blanks(n - 1)
    ensures vs[1] == [counts.0, counts.1] + Blanks(n - 2)
    ensures vs[2] == [adherence.0, adherence.1] + Blanks(n - 2)
    ensures forall j :: 0 <= j < |titles| ==> vs[j + 3] == WithHeader(titles[j], data[j])
  {
    [[zone] + Blanks(n - 1),
     [counts.0, counts.1] + Blanks(n - 2),
     [adherence.0, adherence.1] + Blanks(n - 2)]
    + seq(|titles|, j requires 0 <= j < |titles| => WithHeader(titles[j], data[j]))
  }

  /**
   The rows `zip` makes of the vectors when every data vector has one entry
   per participant: the zone label is the shortest vector, so there are `n`
   rows of three cells more than there are titles. The first row holds the
   zone label, the labels of group A and the titles; the second the labels
   of group B; row `i` holds entry `i - 1` of every data vector, so the
   last participant is dropped.
   */
  lemma ZipReport(n: nat, zone: Cell, counts: (Cell, Cell), adherence: (Cell, Cell),
                  titles: seq<string>, data: seq<seq<Cell>>)
    requires n > 0 && |data| == |titles|
    requires forall j :: 0 <= j < |data| ==> |data[j]| == n
    ensures var rows := Zip(ReportVectors(n, zone, counts, adherence, titles, data));
            && |rows| == n
            && (forall i :: 0 <= i < n ==> |rows[i]| == 3 + |titles|)
            && rows[0][..3] == [zone, counts.0, adherence.0]
            && rows[0][3..] == Texts(titles)
            && (n > 1 ==> rows[1][..3] == [Text(""), counts.1, adherence.1])
            && (forall i :: 2 <= i < n ==> rows[i][..3] == [Text(""), Text(""), Text("")])
            && forall i, j :: 1 <= i < n && 0 <= j < |titles| ==> rows[i][j + 3] == data[j][i - 1]
  {
    ZipReportLength(n, zone, counts, adherence, titles, data);
    ZipReportFirst(n, zone, counts, adherence, titles, data);
    ZipReportLabels(n, zone, counts, adherence, titles, data);
    ZipReportData(n, zone, counts, adherence, titles, data);
  }

  /** The zone label is the shortest vector: `zip` gives `n` rows. */
  lemma ZipReportLength(n: nat, zone: Cell, counts: (Cell, Cell), adherence: (Cell, Cell),
                        titles: seq<string>, data: seq<seq<Cell>>)
    requires n > 0 && |data| == |titles|
    requires forall j :: 0 <= j < |data| ==> |data[j]| == n
    ensures |Zip(ReportVectors(n, zone, counts, adherence, titles, data))| == n
  {
    var vs := ReportVectors(n, zone, counts, adherence, titles, data);
    assert |vs[0]| == n;
    forall j | 0 <= j < |vs| ensures |vs[j]| >= n {
      if j >= 3 {
        assert vs[j] == WithHeader(titles[j - 3], data[j - 3]);
      }
    }
    var m := MinLength(vs);
    assert m == n;
  }

  /** The first row: the zone label, the labels of group A and the titles. */
  lemma ZipReportFirst(n: nat, zone: Cell, counts: (Cell, Cell), adherence: (Cell, Cell),
                       titles: seq<string>, data: seq<seq<Cell>>)
    requires n > 0 && |data| == |titles|
    requires |Zip(ReportVectors(n, zone, counts, adherence, titles, data))| == n
    ensures var rows := Zip(ReportVectors(n, zone, counts, adherence, titles, data));
            rows[0][..3] == [zone, counts.0, adherence.0] && rows[0][3..] == Texts(titles)
  {
    var vs := ReportVectors(n, zone, counts, adherence, titles, data);
    var row := Zip(vs)[0];
    assert row[..3] == [vs[0][0], vs[1][0], vs[2][0]];
    forall j | 0 <= j < |titles| ensures row[3..][j] == Text(titles[j]) {
      assert vs[j + 3] == WithHeader(titles[j], data[j]);
      assert row[j + 3] == vs[j + 3][0];
    }
  }

  /** The later rows: the labels of group B in the second, blanks below. */
  lemma ZipReportLabels(n: nat, zone: Cell, counts: (Cell, Cell), adherence: (Cell, Cell),
                        titles: seq<string>, data: seq<seq<Cell>>)
    requires n > 0 && |data| == |titles|
    requires |Zip(ReportVectors(n, zone, counts, adherence, titles, data))| == n
    ensures var rows := Zip(ReportVectors(n, zone, counts, adherence, titles, data));
            && (n > 1 ==> rows[1][..3] == [Text(""), counts.1, adherence.1])
            && (forall i :: 2 <= i < n ==> rows[i][..3] == [Text(""), Text(""), Text("")])
  {
    var vs := ReportVectors(n, zone, counts, adherence, titles, data);
    var rows := Zip(vs);
    if n > 1 {
      assert rows[1][..3] == [vs[0][1], vs[1][1], vs[2][1]];
    }
    forall i | 2 <= i < n ensures rows[i][..3] == [Text(""), Text(""), Text("")] {
      assert rows[i][..3] == [vs[0][i], vs[1][i], vs[2][i]];
    }
  }

  /** Row `i` holds entry `i - 1` of every data vector. */
  lemma ZipReportData(n: nat, zone: Cell, counts: (Cell, Cell), adherence: (Cell, Cell),
                      titles: seq<string>, data: seq<seq<Cell>>)
    requires n > 0 && |data| == |titles|
    requires forall j :: 0 <= j < |data| ==> |data[j]| == n
    requires |Zip(ReportVectors(n, zone, counts, adherence, titles, data))| == n
    ensures var rows := Zip(ReportVectors(n, zone, counts, adherence, titles, data));
            forall i, j :: 1 <= i < n && 0 <= j < |titles| ==> rows[i][j + 3] == data[j][i - 1]
  {
    var vs := ReportVectors(n, zone, counts, adherence, titles, data);
    var rows := Zip(vs);
    forall i, j | 1 <= i < n && 0 <= j < |titles| ensures rows[i][j + 3] == data[j][i - 1] {
      assert vs[j + 3] == WithHeader(titles[j], data[j]);
      assert vs[j + 3][i] == data[j][i - 1];
    }
  }

  /** `list(zip(*vectors))` for the report's vectors. */
  method ZipVectors(n: nat, zone: Cell, counts: (Cell, Cell), adherence: (Cell, Cell),
                    titles: seq<string>, data: seq<seq<Cell>>)
    returns (rows: seq<seq<Cell>>)
    requires n > 0 && |data| == |titles|
    requires forall j :: 0 <= j < |data| ==> |data[j]| == n
    ensures |rows| == n
    ensures forall i :: 0 <= i < n ==> |rows[i]| == 3 + |titles|
    ensures rows[0][..3] == [zone, counts.0, adherence.0]
    ensures rows[0][3..] == Texts(titles)
    ensures n > 1 ==> rows[1][..3] == [Text(""), counts.1, adherence.1]
    ensures forall i :: 2 <= i < n ==> rows[i][..3] == [Text(""), Text(""), Text("")]
    ensures forall i, j :: 1 <= i < n && 0 <= j < |titles| ==> rows[i][j + 3] == data[j][i - 1]
  {
    rows := Zip(ReportVectors(n, zone, counts, adherence, titles, data));
    ZipReport(n, zone, counts, adherence, titles, data);
  }

  /** The PartnerReport rows as loaded, as the earliest-start loop reads them. */
  function LoadedSessions(partner: Table): seq<Session>
    requires Rectangular(partner.columns, partner.rows)
  {
    SessionsOf(partner.columns, partner.rows)
  }

  /** The PartnerReport rows after `safe_int_column` on session_duration and heartrate_pre. */
  function CoercedSessions(partner: Table): seq<Session>
    requires Rectangular(partner.columns, partner.rows)
  {
    SessionsOf(partner.columns,
               CoerceNamed(partner.columns, CoerceNamed(partner.columns, partner.rows, "session_duration"), "heartrate_pre"))
  }

  /** The coerced rows once their four snapshots are normalised. */
  function CleanedView(partner: Table): seq<Session>
    requires Rectangular(partner.columns, partner.rows)
  {
    CleanedOf(CoercedSessions(partner))
  }

  /** The time totals of one participant, in the order of their columns in the report. */
  datatype Times = Times(duration: int, overall: int, week1: int, week2: int, week3: int, week4: int)

  /**
   The time totals the script computes for `sid` from three readings of the
   session rows: the window starts at the earliest start in `s0`, the
   duration total reads `s1`, the snapshot and weekly totals read `s2`.
   */
  function TimesOf(s0: seq<Session>, s1: seq<Session>, s2: seq<Session>, sid: string): Times {
    var start := EarliestStart(s0, sid);
    var duration := DurationSum(s1, sid, None, start + 56);
    Times(duration,
          duration + DeltaSum(s2, sid, start, start + 56, Pre) + DeltaSum(s2, sid, start, start + 56, Post),
          WeekTotal(s2, sid, start, start + 7), WeekTotal(s2, sid, start + 7, start + 14),
          WeekTotal(s2, sid, start + 14, start + 21), WeekTotal(s2, sid, start + 21, start + 56))
  }

  /** The PartnerReport values of one participant, in the order of their columns in the report. */
  datatype PartnerRow = PartnerRow(duration: int, overall: int, week1: int, week2: int, week3: int, week4: int,
                                   journeys: nat, standalones: nat, stage: string, adherenceStage: string)

  /**
   What the script computes for `sid` from three readings of the session
   rows: the time totals of TimesOf, then the type counts and the stages,
   which read `s2`.
   */
  function PartnerRowOf(s0: seq<Session>, s1: seq<Session>, s2: seq<Session>, sid: string): PartnerRow {
    var times := TimesOf(s0, s1, s2, sid);
    var summary := StageSummary(StagesOf(s2, sid));
    PartnerRow(times.duration, times.overall, times.week1, times.week2, times.week3, times.week4,
               TypeCount(s2, sid, "Journey"), TypeCount(s2, sid, "Standalone"),
               Strip(summary.0, {'S'}), summary.1)
  }

  /** The values the script computes for `sid` from its PartnerReport. */
  function PartnerValues(partner: Table, sid: string): PartnerRow
    requires Rectangular(partner.columns, partner.rows)
  {
    PartnerRowOf(LoadedSessions(partner), CoercedSessions(partner), CleanedView(partner), sid)
  }

  /**
   For readings that agree as the script's three do, a participant's total
   with snapshots is the sum of its four weekly totals.
   */
  lemma TimesTile(s0: seq<Session>, s1: seq<Session>, s2: seq<Session>, sid: string)
    requires SameKeys(s0, s1) && SameDurations(s1, s2)
    ensures TimesOf(s0, s1, s2, sid).overall ==
              TimesOf(s0, s1, s2, sid).week1 + TimesOf(s0, s1, s2, sid).week2
              + TimesOf(s0, s1, s2, sid).week3 + TimesOf(s0, s1, s2, sid).week4
  {
    var start := EarliestStart(s0, sid);
    TimesFields(s0, s1, s2, sid, start);
    TilesFrom(s0, s1, s2, sid, start);
  }

  /**
   One participant's entries of the vectors the script computes, each the
   total its loop promises, are the participant's `TimesOf`, and they tile.
   */
  lemma TimesFromVectors(s0: seq<Session>, s1: seq<Session>, s2: seq<Session>, sid: string,
                         start: int, e1: int, e2: int, e3: int, e4: int,
                         duration: int, pre: int, post: int, overall: int, w1: int, w2: int, w3: int, w4: int)
    requires SameKeys(s0, s1) && SameDurations(s1, s2)
    requires start == EarliestStart(s0, sid)
    requires e1 == start + 7 && e2 == start + 14 && e3 == start + 21 && e4 == start + 56
    requires duration == DurationSum(s1, sid, None, e4)
    requires pre == DeltaSum(s2, sid, start, e4, Pre) && post == DeltaSum(s2, sid, start, e4, Post)
    requires overall == duration + pre + post
    requires w1 == WeekTotal(s2, sid, start, e1) && w2 == WeekTotal(s2, sid, e1, e2)
    requires w3 == WeekTotal(s2, sid, e2, e3) && w4 == WeekTotal(s2, sid, e3, e4)
    ensures TimesOf(s0, s1, s2, sid) == Times(duration, overall, w1, w2, w3, w4)
    ensures overall == w1 + w2 + w3 + w4
  {
    TimesFields(s0, s1, s2, sid, start);
    TilesFrom(s0, s1, s2, sid, start);
  }

  /** The fields of `TimesOf`, for the cut-offs written out from a participant's first session. */
  lemma TimesFields(s0: seq<Session>, s1: seq<Session>, s2: seq<Session>, sid: string, start: int)
    requires start == EarliestStart(s0, sid)
    ensures TimesOf(s0, s1, s2, sid).duration == DurationSum(s1, sid, None, start + 56)
    ensures TimesOf(s0, s1, s2, sid).overall == DurationSum(s1, sid, None, start + 56)
              + DeltaSum(s2, sid, start, start + 56, Pre) + DeltaSum(s2, sid, start, start + 56, Post)
    ensures TimesOf(s0, s1, s2, sid).week1 == WeekTotal(s2, sid, start, start + 7)
    ensures TimesOf(s0, s1, s2, sid).week2 == WeekTotal(s2, sid, start + 7, start + 14)
    ensures TimesOf(s0, s1, s2, sid).week3 == WeekTotal(s2, sid, start + 14, start + 21)
    ensures TimesOf(s0, s1, s2, sid).week4 == WeekTotal(s2, sid, start + 21, start + 56)
  {
  }

  /** The same tiling, for the cut-offs written out from a participant's first session. */
  lemma TilesFrom(s0: seq<Session>, s1: seq<Session>, s2: seq<Session>, sid: string, start: int)
    requires SameKeys(s0, s1) && SameDurations(s1, s2)
    requires start == EarliestStart(s0, sid)
    ensures DurationSum(s1, sid, None, start + 56)
            + DeltaSum(s2, sid, start, start + 56, Pre) + DeltaSum(s2, sid, start, start + 56, Post)
            == WeekTotal(s2, sid, start, start + 7) + WeekTotal(s2, sid, start + 7, start + 14)
               + WeekTotal(s2, sid, start + 14, start + 21) + WeekTotal(s2, sid, start + 21, start + 56)
  {
    SameKeysTransitive(s0, s1, s2);
    EarliestSameKeys(s0, s2, sid);
    DurationSumSameDurations(s1, s2, sid, None, start + 56);
    OverallIsSumOfWeeks(s2, sid, start, start + 7, start + 14, start + 21, start + 56);
  }

  /**
   The three readings of the PartnerReport rows the script's loops see: as
   loaded, after the two `safe_int_column` calls, and after the snapshot
   cleaning, which normalises every session's four snapshots. They agree on
   every session's participant and start date, and the last two on its
   duration.
   */
  method CleanedSessions(partner: Table) returns (sessions0: seq<Session>, sessions1: seq<Session>, sessions2: seq<Session>)
    requires Rectangular(partner.columns, partner.rows)
    ensures sessions0 == LoadedSessions(partner)
    ensures sessions1 == CoercedSessions(partner)
    ensures sessions2 == CleanedView(partner)
    ensures SameKeys(sessions0, sessions1) && SameDurations(sessions1, sessions2)
  {
    var frame := new PartnerFrame(partner);
    sessions0 := frame.Sessions();
    frame.CoerceNumericColumns();
    sessions1 := frame.Sessions();
    frame.NormalizeSnapshots();
    sessions2 := frame.Sessions();
    assert sessions2 == CleanedOf(sessions1);
    CleanedKeepsDurations(sessions1);
  }

  /**
   The time totals per listed participant, from the three views of the
   PartnerReport: the duration total over the eight weeks from the earliest
   start, the total with snapshots, and the four weekly totals, whose sum
   is the total with snapshots.
   */
  method TimeTotals(sessions0: seq<Session>, sessions1: seq<Session>, sessions2: seq<Session>, sids: seq<string>)
    returns (durationSums: seq<int>, overall: seq<int>, weeks: seq<seq<int>>)
    requires SameKeys(sessions0, sessions1) && SameDurations(sessions1, sessions2)
    ensures |durationSums| == |overall| == |sids|
    ensures |weeks| == 4 && forall w :: 0 <= w < 4 ==> |weeks[w]| == |sids|
    ensures forall q :: 0 <= q < |sids| ==>
              TimesOf(sessions0, sessions1, sessions2, sids[q])
              == Times(durationSums[q], overall[q], weeks[0][q], weeks[1][q], weeks[2][q], weeks[3][q])
    ensures forall q :: 0 <= q < |sids| ==> overall[q] == weeks[0][q] + weeks[1][q] + weeks[2][q] + weeks[3][q]
  {
    // earliest start per participant and the week cutoffs, from the rows as loaded
    var earliest := EarliestStarts(sessions0, sids);
    var starts, week1, week2, week3, week4 := WeekCutoffs(earliest, sids);
    forall q | 0 <= q < |sids| ensures starts[q] == EarliestStart(sessions0, sids[q]) {
      assert sids[q] in sids;
    }
    // the overall duration totals, after the duration coercion
    durationSums := SessionDurationTotals(sessions1, sids, week4);

    // snapshot deltas, overall and weekly totals
    var deltaPre := ComputeDeltaSnap(sessions2, sids, week4, Pre, starts);
    var deltaPost := ComputeDeltaSnap(sessions2, sids, week4, Post, starts);
    overall := AddSnapshots(durationSums, deltaPre, deltaPost);
    var week1Total := ComputeWeeklyDuration(sessions2, sids, week1, starts);
    var week2Total := ComputeWeeklyDuration(sessions2, sids, week2, week1);
    var week3Total := ComputeWeeklyDuration(sessions2, sids, week3, week2);
    var week4Total := ComputeWeeklyDuration(sessions2, sids, week4, week3);
    weeks := [week1Total, week2Total, week3Total, week4Total];
    forall q | 0 <= q < |sids|
      ensures overall[q] == weeks[0][q] + weeks[1][q] + weeks[2][q] + weeks[3][q]
      ensures TimesOf(sessions0, sessions1, sessions2, sids[q])
              == Times(durationSums[q], overall[q], weeks[0][q], weeks[1][q], weeks[2][q], weeks[3][q])
    {
      TimesFromVectors(sessions0, sessions1, sessions2, sids[q], starts[q], week1[q], week2[q], week3[q], week4[q],
                       durationSums[q], deltaPre[q], deltaPost[q], overall[q],
                       week1Total[q], week2Total[q], week3Total[q], week4Total[q]);
    }
  }

  /**
   The PartnerReport half of the script. It gives, per listed participant,
   the duration total, the total with snapshots, the four weekly totals,
   the session type counts and the stage columns; the total with snapshots
   is the sum of the four weekly totals.
   */
  method PartnerSummaries(partner: Table, sids: seq<string>)
    returns (durationSums: seq<int>, overall: seq<int>, weeks: seq<seq<int>>,
             journeys: seq<nat>, standalones: seq<nat>, stages: seq<string>, adherenceStage: seq<string>)
    requires Rectangular(partner.columns, partner.rows)
    ensures |durationSums| == |overall| == |journeys| == |standalones| == |stages| == |adherenceStage| == |sids|
    ensures |weeks| == 4 && forall w :: 0 <= w < 4 ==> |weeks[w]| == |sids|
    ensures forall q :: 0 <= q < |sids| ==> overall[q] == weeks[0][q] + weeks[1][q] + weeks[2][q] + weeks[3][q]
    ensures forall q :: 0 <= q < |sids| ==> adherenceStage[q] == "0" || adherenceStage[q] == "1"
    ensures forall q :: 0 <= q < |sids| ==>
              PartnerValues(partner, sids[q])
              == PartnerRow(durationSums[q], overall[q], weeks[0][q], weeks[1][q], weeks[2][q], weeks[3][q],
                            journeys[q], standalones[q], stages[q], adherenceStage[q])
  {
    var sessions0, sessions1, sessions2 := CleanedSessions(partner);
    durationSums, overall, weeks, journeys, standalones, stages, adherenceStage :=
      ParticipantValues(sessions0, sessions1, sessions2, sids);
    forall q | 0 <= q < |sids|
      ensures PartnerValues(partner, sids[q]) == PartnerRowOf(sessions0, sessions1, sessions2, sids[q])
    {
    }
  }

  /**
   The PartnerReport vectors, read from the three readings of the session
   rows: per listed sid, the values PartnerRowOf gives it.
   */
  method ParticipantValues(sessions0: seq<Session>, sessions1: seq<Session>, sessions2: seq<Session>, sids: seq<string>)
    returns (durationSums: seq<int>, overall: seq<int>, weeks: seq<seq<int>>,
             journeys: seq<nat>, standalones: seq<nat>, stages: seq<string>, adherenceStage: seq<string>)
    requires SameKeys(sessions0, sessions1) && SameDurations(sessions1, sessions2)
    ensures |durationSums| == |overall| == |journeys| == |standalones| == |stages| == |adherenceStage| == |sids|
    ensures |weeks| == 4 && forall w :: 0 <= w < 4 ==> |weeks[w]| == |sids|
    ensures forall q :: 0 <= q < |sids| ==> overall[q] == weeks[0][q] + weeks[1][q] + weeks[2][q] + weeks[3][q]
    ensures forall q :: 0 <= q < |sids| ==> adherenceStage[q] == "0" || adherenceStage[q] == "1"
    ensures forall q :: 0 <= q < |sids| ==>
              PartnerRowOf(sessions0, sessions1, sessions2, sids[q])
              == PartnerRow(durationSums[q], overall[q], weeks[0][q], weeks[1][q], weeks[2][q], weeks[3][q],
                            journeys[q], standalones[q], stages[q], adherenceStage[q])
  {
    durationSums, overall, weeks := TimeTotals(sessions0, sessions1, sessions2, sids);
    journeys, standalones, stages, adherenceStage := SessionSummaries(sessions2, sids);
    forall q | 0 <= q < |sids|
      ensures PartnerRowOf(sessions0, sessions1, sessions2, sids[q])
              == PartnerRow(durationSums[q], overall[q], weeks[0][q], weeks[1][q], weeks[2][q], weeks[3][q],
                            journeys[q], standalones[q], stages[q], adherenceStage[q])
    {
      PartnerRowFields(sessions0, sessions1, sessions2, sids[q],
                       durationSums[q], overall[q], weeks[0][q], weeks[1][q], weeks[2][q], weeks[3][q],
                       journeys[q], standalones[q], stages[q], adherenceStage[q]);
    }
  }

  /** The session type counts and the stage columns per listed sid, read from the cleaned rows. */
  method SessionSummaries(sessions: seq<Session>, sids: seq<string>)
    returns (journeys: seq<nat>, standalones: seq<nat>, stages: seq<string>, adherenceStage: seq<string>)
    ensures |journeys| == |standalones| == |stages| == |adherenceStage| == |sids|
    ensures forall q :: 0 <= q < |sids| ==>
              && journeys[q] == TypeCount(sessions, sids[q], "Journey")
              && standalones[q] == TypeCount(sessions, sids[q], "Standalone")
              && stages[q] == Strip(StageSummary(StagesOf(sessions, sids[q])).0, {'S'})
              && adherenceStage[q] == StageSummary(StagesOf(sessions, sids[q])).1
              && (adherenceStage[q] == "0" || adherenceStage[q] == "1")
  {
    standalones, journeys := CountSessionTypes(sessions, sids);
    var stageMax;
    stageMax, adherenceStage := SessionStages(sessions, sids);
    stages := StripStages(stageMax);
    forall q | 0 <= q < |sids|
      ensures stages[q] == Strip(StageSummary(StagesOf(sessions, sids[q])).0, {'S'})
      ensures adherenceStage[q] == StageSummary(StagesOf(sessions, sids[q])).1
    {
      assert (stageMax[q], adherenceStage[q]) == StageSummary(StagesOf(sessions, sids[q]));
    }
  }

  /** The time totals, type counts and stages the script computes for `sid` make up its row. */
  lemma PartnerRowFields(s0: seq<Session>, s1: seq<Session>, s2: seq<Session>, sid: string,
                         duration: int, overall: int, w1: int, w2: int, w3: int, w4: int,
                         journeys: nat, standalones: nat, stage: string, adherenceStage: string)
    requires TimesOf(s0, s1, s2, sid) == Times(duration, overall, w1, w2, w3, w4)
    requires journeys == TypeCount(s2, sid, "Journey") && standalones == TypeCount(s2, sid, "Standalone")
    requires stage == Strip(StageSummary(StagesOf(s2, sid)).0, {'S'}) && adherenceStage == StageSummary(StagesOf(s2, sid)).1
    ensures PartnerRowOf(s0, s1, s2, sid) == PartnerRow(duration, overall, w1, w2, w3, w4, journeys, standalones, stage, adherenceStage)
  {
  }

  /** The fifteen data vectors, in the order of the titles, before their headers are inserted. */
  method DataVectors(sids: seq<string>,
                     randomization: seq<Option<string>>, mriComp2: seq<Option<string>>,
                     week4Comp: seq<Option<string>>, debriefedComp: seq<Option<string>>,
                     durationSums: seq<int>, overall: seq<int>, weeks: seq<seq<int>>,
                     journeys: seq<nat>, standalones: seq<nat>, stages: seq<string>, adherenceStage: seq<string>)
    returns (data: seq<seq<Cell>>)
    requires |randomization| == |mriComp2| == |week4Comp| == |debriefedComp| == |sids|
    requires |durationSums| == |overall| == |journeys| == |standalones| == |stages| == |adherenceStage| == |sids|
    requires |weeks| == 4 && forall w :: 0 <= w < 4 ==> |weeks[w]| == |sids|
    ensures |data| == 15 && forall j :: 0 <= j < 15 ==> |data[j]| == |sids|
    ensures data[0] == Texts(sids) && data[1] == Options(randomization) && data[2] == Options(mriComp2)
    ensures data[3] == Options(week4Comp) && data[4] == Options(debriefedComp) && data[5] == Numbers(durationSums)
    ensures data[6] == Numbers(overall) && data[7] == Numbers(weeks[0]) && data[8] == Numbers(weeks[1])
    ensures data[9] == Numbers(weeks[2]) && data[10] == Numbers(weeks[3]) && data[11] == Numbers(journeys)
    ensures data[12] == Numbers(standalones) && data[13] == Texts(stages) && data[14] == Texts(adherenceStage)
  {
    data := [Texts(sids), Options(randomization), Options(mriComp2), Options(week4Comp), Options(debriefedComp),
             Numbers(durationSums), Numbers(overall),
             Numbers(weeks[0]), Numbers(weeks[1]), Numbers(weeks[2]), Numbers(weeks[3]),
             Numbers(journeys), Numbers(standalones), Texts(stages), Texts(adherenceStage)];
  }

  /**
   The report rows for `n` listed participants and their data vectors under
   the fifteen column `titles`: `n` rows of eighteen cells, the titles first,
   then the participants in order except the last; each row's cells are that
   participant's entries.
   */
  method Assemble(titles: seq<string>, sids: seq<string>,
                  randomization: seq<Option<string>>, mriComp2: seq<Option<string>>,
                  week4Comp: seq<Option<string>>, debriefedComp: seq<Option<string>>,
                  durationSums: seq<int>, overall: seq<int>, weeks: seq<seq<int>>,
                  journeys: seq<nat>, standalones: seq<nat>, stages: seq<string>, adherenceStage: seq<string>,
                  zone: Cell, counts: (Cell, Cell), adherence: (Cell, Cell))
    returns (rows: seq<seq<Cell>>)
    requires |titles| == 15 && |sids| > 0
    requires |randomization| == |mriComp2| == |week4Comp| == |debriefedComp| == |sids|
    requires |durationSums| == |overall| == |journeys| == |standalones| == |stages| == |adherenceStage| == |sids|
    requires |weeks| == 4 && forall w :: 0 <= w < 4 ==> |weeks[w]| == |sids|
    ensures |rows| == |sids|
    ensures forall i :: 0 <= i < |rows| ==> |rows[i]| == 18
    ensures rows[0][..3] == [zone, counts.0, adherence.0]
    ensures rows[0][3..] == Texts(titles)
    ensures |rows| > 1 ==> rows[1][..3] == [Text(""), counts.1, adherence.1]
    ensures forall i :: 1 <= i < |rows| ==>
              && rows[i][3] == Text(sids[i - 1]) && rows[i][4] == OptionCell(randomization[i - 1])
              && rows[i][5] == OptionCell(mriComp2[i - 1]) && rows[i][6] == OptionCell(week4Comp[i - 1])
              && rows[i][7] == OptionCell(debriefedComp[i - 1])
              && rows[i][8] == Number(durationSums[i - 1]) && rows[i][9] == Number(overall[i - 1])
              && rows[i][10] == Number(weeks[0][i - 1]) && rows[i][11] == Number(weeks[1][i - 1])
              && rows[i][12] == Number(weeks[2][i - 1]) && rows[i][13] == Number(weeks[3][i - 1])
              && rows[i][14] == Number(journeys[i - 1]) && rows[i][15] == Number(standalones[i - 1])
              && rows[i][16] == Text(stages[i - 1]) && rows[i][17] == Text(adherenceStage[i - 1])
  {
    var n := |sids|;
    var data := DataVectors(sids, randomization, mriComp2, week4Comp, debriefedComp,
                            durationSums, overall, weeks, journeys, standalones, stages, adherenceStage);
    rows := ZipVectors(n, zone, counts, adherence, titles, data);
    forall i | 1 <= i < n
      ensures rows[i][3] == Text(sids[i - 1]) && rows[i][4] == OptionCell(randomization[i - 1])
      ensures rows[i][5] == OptionCell(mriComp2[i - 1]) && rows[i][6] == OptionCell(week4Comp[i - 1])
      ensures rows[i][7] == OptionCell(debriefedComp[i - 1])
      ensures rows[i][8] == Number(durationSums[i - 1]) && rows[i][9] == Number(overall[i - 1])
      ensures rows[i][10] == Number(weeks[0][i - 1]) && rows[i][11] == Number(weeks[1][i - 1])
      ensures rows[i][12] == Number(weeks[2][i - 1]) && rows[i][13] == Number(weeks[3][i - 1])
      ensures rows[i][14] == Number(journeys[i - 1]) && rows[i][15] == Number(standalones[i - 1])
      ensures rows[i][16] == Text(stages[i - 1]) && rows[i][17] == Text(adherenceStage[i - 1])
    {
      assert rows[i][3] == data[0][i - 1] && rows[i][4] == data[1][i - 1] && rows[i][5] == data[2][i - 1];
      assert rows[i][6] == data[3][i - 1] && rows[i][7] == data[4][i - 1] && rows[i][8] == data[5][i - 1];
      assert rows[i][9] == data[6][i - 1] && rows[i][10] == data[7][i - 1] && rows[i][11] == data[8][i - 1];
      assert rows[i][12] == data[9][i - 1] && rows[i][13] == data[10][i - 1] && rows[i][14] == data[11][i - 1];
      assert rows[i][15] == data[12][i - 1] && rows[i][16] == data[13][i - 1] && rows[i][17] == data[14][i - 1];
    }
  }

  /** The four `gatherdata` calls of the script. */
  method RedcapFields(redcap: Table, sids: seq<string>)
    returns (randomization: seq<Option<string>>, mriComp2: seq<Option<string>>,
             week4Comp: seq<Option<string>>, debriefedComp: seq<Option<string>>)
    requires Rectangular(redcap.columns, redcap.rows)
    ensures randomization == Randomization(redcap, sids)
    ensures |mriComp2| == |week4Comp| == |debriefedComp| == |sids|
    ensures forall i :: 0 <= i < |sids| ==>
              && mriComp2[i] == Gathered(redcap, sids[i], "mri_comp_2", "day_1_arm_1")
              && week4Comp[i] == Gathered(redcap, sids[i], "week_4_8_questionnaires_complete", "week_4_arm_1")
              && debriefedComp[i] == Gathered(redcap, sids[i], "week_4_debriefing_complete", "week_4_arm_1")
  {
    randomization := GatherData(redcap, sids, "randomization", "day_1_arm_1");
    mriComp2 := GatherData(redcap, sids, "mri_comp_2", "day_1_arm_1");
    week4Comp := GatherData(redcap, sids, "week_4_8_questionnaires_complete", "week_4_arm_1");
    debriefedComp := GatherData(redcap, sids, "week_4_debriefing_complete", "week_4_arm_1");
  }

  /**
   The classification step: `completed_70` and its four counters, then the
   four weekly flag lists, which the script computes but does not write.
   */
  method Classify(randomization: seq<Option<string>>, overall: seq<int>, weeks: seq<seq<int>>)
    returns (completedMbi: nat, completedControl: nat, totalMbi: nat, totalControl: nat)
    requires |overall| == |randomization|
    requires |weeks| == 4 && forall w :: 0 <= w < 4 ==> |weeks[w]| == |randomization|
    ensures totalMbi == GroupCount(randomization, "0") && totalControl == GroupCount(randomization, "1")
    ensures completedMbi == CompletedCount(randomization, overall, "0", Modules1to4Sum) <= totalMbi
    ensures completedControl == CompletedCount(randomization, overall, "1", ControlLen) <= totalControl
  {
    var completed70;
    completed70, completedMbi, completedControl, totalMbi, totalControl := Completed70(randomization, overall);
    Flags70Counts(randomization, overall);
    var week1Adh := CompletedWeekly(randomization, weeks[0]);
    var week2Adh := CompletedWeekly(randomization, weeks[1]);
    var week3Adh := CompletedWeekly(randomization, weeks[2]);
    var week4Adh := CompletedWeekly(randomization, weeks[3]);
  }

  /**
   What the written report promises: one row per listed participant and
   eighteen cells per row; the titles in the first row; the participants
   in order from the second row on, so that `zip` has dropped the last;
   and in each participant's row the duration including snapshots is the
   sum of the four weekly durations.
   */
  predicate WrittenReport(rows: seq<seq<Cell>>, sids: seq<string>) {
    && |rows| == |sids| > 0
    && (forall i :: 0 <= i < |rows| ==> |rows[i]| == 18)
    && rows[0][3..] == Texts(Headers())
    && (forall i :: 1 <= i < |rows| ==> rows[i][3] == Text(sids[i - 1]))
    && forall i :: 1 <= i < |rows| ==>
         && rows[i][9].Number? && rows[i][10].Number? && rows[i][11].Number?
         && rows[i][12].Number? && rows[i][13].Number?
         && rows[i][9].value == rows[i][10].value + rows[i][11].value + rows[i][12].value + rows[i][13].value
  }

  /** Rows carrying the titles, the sids and the totals of each participant are a written report. */
  lemma WrittenRows(rows: seq<seq<Cell>>, sids: seq<string>, overall: seq<int>, weeks: seq<seq<int>>)
    requires |rows| == |sids| > 0 && |overall| == |sids|
    requires |weeks| == 4 && forall w :: 0 <= w < 4 ==> |weeks[w]| == |sids|
    requires forall q :: 0 <= q < |sids| ==> overall[q] == weeks[0][q] + weeks[1][q] + weeks[2][q] + weeks[3][q]
    requires forall i :: 0 <= i < |rows| ==> |rows[i]| == 18
    requires rows[0][3..] == Texts(Headers())
    requires forall i :: 1 <= i < |rows| ==>
               && rows[i][3] == Text(sids[i - 1]) && rows[i][9] == Number(overall[i - 1])
               && rows[i][10] == Number(weeks[0][i - 1]) && rows[i][11] == Number(weeks[1][i - 1])
               && rows[i][12] == Number(weeks[2][i - 1]) && rows[i][13] == Number(weeks[3][i - 1])
    ensures WrittenReport(rows, sids)
  {
  }

  /**
   The values in one participant's row of the written report: its sid, its
   four REDCap answers looked up by sid and event, then what its
   PartnerReport sessions give it.
   */
  predicate ParticipantRow(row: seq<Cell>, redcap: Table, sid: string, partner: Table)
    requires Rectangular(redcap.columns, redcap.rows) && Rectangular(partner.columns, partner.rows)
  {
    var p := PartnerValues(partner, sid);
    && |row| == 18 && row[3] == Text(sid)
    && row[4] == OptionCell(Gathered(redcap, sid, "randomization", "day_1_arm_1"))
    && row[5] == OptionCell(Gathered(redcap, sid, "mri_comp_2", "day_1_arm_1"))
    && row[6] == OptionCell(Gathered(redcap, sid, "week_4_8_questionnaires_complete", "week_4_arm_1"))
    && row[7] == OptionCell(Gathered(redcap, sid, "week_4_debriefing_complete", "week_4_arm_1"))
    && row[8] == Number(p.duration) && row[9] == Number(p.overall)
    && row[10] == Number(p.week1) && row[11] == Number(p.week2)
    && row[12] == Number(p.week3) && row[13] == Number(p.week4)
    && row[14] == Number(p.journeys) && row[15] == Number(p.standalones)
    && row[16] == Text(p.stage) && row[17] == Text(p.adherenceStage)
  }

  /** The `overall_time` vector: per listed sid, its total with snapshots. */
  function Overalls(partner: Table, sids: seq<string>): (o: seq<int>)
    requires Rectangular(partner.columns, partner.rows)
    ensures |o| == |sids| && forall q :: 0 <= q < |sids| ==> o[q] == PartnerValues(partner, sids[q]).overall
  {
    seq(|sids|, q requires 0 <= q < |sids| => PartnerValues(partner, sids[q]).overall)
  }

  /**
   The labels of the written report, from the tables: the groups are the
   randomization answers, the completions count the totals with snapshots
   of each group above seventy percent of its programme length.
   */
  predicate ReportLabels(rows: seq<seq<Cell>>, redcap: Table, sids: seq<string>, partner: Table)
    requires Rectangular(redcap.columns, redcap.rows) && Rectangular(partner.columns, partner.rows)
  {
    var groups := Randomization(redcap, sids);
    var overall := Overalls(partner, sids);
    var completedMbi := CompletedCount(groups, overall, "0", Modules1to4Sum);
    var completedControl := CompletedCount(groups, overall, "1", ControlLen);
    var totalMbi := GroupCount(groups, "0");
    var totalControl := GroupCount(groups, "1");
    && |rows| > 0 && |rows[0]| >= 3
    && rows[0][..3] == [Label(ZoneCaption(completedMbi, completedControl, totalMbi, totalControl)),
                        Label(CountCaption(GroupA, totalMbi)), Label(AdherenceCaption(GroupA, completedMbi, totalMbi))]
    && (|rows| > 1 ==>
          |rows[1]| >= 3
          && rows[1][..3] == [Text(""), Label(CountCaption(GroupB, totalControl)),
                              Label(AdherenceCaption(GroupB, completedControl, totalControl))])
  }

  /** Every value of the written report, in terms of the two tables and the listed sids. */
  predicate ReportValues(rows: seq<seq<Cell>>, redcap: Table, sids: seq<string>, partner: Table)
    requires Rectangular(redcap.columns, redcap.rows) && Rectangular(partner.columns, partner.rows)
  {
    && |rows| == |sids|
    && ReportLabels(rows, redcap, sids, partner)
    && forall i :: 1 <= i < |rows| ==> ParticipantRow(rows[i], redcap, sids[i - 1], partner)
  }

  /**
   The rows the script writes: the labels of the two groups in the first
   three columns of the title row, then the titled data columns.
   */
  method WriteRows(sids: seq<string>, randomization: seq<Option<string>>, mriComp2: seq<Option<string>>,
                   week4Comp: seq<Option<string>>, debriefedComp: seq<Option<string>>,
                   durationSums: seq<int>, overall: seq<int>, weeks: seq<seq<int>>,
                   journeys: seq<nat>, standalones: seq<nat>, stages: seq<string>, adherenceStage: seq<string>,
                   completedMbi: nat, completedControl: nat, totalMbi: nat, totalControl: nat)
    returns (rows: seq<seq<Cell>>)
    requires |sids| > 0 && totalMbi > 0
    requires |randomization| == |mriComp2| == |week4Comp| == |debriefedComp| == |sids|
    requires |durationSums| == |overall| == |journeys| == |standalones| == |stages| == |adherenceStage| == |sids|
    requires |weeks| == 4 && forall w :: 0 <= w < 4 ==> |weeks[w]| == |sids|
    requires forall q :: 0 <= q < |sids| ==> overall[q] == weeks[0][q] + weeks[1][q] + weeks[2][q] + weeks[3][q]
    ensures WrittenReport(rows, sids)
    ensures rows[0][..3] == [Label(ZoneCaption(completedMbi, completedControl, totalMbi, totalControl)),
                             Label(CountCaption(GroupA, totalMbi)), Label(AdherenceCaption(GroupA, completedMbi, totalMbi))]
    ensures |rows| > 1 ==>
              rows[1][..3] == [Text(""), Label(CountCaption(GroupB, totalControl)),
                               Label(AdherenceCaption(GroupB, completedControl, totalControl))]
    ensures forall i :: 1 <= i < |rows| ==>
              && rows[i][4] == OptionCell(randomization[i - 1])
              && rows[i][5] == OptionCell(mriComp2[i - 1]) && rows[i][6] == OptionCell(week4Comp[i - 1])
              && rows[i][7] == OptionCell(debriefedComp[i - 1])
              && rows[i][8] == Number(durationSums[i - 1]) && rows[i][9] == Number(overall[i - 1])
              && rows[i][10] == Number(weeks[0][i - 1]) && rows[i][11] == Number(weeks[1][i - 1])
              && rows[i][12] == Number(weeks[2][i - 1]) && rows[i][13] == Number(weeks[3][i - 1])
              && rows[i][14] == Number(journeys[i - 1]) && rows[i][15] == Number(standalones[i - 1])
              && rows[i][16] == Text(stages[i - 1]) && rows[i][17] == Text(adherenceStage[i - 1])
  {
    var zone := Label(ZoneCaption(completedMbi, completedControl, totalMbi, totalControl));
    var counts := (Label(CountCaption(GroupA, totalMbi)), Label(CountCaption(GroupB, totalControl)));
    var adherence := (Label(AdherenceCaption(GroupA, completedMbi, totalMbi)),
                      Label(AdherenceCaption(GroupB, completedControl, totalControl)));
    rows := Assemble(Headers(), sids, randomization, mriComp2, week4Comp, debriefedComp, durationSums, overall, weeks,
                     journeys, standalones, stages, adherenceStage, zone, counts, adherence);
    WrittenRows(rows, sids, overall, weeks);
  }

  /** The label cells `WriteRows` writes from the counts are the labels of the two tables. */
  lemma LabelsFromTables(rows: seq<seq<Cell>>, redcap: Table, sids: seq<string>, partner: Table,
                         randomization: seq<Option<string>>, overall: seq<int>,
                         completedMbi: nat, completedControl: nat, totalMbi: nat, totalControl: nat)
    requires Rectangular(redcap.columns, redcap.rows) && Rectangular(partner.columns, partner.rows)
    requires randomization == Randomization(redcap, sids)
    requires overall == Overalls(partner, sids)
    requires totalMbi == GroupCount(randomization, "0") && totalControl == GroupCount(randomization, "1")
    requires completedMbi == CompletedCount(randomization, overall, "0", Modules1to4Sum)
    requires completedControl == CompletedCount(randomization, overall, "1", ControlLen)
    requires |rows| == |sids| > 0 && |rows[0]| == 18
    requires rows[0][..3] == [Label(ZoneCaption(completedMbi, completedControl, totalMbi, totalControl)),
                              Label(CountCaption(GroupA, totalMbi)), Label(AdherenceCaption(GroupA, completedMbi, totalMbi))]
    requires |rows| > 1 ==>
               |rows[1]| == 18
               && rows[1][..3] == [Text(""), Label(CountCaption(GroupB, totalControl)),
                                   Label(AdherenceCaption(GroupB, completedControl, totalControl))]
    ensures ReportLabels(rows, redcap, sids, partner)
  {
  }

  /** The overall times PartnerSummaries collects are the overall times of the PartnerReport. */
  lemma OverallsFromSummaries(partner: Table, sids: seq<string>,
                              durationSums: seq<int>, overall: seq<int>, weeks: seq<seq<int>>,
                              journeys: seq<nat>, standalones: seq<nat>, stages: seq<string>, adherenceStage: seq<string>)
    requires Rectangular(partner.columns, partner.rows)
    requires |durationSums| == |overall| == |journeys| == |standalones| == |stages| == |adherenceStage| == |sids|
    requires |weeks| == 4 && forall w :: 0 <= w < 4 ==> |weeks[w]| == |sids|
    requires forall q :: 0 <= q < |sids| ==>
               PartnerValues(partner, sids[q])
               == PartnerRow(durationSums[q], overall[q], weeks[0][q], weeks[1][q], weeks[2][q], weeks[3][q],
                             journeys[q], standalones[q], stages[q], adherenceStage[q])
    ensures overall == Overalls(partner, sids)
  {
    forall q | 0 <= q < |sids|
      ensures overall[q] == PartnerValues(partner, sids[q]).overall
    {
    }
  }

  /** The participant cells `WriteRows` writes from the vectors are the values of the two tables. */
  lemma RowsFromTables(rows: seq<seq<Cell>>, redcap: Table, sids: seq<string>, partner: Table,
                       randomization: seq<Option<string>>, mriComp2: seq<Option<string>>,
                       week4Comp: seq<Option<string>>, debriefedComp: seq<Option<string>>,
                       durationSums: seq<int>, overall: seq<int>, weeks: seq<seq<int>>,
                       journeys: seq<nat>, standalones: seq<nat>, stages: seq<string>, adherenceStage: seq<string>)
    requires Rectangular(redcap.columns, redcap.rows) && Rectangular(partner.columns, partner.rows)
    requires randomization == Randomization(redcap, sids)
    requires |mriComp2| == |week4Comp| == |debriefedComp| == |sids|
    requires forall i :: 0 <= i < |sids| ==>
               && mriComp2[i] == Gathered(redcap, sids[i], "mri_comp_2", "day_1_arm_1")
               && week4Comp[i] == Gathered(redcap, sids[i], "week_4_8_questionnaires_complete", "week_4_arm_1")
               && debriefedComp[i] == Gathered(redcap, sids[i], "week_4_debriefing_complete", "week_4_arm_1")
    requires |durationSums| == |overall| == |journeys| == |standalones| == |stages| == |adherenceStage| == |sids|
    requires |weeks| == 4 && forall w :: 0 <= w < 4 ==> |weeks[w]| == |sids|
    requires forall q :: 0 <= q < |sids| ==>
               PartnerValues(partner, sids[q])
               == PartnerRow(durationSums[q], overall[q], weeks[0][q], weeks[1][q], weeks[2][q], weeks[3][q],
                             journeys[q], standalones[q], stages[q], adherenceStage[q])
    requires WrittenReport(rows, sids)
    requires forall i :: 1 <= i < |rows| ==>
               && rows[i][4] == OptionCell(randomization[i - 1])
               && rows[i][5] == OptionCell(mriComp2[i - 1]) && rows[i][6] == OptionCell(week4Comp[i - 1])
               && rows[i][7] == OptionCell(debriefedComp[i - 1])
               && rows[i][8] == Number(durationSums[i - 1]) && rows[i][9] == Number(overall[i - 1])
               && rows[i][10] == Number(weeks[0][i - 1]) && rows[i][11] == Number(weeks[1][i - 1])
               && rows[i][12] == Number(weeks[2][i - 1]) && rows[i][13] == Number(weeks[3][i - 1])
               && rows[i][14] == Number(journeys[i - 1]) && rows[i][15] == Number(standalones[i - 1])
               && rows[i][16] == Text(stages[i - 1]) && rows[i][17] == Text(adherenceStage[i - 1])
    ensures forall i :: 1 <= i < |rows| ==> ParticipantRow(rows[i], redcap, sids[i - 1], partner)
  {
    forall i | 1 <= i < |rows|
      ensures ParticipantRow(rows[i], redcap, sids[i - 1], partner)
    {
      var q := i - 1;
      assert PartnerValues(partner, sids[q])
             == PartnerRow(durationSums[q], overall[q], weeks[0][q], weeks[1][q], weeks[2][q], weeks[3][q],
                           journeys[q], standalones[q], stages[q], adherenceStage[q]);
    }
  }

  /**
   The script once the key columns of both tables are known to be there:
   it stops on a division by zero exactly when no listed participant is in
   the MBI group, and otherwise writes the report.
   */
  method ReportFromTables(redcap: Table, sids: seq<string>, partner: Table) returns (result: Outcome)
    requires Rectangular(redcap.columns, redcap.rows) && Rectangular(partner.columns, partner.rows)
    ensures result.Raised? <==> GroupCount(Randomization(redcap, sids), "0") == 0
    ensures result.Raised? ==> result.error == ZeroDivisionError
    ensures result.Written? ==> WrittenReport(result.rows, sids)
    ensures result.Written? ==> ReportValues(result.rows, redcap, sids, partner)
  {
    var randomization, mriComp2, week4Comp, debriefedComp := RedcapFields(redcap, sids);
    var durationSums, overall, weeks, journeys, standalones, stages, adherenceStage := PartnerSummaries(partner, sids);
    var completedMbi, completedControl, totalMbi, totalControl := Classify(randomization, overall, weeks);
    // the zone label divides by the size of the MBI group
    if totalMbi == 0 {
      return Raised(ZeroDivisionError);
    }
    var rows := WriteRows(sids, randomization, mriComp2, week4Comp, debriefedComp, durationSums, overall, weeks,
                          journeys, standalones, stages, adherenceStage,
                          completedMbi, completedControl, totalMbi, totalControl);
    OverallsFromSummaries(partner, sids, durationSums, overall, weeks, journeys, standalones, stages, adherenceStage);
    LabelsFromTables(rows, redcap, sids, partner, randomization, overall,
                     completedMbi, completedControl, totalMbi, totalControl);
    RowsFromTables(rows, redcap, sids, partner, randomization, mriComp2, week4Comp, debriefedComp,
                   durationSums, overall, weeks, journeys, standalones, stages, adherenceStage);
    result := Written(rows);
  }

  /**
   The script from the loaded tables to the rows it writes: it raises the
   exception `ExpectedFailure` names when there is one, and otherwise
   writes a report as `WrittenReport` describes.
   */
  method AdherenceReport(mbi: Table, sids: seq<string>, partner: Table) returns (result: Outcome)
    requires Rectangular(mbi.columns, mbi.rows) && Rectangular(partner.columns, partner.rows)
    ensures result.Raised? <==> ExpectedFailure(mbi, sids, partner).Some?
    ensures result.Raised? ==> ExpectedFailure(mbi, sids, partner) == Some(result.error)
    ensures result.Written? ==> WrittenReport(result.rows, sids)
    ensures result.Written? ==> ResolvedMbi(mbi).Some? && ReportValues(result.rows, ResolvedMbi(mbi).value, sids, partner)
  {
    // REDCap key columns, with the case-insensitive fallback
    var cols1 := ResolveColumn(mbi.columns, "record_id");
    if cols1.None? {
      return Raised(KeyError("record_id"));
    }
    var cols2 := ResolveColumn(cols1.value, "redcap_event_name");
    if cols2.None? {
      return Raised(KeyError("redcap_event_name"));
    }
    // the PartnerReport columns the first loop reads
    if "session_start_date" !in partner.columns {
      return Raised(KeyError("session_start_date"));
    }
    if "sid" !in partner.columns && |partner.rows| > 0 {
      return Raised(KeyError("sid"));
    }
    assert ResolvedMbi(mbi) == Some(Table(cols2.value, mbi.rows));
    result := ReportFromTables(Table(cols2.value, mbi.rows), sids, partner);
  }
}
