# Adherence report, modelled in Dafny

This project models the adherence report script
`python/adherence_report/adherence_report.py`, and proves properties of the model.
The script takes three inputs:

- the REDCap export `MBIProjectPhase2.csv`, with one row per participant and event;
- the list of participant ids `Outcome_complete.csv`;
- the app's `PartnerReport.csv`, with one row per session.

For every listed participant, the script writes one CSV row holding:

- the REDCap answers, looked up with `gatherdata`;
- the duration total of the eight weeks after the participant's first session;
- the same total with the pre- and post-session snapshot lengths added;
- the four weekly totals;
- the numbers of journey and standalone sessions;
- the highest session stage, and whether it is past S20.

The first row holds the column titles. The first three columns of that row hold the labels:

- the zone label;
- the group counts;
- the group adherence figures.

Each part of the script becomes a module of its own:

- `PyStr`: the Python string operations the script relies on. These are `int()`, `str()`, `strip`, `replace`, `split`/`join`, `in` and `<` on strings.
- `Calendar`: the `datetime` / `strptime` / `toordinal` / `timedelta.seconds` semantics the script uses. It includes the Gregorian day count.
- `Snapshot`: `snapshot_to_standard` and `parse_snapshot_datetime`.
- `Frames` and `Mbi`: the column lookups with the case-insensitive `record_id` / `redcap_event_name` fallback, and `gatherdata`.
- `Partner`: the PartnerReport data frame. It is a class whose `cells` the script changes in place:
  - `safe_int_column` on session_duration and heartrate_pre;
  - the rewrite or creation of the four snapshot columns.

  The `Session` record is how the later loops read a row.
- `Windows`: the earliest-start loop, and the week cutoffs 7, 14, 21 and 56 days later. Dates are day ordinals.
- `Durations`:
  - the capped duration totals;
  - `compute_delta_snap`;
  - the totals with snapshots;
  - `compute_weeklyduration`.
- `Classifier`: `completed_70` with its counters, and `completed_weekly`.
- `Summaries`: the session type counts and the stage maximum.
- `Report`: the labels, the titles, the final `zip` and the whole script (`AdherenceReport`).

What the model follows in the code, as written:

- **Loops.** The script's loops are methods with loops. Each is proved against a recursive specification function (`DurationSum`, `DeltaSum`, `EarliestSoFar`, `TypeCount`, `Flags70`, …), and the properties the script relies on are lemmas about those functions.
- **Tiling of the weeks.** For every participant, the total with snapshots equals the sum of the four weekly totals. The four weekly windows tile the eight weeks that the overall totals cover, and this holds even for rows whose start date cannot be read.
- **Zone label.** The zone percentage follows the code's precedence, `completed_70_mbi + completed_70_control / total_mbi + total_control`, not the evidently intended ratio. The three label `if`s are applied in the code's order, so a later test that holds overrides an earlier one.
- **Zip length.** The zone label vector is one entry shorter than the titled vectors. So `zip` writes exactly as many rows as there are listed participants, and the last participant's row is dropped.
- **Error paths.** The `KeyError`s for missing key columns and the `ZeroDivisionError` for an empty MBI group are modelled as an `Outcome`, in the order the script would meet them.

## Model

| member | source | states |
|---|---|---|
| PyStr.ParseIntOfString | python/adherence_report/adherence_report.py:297 | `int(str(n)) == n` for every natural number, so "0" is always accepted by `int()` |
| PyStr.ParseIntStrips | python/adherence_report/adherence_report.py:297 | `int()` reads the same number with or without surrounding whitespace |
| PyStr.ParseInt | python/adherence_report/adherence_report.py:297 | `int(s)` rejects (the `ValueError`) an empty or all-whitespace string |
| PyStr.ParseIntDigits | python/adherence_report/adherence_report.py:297 | `int()` reads a run of decimal digits, leading zeros included, as the number they spell |
| PyStr.NatToString | python/adherence_report/adherence_report.py:561-562 | `str(n)`: a non-empty run of decimal digits spelling `n`, starting with '0' only for 0 |
| PyStr.ReplaceChar | python/adherence_report/adherence_report.py:313 | `s.replace(a, b)` for single characters: same length, every `a` becomes `b`, every other character kept, and no `a` left when `a != b` |
| PyStr.ContainsIffOccurs | python/adherence_report/adherence_report.py:511-514 | `pat in s` holds exactly when `pat` occurs at some position of `s` |
| PyStr.LexLessTransitive | python/adherence_report/adherence_report.py:532-534 | Python's string `<` is transitive (with LexLessIrreflexive, LexLessAsymmetric, LexLessTotal: a strict total order), so `max` and `> 'S20'` are well defined |
| PyStr.LexLessTotal | python/adherence_report/adherence_report.py:532 | any two strings are equal or ordered one way or the other |
| PyStr.Strip | python/adherence_report/adherence_report.py:540 | `s.strip(chars)` leaves no stripped character at either end and leaves a string without them unchanged |
| PyStr.StripInfix | python/adherence_report/adherence_report.py:540 | `s.strip(chars)` is the infix of `s` that starts at `StripStart(s, chars)`, with only stripped characters before and after it |
| PyStr.SplitJoin | python/adherence_report/adherence_report.py:96 | joining fields with a separator none of them holds and splitting at it again gives the fields back, so the slash-separated date fields are read back as written |
| PyStr.SplitDecimalPair | python/adherence_report/adherence_report.py:567-568 | two numbers written in decimal around a slash split back into the two decimal strings |
| Calendar.ParseDate | python/adherence_report/adherence_report.py:254 | `strptime(s, "%Y/%m/%d")` succeeds only on a valid date |
| Calendar.ParseFormatDate | python/adherence_report/adherence_report.py:254 | every valid date written as "%Y/%m/%d" is read back as itself |
| Calendar.ParseFormatDateTime | python/adherence_report/adherence_report.py:96 | every valid datetime written as "%Y/%m/%d/%H/%M/%S" is read back as itself |
| Calendar.ParseDateTime | python/adherence_report/adherence_report.py:96 | `strptime(s, "%Y/%m/%d/%H/%M/%S")` succeeds only on a valid datetime |
| Calendar.OrdinalOrder | python/adherence_report/adherence_report.py:264 | comparing two dates is comparing their ordinals, so the day-number model of the date comparisons is exact |
| Calendar.YearStep | python/adherence_report/adherence_report.py:281-284 | the ordinal of 1 January of the next year is this year's plus its length, so adding days is adding integers |
| Calendar.TimedeltaSeconds | python/adherence_report/adherence_report.py:381 | `(finish - start).seconds` lies in [0, 86400) and is the difference of the times of day, modulo one day |
| Calendar.TimedeltaSameTimeOfDay | python/adherence_report/adherence_report.py:357-362 | two datetimes at the same time of day give 0 seconds |
| Snapshot.SnapshotToStandard | python/adherence_report/adherence_report.py:67-88 | an empty or blank snapshot becomes "null"; any other result holds no 'T', '-' or ':' and is not blank |
| Snapshot.NormalisedIsFixed | python/adherence_report/adherence_report.py:67-88 | "null" and every string with no separator that is not blank are left unchanged |
| Snapshot.SnapshotToStandardIdempotent | python/adherence_report/adherence_report.py:67-88 | normalising a snapshot twice is the same as normalising it once |
| Snapshot.NormaliseIso | python/adherence_report/adherence_report.py:76-83 | an exported timestamp "YYYY-MM-DDTHH:MM:SS", bare or in +00:00, -04:00 or -06:00, becomes the "%Y/%m/%d/%H/%M/%S" form of the same datetime |
| Snapshot.ParseSnapshotDatetime | python/adherence_report/adherence_report.py:90-99 | a valid datetime; the 1111/11/11 11:11:11 sentinel for "", "null" and every string `strptime` rejects, else the parsed datetime |
| Snapshot.ParseFormatted | python/adherence_report/adherence_report.py:96 | the slash form of a datetime is parsed back as that datetime |
| Snapshot.NormaliseThenParse | python/adherence_report/adherence_report.py:67-99 | normalising an exported timestamp and parsing it gives back the datetime it spells, whatever its zone suffix |
| Frames.ColumnIndex | python/adherence_report/adherence_report.py:123-125 | `columns.get_loc(name)`: the first position holding `name`, `None` exactly when it is missing |
| Frames.FirstLowerMatch | python/adherence_report/adherence_report.py:176 | the first column whose ASCII lower-case form is `name`, `None` exactly when no column has one |
| Frames.RenameColumn | python/adherence_report/adherence_report.py:178 | every column called `from` is renamed `to`, the others kept |
| Frames.ResolveColumn | python/adherence_report/adherence_report.py:172-193 | the columns unchanged when `name` is present; otherwise every column equal to the first one whose lower-case form is `name` is renamed `name` and every other column kept; `None` (the `KeyError`) exactly when neither exists |
| Report.ResolvedMbi | python/adherence_report/adherence_report.py:172-193 | the export with both key columns resolved, present exactly when both resolve; it keeps the rows and the number of columns, holds columns named record_id and redcap_event_name, and renames only columns whose lower-case form is one of the two names |
| Mbi.FirstMatchingRow | python/adherence_report/adherence_report.py:157-162 | the first row for the participant and event, `None` exactly when no row matches |
| Mbi.Gathered | python/adherence_report/adherence_report.py:143-165 | `None` when the variable column is missing, when no row matches the sid and event, or when the value is ""; when the column exists and a row matches, the cell of the first matching row, `None` exactly when that cell is "" |
| Mbi.GatherData | python/adherence_report/adherence_report.py:143-165 | one entry per listed participant, in order, each that participant's gathered value |
| Partner.StartDate | python/adherence_report/adherence_report.py:313-315 | a start date is read exactly when `strptime(raw.replace("-", "/"), "%Y/%m/%d")` succeeds, and then it is that date's ordinal |
| Partner.SessionOf | python/adherence_report/adherence_report.py:246-247 | a row read as a session: its sid is the sid cell, its duration the session_duration cell read by `int()` or 0 when that fails or the column is missing, and a missing snapshot column reads "null" |
| Partner.CoercedCell | python/adherence_report/adherence_report.py:294-299 | the cell stays when `int()` accepts it, else becomes "0"; either way `int()` accepts the result |
| Partner.CoerceColumnCells | python/adherence_report/adherence_report.py:290-299 | after the coercion every cell of the column is an integer, accepted cells are unchanged, rejected ones are "0" and every other cell is as before |
| Partner.CoerceColumnRowwise | python/adherence_report/adherence_report.py:293-299 | coercing every row in place, one at a time, gives the coerced column |
| Partner.PartnerFrame.SafeIntColumn | python/adherence_report/adherence_report.py:290-299 | `safe_int_column`: the table's cells become the coerced column, the header stays, and a `None` column changes nothing |
| Partner.CoerceNamed | python/adherence_report/adherence_report.py:301-302 | coercing the column `col_index.get(name)` keeps the table rectangular; when the name is in the header, every cell of that column then parses as an integer, cells `int()` accepts are unchanged, rejected ones become "0" and every other cell is as before; a missing name changes nothing |
| Partner.PartnerFrame.CoerceNumericColumns | python/adherence_report/adherence_report.py:301-302 | the two calls coerce session_duration and then heartrate_pre; every session keeps its participant and start date |
| Partner.CoerceKeepsKeys | python/adherence_report/adherence_report.py:301-302 | coercing a column other than sid and session_start_date keeps every session's keys |
| Partner.NormalizedRow | python/adherence_report/adherence_report.py:338-343 | an existing snapshot column has its cell normalised; a missing one gets a new "null" cell |
| Partner.NormalizedColumns | python/adherence_report/adherence_report.py:338-343 | the header gains the snapshot column exactly when it lacked it |
| Partner.NormalizedCellShape | python/adherence_report/adherence_report.py:338-343 | after the cleaning the column holds "null" or a normalised timestamp |
| Partner.NormalizedRowIdempotent | python/adherence_report/adherence_report.py:338-343 | cleaning a snapshot column a second time changes nothing |
| Partner.NormalizedSession | python/adherence_report/adherence_report.py:338-343 | cleaning one snapshot column normalises that snapshot of the row's session and keeps all its other fields |
| Partner.PartnerFrame.NormalizeSnapshotColumn | python/adherence_report/adherence_report.py:339-343 | every row is rewritten by NormalizedRow and the header by NormalizedColumns |
| Partner.PartnerFrame.NormalizeSnapshots | python/adherence_report/adherence_report.py:338-343 | after the four cleanings, every session has its four snapshots normalised and its other fields unchanged |
| Partner.CleanedOf | python/adherence_report/adherence_report.py:338-343 | the cleaned reading of the sessions has one session per session, each with its four snapshots normalised |
| Partner.CleanedKeepsDurations | python/adherence_report/adherence_report.py:338-343 | the cleaning keeps every session's participant, start date and duration |
| Windows.EarliestSoFarDefined | python/adherence_report/adherence_report.py:245-265 | a sid gets an entry from the rows exactly when one of the rows is its own |
| Windows.EarliestIsLowerBound | python/adherence_report/adherence_report.py:243-270 | the earliest start is no later than any of the participant's session starts |
| Windows.EarliestIsAttained | python/adherence_report/adherence_report.py:243-270 | it is the start of one of the participant's sessions, or 9999/01/01 for a participant without sessions |
| Windows.EarliestSameKeys | python/adherence_report/adherence_report.py:245-265 | the earliest start depends only on the sessions' participants and start dates |
| Windows.EarliestStarts | python/adherence_report/adherence_report.py:243-270 | the map has an entry for every listed sid and every sid with a session, each the earliest start |
| Windows.WeekCutoffs | python/adherence_report/adherence_report.py:272-284 | per listed sid: its start and the bounds 7, 14, 21 and 56 days later |
| Windows.WindowsTile | python/adherence_report/adherence_report.py:439-442 | the four weekly windows are disjoint and cover exactly the eight weeks from the start |
| Durations.Capped | python/adherence_report/adherence_report.py:329-330 | a duration above 3600 s counts as 3600 s, any other as it is |
| Durations.DurationSumBound | python/adherence_report/adherence_report.py:307-332 | a duration total is at most 3600 s per session that counts |
| Durations.DurationSumNoRows | python/adherence_report/adherence_report.py:307-332 | a participant without sessions has a total of 0 |
| Durations.DurationSumSplit | python/adherence_report/adherence_report.py:404-427 | splitting a window at `b` splits its duration total |
| Durations.DurationSumFrom | python/adherence_report/adherence_report.py:307-332 | the overall total, which has no lower bound, equals the total from any bound below every start of the participant |
| Durations.DurationSumSameDurations | python/adherence_report/adherence_report.py:338-343 | the totals depend only on the sessions' participants, start dates and durations, so the snapshot cleaning does not change them |
| Durations.SessionDurationTotals | python/adherence_report/adherence_report.py:307-332 | `session_duration_data[i]` is the capped duration total of the sid's sessions starting before its week-4 bound |
| Durations.SnapshotDelta | python/adherence_report/adherence_report.py:354-384 | a row's snapshot length is `(finish - start).seconds` of the guarded, parsed pair, in [0, 86400) |
| Durations.NullSnapshotDelta | python/adherence_report/adherence_report.py:357-362 | a row with a "null" snapshot in the pair contributes 0 |
| Durations.DeltaSumBound | python/adherence_report/adherence_report.py:348-386 | a snapshot total is never negative and is under a day per counted row |
| Durations.DeltaSumNoRows | python/adherence_report/adherence_report.py:348-386 | a participant without sessions has a snapshot total of 0 |
| Durations.DeltaSumSplit | python/adherence_report/adherence_report.py:348-386 | splitting a window at `b` splits its snapshot total |
| Durations.RowDelta | python/adherence_report/adherence_report.py:355-384 | one row of the loop computes that row's snapshot delta |
| Durations.ComputeDeltaSnap | python/adherence_report/adherence_report.py:348-386 | `compute_delta_snap`: each sid's snapshot total over the sessions starting in [start, end) |
| Durations.AddSnapshots | python/adherence_report/adherence_report.py:394-399 | each total with snapshots is the duration total plus both snapshot totals, with 0 for a missing entry |
| Durations.ComputeWeeklyDuration | python/adherence_report/adherence_report.py:404-437 | `compute_weeklyduration`: each sid's capped durations plus both snapshot totals over [start, end) |
| Durations.OverallIsSumOfWeeks | python/adherence_report/adherence_report.py:394-442 | the eight-week total with snapshots equals the sum of the four weekly totals |
| Classifier.Thresholds | python/adherence_report/adherence_report.py:26-36 | the four `> c * 0.7` tests are `>= 7482`, `>= 6721`, `>= 1871` and `>= 1681` on integer totals |
| Classifier.Flags70Counts | python/adherence_report/adherence_report.py:447-470 | `completed_70` has one flag per member of either group; its "1"s are those who passed; no group has more passes than members |
| Classifier.Completed70 | python/adherence_report/adherence_report.py:447-470 | the loop yields exactly the flag list, the two group sizes and the two pass counts |
| Classifier.WeeklyFlag | python/adherence_report/adherence_report.py:475-492 | "1" exactly when the weekly total passes the reference for the participant's group; "0" for anyone in neither group |
| Classifier.CompletedWeekly | python/adherence_report/adherence_report.py:475-492 | one weekly flag per participant, in order |
| Summaries.TypeCountBound | python/adherence_report/adherence_report.py:505-516 | neither session type count exceeds the participant's number of sessions |
| Summaries.CountSessionTypes | python/adherence_report/adherence_report.py:502-516 | per sid, the numbers of its sessions whose type contains "Standalone" and "Journey" |
| Summaries.StagesOf | python/adherence_report/adherence_report.py:524-527 | the participant's stage strings, one per session |
| Summaries.MaxString | python/adherence_report/adherence_report.py:532 | `max(stages)` is one of the stages and no stage is greater |
| Summaries.StageSummary | python/adherence_report/adherence_report.py:528-537 | ("0", "0") without sessions; otherwise the maximum stage, with flag "1" exactly when it is above "S20" |
| Summaries.SessionStages | python/adherence_report/adherence_report.py:521-537 | the stage loop yields StageSummary of each sid's stages |
| Summaries.StripStages | python/adherence_report/adherence_report.py:540 | each maximum stage with its leading and trailing 'S' stripped |
| Report.Zip | python/adherence_report/adherence_report.py:595-614 | `list(zip(*vs))`: as many rows as the shortest vector, row `i` holding entry `i` of every vector |
| Report.Blanks | python/adherence_report/adherence_report.py:558-570 | `[''] * count` and the padding loops give no blank for a negative count |
| Report.ZoneOf | python/adherence_report/adherence_report.py:549-556 | GREEN exactly above 70 %, AMBER exactly when strictly between 49 and 71 % and not GREEN, RED exactly below 50 % and neither of the others |
| Report.ZonePercentWhole | python/adherence_report/adherence_report.py:550-556 | `int(zone_percentage)` is both counts plus the whole part of `completed_70_control / total_mbi` |
| Report.ZoneNumeratorExact | python/adherence_report/adherence_report.py:550 | in exact arithmetic, the numerator over `total_mbi` is the script's `completed_70_mbi + completed_70_control / total_mbi + total_control` |
| Report.ZoneCaptionText | python/adherence_report/adherence_report.py:549-556 | the zone label names the zone of the exact percentage and shows its whole part, both counts plus the whole part of `cc / tm` |
| Report.CountCaptionText | python/adherence_report/adherence_report.py:561-562 | a count label is "GROUPA group count: " or "GROUPB group count: " followed by the group's size, which `int()` reads back |
| Report.AdherenceCaptionText | python/adherence_report/adherence_report.py:567-568 | an adherence label is the group's heading followed by its passes and its size, separated by a slash, both read back by `int()` |
| Report.Headers | python/adherence_report/adherence_report.py:544-592 | the fifteen column titles inserted into the titled vectors |
| Report.Randomization | python/adherence_report/adherence_report.py:198 | the randomisation vector is `gatherdata('randomization', 'day_1_arm_1')` |
| Report.ExpectedFailure | python/adherence_report/adherence_report.py:172-550 | the `KeyError` for record_id exactly when no column is record_id even ignoring case; the one for redcap_event_name exactly when record_id resolves and redcap_event_name does not; once both resolve, exactly the exception PartnerFailure gives; no error, or the `ZeroDivisionError`, only when both REDCap key columns resolve and the PartnerReport has session_start_date and (with rows) sid |
| Report.PartnerFailure | python/adherence_report/adherence_report.py:245-550 | the `KeyError` for session_start_date exactly when that column is missing; the one for sid exactly when session_start_date is there, sid is not and the table has rows; the `ZeroDivisionError` exactly when both are there (or there are no rows) and no listed participant is in the MBI group; no exception exactly when someone is |
| Report.ReportVectors | python/adherence_report/adherence_report.py:558-592 | the zone label padded to `n`, the count and adherence labels padded to `n`, then each data vector under its title |
| Report.ZipReport | python/adherence_report/adherence_report.py:595-614 | `n` rows of 18 cells; row 0 holds the zone, group A labels and titles; row 1 the group B labels; row `i` holds participant `i - 1`, so the last is dropped |
| Report.ZipVectors | python/adherence_report/adherence_report.py:595-614 | the `zip` of the report's vectors, with ZipReport's shape |
| Report.CleanedSessions | python/adherence_report/adherence_report.py:290-343 | the sessions as loaded, after the two coercions and after the snapshot cleaning (the three readings the loops see); they agree on every session's participant and start date, and the last two on its duration |
| Report.TimeTotals | python/adherence_report/adherence_report.py:243-442 | per sid, its TimesOf: the duration total (coerced reading) of the sessions before 56 days from its earliest start (loaded reading), that total plus both snapshot totals (cleaned reading), and the four weekly totals over [start, +7), [+7, +14), [+14, +21), [+21, +56); the total with snapshots is the sum of the weekly ones |
| Report.TimesTile | python/adherence_report/adherence_report.py:394-442 | for readings that agree on keys and durations, a participant's total with snapshots is the sum of its four weekly totals |
| Report.TimesFromVectors | python/adherence_report/adherence_report.py:394-442 | one participant's entries of the loop vectors, each the total its loop promises, are its TimesOf, and they tile |
| Report.SessionSummaries | python/adherence_report/adherence_report.py:502-540 | per sid, the journey and standalone counts, the maximum stage with its 'S's stripped and the adherence stage, which is "0" or "1" |
| Report.ParticipantValues | python/adherence_report/adherence_report.py:243-540 | per sid, the ten PartnerReport values of PartnerRowOf over the three readings; the total with snapshots is the sum of the weeks |
| Report.PartnerSummaries | python/adherence_report/adherence_report.py:243-540 | per sid, the ten PartnerReport values are PartnerValues of the table: durations, totals with snapshots and weekly totals as TimeTotals states, type counts and stages as SessionSummaries states; the total with snapshots is the sum of the weeks; each adherence_stage is "0" or "1" |
| Report.DataVectors | python/adherence_report/adherence_report.py:595-614 | the fifteen data vectors in the order of the titles, each one entry per sid |
| Report.Assemble | python/adherence_report/adherence_report.py:542-614 | `n` rows of 18 cells; the labels and titles first; row `i` holds every value of participant `i - 1` in title order |
| Report.RedcapFields | python/adherence_report/adherence_report.py:198-201 | the four `gatherdata` vectors, each one entry per sid |
| Report.Classify | python/adherence_report/adherence_report.py:447-497 | the group sizes and pass counts of `completed_70`, with no group passing more members than it has |
| Report.WriteRows | python/adherence_report/adherence_report.py:549-614 | a written report whose title row holds the zone, count and adherence labels of the counts, group A first and group B below, and whose row `i` holds participant `i - 1`'s four REDCap answers and ten PartnerReport values in title order |
| Report.OverallsFromSummaries | python/adherence_report/adherence_report.py:455-469 | the `session_duration_snapsincluded` values the classification loop reads are the overall times of the PartnerReport (Overalls) |
| Report.LabelsFromTables | python/adherence_report/adherence_report.py:549-569 | the labels WriteRows writes from Classify's counts over those overall times are the labels of the two tables (ReportLabels) |
| Report.RowsFromTables | python/adherence_report/adherence_report.py:595-614 | the participant cells WriteRows writes from the vectors are the tables' values (ParticipantRow) |
| Report.ReportFromTables | python/adherence_report/adherence_report.py:198-614 | a `ZeroDivisionError` exactly when no listed participant is in the MBI group, otherwise a written report whose every value is stated by ReportValues: the labels from the randomisation answers and the totals with snapshots, and per participant its REDCap answers and its PartnerValues |
| Report.AdherenceReport | python/adherence_report/adherence_report.py:172-614 | the script raises exactly the first exception of ExpectedFailure, and otherwise writes a report as WrittenReport describes, with the values ReportValues gives the REDCap export once its key columns are resolved |

## Left out

- File I/O: reading the three CSV files, creating the output directory, writing the rows and the final `print`. The tables and the list of sids are parameters; the result is the list of rows. A label cell is written as its `CaptionText`, but how cells are rendered as CSV text is not modelled.
- pandas details:
  - `pd.isna`, `fillna` and `NaN`: the tables are read as strings with `keep_default_na=False`, so they hold no missing values.
  - The `pd.to_datetime` fallback for start dates `strptime` rejects. In the earliest-start and snapshot loops, such a start reads as 9999/01/01. In the two duration loops, such a row counts toward no total, as a `NaT` compares false. pandas 2, where comparing `NaT` with a date raises, is not modelled.
  - Duplicate column names: the first column with a name is the one used.
- `gathersid`'s list of values, `MPP2_sid`: it is computed but never used. Only its `KeyError` and the `record_id` fallback are modelled.
- `parse_ymd_datestring` and the `*_index` variables of the biometric columns: the script never uses them.
- The float in the zone percentage: `completed_70_control / total_mbi` is modelled as an exact fraction. This agrees with the floating-point value for counts of realistic size, where no rounding crosses an integer.
- Partner.SessionOf: reads the duration with `int()` where the script reads `int(float(...))`. `safe_int_column` has already made every cell of that column an integer, and the two agree for integers below 2^53 in magnitude. Above that the float rounds, and for integers of more than about 308 digits `float` gives infinity and `int` raises `OverflowError`, which the script's `except` turns into 0; neither is modelled. Where the column is missing, the `KeyError` is caught and the duration is 0.
- Unicode: the modelled `int()` and the `%Y`, `%m`, `%d`, `%H`, `%M` and `%S` fields of `strptime` accept only ASCII digits, where Python accepts any Unicode decimal digit in both, `str.isspace()` is the fixed set of whitespace characters, and `lower()` folds ASCII letters only, which agrees for the two lower-case names compared.
- Date overflow: a start date within 56 days of 31 December 9999 would overflow `start + timedelta(days=56)`.
- The weekly flags `week_1_adh` … `week_4_adh` and `completed_70` are computed, as Classify does, but the script never writes them.
- The group adherence label says "threshold of 7492", as the script writes it, while the test it reports is `> 7481.6`, that is `>= 7482`.
