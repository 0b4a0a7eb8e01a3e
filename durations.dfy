/**
 Time spent in the app per participant: session durations capped at one
 hour, and the pre- and post-session snapshot lengths, summed over a window
 of start dates.
 */
module Durations {
  import opened Wrappers
  import opened Calendar
  import opened Snapshot
  import opened Partner
  import opened Windows

  const DurationCap: int := 3600

  /** A duration above the cap counts as the cap; shorter and negative durations count as they are. */
  function Capped(d: int): (r: int)
    ensures r <= DurationCap
    ensures d <= DurationCap ==> r == d
    ensures d > DurationCap ==> r == DurationCap
  {
    if d > DurationCap then DurationCap else d
  }

  /**
   A row counts toward a duration total of `sid` when it is the sid's and
   its start date was read and lies before `hi` and, for the weekly totals,
   at or after `lo`. A date `strptime` rejects is `NaT`, which every
   comparison rejects.
   */
  predicate CountsDuration(r: Session, sid: string, lo: Option<int>, hi: int) {
    && r.sid == sid && r.start.Some?
    && (lo.None? || lo.value <= r.start.value) && r.start.value < hi
  }

  /** The capped durations of the rows that count. */
  function DurationSum(rows: seq<Session>, sid: string, lo: Option<int>, hi: int): int
    decreases |rows|
  {
    if rows == [] then 0
    else
      var r := rows[|rows| - 1];
      DurationSum(rows[..|rows| - 1], sid, lo, hi) + (if CountsDuration(r, sid, lo, hi) then Capped(r.duration) else 0)
  }

  /** How many rows count toward the total. */
  function DurationCount(rows: seq<Session>, sid: string, lo: Option<int>, hi: int): nat
    decreases |rows|
  {
    if rows == [] then 0
    else DurationCount(rows[..|rows| - 1], sid, lo, hi) + (if CountsDuration(rows[|rows| - 1], sid, lo, hi) then 1 else 0)
  }

  /** A duration total never exceeds one hour per row that counts. */
  lemma {:induction false} DurationSumBound(rows: seq<Session>, sid: string, lo: Option<int>, hi: int)
    ensures DurationSum(rows, sid, lo, hi) <= DurationCap * DurationCount(rows, sid, lo, hi)
    decreases |rows|
  {
    if rows != [] {
      DurationSumBound(rows[..|rows| - 1], sid, lo, hi);
    }
  }

  /** A sid without rows has a total of 0. */
  lemma {:induction false} DurationSumNoRows(rows: seq<Session>, sid: string, lo: Option<int>, hi: int)
    requires forall k :: 0 <= k < |rows| ==> rows[k].sid != sid
    ensures DurationSum(rows, sid, lo, hi) == 0
    decreases |rows|
  {
    if rows != [] {
      DurationSumNoRows(rows[..|rows| - 1], sid, lo, hi);
    }
  }

  /** Splitting a window at `b` splits its total. */
  lemma {:induction false} DurationSumSplit(rows: seq<Session>, sid: string, a: int, b: int, c: int)
    requires a <= b <= c
    ensures DurationSum(rows, sid, Some(a), c) == DurationSum(rows, sid, Some(a), b) + DurationSum(rows, sid, Some(b), c)
    decreases |rows|
  {
    if rows != [] {
      DurationSumSplit(rows[..|rows| - 1], sid, a, b, c);
    }
  }

  /** The overall total, which has no lower bound, equals the total from a lower bound below every start of the sid. */
  lemma {:induction false} DurationSumFrom(rows: seq<Session>, sid: string, a: int, c: int)
    requires forall k :: 0 <= k < |rows| && rows[k].sid == sid && rows[k].start.Some? ==> a <= rows[k].start.value
    ensures DurationSum(rows, sid, None, c) == DurationSum(rows, sid, Some(a), c)
    decreases |rows|
  {
    if rows != [] {
      var p := rows[..|rows| - 1];
      forall k | 0 <= k < |p| && p[k].sid == sid && p[k].start.Some? ensures a <= p[k].start.value {
        assert p[k] == rows[k];
      }
      DurationSumFrom(p, sid, a, c);
    }
  }

  /** The totals depend only on the rows' participants, start dates and durations. */
  lemma {:induction false} DurationSumSameDurations(a: seq<Session>, b: seq<Session>, sid: string, lo: Option<int>, hi: int)
    requires SameDurations(a, b)
    ensures DurationSum(a, sid, lo, hi) == DurationSum(b, sid, lo, hi)
    decreases |a|
  {
    if a != [] {
      DurationSumSameDurations(a[..|a| - 1], b[..|b| - 1], sid, lo, hi);
    }
  }

  /** Which pair of snapshot columns a delta is taken from. */
  datatype Phase = Pre | Post

  /** The string a "null" snapshot is replaced by, for both snapshots of the row. */
  const SentinelSnapshot: string := "1111/11/11/11/11/11"

  /** The (start, finish) snapshots of a row, after the "null" guard. */
  function GuardedSnapshots(r: Session, p: Phase): (string, string) {
    var (start, finish) := if p == Pre then (r.startPre, r.finishPre) else (r.startPost, r.finishPost);
    if start == NullSnapshot || finish == NullSnapshot then (SentinelSnapshot, SentinelSnapshot)
    else (start, finish)
  }

  /**
   The row's snapshot length: `(finish - start).seconds` of the two parsed
   snapshots, which lies in [0, 86400) and depends only on their times of day.
   */
  function SnapshotDelta(r: Session, p: Phase): (d: int)
    ensures 0 <= d < SecondsPerDay
    ensures var (start, finish) := GuardedSnapshots(r, p);
            d == (SecondsOfDay(ParseSnapshotDatetime(finish)) - SecondsOfDay(ParseSnapshotDatetime(start))) % SecondsPerDay
  {
    var (start, finish) := GuardedSnapshots(r, p);
    TimedeltaSeconds(ParseSnapshotDatetime(finish), ParseSnapshotDatetime(start))
  }

  /** A row with a "null" snapshot in the pair contributes 0. */
  lemma NullSnapshotDelta(r: Session, p: Phase)
    requires p == Pre ==> r.startPre == NullSnapshot || r.finishPre == NullSnapshot
    requires p == Post ==> r.startPost == NullSnapshot || r.finishPost == NullSnapshot
    ensures SnapshotDelta(r, p) == 0
  {
    var t := ParseSnapshotDatetime(SentinelSnapshot);
    TimedeltaSameTimeOfDay(t, t);
  }

  /**
   A row counts toward a snapshot total of `sid` when it is the sid's and
   its start date, 9999/01/01 when it cannot be read, lies in [lo, hi).
   */
  predicate CountsDelta(r: Session, sid: string, lo: int, hi: int) {
    r.sid == sid && InWindow(StartOrSentinel(r), lo, hi)
  }

  function DeltaSum(rows: seq<Session>, sid: string, lo: int, hi: int, p: Phase): int
    decreases |rows|
  {
    if rows == [] then 0
    else
      var r := rows[|rows| - 1];
      DeltaSum(rows[..|rows| - 1], sid, lo, hi, p) + (if CountsDelta(r, sid, lo, hi) then SnapshotDelta(r, p) else 0)
  }

  function DeltaCount(rows: seq<Session>, sid: string, lo: int, hi: int): nat
    decreases |rows|
  {
    if rows == [] then 0
    else DeltaCount(rows[..|rows| - 1], sid, lo, hi) + (if CountsDelta(rows[|rows| - 1], sid, lo, hi) then 1 else 0)
  }

  /** A snapshot total is never negative and is less than a day per row that counts. */
  lemma {:induction false} DeltaSumBound(rows: seq<Session>, sid: string, lo: int, hi: int, p: Phase)
    ensures 0 <= DeltaSum(rows, sid, lo, hi, p) <= (SecondsPerDay - 1) * DeltaCount(rows, sid, lo, hi)
    decreases |rows|
  {
    if rows != [] {
      DeltaSumBound(rows[..|rows| - 1], sid, lo, hi, p);
    }
  }

  lemma {:induction false} DeltaSumNoRows(rows: seq<Session>, sid: string, lo: int, hi: int, p: Phase)
    requires forall k :: 0 <= k < |rows| ==> rows[k].sid != sid
    ensures DeltaSum(rows, sid, lo, hi, p) == 0
    decreases |rows|
  {
    if rows != [] {
      DeltaSumNoRows(rows[..|rows| - 1], sid, lo, hi, p);
    }
  }

  lemma {:induction false} DeltaSumSplit(rows: seq<Session>, sid: string, a: int, b: int, c: int, p: Phase)
    requires a <= b <= c
    ensures DeltaSum(rows, sid, a, c, p) == DeltaSum(rows, sid, a, b, p) + DeltaSum(rows, sid, b, c, p)
    decreases |rows|
  {
    if rows != [] {
      DeltaSumSplit(rows[..|rows| - 1], sid, a, b, c, p);
    }
  }

  /** `session_duration_data`: the overall duration total of each sid, rows starting before its week-4 bound. */
  method SessionDurationTotals(rows: seq<Session>, sids: seq<string>, week4: seq<int>) returns (totals: seq<int>)
    requires |week4| == |sids|
    ensures |totals| == |sids|
    ensures forall i :: 0 <= i < |sids| ==> totals[i] == DurationSum(rows, sids[i], None, week4[i])
  {
    totals := [];
    for i := 0 to |sids|
      invariant |totals| == i
      invariant forall q :: 0 <= q < i ==> totals[q] == DurationSum(rows, sids[q], None, week4[q])
    {
      var total := 0;
      for k := 0 to |rows|
        invariant total == DurationSum(rows[..k], sids[i], None, week4[i])
      {
        var r := rows[k];
        assert rows[..k + 1][..k] == rows[..k];
        if r.sid == sids[i] && r.start.Some? && r.start.value < week4[i] {
          var d := r.duration;
          if d > DurationCap {
            d := DurationCap;
          }
          total := total + d;
        }
      }
      assert rows[..|rows|] == rows;
      totals := totals + [total];
    }
  }

  /**
   One row of the `compute_delta_snap` loop: the "null" guard on the pair
   of snapshots, then `(dt_finish - dt_start).seconds` of the parsed pair.
   */
  method RowDelta(r: Session, p: Phase) returns (d: int)
    ensures d == SnapshotDelta(r, p)
  {
    var startSnap, finishSnap := if p == Pre then r.startPre else r.startPost, if p == Pre then r.finishPre else r.finishPost;
    if startSnap == NullSnapshot {
      startSnap, finishSnap := SentinelSnapshot, SentinelSnapshot;
    }
    if finishSnap == NullSnapshot {
      startSnap, finishSnap := SentinelSnapshot, SentinelSnapshot;
    }
    assert (startSnap, finishSnap) == GuardedSnapshots(r, p);
    var dtFinish := ParseSnapshotDatetime(finishSnap);
    var dtStart := ParseSnapshotDatetime(startSnap);
    d := TimedeltaSeconds(dtFinish, dtStart);
  }

  /** `compute_delta_snap`: each sid's snapshot total over the rows starting in [starts[i], ends[i]). */
  method ComputeDeltaSnap(rows: seq<Session>, sids: seq<string>, ends: seq<int>, p: Phase, starts: seq<int>)
    returns (deltas: seq<int>)
    requires |ends| == |sids| && |starts| == |sids|
    ensures |deltas| == |sids|
    ensures forall i :: 0 <= i < |sids| ==> deltas[i] == DeltaSum(rows, sids[i], starts[i], ends[i], p)
  {
    deltas := [];
    for i := 0 to |sids|
      invariant |deltas| == i
      invariant forall q :: 0 <= q < i ==> deltas[q] == DeltaSum(rows, sids[q], starts[q], ends[q], p)
    {
      var total := 0;
      for k := 0 to |rows|
        invariant total == DeltaSum(rows[..k], sids[i], starts[i], ends[i], p)
      {
        var r := rows[k];
        assert rows[..k + 1][..k] == rows[..k];
        var a := StartOrSentinel(r);
        if r.sid == sids[i] && a < ends[i] && a >= starts[i] {
          var d := RowDelta(r, p);
          total := total + d;
        }
      }
      assert rows[..|rows|] == rows;
      deltas := deltas + [total];
    }
  }

  /** `session_duration_snapsincluded`: the duration total plus both snapshot totals, 0 for a missing entry. */
  method AddSnapshots(durations: seq<int>, pre: seq<int>, post: seq<int>) returns (totals: seq<int>)
    ensures |totals| == |durations|
    ensures forall i :: 0 <= i < |durations| ==>
              totals[i] == durations[i] + (if i < |pre| then pre[i] else 0) + (if i < |post| then post[i] else 0)
  {
    totals := [];
    for i := 0 to |durations|
      invariant |totals| == i
      invariant forall q :: 0 <= q < i ==>
                  totals[q] == durations[q] + (if q < |pre| then pre[q] else 0) + (if q < |post| then post[q] else 0)
    {
      var total := durations[i] + (if i < |pre| then pre[i] else 0) + (if i < |post| then post[i] else 0);
      totals := totals + [total];
    }
  }

  /** What `compute_weeklyduration` gives a sid: durations and both snapshot totals over [lo, hi). */
  function WeekTotal(rows: seq<Session>, sid: string, lo: int, hi: int): int {
    DurationSum(rows, sid, Some(lo), hi) + DeltaSum(rows, sid, lo, hi, Pre) + DeltaSum(rows, sid, lo, hi, Post)
  }

  /** `compute_weeklyduration(ends, starts)` */
  method ComputeWeeklyDuration(rows: seq<Session>, sids: seq<string>, ends: seq<int>, starts: seq<int>)
    returns (totals: seq<int>)
    requires |ends| == |sids| && |starts| == |sids|
    ensures |totals| == |sids|
    ensures forall i :: 0 <= i < |sids| ==> totals[i] == WeekTotal(rows, sids[i], starts[i], ends[i])
  {
    var week: seq<int> := [];
    for i := 0 to |sids|
      invariant |week| == i
      invariant forall q :: 0 <= q < i ==> week[q] == DurationSum(rows, sids[q], Some(starts[q]), ends[q])
    {
      var total := 0;
      for k := 0 to |rows|
        invariant total == DurationSum(rows[..k], sids[i], Some(starts[i]), ends[i])
      {
        var r := rows[k];
        assert rows[..k + 1][..k] == rows[..k];
        if r.sid == sids[i] && r.start.Some? && r.start.value < ends[i] && r.start.value >= starts[i] {
          var sd := r.duration;
          if sd > DurationCap {
            sd := DurationCap;
          }
          total := total + sd;
        }
      }
      assert rows[..|rows|] == rows;
      week := week + [total];
    }
    var deltaPre := ComputeDeltaSnap(rows, sids, ends, Pre, starts);
    var deltaPost := ComputeDeltaSnap(rows, sids, ends, Post, starts);
    totals := [];
    for i := 0 to |week|
      invariant |totals| == i
      invariant forall q :: 0 <= q < i ==> totals[q] == week[q] + deltaPre[q] + deltaPost[q]
    {
      totals := totals + [week[i] + deltaPre[i] + deltaPost[i]];
    }
  }

  /**
   The overall total of a participant whose window starts at its earliest
   start date is the sum of its four weekly totals: the weekly windows tile
   [start, start+56), and no readable start date of the participant lies
   before its earliest start.
   */
  lemma OverallIsSumOfWeeks(rows: seq<Session>, sid: string, s: int, e1: int, e2: int, e3: int, e4: int)
    requires s == EarliestStart(rows, sid)
    requires e1 == s + 7 && e2 == s + 14 && e3 == s + 21 && e4 == s + 56
    ensures DurationSum(rows, sid, None, e4) + DeltaSum(rows, sid, s, e4, Pre) + DeltaSum(rows, sid, s, e4, Post)
            == WeekTotal(rows, sid, s, e1) + WeekTotal(rows, sid, e1, e2) + WeekTotal(rows, sid, e2, e3) + WeekTotal(rows, sid, e3, e4)
  {
    EarliestIsLowerBound(rows, sid);
    DurationSumFrom(rows, sid, s, e4);
    DurationSumSplit(rows, sid, s, e1, e4);
    DurationSumSplit(rows, sid, e1, e2, e4);
    DurationSumSplit(rows, sid, e2, e3, e4);
    DeltaSumSplit(rows, sid, s, e1, e4, Pre);
    DeltaSumSplit(rows, sid, e1, e2, e4, Pre);
    DeltaSumSplit(rows, sid, e2, e3, e4, Pre);
    DeltaSumSplit(rows, sid, s, e1, e4, Post);
    DeltaSumSplit(rows, sid, e1, e2, e4, Post);
    DeltaSumSplit(rows, sid, e2, e3, e4, Post);
  }
}
