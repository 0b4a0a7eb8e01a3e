/**
 The observation window of each participant: the earliest session start
 date, and the cumulative bounds one, two, three and eight weeks later.
 Dates are day ordinals, so adding days is adding integers.
 */
module Windows {
  import opened Wrappers
  import opened Calendar
  import opened Partner

  /** 9999/01/01, the date of a blank or unreadable start and of a participant without sessions. */
  const SentinelOrdinal: int := Ordinal(FarFutureDate)

  /** The start date the earliest-start loop reads from a row. */
  function StartOrSentinel(s: Session): int {
    s.start.GetOr(SentinelOrdinal)
  }

  /** The `earliest_start[sid]` entry once the loop has seen `rows`; `None` while the sid has no entry. */
  function EarliestSoFar(rows: seq<Session>, sid: string): Option<int>
    decreases |rows|
  {
    if rows == [] then None
    else
      var prev := EarliestSoFar(rows[..|rows| - 1], sid);
      var r := rows[|rows| - 1];
      if r.sid != sid then prev
      else if prev.None? || StartOrSentinel(r) < prev.value then Some(StartOrSentinel(r))
      else prev
  }

  /** `earliest_start[sid]` after both loops: the sentinel for a listed sid without rows. */
  function EarliestStart(rows: seq<Session>, sid: string): int {
    EarliestSoFar(rows, sid).GetOr(SentinelOrdinal)
  }

  /** A sid gets an entry from the rows exactly when one of the rows is its own. */
  lemma {:induction false} EarliestSoFarDefined(rows: seq<Session>, sid: string)
    ensures EarliestSoFar(rows, sid).Some? <==> exists k :: 0 <= k < |rows| && rows[k].sid == sid
    decreases |rows|
  {
    if rows != [] {
      var p := rows[..|rows| - 1];
      EarliestSoFarDefined(p, sid);
      if exists k :: 0 <= k < |p| && p[k].sid == sid {
        var k :| 0 <= k < |p| && p[k].sid == sid;
        assert rows[k].sid == sid;
      }
      if k :| 0 <= k < |rows| && rows[k].sid == sid {
        if k < |p| {
          assert p[k].sid == sid;
        }
      }
    }
  }

  /** The earliest start is no later than the start of any of the participant's rows. */
  lemma {:induction false} EarliestIsLowerBound(rows: seq<Session>, sid: string)
    ensures forall k :: 0 <= k < |rows| && rows[k].sid == sid ==> EarliestStart(rows, sid) <= StartOrSentinel(rows[k])
    decreases |rows|
  {
    if rows != [] {
      var p := rows[..|rows| - 1];
      EarliestIsLowerBound(p, sid);
      EarliestSoFarDefined(p, sid);
      forall k | 0 <= k < |rows| && rows[k].sid == sid
        ensures EarliestStart(rows, sid) <= StartOrSentinel(rows[k])
      {
        if k < |p| {
          assert p[k] == rows[k];
        }
      }
    }
  }

  /** A participant with rows gets the start of one of them; one without rows gets 9999/01/01. */
  lemma {:induction false} EarliestIsAttained(rows: seq<Session>, sid: string)
    ensures (forall k :: 0 <= k < |rows| ==> rows[k].sid != sid) ==> EarliestStart(rows, sid) == SentinelOrdinal
    ensures (exists k :: 0 <= k < |rows| && rows[k].sid == sid) ==>
              exists k :: 0 <= k < |rows| && rows[k].sid == sid && EarliestStart(rows, sid) == StartOrSentinel(rows[k])
    decreases |rows|
  {
    EarliestSoFarDefined(rows, sid);
    if rows != [] {
      var p := rows[..|rows| - 1];
      EarliestIsAttained(p, sid);
      EarliestSoFarDefined(p, sid);
      if EarliestSoFar(rows, sid) == EarliestSoFar(p, sid) && EarliestSoFar(p, sid).Some? {
        var k :| 0 <= k < |p| && p[k].sid == sid && EarliestStart(p, sid) == StartOrSentinel(p[k]);
        assert rows[k] == p[k];
      } else if EarliestSoFar(rows, sid).Some? {
        assert rows[|rows| - 1].sid == sid;
      }
    }
  }

  /** The earliest start depends only on the rows' participants and start dates. */
  lemma {:induction false} EarliestSameKeys(a: seq<Session>, b: seq<Session>, sid: string)
    requires SameKeys(a, b)
    ensures EarliestSoFar(a, sid) == EarliestSoFar(b, sid)
    decreases |a|
  {
    if a != [] {
      EarliestSameKeys(a[..|a| - 1], b[..|b| - 1], sid);
    }
  }

  /**
   The earliest-start loop over the session rows, then the loop giving every
   listed sid without an entry the sentinel.
   */
  method EarliestStarts(rows: seq<Session>, sids: seq<string>) returns (earliest: map<string, int>)
    ensures forall s :: s in earliest <==> s in sids || exists k :: 0 <= k < |rows| && rows[k].sid == s
    ensures forall s :: s in earliest ==> earliest[s] == EarliestStart(rows, s)
  {
    earliest := map[];
    for i := 0 to |rows|
      invariant forall s :: EarliestSoFar(rows[..i], s) == (if s in earliest then Some(earliest[s]) else None)
    {
      var r := rows[i];
      assert rows[..i + 1][..i] == rows[..i];
      assert rows[..i + 1][i] == r;
      if r.sid !in earliest || StartOrSentinel(r) < earliest[r.sid] {
        earliest := earliest[r.sid := StartOrSentinel(r)];
      }
    }
    assert rows[..|rows|] == rows;
    forall s ensures s in earliest <==> exists k :: 0 <= k < |rows| && rows[k].sid == s {
      EarliestSoFarDefined(rows, s);
    }
    for i := 0 to |sids|
      invariant forall s :: s in earliest <==> s in sids[..i] || exists k :: 0 <= k < |rows| && rows[k].sid == s
      invariant forall s :: s in earliest ==> EarliestStart(rows, s) == earliest[s]
    {
      if sids[i] !in earliest {
        EarliestSoFarDefined(rows, sids[i]);
        earliest := earliest[sids[i] := SentinelOrdinal];
      }
      assert sids[..i + 1] == sids[..i] + [sids[i]];
    }
    assert sids[..|sids|] == sids;
  }

  /**
   The week cutoffs per listed sid: its start (the sentinel when it has no
   entry) and the bounds 7, 14, 21 and 56 days later.
   */
  method WeekCutoffs(earliest: map<string, int>, sids: seq<string>)
    returns (starts: seq<int>, week1: seq<int>, week2: seq<int>, week3: seq<int>, week4: seq<int>)
    ensures |starts| == |week1| == |week2| == |week3| == |week4| == |sids|
    ensures forall i :: 0 <= i < |sids| ==> starts[i] == (if sids[i] in earliest then earliest[sids[i]] else SentinelOrdinal)
    ensures forall i :: 0 <= i < |sids| ==>
              week1[i] == starts[i] + 7 && week2[i] == starts[i] + 14 && week3[i] == starts[i] + 21 && week4[i] == starts[i] + 56
  {
    starts, week1, week2, week3, week4 := [], [], [], [], [];
    for i := 0 to |sids|
      invariant |starts| == |week1| == |week2| == |week3| == |week4| == i
      invariant forall p :: 0 <= p < i ==> starts[p] == (if sids[p] in earliest then earliest[sids[p]] else SentinelOrdinal)
      invariant forall p :: 0 <= p < i ==>
                  week1[p] == starts[p] + 7 && week2[p] == starts[p] + 14 && week3[p] == starts[p] + 21 && week4[p] == starts[p] + 56
    {
      var start := if sids[i] in earliest then earliest[sids[i]] else SentinelOrdinal;
      starts := starts + [start];
      week1 := week1 + [start + 7];
      week2 := week2 + [start + 14];
      week3 := week3 + [start + 21];
      week4 := week4 + [start + 56];
    }
  }

  /** `lo <= d < hi` */
  predicate InWindow(d: int, lo: int, hi: int) {
    lo <= d < hi
  }

  /**
   The weekly windows [start, start+7), [start+7, start+14),
   [start+14, start+21) and [start+21, start+56) have strictly increasing
   bounds, and every day of [start, start+56) lies in exactly one of them.
   */
  lemma WindowsTile(start: int, d: int)
    ensures start < start + 7 < start + 14 < start + 21 < start + 56
    ensures InWindow(d, start, start + 56) <==>
              InWindow(d, start, start + 7) || InWindow(d, start + 7, start + 14)
              || InWindow(d, start + 14, start + 21) || InWindow(d, start + 21, start + 56)
    ensures !(InWindow(d, start, start + 7) && InWindow(d, start + 7, start + 14))
    ensures !(InWindow(d, start + 7, start + 14) && InWindow(d, start + 14, start + 21))
    ensures !(InWindow(d, start + 14, start + 21) && InWindow(d, start + 21, start + 56))
    ensures InWindow(d, start, start + 7) || InWindow(d, start + 7, start + 14) ==> !InWindow(d, start + 14, start + 56)
  {
  }
}
