/**
 Per-participant summaries of the session rows: how many sessions of each
 type, the highest session stage reached and whether it is past stage S20.
 */
module Summaries {
  import opened PyStr
  import opened Partner

  /** The number of the participant's rows. */
  function RowCount(rows: seq<Session>, sid: string): nat
    decreases |rows|
  {
    if rows == [] then 0 else RowCount(rows[..|rows| - 1], sid) + (if rows[|rows| - 1].sid == sid then 1 else 0)
  }

  /** The number of the participant's rows whose session type contains `word`. */
  function TypeCount(rows: seq<Session>, sid: string, word: string): nat
    decreases |rows|
  {
    if rows == [] then 0
    else
      var r := rows[|rows| - 1];
      TypeCount(rows[..|rows| - 1], sid, word) + (if r.sid == sid && Contains(r.sessionType, word) then 1 else 0)
  }

  /** No type count exceeds the participant's number of rows; a row can count for both types. */
  lemma {:induction false} TypeCountBound(rows: seq<Session>, sid: string, word: string)
    ensures TypeCount(rows, sid, word) <= RowCount(rows, sid)
    decreases |rows|
  {
    if rows != [] {
      TypeCountBound(rows[..|rows| - 1], sid, word);
    }
  }

  /** The session-type counting loop: standalone and journey sessions per sid. */
  method CountSessionTypes(rows: seq<Session>, sids: seq<string>) returns (standalones: seq<nat>, journeys: seq<nat>)
    ensures |standalones| == |sids| && |journeys| == |sids|
    ensures forall i :: 0 <= i < |sids| ==>
              standalones[i] == TypeCount(rows, sids[i], "Standalone") && journeys[i] == TypeCount(rows, sids[i], "Journey")
  {
    standalones, journeys := [], [];
    for i := 0 to |sids|
      invariant |standalones| == i && |journeys| == i
      invariant forall q :: 0 <= q < i ==>
                  standalones[q] == TypeCount(rows, sids[q], "Standalone") && journeys[q] == TypeCount(rows, sids[q], "Journey")
    {
      var nSt, nJy := 0, 0;
      for k := 0 to |rows|
        invariant nSt == TypeCount(rows[..k], sids[i], "Standalone")
        invariant nJy == TypeCount(rows[..k], sids[i], "Journey")
      {
        assert rows[..k + 1][..k] == rows[..k];
        if rows[k].sid == sids[i] {
          var typ := rows[k].sessionType;
          if Contains(typ, "Standalone") {
            nSt := nSt + 1;
          }
          if Contains(typ, "Journey") {
            nJy := nJy + 1;
          }
        }
      }
      assert rows[..|rows|] == rows;
      standalones := standalones + [nSt];
      journeys := journeys + [nJy];
    }
  }

  /** The stage strings of the participant's rows, in order. */
  function StagesOf(rows: seq<Session>, sid: string): (stages: seq<string>)
    ensures |stages| == RowCount(rows, sid)
    decreases |rows|
  {
    if rows == [] then []
    else
      var r := rows[|rows| - 1];
      StagesOf(rows[..|rows| - 1], sid) + (if r.sid == sid then [r.stage] else [])
  }

  /** `max(xs)` on strings: an element of the list that no element is greater than. */
  function MaxString(xs: seq<string>): (m: string)
    requires |xs| > 0
    ensures m in xs
    ensures forall i :: 0 <= i < |xs| ==> !LexLess(m, xs[i])
    decreases |xs|
  {
    if |xs| == 1 then
      LexLessIrreflexive(xs[0]);
      xs[0]
    else
      var prev := MaxString(xs[..|xs| - 1]);
      var last := xs[|xs| - 1];
      assert forall i :: 0 <= i < |xs| - 1 ==> xs[i] == xs[..|xs| - 1][i];
      LexLessAsymmetric(prev, last);
      if LexLess(prev, last) then
        assert forall i :: 0 <= i < |xs| - 1 ==> !LexLess(last, xs[i]) by {
          forall i | 0 <= i < |xs| - 1 ensures !LexLess(last, xs[i]) {
            if LexLess(last, xs[i]) {
              LexLessTransitive(prev, last, xs[i]);
            }
          }
        }
        LexLessIrreflexive(last);
        last
      else
        LexLessTotal(prev, last);
        prev
  }

  /** The two summaries of one participant: the maximum stage and the adherence flag. */
  function StageSummary(stages: seq<string>): (r: (string, string))
    ensures stages == [] ==> r == ("0", "0")
    ensures stages != [] ==> r.0 == MaxString(stages)
    ensures stages != [] ==> (r.1 == "1" <==> LexLess("S20", MaxString(stages)))
    ensures r.1 == "0" || r.1 == "1"
  {
    if stages == [] then ("0", "0")
    else
      var m := MaxString(stages);
      (m, if LexLess("S20", m) then "1" else "0")
  }

  /** The stage loop: the maximum stage and the adherence flag per sid, before the 'S' is stripped. */
  method SessionStages(rows: seq<Session>, sids: seq<string>) returns (stageMax: seq<string>, adherence: seq<string>)
    ensures |stageMax| == |sids| && |adherence| == |sids|
    ensures forall i :: 0 <= i < |sids| ==> (stageMax[i], adherence[i]) == StageSummary(StagesOf(rows, sids[i]))
  {
    stageMax, adherence := [], [];
    for i := 0 to |sids|
      invariant |stageMax| == i && |adherence| == i
      invariant forall q :: 0 <= q < i ==> (stageMax[q], adherence[q]) == StageSummary(StagesOf(rows, sids[q]))
    {
      var stages: seq<string> := [];
      for k := 0 to |rows|
        invariant stages == StagesOf(rows[..k], sids[i])
      {
        assert rows[..k + 1][..k] == rows[..k];
        if rows[k].sid == sids[i] {
          stages := stages + [rows[k].stage];
        }
      }
      assert rows[..|rows|] == rows;
      if stages == [] {
        adherence := adherence + ["0"];
        stageMax := stageMax + ["0"];
      } else {
        var maxStage := MaxString(stages);
        stageMax := stageMax + [maxStage];
        if LexLess("S20", maxStage) {
          adherence := adherence + ["1"];
        } else {
          adherence := adherence + ["0"];
        }
      }
    }
  }

  /** `[s.strip('S') for s in stageMax]` */
  function StripStages(stageMax: seq<string>): (r: seq<string>)
    ensures |r| == |stageMax|
    ensures forall i :: 0 <= i < |r| ==> r[i] == Strip(stageMax[i], {'S'})
  {
    seq(|stageMax|, i requires 0 <= i < |stageMax| => Strip(stageMax[i], {'S'}))
  }
}
