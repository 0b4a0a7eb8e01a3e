/**
 Adherence flags. The randomisation value "0" is the MBI group and "1" the
 control group; any other value, or none, is in neither. A total passes
 when it is strictly above 70% of the group's reference length.
 */
module Classifier {
  import opened Wrappers

  /** Modules 1 to 4, in seconds: the MBI group's reference for the whole window. */
  const Modules1to4Sum: int := 10688
  /** Sixteen sham sessions, in seconds: the control group's reference for the whole window. */
  const ControlLen: int := 9600
  /** The weekly references of the two groups. */
  const WeeklyMbi: int := 2672
  const WeeklyControl: int := 2400

  /**
   `total > c * 0.7`. For an integer total this is `10 * total > 7 * c`: the
   products 10688 * 0.7 and 2672 * 0.7 round to 7481.6 and 1870.4 (up to
   rounding, strictly between two integers) and 9600 * 0.7 and 2400 * 0.7
   round to exactly 6720 and 1680.
   */
  predicate AboveSeventyPercent(total: int, c: int) {
    10 * total > 7 * c
  }

  /** The four tests as integer thresholds. */
  lemma Thresholds(total: int)
    ensures AboveSeventyPercent(total, Modules1to4Sum) <==> total >= 7482
    ensures AboveSeventyPercent(total, ControlLen) <==> total >= 6721
    ensures AboveSeventyPercent(total, WeeklyMbi) <==> total >= 1871
    ensures AboveSeventyPercent(total, WeeklyControl) <==> total >= 1681
  {
  }

  function Flag(passed: bool): string {
    if passed then "1" else "0"
  }

  /** The `completed_70` list: one flag per participant of either group, in order. */
  function Flags70(groups: seq<Option<string>>, totals: seq<int>): seq<string>
    requires |totals| == |groups|
    decreases |groups|
  {
    if groups == [] then []
    else
      var n := |groups| - 1;
      Flags70(groups[..n], totals[..n])
      + (if groups[n] == Some("0") then [Flag(AboveSeventyPercent(totals[n], Modules1to4Sum))] else [])
      + (if groups[n] == Some("1") then [Flag(AboveSeventyPercent(totals[n], ControlLen))] else [])
  }

  /** The number of participants in group `g`. */
  function GroupCount(groups: seq<Option<string>>, g: string): nat
    decreases |groups|
  {
    if groups == [] then 0
    else GroupCount(groups[..|groups| - 1], g) + (if groups[|groups| - 1] == Some(g) then 1 else 0)
  }

  /** The number of participants in group `g` whose total passes against the reference `c`. */
  function CompletedCount(groups: seq<Option<string>>, totals: seq<int>, g: string, c: int): nat
    requires |totals| == |groups|
    decreases |groups|
  {
    if groups == [] then 0
    else
      var n := |groups| - 1;
      CompletedCount(groups[..n], totals[..n], g, c)
      + (if groups[n] == Some(g) && AboveSeventyPercent(totals[n], c) then 1 else 0)
  }

  /** The number of "1" flags in a list. */
  function Ones(flags: seq<string>): nat
    decreases |flags|
  {
    if flags == [] then 0 else Ones(flags[..|flags| - 1]) + (if flags[|flags| - 1] == "1" then 1 else 0)
  }

  lemma {:induction false} OnesAppend(a: seq<string>, b: seq<string>)
    ensures Ones(a + b) == Ones(a) + Ones(b)
    decreases |b|
  {
    if b == [] {
      assert a + b == a;
    } else {
      OnesAppend(a, b[..|b| - 1]);
      assert (a + b)[..|a + b| - 1] == a + b[..|b| - 1];
    }
  }

  /**
   `completed_70` has one flag per participant of the two groups, its "1"
   flags are the participants who passed, and neither group has more
   passes than members.
   */
  lemma {:induction false} Flags70Counts(groups: seq<Option<string>>, totals: seq<int>)
    requires |totals| == |groups|
    ensures |Flags70(groups, totals)| == GroupCount(groups, "0") + GroupCount(groups, "1")
    ensures Ones(Flags70(groups, totals))
            == CompletedCount(groups, totals, "0", Modules1to4Sum) + CompletedCount(groups, totals, "1", ControlLen)
    ensures CompletedCount(groups, totals, "0", Modules1to4Sum) <= GroupCount(groups, "0")
    ensures CompletedCount(groups, totals, "1", ControlLen) <= GroupCount(groups, "1")
    decreases |groups|
  {
    if groups != [] {
      var n := |groups| - 1;
      Flags70Counts(groups[..n], totals[..n]);
      var a := if groups[n] == Some("0") then [Flag(AboveSeventyPercent(totals[n], Modules1to4Sum))] else [];
      var b := if groups[n] == Some("1") then [Flag(AboveSeventyPercent(totals[n], ControlLen))] else [];
      OnesAppend(Flags70(groups[..n], totals[..n]), a);
      OnesAppend(Flags70(groups[..n], totals[..n]) + a, b);
      assert Ones(a) == (if groups[n] == Some("0") && AboveSeventyPercent(totals[n], Modules1to4Sum) then 1 else 0) by {
        if a != [] {
          assert a[..0] == [];
        }
      }
      assert Ones(b) == (if groups[n] == Some("1") && AboveSeventyPercent(totals[n], ControlLen) then 1 else 0) by {
        if b != [] {
          assert b[..0] == [];
        }
      }
    }
  }

  /** The `completed_70` loop: the flags and the four counters. */
  method Completed70(groups: seq<Option<string>>, totals: seq<int>)
    returns (flags: seq<string>, completedMbi: nat, completedControl: nat, totalMbi: nat, totalControl: nat)
    requires |totals| == |groups|
    ensures flags == Flags70(groups, totals)
    ensures totalMbi == GroupCount(groups, "0") && totalControl == GroupCount(groups, "1")
    ensures completedMbi == CompletedCount(groups, totals, "0", Modules1to4Sum)
    ensures completedControl == CompletedCount(groups, totals, "1", ControlLen)
  {
    flags, completedMbi, completedControl, totalMbi, totalControl := [], 0, 0, 0, 0;
    for i := 0 to |groups|
      invariant flags == Flags70(groups[..i], totals[..i])
      invariant totalMbi == GroupCount(groups[..i], "0") && totalControl == GroupCount(groups[..i], "1")
      invariant completedMbi == CompletedCount(groups[..i], totals[..i], "0", Modules1to4Sum)
      invariant completedControl == CompletedCount(groups[..i], totals[..i], "1", ControlLen)
    {
      assert groups[..i + 1][..i] == groups[..i] && totals[..i + 1][..i] == totals[..i];
      if groups[i] == Some("0") {
        totalMbi := totalMbi + 1;
        if AboveSeventyPercent(totals[i], Modules1to4Sum) {
          flags := flags + ["1"];
          completedMbi := completedMbi + 1;
        } else {
          flags := flags + ["0"];
        }
      }
      if groups[i] == Some("1") {
        totalControl := totalControl + 1;
        if AboveSeventyPercent(totals[i], ControlLen) {
          flags := flags + ["1"];
          completedControl := completedControl + 1;
        } else {
          flags := flags + ["0"];
        }
      }
    }
    assert groups[..|groups|] == groups && totals[..|totals|] == totals;
  }

  /** The weekly flag: "1" exactly when the total passes against the weekly reference of the participant's group. */
  function WeeklyFlag(g: Option<string>, total: int): (f: string)
    ensures f == "0" || f == "1"
    ensures f == "1" <==> (g == Some("0") && AboveSeventyPercent(total, WeeklyMbi))
                          || (g == Some("1") && AboveSeventyPercent(total, WeeklyControl))
  {
    if g == Some("0") then Flag(AboveSeventyPercent(total, WeeklyMbi))
    else if g == Some("1") then Flag(AboveSeventyPercent(total, WeeklyControl))
    else "0"
  }

  /** `completed_weekly(week)`: one flag per participant. */
  method CompletedWeekly(groups: seq<Option<string>>, week: seq<int>) returns (out: seq<string>)
    requires |week| == |groups|
    ensures |out| == |groups|
    ensures forall i :: 0 <= i < |groups| ==> out[i] == WeeklyFlag(groups[i], week[i])
  {
    out := [];
    for i := 0 to |groups|
      invariant |out| == i
      invariant forall q :: 0 <= q < i ==> out[q] == WeeklyFlag(groups[q], week[q])
    {
      if groups[i] == Some("0") {
        if AboveSeventyPercent(week[i], WeeklyMbi) {
          out := out + ["1"];
        } else {
          out := out + ["0"];
        }
      } else if groups[i] == Some("1") {
        if AboveSeventyPercent(week[i], WeeklyControl) {
          out := out + ["1"];
        } else {
          out := out + ["0"];
        }
      } else {
        out := out + ["0"];
      }
    }
  }
}
