/**
 Snapshot timestamps: `snapshot_to_standard`, which turns an exported
 timestamp such as "2023-05-01T10:20:30-04:00" into "2023/05/01/10/20/30",
 and `parse_snapshot_datetime`, which reads that form back as a datetime and
 falls back to 1111/11/11 11:11:11.
 */
module Snapshot {
  import opened Wrappers
  import opened PyStr
  import opened Calendar

  /** The string the normaliser returns for a missing or empty snapshot. */
  const NullSnapshot: string := "null"

  /** No character the normaliser rewrites to '/' is left. */
  predicate HasNoSeparator(s: string) {
    forall i :: 0 <= i < |s| ==> s[i] != 'T' && s[i] != '-' && s[i] != ':'
  }

  /** One round of the timezone loop: when `s` ends in `tz`, drop it and then every trailing '+' or '-'. */
  function StripTimezone(s: string, tz: string): string {
    if EndsWith(s, tz) then RStrip(s[..|s| - |tz|], {'+', '-'}) else s
  }

  /** The loop over "+00:00", "-04:00" and "-06:00", in that order. */
  function StripTimezones(s: string): string {
    StripTimezone(StripTimezone(StripTimezone(s, "+00:00"), "-04:00"), "-06:00")
  }

  /** `s.replace("T", "/").replace("-", "/").replace(":", "/")` */
  function ToSlashes(s: string): (r: string)
    ensures |r| == |s| && HasNoSeparator(r)
    ensures forall i :: 0 <= i < |s| && s[i] != 'T' && s[i] != '-' && s[i] != ':' ==> r[i] == s[i]
  {
    ReplaceChar(ReplaceChar(ReplaceChar(s, 'T', '/'), '-', '/'), ':', '/')
  }

  /** `snapshot_to_standard(s)`: "null" for an empty input and for a result that is
      only whitespace; otherwise a string in which no 'T', '-' or ':' is left. */
  function SnapshotToStandard(s: string): (r: string)
    ensures s == "" ==> r == NullSnapshot
    ensures IsBlank(s) ==> r == NullSnapshot
    ensures r == NullSnapshot || (HasNoSeparator(r) && !IsBlank(r))
  {
    if s == "" then NullSnapshot
    else
      var t := ToSlashes(StripTimezones(s));
      BlankStaysBlank(s);
      if IsBlank(t) then NullSnapshot else t
  }

  /** A blank string ends in no timezone suffix and has nothing to rewrite. */
  lemma BlankStaysBlank(s: string)
    ensures IsBlank(s) ==> IsBlank(ToSlashes(StripTimezones(s)))
  {
    if IsBlank(s) {
      NoTimezoneInBlank(s, "+00:00");
      NoTimezoneInBlank(s, "-04:00");
      NoTimezoneInBlank(s, "-06:00");
      assert StripTimezones(s) == s;
      var t := ToSlashes(s);
      forall i | 0 <= i < |t| ensures t[i] in Whitespace {
        assert s[i] in Whitespace;
      }
    }
  }

  lemma NoTimezoneInBlank(s: string, tz: string)
    requires IsBlank(s) && |tz| > 0 && tz[0] !in Whitespace
    ensures !EndsWith(s, tz)
  {
  }

  /** A string without separators is left alone by the rewrite. */
  lemma ToSlashesKeeps(s: string)
    requires HasNoSeparator(s)
    ensures ToSlashes(s) == s
  {
  }

  /** A string without ':' ends in none of the timezone suffixes. */
  lemma NoTimezoneWithoutColon(s: string, tz: string)
    requires HasNoSeparator(s) && |tz| >= 3 && tz[|tz| - 3] == ':'
    ensures StripTimezone(s, tz) == s
  {
  }

  /** A string with no separator that is not blank is already normalised, "null" among them. */
  lemma NormalisedIsFixed(r: string)
    requires r == NullSnapshot || (HasNoSeparator(r) && !IsBlank(r))
    ensures SnapshotToStandard(r) == r
  {
    assert HasNoSeparator(r) && !IsBlank(r) by {
      if r == NullSnapshot {
        assert r[0] == 'n' && r[0] !in Whitespace;
      }
    }
    NoTimezoneWithoutColon(r, "+00:00");
    NoTimezoneWithoutColon(r, "-04:00");
    NoTimezoneWithoutColon(r, "-06:00");
    assert StripTimezones(r) == r;
    ToSlashesKeeps(r);
  }

  /** Normalising a normalised snapshot changes nothing. */
  lemma SnapshotToStandardIdempotent(s: string)
    ensures SnapshotToStandard(SnapshotToStandard(s)) == SnapshotToStandard(s)
  {
    NormalisedIsFixed(SnapshotToStandard(s));
  }

  /** `parse_snapshot_datetime(s)`: the datetime `s` spells as "%Y/%m/%d/%H/%M/%S",
      or 1111/11/11 11:11:11 when `s` is empty, "null" or unreadable. */
  function ParseSnapshotDatetime(s: string): (t: DateTime)
    ensures ValidDateTime(t)
    ensures s == "" || s == NullSnapshot ==> t == SentinelDateTime
    ensures ParseDateTime(s).Some? ==> t == ParseDateTime(s).value
    ensures ParseDateTime(s).None? ==> t == SentinelDateTime
  {
    if s == "" || s == NullSnapshot then SentinelDateTime
    else
      match ParseDateTime(s)
      case Some(t) => t
      case None => SentinelDateTime
  }

  /** `parts[0] + seps[0] + parts[1] + ... + seps[k-1] + parts[k]` */
  function Punctuate(parts: seq<string>, seps: string): string
    requires |parts| == |seps| + 1
    decreases |seps|
  {
    if seps == [] then parts[0] else parts[0] + [seps[0]] + Punctuate(parts[1..], seps[1..])
  }

  /** The six zero-padded fields of a datetime, year first. */
  function Fields(t: DateTime): seq<string>
    requires ValidDateTime(t)
  {
    [Pad4(t.date.year), Pad2(t.date.month), Pad2(t.date.day), Pad2(t.hour), Pad2(t.minute), Pad2(t.second)]
  }

  /** The export's ISO form "YYYY-MM-DDTHH:MM:SS" followed by the zone `tz`. */
  function IsoTimestamp(t: DateTime, tz: string): string
    requires ValidDateTime(t)
  {
    Punctuate(Fields(t), "--T::") + tz
  }

  lemma {:induction false} JoinIsPunctuate(parts: seq<string>, sep: char)
    requires |parts| > 0
    ensures Join(parts, sep) == Punctuate(parts, seq(|parts| - 1, _ => sep))
    decreases |parts|
  {
    if |parts| > 1 {
      JoinIsPunctuate(parts[1..], sep);
      assert seq(|parts| - 1, _ => sep)[1..] == seq(|parts| - 2, _ => sep);
    }
  }

  lemma ReplaceCharConcat(a: string, b: string, x: char, y: char)
    ensures ReplaceChar(a + b, x, y) == ReplaceChar(a, x, y) + ReplaceChar(b, x, y)
  {
    var whole, parts := ReplaceChar(a + b, x, y), ReplaceChar(a, x, y) + ReplaceChar(b, x, y);
    assert |whole| == |parts| == |a| + |b|;
    forall i | 0 <= i < |whole| ensures whole[i] == parts[i] {
      if i < |a| {
        assert (a + b)[i] == a[i] && parts[i] == ReplaceChar(a, x, y)[i];
      } else {
        assert (a + b)[i] == b[i - |a|] && parts[i] == ReplaceChar(b, x, y)[i - |a|];
      }
    }
  }

  lemma ToSlashesConcat(a: string, b: string)
    ensures ToSlashes(a + b) == ToSlashes(a) + ToSlashes(b)
  {
    var a1, b1 := ReplaceChar(a, 'T', '/'), ReplaceChar(b, 'T', '/');
    var a2, b2 := ReplaceChar(a1, '-', '/'), ReplaceChar(b1, '-', '/');
    ReplaceCharConcat(a, b, 'T', '/');
    ReplaceCharConcat(a1, b1, '-', '/');
    ReplaceCharConcat(a2, b2, ':', '/');
  }

  /** Rewriting digit fields joined by 'T', '-' and ':' joins them by '/' instead. */
  lemma {:induction false} ToSlashesPunctuated(parts: seq<string>, seps: string)
    requires |parts| == |seps| + 1
    requires forall i :: 0 <= i < |parts| ==> AllDigits(parts[i])
    requires forall i :: 0 <= i < |seps| ==> seps[i] in {'T', '-', ':'}
    ensures ToSlashes(Punctuate(parts, seps)) == Punctuate(parts, seq(|seps|, _ => '/'))
    decreases |seps|
  {
    ToSlashesKeeps(parts[0]);
    if seps != [] {
      ToSlashesPunctuated(parts[1..], seps[1..]);
      ToSlashesConcat(parts[0] + [seps[0]], Punctuate(parts[1..], seps[1..]));
      ToSlashesConcat(parts[0], [seps[0]]);
      assert ToSlashes([seps[0]]) == ['/'];
      assert seq(|seps|, _ => '/')[1..] == seq(|seps| - 1, _ => '/');
    }
  }

  /** Length and the characters of an ISO timestamp that the zone suffixes are checked against. */
  lemma IsoShape(t: DateTime)
    requires ValidDateTime(t)
    ensures var core := IsoTimestamp(t, "");
      |core| == 19 && core[13] == ':' && IsDigit(core[18])
  {
    var f := Fields(t);
    var a := f[4] + [':'] + f[5];
    var b := f[3] + [':'] + a;
    var c := f[2] + ['T'] + b;
    var d := f[1] + ['-'] + c;
    var core := f[0] + ['-'] + d;
    assert Punctuate(f[4..], ":") == a;
    assert Punctuate(f[3..], "::") == b;
    assert Punctuate(f[2..], "T::") == c;
    assert Punctuate(f[1..], "-T::") == d;
    assert IsoTimestamp(t, "") == core;
    assert IsDigit(f[5][1]);
    assert a[4] == f[5][1] && b[2] == ':' && c[5] == ':' && d[8] == ':' && core[13] == ':';
  }

  /** The ISO timestamp without its zone, rewritten, is the "%Y/%m/%d/%H/%M/%S" form. */
  lemma IsoToSlashes(t: DateTime)
    requires ValidDateTime(t)
    ensures ToSlashes(IsoTimestamp(t, "")) == FormatDateTime(t)
  {
    var f := Fields(t);
    assert IsoTimestamp(t, "") == Punctuate(f, "--T::");
    ToSlashesPunctuated(f, "--T::");
    JoinIsPunctuate(f, '/');
  }

  /** A zone-free timestamp shaped like the ISO one ends in none of the zone suffixes. */
  lemma CoreHasNoTimezone(core: string, tz: string)
    requires |core| == 19 && core[13] == ':'
    requires |tz| == 6 && tz[0] != ':'
    ensures StripTimezone(core, tz) == core
  {
  }

  /** The zone loop removes exactly the zone of a timestamp shaped like the ISO one. */
  lemma StripZoneOf(core: string, tz: string)
    requires |core| == 19 && core[13] == ':' && IsDigit(core[18])
    requires tz in ["", "+00:00", "-04:00", "-06:00"]
    ensures StripTimezones(core + tz) == core
  {
    var s := core + tz;
    CoreHasNoTimezone(core, "+00:00");
    CoreHasNoTimezone(core, "-04:00");
    CoreHasNoTimezone(core, "-06:00");
    assert RStrip(core, {'+', '-'}) == core by {
      assert core[18] !in {'+', '-'};
    }
    if tz == "+00:00" {
      assert EndsWith(s, tz) && s[..|s| - |tz|] == core;
    } else if tz == "-04:00" {
      assert !EndsWith(s, "+00:00") by { assert s[19] == '-'; }
      assert EndsWith(s, tz) && s[..|s| - |tz|] == core;
    } else if tz == "-06:00" {
      assert !EndsWith(s, "+00:00") by { assert s[19] == '-'; }
      assert !EndsWith(s, "-04:00") by { assert s[21] == '6'; }
      assert EndsWith(s, tz) && s[..|s| - |tz|] == core;
    } else {
      assert s == core;
    }
  }

  /** The slash form of a datetime starts with a digit of its year. */
  lemma FormatStartsWithDigit(t: DateTime)
    requires ValidDateTime(t)
    ensures |FormatDateTime(t)| > 0 && IsDigit(FormatDateTime(t)[0])
  {
    var f := Fields(t);
    assert FormatDateTime(t) == f[0] + ['/'] + Join(f[1..], '/');
  }

  lemma NormaliseShaped(core: string, tz: string, r: string)
    requires |core| == 19 && core[13] == ':' && IsDigit(core[18])
    requires tz in ["", "+00:00", "-04:00", "-06:00"]
    requires ToSlashes(core) == r && |r| > 0 && IsDigit(r[0])
    ensures SnapshotToStandard(core + tz) == r
  {
    StripZoneOf(core, tz);
    assert !IsBlank(r) by { assert r[0] !in Whitespace; }
    assert core + tz != "" by { assert |core + tz| >= 19; }
  }

  lemma IsoWithZone(t: DateTime, tz: string)
    requires ValidDateTime(t)
    ensures IsoTimestamp(t, tz) == IsoTimestamp(t, "") + tz
  {
    var p := Punctuate(Fields(t), "--T::");
    assert p + "" == p;
  }

  /** The normaliser turns an exported timestamp into the slash form of the same datetime. */
  lemma NormaliseIso(t: DateTime, tz: string)
    requires ValidDateTime(t)
    requires tz in ["", "+00:00", "-04:00", "-06:00"]
    ensures SnapshotToStandard(IsoTimestamp(t, tz)) == FormatDateTime(t)
  {
    IsoShape(t);
    IsoWithZone(t, tz);
    IsoToSlashes(t);
    FormatStartsWithDigit(t);
    NormaliseShaped(IsoTimestamp(t, ""), tz, FormatDateTime(t));
  }

  /** The slash form of a datetime is read back as that datetime. */
  lemma ParseFormatted(t: DateTime)
    requires ValidDateTime(t)
    ensures ParseSnapshotDatetime(FormatDateTime(t)) == t
  {
    var r := FormatDateTime(t);
    FormatStartsWithDigit(t);
    ParseFormatDateTime(t);
    assert r != NullSnapshot by { assert r[0] != NullSnapshot[0]; }
  }

  /** An exported timestamp in UTC, in UTC-4, in UTC-6 or without a zone
      is normalised and read back as the datetime it spells. */
  lemma NormaliseThenParse(t: DateTime, tz: string)
    requires ValidDateTime(t)
    requires tz in ["", "+00:00", "-04:00", "-06:00"]
    ensures ParseSnapshotDatetime(SnapshotToStandard(IsoTimestamp(t, tz))) == t
  {
    NormaliseIso(t, tz);
    ParseFormatted(t);
  }
}
