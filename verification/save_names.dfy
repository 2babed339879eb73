/** Names of the save files of the fleet database: `SAVE__<date>.csv`, the
    date written with the format `%d_%m_%Y_%H_%M_%S` (packages/db.py). This
    module formats a date the way `strftime` does, parses a name the way
    `get_list_of_saves` does (`split('SAVE__')[1].split('.csv')[0]` followed by
    `strptime`), and proves that the two agree. */
module SaveNames {
  import opened Common

  /** A save date at second precision: `strftime` drops the microseconds of
      `datetime.now()`. */
  datatype Timestamp = Timestamp(year: int, month: int, day: int, hour: int, minute: int, second: int)

  predicate IsLeapYear(y: int) {
    y % 4 == 0 && (y % 100 != 0 || y % 400 == 0)
  }

  function DaysInMonth(year: int, month: int): int {
    if month == 2 then (if IsLeapYear(year) then 29 else 28)
    else if month == 4 || month == 6 || month == 9 || month == 11 then 30
    else 31
  }

  /** The dates Python's `datetime` constructor accepts (no leap seconds). */
  predicate ValidTimestamp(t: Timestamp) {
    && 1 <= t.year <= 9999
    && 1 <= t.month <= 12
    && 1 <= t.day <= DaysInMonth(t.year, t.month)
    && 0 <= t.hour <= 23
    && 0 <= t.minute <= 59
    && 0 <= t.second <= 59
  }

  const SavePrefix: string := "SAVE__"
  const SaveSuffix: string := ".csv"

  // ---------------------------------------------------------------------
  // Formatting (strftime)
  // ---------------------------------------------------------------------

  /** Two digits with a leading zero: `%d`, `%m`, `%H`, `%M`, `%S`. */
  function Pad2(n: nat): (s: string)
    requires n < 100
    ensures |s| == 2 && AllDigits(s) && DigitsValue(s) == n
  {
    var s := [DigitChar(n / 10), DigitChar(n % 10)];
    assert DigitsValue(s[..1]) == n / 10;
    s
  }

  /** Four digits with leading zeros: `%Y`. */
  function Pad4(n: nat): (s: string)
    requires n < 10000
    ensures |s| == 4 && AllDigits(s) && DigitsValue(s) == n
  {
    var s := Pad2(n / 100) + Pad2(n % 100);
    AppendTwoDigits(Pad2(n / 100), Pad2(n % 100));
    s
  }

  /** Appending two digits multiplies the value so far by a hundred. */
  lemma AppendTwoDigits(a: string, b: string)
    requires AllDigits(a) && AllDigits(b) && |b| == 2
    ensures AllDigits(a + b) && DigitsValue(a + b) == 100 * DigitsValue(a) + DigitsValue(b)
  {
    var s := a + b;
    var p := a + b[..1];
    assert s[..|s| - 1] == p && s[|s| - 1] == b[1];
    assert p[..|p| - 1] == a && p[|p| - 1] == b[0];
    assert b[..1][..0] == [];
    assert DigitsValue(p) == 10 * DigitsValue(a) + DigitValue(b[0]);
    assert DigitsValue(b[..1]) == DigitValue(b[0]);
    assert DigitsValue(b) == 10 * DigitValue(b[0]) + DigitValue(b[1]);
  }

  /** `date.strftime("%d_%m_%Y_%H_%M_%S")`: six numeric fields separated by
      underscores, day first. */
  function FormatDate(t: Timestamp): (s: string)
    requires ValidTimestamp(t)
    ensures forall i :: 0 <= i < |s| ==> IsDigit(s[i]) || s[i] == '_'
  {
    Pad2(t.day) + "_" + Pad2(t.month) + "_" + Pad4(t.year) + "_"
    + Pad2(t.hour) + "_" + Pad2(t.minute) + "_" + Pad2(t.second)
  }

  /** The name under which `saveDB` writes the table saved at `t`. */
  function SaveFileName(t: Timestamp): string
    requires ValidTimestamp(t)
  {
    SavePrefix + FormatDate(t) + SaveSuffix
  }

  // ---------------------------------------------------------------------
  // Parsing (strptime)
  // ---------------------------------------------------------------------

  /** `s.split(sep)` for a one-character separator: never empty, and the
      pieces joined by `sep` give back `s`. */
  function Split(s: string, sep: char): (r: seq<string>)
    ensures |r| >= 1
    decreases |s|
  {
    if |s| == 0 then [""]
    else
      var rest := Split(s[1..], sep);
      if s[0] == sep then [""] + rest else [[s[0]] + rest[0]] + rest[1..]
  }

  /** A one- or two-digit field of `strptime`: one digit of value at least
      `lo`, or two digits whose value lies in `lo..hi` (the regular
      expressions of `%m`, `%H`, `%M` and `%S`). */
  function SmallField(f: string, lo: nat, hi: nat): Option<int>
  {
    if |f| == 1 && IsDigit(f[0]) && lo <= DigitValue(f[0]) then Some(DigitValue(f[0]))
    else if |f| == 2 && AllDigits(f) && lo <= DigitsValue(f) <= hi then Some(DigitsValue(f))
    else None
  }

  /** `%d` also accepts a space followed by a non-zero digit. */
  function DayField(f: string): Option<int> {
    if |f| == 2 && f[0] == ' ' && IsDigit(f[1]) && f[1] != '0' then Some(DigitValue(f[1]))
    else SmallField(f, 1, 31)
  }

  /** `%Y` accepts exactly four digits. */
  function YearField(f: string): Option<int> {
    if |f| == 4 && AllDigits(f) then Some(DigitsValue(f)) else None
  }

  /** `datetime.strptime(s, "%d_%m_%Y_%H_%M_%S")`: the whole text must match
      the six field patterns joined by underscores, and the fields must form
      a date `datetime` accepts (so `30_02_...` and a second of 60 fail). */
  function ParseDate(s: string): Option<Timestamp> {
    var f := Split(s, '_');
    if |f| != 6 then None
    else
      match (DayField(f[0]), SmallField(f[1], 1, 12), YearField(f[2]),
             SmallField(f[3], 0, 23), SmallField(f[4], 0, 59), SmallField(f[5], 0, 61))
      case (Some(d), Some(m), Some(y), Some(h), Some(mi), Some(sec)) =>
        var t := Timestamp(y, m, d, h, mi, sec);
        if ValidTimestamp(t) then Some(t) else None
      case _ => None
  }

  /** `p` occurs in `s` starting at index `i`. */
  predicate OccursAt(s: string, p: string, i: nat) {
    i + |p| <= |s| && s[i..i + |p|] == p
  }

  /** Index of the first occurrence of `p` in `s` at or after `from`. */
  function Find(s: string, p: string, from: nat): (r: Option<nat>)
    requires |p| > 0
    ensures r.Some? ==> from <= r.value && OccursAt(s, p, r.value)
    ensures r.Some? ==> forall i :: from <= i < r.value ==> !OccursAt(s, p, i)
    ensures r.None? ==> forall i :: from <= i ==> !OccursAt(s, p, i)
    decreases |s| - from
  {
    if from + |p| > |s| then None
    else if OccursAt(s, p, from) then Some(from)
    else Find(s, p, from + 1)
  }

  /** `s.split(p)[0]`: the text before the first occurrence of `p`. */
  function FirstPiece(s: string, p: string): string
    requires |p| > 0
  {
    match Find(s, p, 0)
    case None => s
    case Some(i) => s[..i]
  }

  /** `s.split(p)[1]`: the text between the first and the second occurrence
      of `p`; `None` is the IndexError raised when `p` does not occur. */
  function SecondPiece(s: string, p: string): Option<string>
    requires |p| > 0
  {
    match Find(s, p, 0)
    case None => None
    case Some(i) => Some(FirstPiece(s[i + |p|..], p))
  }

  /** The date `get_list_of_saves` reads from one file name. */
  function ParseSaveName(name: string): (r: Result<Timestamp, Failure>)
    ensures r.Ok? ==> ValidTimestamp(r.value)
    ensures r.Err? ==> r.error == MalformedSaveName(name)
  {
    match SecondPiece(name, SavePrefix)
    case None => Err(MalformedSaveName(name))
    case Some(between) =>
      match ParseDate(FirstPiece(between, SaveSuffix))
      case None => Err(MalformedSaveName(name))
      case Some(t) => Ok(t)
  }

  /** `get_list_of_saves` (packages/db.py, packages/server.py): the date of
      every listed file, in listing order; the first name that does not parse
      makes the whole listing fail. */
  function ListSaves(names: seq<string>): (r: Result<seq<Timestamp>, Failure>)
    ensures r.Ok? <==> forall i :: 0 <= i < |names| ==> ParseSaveName(names[i]).Ok?
    ensures r.Ok? ==> |r.value| == |names|
    ensures r.Ok? ==> forall i :: 0 <= i < |names| ==> ParseSaveName(names[i]) == Ok(r.value[i])
    ensures r.Err? ==> exists i :: (0 <= i < |names| && ParseSaveName(names[i]) == Err(r.error)
      && forall j :: 0 <= j < i ==> ParseSaveName(names[j]).Ok?)
  {
    if |names| == 0 then Ok([])
    else
      match ParseSaveName(names[0])
      case Err(e) => Err(e)
      case Ok(t) =>
        match ListSaves(names[1..])
        case Err(e) =>
          assert forall j :: 1 <= j < |names| ==> names[j] == names[1..][j - 1];
          Err(e)
        case Ok(ts) =>
          assert forall j :: 1 <= j < |names| ==> names[j] == names[1..][j - 1];
          Ok([t] + ts)
  }

  // ---------------------------------------------------------------------
  // Chronological order (comparison of datetime objects)
  // ---------------------------------------------------------------------

  predicate Earlier(a: Timestamp, b: Timestamp) {
    || a.year < b.year
    || (a.year == b.year && a.month < b.month)
    || (a.year == b.year && a.month == b.month && a.day < b.day)
    || (a.year == b.year && a.month == b.month && a.day == b.day && a.hour < b.hour)
    || (a.year == b.year && a.month == b.month && a.day == b.day && a.hour == b.hour
        && a.minute < b.minute)
    || (a.year == b.year && a.month == b.month && a.day == b.day && a.hour == b.hour
        && a.minute == b.minute && a.second < b.second)
  }

  predicate NotLater(a: Timestamp, b: Timestamp) {
    a == b || Earlier(a, b)
  }

  lemma EarlierTransitive(a: Timestamp, b: Timestamp, c: Timestamp)
    requires Earlier(a, b) && Earlier(b, c)
    ensures Earlier(a, c)
  {
  }

  /** `max(list_files)`: the latest date of a non-empty listing. */
  function Latest(ts: seq<Timestamp>): (r: Timestamp)
    requires |ts| > 0
    ensures r in ts
    ensures forall t :: t in ts ==> NotLater(t, r)
  {
    if |ts| == 1 then ts[0]
    else
      var m := Latest(ts[1..]);
      assert forall t :: t in ts[1..] ==> NotLater(t, m);
      if Earlier(m, ts[0]) then
        assert forall t :: t in ts[1..] ==> Earlier(t, ts[0]) by {
          forall t | t in ts[1..] ensures Earlier(t, ts[0]) {
            if t != m { EarlierTransitive(t, m, ts[0]); }
          }
        }
        ts[0]
      else m
  }

  /** `min(list_files)`: the oldest date of a non-empty listing. */
  function Oldest(ts: seq<Timestamp>): (r: Timestamp)
    requires |ts| > 0
    ensures r in ts
    ensures forall t :: t in ts ==> NotLater(r, t)
  {
    if |ts| == 1 then ts[0]
    else
      var m := Oldest(ts[1..]);
      assert forall t :: t in ts[1..] ==> NotLater(m, t);
      if Earlier(ts[0], m) then
        assert forall t :: t in ts[1..] ==> Earlier(ts[0], t) by {
          forall t | t in ts[1..] ensures Earlier(ts[0], t) {
            if t != m { EarlierTransitive(ts[0], m, t); }
          }
        }
        ts[0]
      else m
  }

  // ---------------------------------------------------------------------
  // The round trip
  // ---------------------------------------------------------------------

  lemma {:induction false} SplitAtSeparator(a: string, b: string, sep: char)
    requires forall i :: 0 <= i < |a| ==> a[i] != sep
    ensures Split(a + [sep] + b, sep) == [a] + Split(b, sep)
    decreases |a|
  {
    if |a| == 0 {
      assert a + [sep] + b == [sep] + b;
      assert ([sep] + b)[1..] == b;
    } else {
      SplitAtSeparator(a[1..], b, sep);
      assert (a + [sep] + b)[1..] == a[1..] + [sep] + b;
      assert [a[0]] + a[1..] == a;
    }
  }

  lemma {:induction false} SplitWithoutSeparator(a: string, sep: char)
    requires forall i :: 0 <= i < |a| ==> a[i] != sep
    ensures Split(a, sep) == [a]
    decreases |a|
  {
    if |a| > 0 {
      SplitWithoutSeparator(a[1..], sep);
      assert [a[0]] + a[1..] == a;
    }
  }

  lemma SplitFormatDate(t: Timestamp)
    requires ValidTimestamp(t)
    ensures Split(FormatDate(t), '_') ==
      [Pad2(t.day), Pad2(t.month), Pad4(t.year), Pad2(t.hour), Pad2(t.minute), Pad2(t.second)]
  {
    var d, m, y, h, mi, s := Pad2(t.day), Pad2(t.month), Pad4(t.year), Pad2(t.hour), Pad2(t.minute), Pad2(t.second);
    assert FormatDate(t) == d + ['_'] + (m + ['_'] + (y + ['_'] + (h + ['_'] + (mi + ['_'] + s))));
    SplitWithoutSeparator(s, '_');
    SplitAtSeparator(mi, s, '_');
    SplitAtSeparator(h, mi + ['_'] + s, '_');
    SplitAtSeparator(y, h + ['_'] + (mi + ['_'] + s), '_');
    SplitAtSeparator(m, y + ['_'] + (h + ['_'] + (mi + ['_'] + s)), '_');
    SplitAtSeparator(d, m + ['_'] + (y + ['_'] + (h + ['_'] + (mi + ['_'] + s))), '_');
  }

  /** `strptime` reads back every date `strftime` writes. */
  lemma ParseFormatDate(t: Timestamp)
    requires ValidTimestamp(t)
    ensures ParseDate(FormatDate(t)) == Some(t)
  {
    SplitFormatDate(t);
    var f := Split(FormatDate(t), '_');
    assert DayField(f[0]) == Some(t.day);
    assert SmallField(f[1], 1, 12) == Some(t.month);
    assert YearField(f[2]) == Some(t.year);
    assert SmallField(f[3], 0, 23) == Some(t.hour);
    assert SmallField(f[4], 0, 59) == Some(t.minute);
    assert SmallField(f[5], 0, 61) == Some(t.second);
  }

  lemma {:induction false} FindAbsentFirstChar(s: string, p: string, from: nat)
    requires |p| > 0
    requires forall i :: from <= i < |s| ==> s[i] != p[0]
    ensures Find(s, p, from) == None
    decreases |s| - from
  {
    if from + |p| <= |s| {
      assert s[from..from + |p|][0] == s[from];
      assert !OccursAt(s, p, from);
      FindAbsentFirstChar(s, p, from + 1);
    }
  }

  lemma {:induction false} FindAfterSkip(s: string, p: string, from: nat, at: nat)
    requires |p| > 0 && from <= at && OccursAt(s, p, at)
    requires forall i :: from <= i < at ==> s[i] != p[0]
    ensures Find(s, p, from) == Some(at)
    decreases at - from
  {
    if from < at {
      assert from + |p| <= |s| && s[from..from + |p|][0] == s[from];
      assert !OccursAt(s, p, from);
      FindAfterSkip(s, p, from + 1, at);
    }
  }

  /** Save-name round trip: the name `saveDB` writes for a date is read back
      by `get_list_of_saves` as that same date. */
  lemma SaveFileNameRoundTrip(t: Timestamp)
    requires ValidTimestamp(t)
    ensures ParseSaveName(SaveFileName(t)) == Ok(t)
  {
    var body := FormatDate(t);
    var name := SaveFileName(t);
    assert name == SavePrefix + (body + SaveSuffix);
    assert OccursAt(name, SavePrefix, 0);
    var rest := name[|SavePrefix|..];
    assert rest == body + SaveSuffix;
    FindAbsentFirstChar(rest, SavePrefix, 0);
    assert FirstPiece(rest, SavePrefix) == rest;
    assert OccursAt(rest, SaveSuffix, |body|);
    FindAfterSkip(rest, SaveSuffix, 0, |body|);
    assert FirstPiece(rest, SaveSuffix) == body;
    ParseFormatDate(t);
  }

  /** Different dates are saved under different names. */
  lemma SaveFileNameInjective(a: Timestamp, b: Timestamp)
    requires ValidTimestamp(a) && ValidTimestamp(b) && a != b
    ensures SaveFileName(a) != SaveFileName(b)
  {
    SaveFileNameRoundTrip(a);
    SaveFileNameRoundTrip(b);
  }

  /** A listed file whose name lacks `SAVE__` makes the whole listing fail. */
  lemma ListingFailsWithoutPrefix(names: seq<string>, k: nat)
    requires k < |names| && Find(names[k], SavePrefix, 0) == None
    ensures ListSaves(names).Err?
  {
    assert ParseSaveName(names[k]).Err?;
  }
}
