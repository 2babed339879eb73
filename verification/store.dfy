/** The folder of saves (`Tracker_fleet_YCC/DATA_SAVES/`): CSV files named
    `SAVE__<date>.csv`, at most `MAX_NUMBER_OF_FILES` of them kept by
    `saveDB`. The folder is shared state, so it is a class whose `files`
    map from file names to the tables they hold is updated in place. */
module Store {
  import opened Common
  import opened Fleet
  import opened SaveNames

  /** `MAX_NUMBER_OF_FILES`. */
  const MaxNumberOfFiles: nat := 5

  class SaveFolder {
    var files: map<string, Table>

    constructor(initial: map<string, Table>)
      ensures files == initial
    {
      files := initial;
    }

    /** `os.listdir`: every file name once, in an order the model leaves open. */
    method ListDir() returns (names: seq<string>)
      ensures forall n :: n in names <==> n in files
      ensures forall i, j :: 0 <= i < j < |names| ==> names[i] != names[j]
      ensures |names| == |files.Keys|
    {
      var left := files.Keys;
      names := [];
      while left != {}
        invariant left <= files.Keys
        invariant forall n :: n in names <==> n in files && n !in left
        invariant forall i, j :: 0 <= i < j < |names| ==> names[i] != names[j]
        invariant |names| + |left| == |files.Keys|
        decreases |left|
      {
        var n :| n in left;
        names := names + [n];
        left := left - {n};
      }
    }

    /** `get_list_of_saves`: the dates of the files, in listing order, or
        the error of a file name that is not a save's. The database and the
        server share this code. */
    method GetListOfSaves() returns (r: Result<seq<Timestamp>, Failure>)
      ensures r.Ok? <==> AllParse(files.Keys)
      ensures r.Ok? ==> |r.value| == |files.Keys|
      ensures r.Ok? ==> forall d :: d in r.value <==> d in SavedDates(files.Keys)
      ensures (r.Err? ==> exists n :: (n in files && r.error == MalformedSaveName(n)
        && ParseSaveName(n).Err?))
    {
      var names := ListDir();
      r := ListSaves(names);
      ListingDates(names, files.Keys);
      if r.Err? {
        var i :| 0 <= i < |names| && ParseSaveName(names[i]) == Err(r.error);
        assert names[i] in files;
      }
    }

    /** `pd.read_csv`: the table a file holds, or `FileNotFoundError`. */
    method Read(name: string) returns (r: Result<Table, Failure>)
      ensures name in files ==> r == Ok(files[name])
      ensures name !in files ==> r == Err(MissingSaveFile(name))
    {
      if name in files {
        r := Ok(files[name]);
      } else {
        r := Err(MissingSaveFile(name));
      }
    }

    /** `os.remove`. */
    method Remove(name: string) returns (o: Outcome)
      modifies this
      ensures name in old(files) ==> o == Done && files == old(files) - {name}
      ensures name !in old(files) ==> o == Raised(MissingSaveFile(name)) && files == old(files)
    {
      if name in files {
        files := files - {name};
        o := Done;
      } else {
        o := Raised(MissingSaveFile(name));
      }
    }

    /** `DataFrame.to_csv(..., index=False)`: creates or overwrites the file. */
    method Write(name: string, t: Table)
      modifies this
      ensures files == old(files)[name := t]
    {
      files := files[name := t];
    }
  }

  // ---------------------------------------------------------------------
  // Specification of `get_list_of_saves` and `saveDB` on the folder's names

  /** Every listed name reads as a save date. */
  predicate AllParse(names: set<string>) {
    forall n :: n in names ==> ParseSaveName(n).Ok?
  }

  function SavedDates(names: set<string>): (r: set<Timestamp>)
    requires AllParse(names)
    ensures forall d :: d in r ==> ValidTimestamp(d)
    ensures r == {} <==> names == {}
  {
    var r := set n | n in names :: ParseSaveName(n).value;
    SomeDateSaved(names, r);
    r
  }

  lemma SomeDateSaved(names: set<string>, dates: set<Timestamp>)
    requires AllParse(names) && dates == set n | n in names :: ParseSaveName(n).value
    ensures names != {} ==> dates != {}
  {
    if names != {} {
      var n :| n in names;
      assert ParseSaveName(n).value in dates;
    }
  }

  /** Two dates neither of which is later than the other are the same date. */
  lemma NotLaterAntisymmetric(a: Timestamp, b: Timestamp)
    requires NotLater(a, b) && NotLater(b, a)
    ensures a == b
  {
  }

  /** The minimum of a listing does not depend on the listing's order. */
  lemma OldestIsOrderFree(ts: seq<Timestamp>, us: seq<Timestamp>)
    requires |ts| > 0 && forall t :: t in ts <==> t in us
    ensures |us| > 0 && Oldest(ts) == Oldest(us)
  {
    assert ts[0] in us;
    var a := Oldest(ts);
    var b := Oldest(us);
    NotLaterAntisymmetric(a, b);
  }

  /** The date `saveDB` removes when the folder is full: the oldest one. */
  ghost function OldestDate(dates: set<Timestamp>): (r: Timestamp)
    requires dates != {}
    ensures r in dates && forall d :: d in dates ==> NotLater(r, d)
  {
    var d :| d in dates;
    if dates == {d} then d
    else
      var m := OldestDate(dates - {d});
      if Earlier(d, m) then
        assert forall e :: e in dates - {d} ==> NotLater(d, e) by {
          forall e | e in dates - {d} ensures NotLater(d, e) {
            if e != m { EarlierTransitive(d, m, e); }
          }
        }
        d
      else
        assert NotLater(m, d) by {
          assert Earlier(m, d) || m == d || Earlier(d, m);
        }
        m
  }

  /** The save `load_last_save` loads: the latest date. */
  ghost function LatestDate(dates: set<Timestamp>): (r: Timestamp)
    requires dates != {}
    ensures r in dates && forall d :: d in dates ==> NotLater(d, r)
  {
    var d :| d in dates;
    if dates == {d} then d
    else
      var m := LatestDate(dates - {d});
      if Earlier(m, d) then
        assert forall e :: e in dates - {d} ==> NotLater(e, d) by {
          forall e | e in dates - {d} ensures NotLater(e, d) {
            if e != m { EarlierTransitive(e, m, d); }
          }
        }
        d
      else
        assert NotLater(d, m) by {
          assert Earlier(m, d) || m == d || Earlier(d, m);
        }
        m
  }

  /** A listing of the folder, in whatever order, parses exactly when every
      file name does, and then lists exactly the saved dates. */
  lemma ListingDates(names: seq<string>, keys: set<string>)
    requires forall n :: n in names <==> n in keys
    ensures ListSaves(names).Ok? <==> AllParse(keys)
    ensures ListSaves(names).Ok? ==> forall d :: d in ListSaves(names).value <==> d in SavedDates(keys)
  {
    var r := ListSaves(names);
    if r.Ok? {
      forall n | n in keys ensures ParseSaveName(n).Ok? {
        var i :| 0 <= i < |names| && names[i] == n;
      }
      forall d | d in r.value ensures d in SavedDates(keys) {
        var i :| 0 <= i < |r.value| && r.value[i] == d;
        assert ParseSaveName(names[i]) == Ok(d);
      }
      forall d | d in SavedDates(keys) ensures d in r.value {
        var n :| n in keys && ParseSaveName(n).value == d;
        var i :| 0 <= i < |names| && names[i] == n;
        assert r.value[i] == d;
      }
    } else {
      var i :| 0 <= i < |names| && ParseSaveName(names[i]).Err?;
      assert names[i] in keys;
    }
  }

  /** `min(list_files)` is the oldest saved date whatever the listing order. */
  lemma OldestOfListing(ts: seq<Timestamp>, dates: set<Timestamp>)
    requires |ts| > 0 && forall d :: d in ts <==> d in dates
    ensures dates != {} && Oldest(ts) == OldestDate(dates)
  {
    assert ts[0] in dates;
    NotLaterAntisymmetric(Oldest(ts), OldestDate(dates));
  }

  /** `max(list_files)` is the latest saved date whatever the listing order. */
  lemma LatestOfListing(ts: seq<Timestamp>, dates: set<Timestamp>)
    requires |ts| > 0 && forall d :: d in ts <==> d in dates
    ensures dates != {} && Latest(ts) == LatestDate(dates)
  {
    assert ts[0] in dates;
    NotLaterAntisymmetric(Latest(ts), LatestDate(dates));
  }

  /** The dates of the saves left by one `saveDB` at date `now` on a folder
      holding exactly the saves of `dates`. */
  ghost function Retain(dates: set<Timestamp>, now: Timestamp): (r: set<Timestamp>)
    ensures now in r
  {
    Kept(dates) + {now}
  }

  /** A folder with at most five saves still has at most five after a save,
      the new one among them. */
  lemma RetainBound(dates: set<Timestamp>, now: Timestamp)
    requires |dates| <= MaxNumberOfFiles
    ensures |Retain(dates, now)| <= MaxNumberOfFiles
  {
    if |dates| >= MaxNumberOfFiles {
      var d := OldestDate(dates);
      assert |dates - {d}| == |dates| - 1;
    }
  }

  /** Only the oldest save is ever removed: every save the step drops is
      older than every save it keeps, when the new save is the latest. */
  lemma RetainDropsOnlyTheOldest(dates: set<Timestamp>, now: Timestamp, dropped: Timestamp, kept: Timestamp)
    requires forall d :: d in dates ==> Earlier(d, now)
    requires dropped in dates && dropped !in Retain(dates, now) && kept in Retain(dates, now)
    ensures Earlier(dropped, kept)
  {
    var o := OldestDate(dates);
    assert dropped == o;
    if kept != now {
      assert kept in dates && kept != o;
    }
  }

  /** The dates of a folder after a sequence of saves, from the given start. */
  ghost function SaveRun(start: set<Timestamp>, saves: seq<Timestamp>): (r: set<Timestamp>)
    ensures |saves| > 0 ==> saves[|saves| - 1] in r
    decreases |saves|
  {
    if |saves| == 0 then start else Retain(SaveRun(start, saves[..|saves| - 1]), saves[|saves| - 1])
  }

  predicate StrictlyIncreasing(saves: seq<Timestamp>) {
    forall i, j :: 0 <= i < j < |saves| ==> Earlier(saves[i], saves[j])
  }

  /** The dates `saves[lo..]` as a set. */
  function Window(saves: seq<Timestamp>, lo: nat): set<Timestamp> {
    set i | lo <= i < |saves| :: saves[i]
  }

  /** Where the five most recent of `n` saves start. */
  function NewestStart(n: nat): nat {
    if n < MaxNumberOfFiles then 0 else n - MaxNumberOfFiles
  }

  lemma {:induction false} WindowSize(saves: seq<Timestamp>, lo: nat)
    requires StrictlyIncreasing(saves) && lo <= |saves|
    ensures |Window(saves, lo)| == |saves| - lo
    decreases |saves| - lo
  {
    if lo < |saves| {
      WindowSize(saves, lo + 1);
      assert Window(saves, lo) == {saves[lo]} + Window(saves, lo + 1);
      assert saves[lo] !in Window(saves, lo + 1);
    } else {
      assert Window(saves, lo) == {};
    }
  }

  lemma WindowOfPrefix(saves: seq<Timestamp>, lo: nat)
    requires 0 < |saves| && lo < |saves|
    ensures Window(saves, lo) == Window(saves[..|saves| - 1], lo) + {saves[|saves| - 1]}
  {
    var n := |saves| - 1;
    forall x | x in Window(saves, lo) ensures x in Window(saves[..n], lo) + {saves[n]} {
      var i :| lo <= i < |saves| && saves[i] == x;
      if i < n { assert saves[..n][i] == x; }
    }
    forall x | x in Window(saves[..n], lo) ensures x in Window(saves, lo) {
      var i :| lo <= i < n && saves[..n][i] == x;
      assert saves[i] == x;
    }
  }

  lemma WindowShift(saves: seq<Timestamp>, lo: nat)
    requires StrictlyIncreasing(saves) && lo < |saves|
    ensures Window(saves, lo + 1) == Window(saves, lo) - {saves[lo]}
  {
    assert Window(saves, lo) == {saves[lo]} + Window(saves, lo + 1);
    assert saves[lo] !in Window(saves, lo + 1);
  }

  /** Starting from an empty folder, saves made at increasing dates leave
      exactly the five most recent ones. */
  lemma {:induction false} SaveRunKeepsNewestFive(saves: seq<Timestamp>)
    requires StrictlyIncreasing(saves)
    ensures SaveRun({}, saves) == Window(saves, NewestStart(|saves|))
    ensures |SaveRun({}, saves)| == |saves| - NewestStart(|saves|)
    decreases |saves|
  {
    if |saves| == 0 {
      assert Window(saves, 0) == {};
    } else {
      var pre := saves[..|saves| - 1];
      assert StrictlyIncreasing(pre);
      SaveRunKeepsNewestFive(pre);
      SaveRunStep(saves);
    }
  }

  /** One more save keeps the window of the five newest. */
  lemma SaveRunStep(saves: seq<Timestamp>)
    requires StrictlyIncreasing(saves) && |saves| > 0
    requires (var pre := saves[..|saves| - 1];
      && SaveRun({}, pre) == Window(pre, NewestStart(|pre|))
      && |SaveRun({}, pre)| == |pre| - NewestStart(|pre|))
    ensures SaveRun({}, saves) == Window(saves, NewestStart(|saves|))
    ensures |SaveRun({}, saves)| == |saves| - NewestStart(|saves|)
  {
    var n := |saves| - 1;
    var D := SaveRun({}, saves[..n]);
    assert SaveRun({}, saves) == Retain(D, saves[n]);
    if |D| >= MaxNumberOfFiles {
      FullFolderStep(saves, D);
      WindowSize(saves, |saves| - MaxNumberOfFiles);
    } else {
      ShortFolderStep(saves, D);
    }
  }

  lemma FullFolderStep(saves: seq<Timestamp>, D: set<Timestamp>)
    requires StrictlyIncreasing(saves) && |saves| > MaxNumberOfFiles
    requires D == Window(saves[..|saves| - 1], |saves| - 1 - MaxNumberOfFiles)
    requires |D| == MaxNumberOfFiles
    ensures Retain(D, saves[|saves| - 1]) == Window(saves, |saves| - MaxNumberOfFiles)
  {
    var n := |saves| - 1;
    var pre := saves[..n];
    var lo := n - MaxNumberOfFiles;
    assert Retain(D, saves[n]) == (D - {saves[lo]}) + {saves[n]} by {
      assert saves[lo] in D by { assert pre[lo] == saves[lo]; }
      OldestOfWindow(pre, lo, OldestDate(D));
    }
    assert Window(saves, lo + 1) == (D + {saves[n]}) - {saves[lo]} by {
      WindowOfPrefix(saves, lo);
      WindowShift(saves, lo);
    }
    assert saves[lo] != saves[n];
    RemoveThenAdd(D, saves[lo], saves[n]);
  }

  lemma RemoveThenAdd<T>(s: set<T>, a: T, b: T)
    requires a != b
    ensures (s - {a}) + {b} == (s + {b}) - {a}
  {
  }

  lemma ShortFolderStep(saves: seq<Timestamp>, D: set<Timestamp>)
    requires StrictlyIncreasing(saves) && 0 < |saves| <= MaxNumberOfFiles
    requires D == Window(saves[..|saves| - 1], 0) && |D| < MaxNumberOfFiles
    ensures Retain(D, saves[|saves| - 1]) == Window(saves, 0)
    ensures |Window(saves, 0)| == |saves|
  {
    WindowOfPrefix(saves, 0);
    WindowSize(saves, 0);
  }

  lemma OldestOfWindow(pre: seq<Timestamp>, lo: nat, o: Timestamp)
    requires StrictlyIncreasing(pre) && lo < |pre|
    requires o in Window(pre, lo) && forall d :: d in Window(pre, lo) ==> NotLater(o, d)
    ensures o == pre[lo]
  {
    assert pre[lo] in Window(pre, lo);
    var i :| lo <= i < |pre| && pre[i] == o;
    if i != lo {
      assert Earlier(pre[lo], pre[i]);
      assert NotLater(o, pre[lo]);
    }
  }

  // ---------------------------------------------------------------------
  // A folder written only by `saveDB`

  /** The file names of a set of dates. */
  function NamesOf(dates: set<Timestamp>): set<string>
    requires forall d :: d in dates ==> ValidTimestamp(d)
  {
    set d | d in dates :: SaveFileName(d)
  }

  /** A folder that holds one file per date of `dates`, each under the name
      `saveDB` gives it. */
  predicate Canonical(keys: set<string>, dates: set<Timestamp>) {
    && (forall d :: d in dates ==> ValidTimestamp(d))
    && keys == NamesOf(dates)
  }

  lemma {:induction false} NamesOfSize(dates: set<Timestamp>)
    requires forall d :: d in dates ==> ValidTimestamp(d)
    ensures |NamesOf(dates)| == |dates|
    decreases |dates|
  {
    if dates != {} {
      var d :| d in dates;
      NamesOfSize(dates - {d});
      NamesOfMinus(dates, d);
    } else {
      assert NamesOf(dates) == {};
    }
  }

  lemma CanonicalParses(keys: set<string>, dates: set<Timestamp>)
    requires Canonical(keys, dates)
    ensures AllParse(keys)
  {
    forall n | n in keys ensures ParseSaveName(n).Ok? {
      var d :| d in dates && SaveFileName(d) == n;
      SaveFileNameRoundTrip(d);
    }
  }

  /** A canonical folder lists exactly its dates, one file per date. */
  lemma CanonicalDates(keys: set<string>, dates: set<Timestamp>)
    requires Canonical(keys, dates)
    ensures AllParse(keys) && SavedDates(keys) == dates && |keys| == |dates|
  {
    CanonicalParses(keys, dates);
    SameDates(keys, dates);
    NamesOfSize(dates);
  }

  lemma SameDates(keys: set<string>, dates: set<Timestamp>)
    requires Canonical(keys, dates) && AllParse(keys)
    ensures SavedDates(keys) == dates
  {
    forall d | d in dates ensures d in SavedDates(keys) {
      DateIsSaved(keys, dates, d);
    }
    forall d | d in SavedDates(keys) ensures d in dates {
      SavedIsDate(keys, dates, d);
    }
  }

  lemma DateIsSaved(keys: set<string>, dates: set<Timestamp>, d: Timestamp)
    requires Canonical(keys, dates) && AllParse(keys) && d in dates
    ensures d in SavedDates(keys)
  {
    SaveFileNameRoundTrip(d);
    var n := SaveFileName(d);
    assert n in keys;
    assert ParseSaveName(n).value == d;
  }

  lemma SavedIsDate(keys: set<string>, dates: set<Timestamp>, d: Timestamp)
    requires Canonical(keys, dates) && AllParse(keys) && d in SavedDates(keys)
    ensures d in dates
  {
    var n :| n in keys && ParseSaveName(n).value == d;
    var e :| e in dates && SaveFileName(e) == n;
    SaveFileNameRoundTrip(e);
  }

  /** The file `saveDB` removes before writing, if any, given how many
      files the folder holds and the dates they carry: the oldest save of a
      folder that already holds `MaxNumberOfFiles` files. */
  ghost function Victim(count: nat, dates: set<Timestamp>): (r: Option<string>)
    requires forall d :: d in dates ==> ValidTimestamp(d)
    ensures r.Some? <==> count >= MaxNumberOfFiles && dates != {}
  {
    if count >= MaxNumberOfFiles && dates != {} then
      Some(SaveFileName(OldestDate(dates)))
    else None
  }

  /** The dates a folder keeps when `saveDB` removes its oldest one. */
  ghost function Kept(dates: set<Timestamp>): (r: set<Timestamp>)
    ensures r <= dates
  {
    if |dates| >= MaxNumberOfFiles then dates - {OldestDate(dates)} else dates
  }

  /** The names left once `saveDB` has removed `Victim`. */
  ghost function Survivors(keys: set<string>, dates: set<Timestamp>): (r: set<string>)
    requires forall d :: d in dates ==> ValidTimestamp(d)
    ensures r <= keys
  {
    var v := Victim(|keys|, dates);
    if v.Some? then keys - {v.value} else keys
  }

  /** One `saveDB` on a canonical folder removes an existing file, the
      oldest, and leaves a canonical folder holding the dates `Retain`
      describes. */
  lemma SaveKeepsFolderCanonical(keys: set<string>, dates: set<Timestamp>, now: Timestamp)
    requires Canonical(keys, dates) && ValidTimestamp(now)
    ensures AllParse(keys) && SavedDates(keys) == dates
    ensures Victim(|keys|, dates).Some? ==> Victim(|keys|, dates).value in keys
    ensures Canonical(Survivors(keys, dates) + {SaveFileName(now)}, Retain(dates, now))
  {
    CanonicalDates(keys, dates);
    SurvivorsAreKept(keys, dates);
    RetainNames(dates, now);
  }

  lemma SurvivorsAreKept(keys: set<string>, dates: set<Timestamp>)
    requires (forall d :: d in dates ==> ValidTimestamp(d)) && keys == NamesOf(dates)
    requires |keys| == |dates|
    ensures Victim(|keys|, dates).Some? ==> Victim(|keys|, dates).value in keys
    ensures Survivors(keys, dates) == NamesOf(Kept(dates))
  {
    if |keys| >= MaxNumberOfFiles {
      NamesOfMinus(dates, OldestDate(dates));
    }
  }

  lemma RetainNames(dates: set<Timestamp>, now: Timestamp)
    requires (forall d :: d in dates ==> ValidTimestamp(d)) && ValidTimestamp(now)
    ensures forall d :: d in Retain(dates, now) ==> ValidTimestamp(d)
    ensures NamesOf(Kept(dates)) + {SaveFileName(now)} == NamesOf(Retain(dates, now))
  {
    NamesOfPlus(Kept(dates), now);
  }

  lemma NamesOfMinus(dates: set<Timestamp>, o: Timestamp)
    requires (forall d :: d in dates ==> ValidTimestamp(d)) && o in dates
    ensures SaveFileName(o) in NamesOf(dates)
    ensures NamesOf(dates) - {SaveFileName(o)} == NamesOf(dates - {o})
  {
    forall e | e in dates - {o} ensures SaveFileName(e) != SaveFileName(o) {
      SaveFileNameInjective(e, o);
    }
  }

  lemma NamesOfPlus(dates: set<Timestamp>, now: Timestamp)
    requires (forall d :: d in dates ==> ValidTimestamp(d)) && ValidTimestamp(now)
    ensures NamesOf(dates) + {SaveFileName(now)} == NamesOf(dates + {now})
  {
  }
}
