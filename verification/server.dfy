/** The web-page side (`packages/server.py`, class `TrackerServer`): reading
    the saves back and the two parts of `generate_html` that decide what the
    page lists — the alphabetical order of the boats and the country flags
    each entry needs. Rendering the HTML itself is not modelled. */
module Server {
  import opened Common
  import opened Fleet
  import opened SaveNames
  import opened Store

  // ---------------------------------------------------------------------
  // Ordering by `Nom du bateau` (`sort_values`, missing names last)

  /** Python's `<=` on `str`: code point by code point, a prefix first. */
  predicate TextNotAfter(a: string, b: string)
    decreases |a|
  {
    |a| == 0 || (|b| > 0 && (a[0] < b[0] || (a[0] == b[0] && TextNotAfter(a[1..], b[1..]))))
  }

  lemma {:induction false} TextNotAfterTotal(a: string, b: string)
    ensures TextNotAfter(a, b) || TextNotAfter(b, a)
    decreases |a|
  {
    if |a| > 0 && |b| > 0 && a[0] == b[0] {
      TextNotAfterTotal(a[1..], b[1..]);
    }
  }

  lemma {:induction false} TextNotAfterTransitive(a: string, b: string, c: string)
    requires TextNotAfter(a, b) && TextNotAfter(b, c)
    ensures TextNotAfter(a, c)
    decreases |a|
  {
    if |a| > 0 && a[0] == b[0] && b[0] == c[0] {
      TextNotAfterTransitive(a[1..], b[1..], c[1..]);
    }
  }

  /** The order `sort_values(by=['Nom du bateau'])` puts names in: present
      names by text, a missing name (NaN) after every present one. */
  predicate NameNotAfter(a: Option<string>, b: Option<string>) {
    match (a, b)
    case (Some(x), Some(y)) => TextNotAfter(x, y)
    case (Some(_), None) => true
    case (None, Some(_)) => false
    case (None, None) => true
  }

  lemma NameNotAfterTotal(a: Option<string>, b: Option<string>)
    ensures NameNotAfter(a, b) || NameNotAfter(b, a)
  {
    if a.Some? && b.Some? { TextNotAfterTotal(a.value, b.value); }
  }

  lemma NameNotAfterTransitive(a: Option<string>, b: Option<string>, c: Option<string>)
    requires NameNotAfter(a, b) && NameNotAfter(b, c)
    ensures NameNotAfter(a, c)
  {
    if a.Some? && b.Some? && c.Some? { TextNotAfterTransitive(a.value, b.value, c.value); }
  }

  predicate SortedByName(t: Table) {
    forall i, j :: 0 <= i < j < |t| ==> NameNotAfter(t[i].name, t[j].name)
  }

  /** Places `v` in front of the first row whose name does not come before
      its own. */
  function InsertByName(v: Vessel, t: Table): (r: Table)
    requires SortedByName(t)
    ensures SortedByName(r)
    ensures |r| == |t| + 1
    ensures multiset(r) == multiset(t) + multiset{v}
    decreases |t|
  {
    if |t| == 0 then [v]
    else if NameNotAfter(v.name, t[0].name) then
      assert forall j :: 0 <= j < |t| ==> NameNotAfter(v.name, t[j].name) by {
        forall j | 0 <= j < |t| ensures NameNotAfter(v.name, t[j].name) {
          if j > 0 { NameNotAfterTransitive(v.name, t[0].name, t[j].name); }
        }
      }
      [v] + t
    else
      NameNotAfterTotal(v.name, t[0].name);
      var rest := InsertByName(v, t[1..]);
      assert t == [t[0]] + t[1..];
      assert forall x :: x in rest ==> NameNotAfter(t[0].name, x.name) by {
        forall x | x in rest ensures NameNotAfter(t[0].name, x.name) {
          assert x in multiset(rest);
          if x != v {
            assert x in multiset(t[1..]);
            var j :| 0 <= j < |t[1..]| && t[1..][j] == x;
            assert t[j + 1] == x;
          }
        }
      }
      [t[0]] + rest
  }

  /** The rows ordered by name: a sorted permutation of the table. Rows with
      equal names keep their table order (pandas does not promise any
      particular order for them). */
  function SortByName(t: Table): (r: Table)
    ensures SortedByName(r)
    ensures |r| == |t|
    ensures multiset(r) == multiset(t)
    decreases |t|
  {
    if |t| == 0 then []
    else
      assert t == [t[0]] + t[1..];
      InsertByName(t[0], SortByName(t[1..]))
  }

  /** `sort_values(by=['Nom du bateau'])` then `reset_index(drop=True)`:
      the table `generate_html` walks, its index being each row's rank. */
  function PageOrder(t: Table): (r: Table)
    ensures |r| == |t| && LabelsArePositions(r)
    ensures forall i, j :: 0 <= i < j < |r| ==> NameNotAfter(r[i].name, r[j].name)
    ensures forall i :: 0 <= i < |r| ==> r[i] == SortByName(t)[i].(tag := i)
  {
    Relabel(SortByName(t))
  }

  /** Every row of the page is a row of the table. */
  lemma RowOfPage(t: Table, k: nat)
    requires k < |SortByName(t)|
    ensures exists i :: 0 <= i < |t| && t[i] == SortByName(t)[k]
  {
    var s := SortByName(t);
    assert s[k] in multiset(s);
    assert s[k] in t;
  }

  /** Every row of the table is a row of the page. */
  lemma PageOfRow(t: Table, i: nat)
    requires i < |t|
    ensures exists k :: 0 <= k < |SortByName(t)| && SortByName(t)[k] == t[i]
  {
    var s := SortByName(t);
    assert t[i] in multiset(t);
    assert t[i] in s;
  }

  // ---------------------------------------------------------------------
  // Country flags

  /** The keys of `dictionnary_country`. */
  const FlagCountries: set<string> :=
    {"FR", "GB", "IT", "MT", "NL", "PT", "ES", "US", "CH", "BE", "DE", "DK", "IE", "NO", "SE"}

  /** `code in dictionnary_country`; a missing code (NaN) is never a key. */
  predicate HasFlag(code: Cell) {
    code.Some? && code.value in FlagCountries
  }

  /** The codes the country check warns about: the distinct `COUNTRY_CODE`
      values of the table that have no flag. */
  function UnsupportedCountries(t: Table): (r: set<Cell>)
    ensures forall c :: c in r <==> !HasFlag(c) && exists i :: 0 <= i < |t| && t[i].tel.countryCode == c
  {
    set i | 0 <= i < |t| && !HasFlag(t[i].tel.countryCode) :: t[i].tel.countryCode
  }

  /** A row the marker loop can place on the map: `datetime.fromtimestamp`
      needs its `LAST_POSITION`, `folium.Marker` its `LAT` and `LONG`. */
  predicate Plottable(x: Vessel) {
    x.tel.lastPosition.Some? && x.tel.lat.Some? && x.tel.long.Some?
  }

  /** The column whose missing value stops the marker loop on a row. */
  function MissingPositionColumn(x: Vessel): string {
    if x.tel.lastPosition.None? then "LAST_POSITION" else if x.tel.lat.None? then "LAT" else "LONG"
  }

  /** The marker loop over the ordered rows: it raises `ValueError` at the
      first row it cannot place, on the first missing cell that row reaches. */
  function MarkerLoopOutcome(rows: Table): (o: Outcome)
    ensures o == Done <==> forall i :: 0 <= i < |rows| ==> Plottable(rows[i])
    ensures o.Raised? ==> exists i :: (0 <= i < |rows| && !Plottable(rows[i])
      && o == Raised(MissingPosition(MissingPositionColumn(rows[i])))
      && forall j :: 0 <= j < i ==> Plottable(rows[j]))
    decreases |rows|
  {
    if |rows| == 0 then Done
    else if !Plottable(rows[0]) then Raised(MissingPosition(MissingPositionColumn(rows[0])))
    else
      var o := MarkerLoopOutcome(rows[1..]);
      if o.Raised? then
        var i :| 0 <= i < |rows[1..]| && !Plottable(rows[1..][i])
          && o == Raised(MissingPosition(MissingPositionColumn(rows[1..][i])))
          && forall j :: 0 <= j < i ==> Plottable(rows[1..][j]);
        assert rows[i + 1] == rows[1..][i];
        o
      else
        assert forall i :: 1 <= i < |rows| ==> rows[i] == rows[1..][i - 1];
        o
  }

  /** What the whole of `generate_html` ends with: the marker loop's
      exception, else the information box's. */
  function HtmlOutcome(rows: Table): Outcome {
    var m := MarkerLoopOutcome(rows);
    if m.Raised? then m else BoxListOutcome(rows)
  }

  /** The information box's loop over the ordered rows: it looks up each
      row's flag and stops with `KeyError` at the first code without one. */
  function BoxListOutcome(rows: Table): (o: Outcome)
    ensures o == Done <==> forall i :: 0 <= i < |rows| ==> HasFlag(rows[i].tel.countryCode)
    ensures o.Raised? ==> exists i :: (0 <= i < |rows| && o == Raised(UnknownCountry(rows[i].tel.countryCode))
      && !HasFlag(rows[i].tel.countryCode)
      && forall j :: 0 <= j < i ==> HasFlag(rows[j].tel.countryCode))
    decreases |rows|
  {
    if |rows| == 0 then Done
    else if !HasFlag(rows[0].tel.countryCode) then Raised(UnknownCountry(rows[0].tel.countryCode))
    else
      var o := BoxListOutcome(rows[1..]);
      if o.Raised? then
        var i :| 0 <= i < |rows[1..]| && o == Raised(UnknownCountry(rows[1..][i].tel.countryCode))
          && !HasFlag(rows[1..][i].tel.countryCode)
          && forall j :: 0 <= j < i ==> HasFlag(rows[1..][j].tel.countryCode);
        assert rows[i + 1] == rows[1..][i];
        o
      else
        assert forall i :: 1 <= i < |rows| ==> rows[i] == rows[1..][i - 1];
        o
  }

  /** The warning and the crash go together: the box loop finishes exactly
      when the check warned about nothing, and when it stops, the code it
      stops on is one the check warned about. */
  lemma {:induction false} WarningsPredictKeyError(t: Table)
    ensures BoxListOutcome(PageOrder(t)) == Done <==> UnsupportedCountries(t) == {}
    ensures BoxListOutcome(PageOrder(t)).Raised? ==>
      BoxListOutcome(PageOrder(t)).failure.UnknownCountry?
      && BoxListOutcome(PageOrder(t)).failure.code in UnsupportedCountries(t)
  {
    var r := PageOrder(t);
    var s := SortByName(t);
    if BoxListOutcome(r) == Done {
      forall i | 0 <= i < |t| ensures HasFlag(t[i].tel.countryCode) {
        PageOfRow(t, i);
        var k :| 0 <= k < |s| && s[k] == t[i];
        assert r[k].tel == t[i].tel;
      }
    } else {
      var k :| 0 <= k < |r| && BoxListOutcome(r) == Raised(UnknownCountry(r[k].tel.countryCode))
        && !HasFlag(r[k].tel.countryCode);
      RowOfPage(t, k);
      var i :| 0 <= i < |t| && t[i] == s[k];
      assert t[i].tel.countryCode in UnsupportedCountries(t);
    }
  }

  /** The page is built exactly when every boat can be placed on the map
      and the country check warned about nothing. */
  lemma {:induction false} PageBuiltExactlyWhenPlottableAndFlagged(t: Table)
    ensures HtmlOutcome(PageOrder(t)) == Done <==>
      (forall i :: 0 <= i < |t| ==> Plottable(t[i])) && UnsupportedCountries(t) == {}
  {
    var r := PageOrder(t);
    var s := SortByName(t);
    WarningsPredictKeyError(t);
    if forall i :: 0 <= i < |t| ==> Plottable(t[i]) {
      forall k | 0 <= k < |r| ensures Plottable(r[k]) {
        RowOfPage(t, k);
        var i :| 0 <= i < |t| && t[i] == s[k];
        assert r[k].tel == t[i].tel;
      }
    } else {
      var i :| 0 <= i < |t| && !Plottable(t[i]);
      PageOfRow(t, i);
      var k :| 0 <= k < |s| && s[k] == t[i];
      assert r[k].tel == t[i].tel;
    }
  }

  // ---------------------------------------------------------------------
  // The server object

  /** `ZOOM_LEVEL`, `MIN_ZOOM` and `MAX_ZOOM`. */
  const ZoomLevel: int := 15
  const MinZoom: int := 3
  const MaxZoom: int := 25

  class TrackerServer {
    /** `DataBase.path_saving_data`, the folder the database writes. */
    const folder: SaveFolder
    /** `_tracked_fleet_df`, unset until a save is loaded. */
    var tracked: Option<Table>
    /** `_last_update`. */
    var lastUpdate: Option<Timestamp>

    constructor(folder: SaveFolder)
      ensures this.folder == folder && tracked == None && lastUpdate == None
    {
      this.folder := folder;
      tracked := None;
      lastUpdate := None;
    }

    /** `load_data`: records the date, then reads the save of that date; a
        missing file raises and leaves the table as it was. */
    method LoadData(date: Timestamp) returns (o: Outcome)
      requires ValidTimestamp(date)
      modifies this
      ensures lastUpdate == Some(date)
      ensures SaveFileName(date) in folder.files ==>
        o == Done && tracked == Some(Relabel(folder.files[SaveFileName(date)]))
      ensures SaveFileName(date) !in folder.files ==>
        o == Raised(MissingSaveFile(SaveFileName(date))) && tracked == old(tracked)
    {
      lastUpdate := Some(date);
      var read := folder.Read(SaveFileName(date));
      match read
      case Ok(rows) =>
        tracked := Some(Relabel(rows));
        o := Done;
      case Err(e) =>
        o := Raised(e);
    }

    /** `load_last_save`: loads the latest save and answers `true`, or
        answers `false` and changes nothing when there is none. */
    method LoadLastSave() returns (o: Outcome, loaded: bool)
      modifies this
      ensures !AllParse(folder.files.Keys) ==>
        o.Raised? && o.failure.MalformedSaveName? && !loaded && unchanged(this)
      ensures folder.files.Keys == {} ==> o == Done && !loaded && unchanged(this)
      ensures (AllParse(folder.files.Keys) && folder.files.Keys != {} ==>
        var d := LatestDate(SavedDates(folder.files.Keys));
        && loaded
        && lastUpdate == Some(d)
        && (SaveFileName(d) in folder.files ==>
              o == Done && tracked == Some(Relabel(folder.files[SaveFileName(d)])))
        && (SaveFileName(d) !in folder.files ==>
              o == Raised(MissingSaveFile(SaveFileName(d))) && tracked == old(tracked)))
    {
      var listing := folder.GetListOfSaves();
      if listing.Err? {
        return Raised(listing.error), false;
      }
      var dates := listing.value;
      if |dates| > 0 {
        LatestOfListing(dates, SavedDates(folder.files.Keys));
        var d := Latest(dates);
        assert d == LatestDate(SavedDates(folder.files.Keys));
        assert ValidTimestamp(d);
        o := LoadData(d);
        loaded := true;
      } else {
        assert folder.files.Keys == {};
        o, loaded := Done, false;
      }
    }

    /** `load_a_save`: lists the saves, then loads the one at position
        `choice` (the number the user types) when `choice` is below the
        number of saves; a larger choice changes nothing. */
    method LoadASave(choice: int) returns (listing: Result<seq<Timestamp>, Failure>, o: Outcome)
      modifies this
      ensures listing.Ok? <==> AllParse(folder.files.Keys)
      ensures listing.Ok? ==> forall d :: d in listing.value <==> d in SavedDates(folder.files.Keys)
      ensures listing.Err? ==> o == Raised(listing.error) && unchanged(this)
      ensures (listing.Ok? && choice >= |listing.value| ==> o == Done && unchanged(this))
      ensures (listing.Ok? && choice < -|listing.value| ==>
        o == Raised(ChoiceOutOfRange(choice)) && unchanged(this))
      ensures (listing.Ok? && PythonIndex(choice, |listing.value|).Some? ==>
        var d := listing.value[PythonIndex(choice, |listing.value|).value];
        && ValidTimestamp(d)
        && lastUpdate == Some(d)
        && (SaveFileName(d) in folder.files ==>
              o == Done && tracked == Some(Relabel(folder.files[SaveFileName(d)]))))
    {
      listing := folder.GetListOfSaves();
      if listing.Err? {
        return listing, Raised(listing.error);
      }
      var dates := listing.value;
      if choice < |dates| {
        var k := PythonIndex(choice, |dates|);
        if k.None? {
          o := Raised(ChoiceOutOfRange(choice));
        } else {
          var d := dates[k.value];
          assert d in SavedDates(folder.files.Keys);
          o := LoadData(d);
        }
      } else {
        o := Done;
      }
    }

    /** What `generate_html` decides before rendering: the rows in page
        order, whether every marker can be placed, the country codes the
        check (which runs after the markers) warns about, and whether the
        information box's flag lookups all succeed. */
    method GenerateHtml() returns (rows: Table, warned: set<Cell>, o: Outcome)
      ensures tracked.None? ==> o == Raised(FleetUnset)
      ensures (tracked.Some? ==>
        && rows == PageOrder(tracked.value)
        && o == HtmlOutcome(rows)
        && warned == if MarkerLoopOutcome(rows).Done? then UnsupportedCountries(tracked.value) else {})
    {
      if tracked.None? {
        return [], {}, Raised(FleetUnset);
      }
      rows := PageOrder(tracked.value);
      warned := {};
      var i := 0;
      while i < |rows|
        invariant 0 <= i <= |rows|
        invariant forall j :: 0 <= j < i ==> Plottable(rows[j])
        invariant MarkerLoopOutcome(rows) == MarkerLoopOutcome(rows[i..])
      {
        if !Plottable(rows[i]) {
          return rows, warned, Raised(MissingPosition(MissingPositionColumn(rows[i])));
        }
        assert rows[i..][1..] == rows[i + 1..];
        i := i + 1;
      }
      warned := UnsupportedCountries(rows);
      assert warned == UnsupportedCountries(tracked.value) by {
        SameCountries(tracked.value);
      }
      i := 0;
      o := Done;
      while i < |rows|
        invariant 0 <= i <= |rows|
        invariant forall j :: 0 <= j < i ==> HasFlag(rows[j].tel.countryCode)
        invariant BoxListOutcome(rows) == BoxListOutcome(rows[i..])
      {
        assert ZoomLevel > MinZoom && ZoomLevel < MaxZoom;
        var code := rows[i].tel.countryCode;
        if !HasFlag(code) {
          return rows, warned, Raised(UnknownCountry(code));
        }
        assert rows[i..][1..] == rows[i + 1..];
        i := i + 1;
      }
    }
  }

  /** Ordering the rows does not change which codes are present. */
  lemma SameCountries(t: Table)
    ensures UnsupportedCountries(PageOrder(t)) == UnsupportedCountries(t)
  {
    var r := PageOrder(t);
    var s := SortByName(t);
    forall c | c in UnsupportedCountries(r) ensures c in UnsupportedCountries(t) {
      var k :| 0 <= k < |r| && r[k].tel.countryCode == c;
      RowOfPage(t, k);
      var i :| 0 <= i < |t| && t[i] == s[k];
      assert t[i].tel.countryCode == c;
    }
    forall c | c in UnsupportedCountries(t) ensures c in UnsupportedCountries(r) {
      var i :| 0 <= i < |t| && t[i].tel.countryCode == c;
      PageOfRow(t, i);
      var k :| 0 <= k < |s| && s[k] == t[i];
      assert r[k].tel.countryCode == c;
    }
  }
}
