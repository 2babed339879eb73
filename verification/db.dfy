/** The fleet database of `packages/db.py` (class `DataBase`): it reads the
    roster sheet, probes the museum site, asks the AIS provider for each
    boat's telemetry, picks a picture per boat and keeps the last five
    tables in the saves folder. Its attributes are updated in place by its
    methods, so it is a class; the network, the provider and the clock are
    fixed at construction as oracles. */
module FleetDb {
  import opened Common
  import opened Fleet
  import opened SaveNames
  import opened Roster
  import opened Enrichment
  import opened Reconcile
  import opened Store
  import PartialUpdate

  /** What `datetime.now()` can return. */
  type Now = t: Timestamp | ValidTimestamp(t) witness Timestamp(2000, 1, 1, 0, 0, 0)

  /** `_last_update`: `load_data` stores the date it loads, `saveDB` the
      text of the date it saves under. */
  datatype Stamp = LoadedAt(date: Timestamp) | SavedAt(text: string)

  /** The baseline `load_last_save` reads back from a folder: the save of
      the latest listed date, relabelled as a CSV read leaves it; none when
      a name does not parse, the folder is empty or that file is missing. */
  ghost function LatestSave(files: map<string, Table>): Option<Table> {
    if AllParse(files.Keys) && files.Keys != {} && SaveFileName(LatestDate(SavedDates(files.Keys))) in files
    then Some(Relabel(files[SaveFileName(LatestDate(SavedDates(files.Keys)))]))
    else None
  }

  // ---------------------------------------------------------------------
  // What one update computes

  /** `check_page_MMR(complete_check)` on the table `t`: a complete check
      probes every boat; a partial one reads each boat's link from the
      baseline, which raises on the first row when the baseline was never
      assigned (`AttributeError`) or is the roster copy, which has no
      `PAGE_LINK` column (`KeyError`). */
  function PageCheck(t: Table, b: Baseline, complete: bool, get: HttpGet): (r: Result<Table, Failure>)
    ensures r.Err? <==> !complete && |t| > 0 && !b.Loaded?
    ensures r.Err? ==> r.error == if b.Unset? then BaselineUnset else MissingColumn("PAGE_LINK")
    ensures r.Ok? ==> |r.value| == |t|
    ensures r.Ok? ==> forall i :: 0 <= i < |t| ==> r.value[i] == t[i].(page := r.value[i].page)
    ensures complete ==> r == Ok(WithPages(t, CompletePageLinks(t, get)))
    ensures !complete && b.Loaded? ==> r == Ok(WithPages(t, PartialPageLinks(t, b.rows, get)))
  {
    if complete then Ok(WithPages(t, CompletePageLinks(t, get)))
    else if |t| == 0 then Ok(WithPages(t, []))
    else
      match b
      case Unset => Err(BaselineUnset)
      case RosterCopy(_) => Err(MissingColumn("PAGE_LINK"))
      case Loaded(rows) => Ok(WithPages(t, PartialPageLinks(t, rows, get)))
  }

  /** The three enrichment steps of `updatetDB` on the filtered table `t`:
      museum pages, telemetry, then pictures, against the baseline `b`. */
  function Enrich(t: Table, b: Baseline, complete: bool,
                  get: HttpGet, locate: Locator, scrape: Scraper): (r: Result<Table, Failure>)
    ensures r.Err? <==> PageCheck(t, b, complete, get).Err?
    ensures r.Err? ==> r.error == PageCheck(t, b, complete, get).error
    ensures r.Ok? ==> MmsiSet(r.value) <= MmsiSet(t)
  {
    match PageCheck(t, b, complete, get)
    case Err(e) => Err(e)
    case Ok(t1) =>
      var t2 := Reconcile.RequestUpdateApi(t1, b, complete, locate).table;
      var r := WithImages(t2, ImageLinks(t2, get, scrape));
      SameMmsis(t, t1);
      SameMmsis(t2, r);
      Ok(r)
  }

  /** What `updatetDB` leaves in `_tracked_fleet_df` just before saving:
      the filtered roster, enriched against the baseline `b`. */
  function Refresh(roster: seq<RosterRow>, b: Baseline, complete: bool,
                   get: HttpGet, locate: Locator, scrape: Scraper): (r: Result<Table, Failure>)
    ensures r.Err? <==> !complete && |Roster.FilterMmsi(roster)| > 0 && !b.Loaded?
    ensures r.Ok? ==> MmsiSet(r.value) <= MmsiValues(roster)
  {
    Enrich(Roster.FilterMmsi(roster), b, complete, get, locate, scrape)
  }

  lemma SameMmsis(a: Table, b: Table)
    requires |a| == |b| && forall i :: 0 <= i < |a| ==> b[i].mmsi == a[i].mmsi
    ensures MmsiSet(a) == MmsiSet(b)
  {
    forall x | x in MmsiSet(a) ensures x in MmsiSet(b) {
      var i :| 0 <= i < |a| && a[i].mmsi == x;
      assert b[i].mmsi == x;
    }
    forall x | x in MmsiSet(b) ensures x in MmsiSet(a) {
      var i :| 0 <= i < |b| && b[i].mmsi == x;
      assert a[i].mmsi == x;
    }
  }

  /** The table a complete update saves is the reference one: the roster's
      boats with a usable provider reply, in roster order, each with its
      museum link, its own reply's telemetry and the picture chosen from
      them. */
  lemma CompleteUpdateOfRoster(roster: seq<RosterRow>, get: HttpGet, locate: Locator, scrape: Scraper)
    ensures var t0 := Roster.FilterMmsi(roster);
      var t2 := Refreshed(ResetTelemetry(WithPages(t0, CompletePageLinks(t0, get))), locate);
      Refresh(roster, RosterCopy(t0), true, get, locate, scrape) == Ok(WithImages(t2, ImageLinks(t2, get, scrape)))
  {
    var t0 := Roster.FilterMmsi(roster);
    var t1 := WithPages(t0, CompletePageLinks(t0, get));
    assert Aligned(t1, t0);
    assert DistinctMmsi(t1) by {
      assert forall i :: 0 <= i < |t1| ==> t1[i].mmsi == t0[i].mmsi;
    }
    CompleteUpdateRefreshesEachVessel(t1, RosterCopy(t0), locate);
  }

  /** Which boats a complete update keeps: exactly those whose provider reply
      is usable. */
  lemma {:induction false} RefreshedMmsis(rows: Table, locate: Locator)
    ensures forall m :: m in MmsiSet(Refreshed(rows, locate)) <==> m in MmsiSet(rows) && Usable(locate(m))
    decreases |rows|
  {
    if |rows| > 0 {
      var n := |rows| - 1;
      var x := rows[n];
      RefreshedMmsis(rows[..n], locate);
      assert rows == rows[..n] + [x];
      MmsiSetSnoc(rows[..n], x);
      if Usable(locate(x.mmsi)) {
        var y := x.(tel := TelemetryOf(locate(x.mmsi).value[0]));
        assert Refreshed(rows, locate) == Refreshed(rows[..n], locate) + [y];
        MmsiSetSnoc(Refreshed(rows[..n], locate), y);
      } else {
        assert Refreshed(rows, locate) == Refreshed(rows[..n], locate) + [];
        assert Refreshed(rows[..n], locate) + [] == Refreshed(rows[..n], locate);
      }
    } else {
      assert MmsiSet(rows) == {};
    }
  }

  /** A complete update saves exactly the roster's MMSIs whose reply is usable. */
  lemma CompleteUpdateKeepsReachableBoats(roster: seq<RosterRow>, get: HttpGet, locate: Locator, scrape: Scraper)
    ensures var t0 := Roster.FilterMmsi(roster);
      var r := Refresh(roster, RosterCopy(t0), true, get, locate, scrape);
      r.Ok? && forall m :: m in MmsiSet(r.value) <==> m in MmsiValues(roster) && Usable(locate(m))
  {
    var t0 := Roster.FilterMmsi(roster);
    var t1 := WithPages(t0, CompletePageLinks(t0, get));
    var rows := ResetTelemetry(t1);
    var t2 := Refreshed(rows, locate);
    var r := Refresh(roster, RosterCopy(t0), true, get, locate, scrape);
    CompleteUpdateOfRoster(roster, get, locate, scrape);
    assert MmsiSet(r.value) == MmsiSet(t2) by {
      SameMmsis(t2, r.value);
    }
    assert MmsiSet(rows) == MmsiValues(roster) by {
      SameMmsis(t0, t1);
      SameMmsis(t1, rows);
    }
    RefreshedMmsis(rows, locate);
  }

  /** Which boats a partial update keeps. Against a save that lists the
      filtered roster's boats at their own positions, a boat whose provider
      reply is usable is saved, once some boat up to it has a saved flag and
      some a saved ship id: with the save's link (or a fresh probe), its own
      reply's telemetry, and the picture chosen from them. */
  lemma PartialUpdateKeepsServedBoat(roster: seq<RosterRow>, saved: Table, k: nat,
                                     get: HttpGet, locate: Locator, scrape: Scraper)
    requires var t0 := Roster.FilterMmsi(roster);
      Aligned(t0, saved) && k < |t0| && Usable(locate(t0[k].mmsi))
      && (exists j :: 0 <= j <= k && PartialUpdate.SavedValuePresent(Loaded(saved), t0[j].mmsi, Flag))
      && (exists j :: 0 <= j <= k && PartialUpdate.SavedValuePresent(Loaded(saved), t0[j].mmsi, Imo))
    ensures var t0 := Roster.FilterMmsi(roster);
      var r := Refresh(roster, Loaded(saved), false, get, locate, scrape);
      var tel := TelemetryOf(locate(t0[k].mmsi).value[0]);
      var page := PartialPageLink(t0[k], saved, get);
      r.Ok? && t0[k].(page := page, tel := tel, image := Some(ImageFromPage(page, tel.shipId, get, scrape))) in r.value
  {
    var t0 := Roster.FilterMmsi(roster);
    var b := Loaded(saved);
    var t1 := WithPages(t0, PartialPageLinks(t0, saved, get));
    PagedKeepsAlignment(t0, saved, get, k);
    PartialUpdate.PartialUpdateKeepsServedBoat(t1, k, b, locate);
    var t2 := Reconcile.RequestUpdateApi(t1, b, false, locate).table;
    var y := t1[k].(tel := TelemetryOf(locate(t1[k].mmsi).value[0]));
    var p :| 0 <= p < |t2| && t2[p] == y;
    ImagedRowAt(t2, p, get, scrape);
    assert PageCheck(t0, b, false, get) == Ok(t1);
    assert Refresh(roster, b, false, get, locate, scrape) == Ok(WithImages(t2, ImageLinks(t2, get, scrape)));
  }

  /** The partial page check keeps a save-aligned table aligned, with the
      same MMSIs in the same places; row `k` only gains its link. */
  lemma PagedKeepsAlignment(t0: Table, saved: Table, get: HttpGet, k: nat)
    requires Aligned(t0, saved) && DistinctMmsi(t0) && k < |t0|
    ensures var t1 := WithPages(t0, PartialPageLinks(t0, saved, get));
      && Aligned(t1, saved) && DistinctMmsi(t1)
      && (forall j :: 0 <= j < |t1| ==> t1[j].mmsi == t0[j].mmsi)
      && t1[k] == t0[k].(page := PartialPageLink(t0[k], saved, get))
  {
    var t1 := WithPages(t0, PartialPageLinks(t0, saved, get));
    assert forall i :: 0 <= i < |t1| ==> t1[i].mmsi == t0[i].mmsi;
    PartialPageLinksAt(t0, saved, get, k);
  }

  /** Row `p` of the table comes out of the picture step with the picture
      the fallback chain picks from its own page and ship id. */
  lemma ImagedRowAt(t: Table, p: nat, get: HttpGet, scrape: Scraper)
    requires p < |t|
    ensures t[p].(image := Some(ImageFromPage(t[p].page, t[p].tel.shipId, get, scrape)))
      in WithImages(t, ImageLinks(t, get, scrape))
  {
    ImageLinksAt(t, get, scrape, p);
    assert WithImages(t, ImageLinks(t, get, scrape))[p]
      == t[p].(image := Some(ImageFromPage(t[p].page, t[p].tel.shipId, get, scrape)));
  }

  // ---------------------------------------------------------------------
  // The database object

  class DataBase {
    /** `pd.read_csv(url_fleet)` cast to `Int64`; `None` when that raises. */
    const sheet: Option<seq<RosterRow>>
    const get: HttpGet
    const locate: Locator
    const scrape: Scraper
    /** The successive values of `datetime.now()`. */
    const clock: nat -> Now
    /** `path_saving_data`. */
    const folder: SaveFolder

    /** `__df`, the roster. */
    var roster: seq<RosterRow>
    /** `_tracked_fleet_df`, unset until the roster has been filtered. */
    var tracked: Option<Table>
    /** `_nb_mmsi`, `_nb_bateaux`, `_nb_bateaux_sans_mmsi`. */
    var counters: Counters
    /** `_last_update_db`. */
    var lastUpdateDb: Baseline
    /** `_db_updated`. */
    var dbUpdated: bool
    /** `_last_update`. */
    var lastUpdate: Option<Stamp>
    /** How many times the clock has been read. */
    var ticks: nat

    /** `__init__`: only `_db_updated` is set. */
    constructor(sheet: Option<seq<RosterRow>>, get: HttpGet, locate: Locator, scrape: Scraper,
                clock: nat -> Now, folder: SaveFolder)
      ensures this.sheet == sheet && this.get == get && this.locate == locate
      ensures this.scrape == scrape && this.clock == clock && this.folder == folder
      ensures tracked == None && lastUpdateDb == Unset && lastUpdate == None
      ensures !dbUpdated && ticks == 0
    {
      this.sheet := sheet;
      this.get := get;
      this.locate := locate;
      this.scrape := scrape;
      this.clock := clock;
      this.folder := folder;
      roster := [];
      tracked := None;
      counters := Counters(0, 0, 0);
      lastUpdateDb := Unset;
      dbUpdated := false;
      lastUpdate := None;
      ticks := 0;
    }

    /** `request_update_ggsheet`: read the roster, then filter it. */
    method RequestUpdateGgsheet() returns (o: Outcome)
      modifies this`roster, this`tracked, this`counters
      ensures sheet.None? ==> o == Raised(RosterUnavailable) && unchanged(this)
      ensures sheet.Some? ==> o == Done && roster == sheet.value
      ensures sheet.Some? ==> tracked == Some(Roster.FilterMmsi(sheet.value)) && counters == CountFleet(sheet.value)
    {
      if sheet.None? {
        return Raised(RosterUnavailable);
      }
      roster := sheet.value;
      FilterMmsi();
      o := Done;
    }

    /** `filter_mmsi`. */
    method FilterMmsi()
      modifies this`tracked, this`counters
      ensures tracked == Some(Roster.FilterMmsi(roster)) && counters == CountFleet(roster)
    {
      tracked := Some(Roster.FilterMmsi(roster));
      counters := CountFleet(roster);
    }

    /** `check_page_MMR(complete_check)`: one link per row, then the
        `PAGE_LINK` column. */
    method CheckPageMmr(complete: bool) returns (o: Outcome)
      modifies this`tracked
      ensures old(tracked).None? ==> o == Raised(FleetUnset) && tracked == old(tracked)
      ensures (old(tracked).Some? ==>
        var r := PageCheck(old(tracked).value, lastUpdateDb, complete, get);
        && (r.Ok? ==> o == Done && tracked == Some(r.value))
        && (r.Err? ==> o == Raised(r.error) && tracked == old(tracked)))
    {
      assert NewTimeSleepMaxMs < MaxTimeSleepMs;
      if tracked.None? {
        return Raised(FleetUnset);
      }
      var t := tracked.value;
      var links: seq<Cell> := [];
      var i := 0;
      if complete {
        while i < |t|
          invariant 0 <= i <= |t|
          invariant links == CompletePageLinks(t[..i], get)
        {
          links := links + [ProbePage(t[i].name, get)];
          i := i + 1;
          assert t[..i][..i - 1] == t[..i - 1];
        }
      } else {
        while i < |t|
          invariant 0 <= i <= |t|
          invariant i > 0 ==> lastUpdateDb.Loaded?
          invariant lastUpdateDb.Loaded? ==> links == PartialPageLinks(t[..i], lastUpdateDb.rows, get)
          invariant i == 0 ==> links == []
        {
          match lastUpdateDb
          case Unset =>
            return Raised(BaselineUnset);
          case RosterCopy(_) =>
            return Raised(MissingColumn("PAGE_LINK"));
          case Loaded(rows) =>
            var page := FirstWithMmsi(rows, t[i].mmsi);
            if page.None? {
              links := links + [ProbePage(t[i].name, get)];
            } else {
              links := links + [page.value.page];
            }
          i := i + 1;
          assert t[..i][..i - 1] == t[..i - 1];
        }
      }
      assert t[..i] == t;
      tracked := Some(WithPages(t, links));
      o := Done;
    }

    /** The loop over `wanted_columns` for the boat with MMSI `m`: each value
        is read from the record and written through the aligned mask; the
        loop stops at the first missing key or failed write. */
    method WriteWantedColumns(cols: seq<Column>, rec: Record, m: int) returns (ok: bool)
      requires tracked.Some?
      modifies this`tracked
      ensures tracked.Some? && (tracked.value, ok) == WriteWanted(old(tracked).value, cols, rec, lastUpdateDb, m)
    {
      var k := 0;
      while k < |cols|
        invariant 0 <= k <= |cols| && tracked.Some?
        invariant WriteWanted(tracked.value, cols[k..], rec, lastUpdateDb, m)
          == WriteWanted(old(tracked).value, cols, rec, lastUpdateDb, m)
      {
        var key := ResponseKey(cols[k]);
        if key !in rec {
          return false;
        }
        var written := MaskedWrite(tracked.value, lastUpdateDb, m, cols[k], rec[key]);
        if written.None? {
          return false;
        }
        assert cols[k..][1..] == cols[k + 1..];
        tracked := written;
        k := k + 1;
      }
      ok := true;
    }

    /** The loop body for the boat with MMSI `m`, on the tracked table and
        the loop's `wanted_columns` and `skipped` counters: in a partial
        update the fixable columns are checked against the baseline first;
        the boat is dropped when that lookup raises, when the provider has no
        record for it, or when a write raises. */
    method UpdateVessel(m: int, complete: bool, wanted: seq<Column>, skippedFlag: nat, skippedImo: nat)
      returns (wanted': seq<Column>, skippedFlag': nat, skippedImo': nat)
      requires tracked.Some?
      modifies this`tracked
      ensures tracked.Some?
      ensures (ApiState(tracked.value, wanted', skippedFlag', skippedImo')
        == VesselStep(ApiState(old(tracked).value, wanted, skippedFlag, skippedImo), m, lastUpdateDb, complete, locate))
    {
      wanted', skippedFlag', skippedImo' := wanted, skippedFlag, skippedImo;
      if !complete {
        var fixable := CheckFixable(ApiState(tracked.value, wanted, skippedFlag, skippedImo), lastUpdateDb, m);
        if fixable.None? {
          tracked := Some(DropMmsi(tracked.value, m));
          return;
        }
        wanted', skippedFlag', skippedImo' := fixable.value.wanted, fixable.value.skippedFlag, fixable.value.skippedImo;
      }
      var reply := locate(m);
      if reply.None? || |reply.value| == 0 {
        tracked := Some(DropMmsi(tracked.value, m));
        return;
      }
      var ok := WriteWantedColumns(wanted', reply.value[0], m);
      // copying an unrequested fixable column goes through `.iloc` with a
      // column name, which raises
      if !(ok && Flag in wanted' && Imo in wanted') {
        tracked := Some(DropMmsi(tracked.value, m));
      }
    }

    /** `request_update_API(complete_update)`: telemetry columns reset, then
        the loop over the rows; a boat whose step raises is dropped. */
    method RequestUpdateApi(complete: bool) returns (o: Outcome)
      modifies this`tracked
      ensures old(tracked).None? ==> o == Raised(FleetUnset) && tracked == old(tracked)
      ensures (old(tracked).Some? ==>
        && o == Done
        && tracked == Some(Reconcile.RequestUpdateApi(old(tracked).value, lastUpdateDb, complete, locate).table))
    {
      if tracked.None? {
        return Raised(FleetUnset);
      }
      var init := InitialState(tracked.value, complete);
      var rows := init.table;
      tracked := Some(rows);
      var wanted := init.wanted;
      var skippedFlag, skippedImo := 0, 0;
      var i := 0;
      while i < |rows|
        invariant 0 <= i <= |rows| && tracked.Some?
        invariant ApiState(tracked.value, wanted, skippedFlag, skippedImo)
          == ApiLoop(rows[..i], init, lastUpdateDb, complete, locate)
      {
        wanted, skippedFlag, skippedImo := UpdateVessel(rows[i].mmsi, complete, wanted, skippedFlag, skippedImo);
        ApiLoopSnoc(rows, i, init, lastUpdateDb, complete, locate);
        i := i + 1;
      }
      assert rows[..i] == rows;
      o := Done;
    }

    /** `request_image_links`: one picture per row, then the `IMAGE_URL` column. */
    method RequestImageLinks() returns (o: Outcome)
      modifies this`tracked
      ensures old(tracked).None? ==> o == Raised(FleetUnset) && tracked == old(tracked)
      ensures (old(tracked).Some? ==>
        && o == Done
        && tracked == Some(WithImages(old(tracked).value, ImageLinks(old(tracked).value, get, scrape))))
    {
      if tracked.None? {
        return Raised(FleetUnset);
      }
      var t := tracked.value;
      var urls: seq<string> := [];
      var i := 0;
      while i < |t|
        invariant 0 <= i <= |t|
        invariant urls == ImageLinks(t[..i], get, scrape)
      {
        urls := urls + [ImageFromPage(t[i].page, t[i].tel.shipId, get, scrape)];
        i := i + 1;
        assert t[..i][..i - 1] == t[..i - 1];
      }
      assert t[..i] == t;
      tracked := Some(WithImages(t, urls));
      o := Done;
    }

    /** `saveDB`: removes the oldest save of a full folder, then writes the
        table under the current date. */
    method SaveDB() returns (o: Outcome)
      modifies this`ticks, this`lastUpdate, folder
      ensures ticks == old(ticks) + 1
      ensures (!AllParse(old(folder.files).Keys) ==>
        o.Raised? && o.failure.MalformedSaveName? && folder.files == old(folder.files) && lastUpdate == old(lastUpdate))
      ensures (AllParse(old(folder.files).Keys) ==>
        var keys := old(folder.files).Keys;
        var victim := Victim(|keys|, SavedDates(keys));
        var now := clock(old(ticks));
        && (victim.Some? && victim.value !in keys ==>
              o == Raised(MissingSaveFile(victim.value)) && folder.files == old(folder.files) && lastUpdate == old(lastUpdate))
        && (victim.None? || victim.value in keys ==>
              var kept := if victim.Some? then old(folder.files) - {victim.value} else old(folder.files);
              && lastUpdate == Some(SavedAt(FormatDate(now)))
              && (tracked.Some? ==> o == Done && folder.files == kept[SaveFileName(now) := tracked.value])
              && (tracked.None? ==> o == Raised(FleetUnset) && folder.files == kept)))
      ensures o == Done ==> Saved()
      ensures old(folder.files).Keys == {} && tracked.Some? ==> o == Done
    {
      var now := clock(ticks);
      ticks := ticks + 1;
      o := RemoveOldestSave();
      if o.Raised? {
        return;
      }
      lastUpdate := Some(SavedAt(FormatDate(now)));
      if tracked.None? {
        return Raised(FleetUnset);
      }
      folder.Write(SaveFileName(now), tracked.value);
    }

    /** The first half of `saveDB`: the listing, then, with five saves or
        more, the removal of the oldest one. */
    method RemoveOldestSave() returns (o: Outcome)
      modifies folder
      ensures (!AllParse(old(folder.files).Keys) ==>
        o.Raised? && o.failure.MalformedSaveName? && folder.files == old(folder.files))
      ensures (AllParse(old(folder.files).Keys) ==>
        var victim := Victim(|old(folder.files).Keys|, SavedDates(old(folder.files).Keys));
        && (victim.None? ==> o == Done && folder.files == old(folder.files))
        && (victim.Some? && victim.value in old(folder.files) ==>
              o == Done && folder.files == old(folder.files) - {victim.value})
        && (victim.Some? && victim.value !in old(folder.files) ==>
              o == Raised(MissingSaveFile(victim.value)) && folder.files == old(folder.files)))
    {
      ghost var keys := folder.files.Keys;
      var listing := folder.GetListOfSaves();
      if listing.Err? {
        return Raised(listing.error);
      }
      var dates := listing.value;
      o := Done;
      if |dates| >= MaxNumberOfFiles {
        OldestOfListing(dates, SavedDates(keys));
        var oldest := SaveFileName(Oldest(dates));
        assert Victim(|keys|, SavedDates(keys)) == Some(oldest);
        o := folder.Remove(oldest);
      } else {
        assert Victim(|keys|, SavedDates(keys)) == None;
      }
    }

    /** `load_data`: records the date, then reads that save as the baseline. */
    method LoadData(date: Timestamp) returns (o: Outcome)
      requires ValidTimestamp(date)
      modifies this`lastUpdate, this`lastUpdateDb
      ensures lastUpdate == Some(LoadedAt(date))
      ensures (SaveFileName(date) in folder.files ==>
        o == Done && lastUpdateDb == Loaded(Relabel(folder.files[SaveFileName(date)])))
      ensures (SaveFileName(date) !in folder.files ==>
        o == Raised(MissingSaveFile(SaveFileName(date))) && lastUpdateDb == old(lastUpdateDb))
    {
      lastUpdate := Some(LoadedAt(date));
      var read := folder.Read(SaveFileName(date));
      match read
      case Ok(rows) =>
        lastUpdateDb := Loaded(Relabel(rows));
        o := Done;
      case Err(e) =>
        o := Raised(e);
    }

    /** `load_last_save`: loads the latest save as the baseline and answers
        `true`; with no save, runs a complete update and answers `false`. */
    method LoadLastSave() returns (o: Outcome, loaded: bool)
      modifies this, folder
      ensures (!AllParse(old(folder.files).Keys) ==>
        && o.Raised? && o.failure.MalformedSaveName? && !loaded
        && tracked == old(tracked) && lastUpdateDb == old(lastUpdateDb) && lastUpdate == old(lastUpdate)
        && folder.files == old(folder.files))
      ensures (old(folder.files).Keys == {} ==>
        && !loaded
        && (sheet.None? ==> o == Raised(RosterUnavailable))
        && (sheet.Some? ==>
              var t0 := Roster.FilterMmsi(sheet.value);
              && o == Done && lastUpdateDb == RosterCopy(t0)
              && dbUpdated && Saved()
              && tracked == Some(Refresh(sheet.value, RosterCopy(t0), true, get, locate, scrape).value)))
      ensures (AllParse(old(folder.files).Keys) && old(folder.files).Keys != {} ==>
        var d := LatestDate(SavedDates(old(folder.files).Keys));
        && loaded && folder.files == old(folder.files)
        && tracked == old(tracked)
        && lastUpdate == Some(LoadedAt(d))
        && (SaveFileName(d) in folder.files ==>
              o == Done && lastUpdateDb == Loaded(Relabel(folder.files[SaveFileName(d)])))
        && (SaveFileName(d) !in folder.files ==> o == Raised(MissingSaveFile(SaveFileName(d)))))
    {
      o, loaded := LoadLatestSave();
      if o == Done && !loaded {
        o := CompleteUpdate();
      }
    }

    /** The listing and the `len(list_files) > 0` branch of
        `load_last_save`: the latest save becomes the baseline; `found` is
        false, and nothing changes, when the folder is empty. */
    method LoadLatestSave() returns (o: Outcome, found: bool)
      modifies this`lastUpdate, this`lastUpdateDb
      ensures (!AllParse(folder.files.Keys) ==>
        && o.Raised? && o.failure.MalformedSaveName? && !found
        && lastUpdateDb == old(lastUpdateDb) && lastUpdate == old(lastUpdate))
      ensures (folder.files.Keys == {} ==>
        o == Done && !found && lastUpdateDb == old(lastUpdateDb) && lastUpdate == old(lastUpdate))
      ensures (AllParse(folder.files.Keys) && folder.files.Keys != {} ==>
        var d := LatestDate(SavedDates(folder.files.Keys));
        && found
        && lastUpdate == Some(LoadedAt(d))
        && (SaveFileName(d) in folder.files ==>
              o == Done && lastUpdateDb == Loaded(Relabel(folder.files[SaveFileName(d)])))
        && (SaveFileName(d) !in folder.files ==> o == Raised(MissingSaveFile(SaveFileName(d)))))
    {
      var listing := folder.GetListOfSaves();
      if listing.Err? {
        return Raised(listing.error), false;
      }
      var dates := listing.value;
      if |dates| == 0 {
        assert folder.files.Keys == {};
        return Done, false;
      }
      assert dates[0] in SavedDates(folder.files.Keys);
      LatestOfListing(dates, SavedDates(folder.files.Keys));
      o := LoadData(Latest(dates));
      found := true;
    }

    /** `load_a_save`: lists the saves, then loads as the baseline the one at
        position `choice` (the number the user types) when `choice` is below
        the number of saves; a larger choice changes nothing. */
    method LoadASave(choice: int) returns (listing: Result<seq<Timestamp>, Failure>, o: Outcome)
      modifies this`lastUpdate, this`lastUpdateDb
      ensures listing.Ok? <==> AllParse(folder.files.Keys)
      ensures listing.Ok? ==> forall d :: d in listing.value <==> d in SavedDates(folder.files.Keys)
      ensures listing.Err? ==> o == Raised(listing.error) && unchanged(this)
      ensures (listing.Ok? && choice >= |listing.value| ==> o == Done && unchanged(this))
      ensures (listing.Ok? && choice < -|listing.value| ==>
        o == Raised(ChoiceOutOfRange(choice)) && unchanged(this))
      ensures (listing.Ok? && PythonIndex(choice, |listing.value|).Some? ==>
        var d := listing.value[PythonIndex(choice, |listing.value|).value];
        && ValidTimestamp(d)
        && lastUpdate == Some(LoadedAt(d))
        && (SaveFileName(d) in folder.files ==>
              o == Done && lastUpdateDb == Loaded(Relabel(folder.files[SaveFileName(d)]))))
    {
      listing := folder.GetListOfSaves();
      if listing.Err? {
        return listing, Raised(listing.error);
      }
      var dates := listing.value;
      if choice < |dates| {
        var k := PythonIndex(choice, |dates|);
        if k.None? {
          o := Raised(ChoiceOutOfRange(choice));
        } else {
          var d := dates[k.value];
          assert d in SavedDates(folder.files.Keys);
          o := LoadData(d);
        }
      } else {
        o := Done;
      }
    }

    /** The last `saveDB` wrote the tracked table under the date it read. */
    predicate Saved()
      reads this, folder
    {
      && tracked.Some?
      && ticks > 0
      && SaveFileName(clock(ticks - 1)) in folder.files
      && folder.files[SaveFileName(clock(ticks - 1))] == tracked.value
    }

    /** `updatetDB(complete_update)`: dispatches to the two branches. */
    method UpdatetDB(complete: bool) returns (o: Outcome)
      modifies this, folder
      ensures complete && sheet.None? ==> o == Raised(RosterUnavailable)
      ensures (complete && sheet.Some? ==>
        var t0 := Roster.FilterMmsi(sheet.value);
        && lastUpdateDb == RosterCopy(t0)
        && dbUpdated
        && tracked == Some(Refresh(sheet.value, RosterCopy(t0), true, get, locate, scrape).value))
      ensures complete && sheet.Some? && old(folder.files).Keys == {} ==> o == Done
      ensures (!complete && o == Done ==>
        && sheet.Some?
        && dbUpdated
        && Refresh(sheet.value, lastUpdateDb, false, get, locate, scrape).Ok?
        && tracked == Some(Refresh(sheet.value, lastUpdateDb, false, get, locate, scrape).value))
      ensures (!complete && sheet.Some? && old(folder.files).Keys == {} && |Roster.FilterMmsi(sheet.value)| > 0
        ==> o == Raised(MissingColumn("PAGE_LINK")))
      ensures (!complete && sheet.Some? && old(folder.files).Keys == {} ==>
        && lastUpdateDb == RosterCopy(Roster.FilterMmsi(sheet.value)) && dbUpdated)
      ensures (!complete && sheet.Some? && LatestSave(old(folder.files)).Some? ==>
        var r := Refresh(sheet.value, Loaded(LatestSave(old(folder.files)).value), false, get, locate, scrape);
        && lastUpdateDb == Loaded(LatestSave(old(folder.files)).value)
        && (r.Err? ==> o == Raised(r.error))
        && (r.Ok? ==> dbUpdated && tracked == Some(r.value)))
      ensures o == Done ==> Saved()
    {
      if complete {
        o := CompleteUpdate();
      } else {
        o := PartialUpdate();
      }
    }

    /** The complete branch of `updatetDB`: the baseline is the freshly
        filtered roster, every boat is probed and asked for every column. */
    method CompleteUpdate() returns (o: Outcome)
      modifies this, folder
      ensures sheet.None? ==> o == Raised(RosterUnavailable)
      ensures (sheet.Some? ==>
        var t0 := Roster.FilterMmsi(sheet.value);
        && lastUpdateDb == RosterCopy(t0)
        && dbUpdated
        && tracked == Some(Refresh(sheet.value, RosterCopy(t0), true, get, locate, scrape).value))
      ensures sheet.Some? && old(folder.files).Keys == {} ==> o == Done
      ensures o == Done ==> Saved()
    {
      o := RequestUpdateGgsheet();
      if o.Raised? {
        return;
      }
      lastUpdateDb := RosterCopy(tracked.value);
      o := EnrichAndSave(true);
    }

    /** The partial branch of `updatetDB`: the last save becomes the
        baseline (with no save, a complete update runs first and the roster
        copy it leaves is the baseline), then the roster is re-read and
        compared against it. */
    method PartialUpdate() returns (o: Outcome)
      modifies this, folder
      ensures (o == Done ==>
        && sheet.Some?
        && dbUpdated
        && Refresh(sheet.value, lastUpdateDb, false, get, locate, scrape).Ok?
        && tracked == Some(Refresh(sheet.value, lastUpdateDb, false, get, locate, scrape).value))
      ensures (sheet.Some? && old(folder.files).Keys == {} && |Roster.FilterMmsi(sheet.value)| > 0
        ==> o == Raised(MissingColumn("PAGE_LINK")))
      ensures (sheet.Some? && old(folder.files).Keys == {} ==>
        && lastUpdateDb == RosterCopy(Roster.FilterMmsi(sheet.value)) && dbUpdated)
      ensures (sheet.Some? && LatestSave(old(folder.files)).Some? ==>
        var r := Refresh(sheet.value, Loaded(LatestSave(old(folder.files)).value), false, get, locate, scrape);
        && lastUpdateDb == Loaded(LatestSave(old(folder.files)).value)
        && (r.Err? ==> o == Raised(r.error))
        && (r.Ok? ==> dbUpdated && tracked == Some(r.value)))
      ensures o == Done ==> Saved()
    {
      ghost var files := folder.files;
      var loaded;
      o, loaded := LoadLastSave();
      if o.Raised? {
        assert LatestSave(files).None?;
        return;
      }
      assert LatestSave(files).Some? ==> lastUpdateDb == Loaded(LatestSave(files).value);
      o := RefreshAgainstBaseline();
    }

    /** What the partial branch does once the baseline is loaded. */
    method RefreshAgainstBaseline() returns (o: Outcome)
      modifies this`roster, this`tracked, this`counters, this`dbUpdated, this`ticks, this`lastUpdate, folder
      ensures sheet.None? ==> o == Raised(RosterUnavailable)
      ensures (sheet.Some? ==>
        var r := Refresh(sheet.value, lastUpdateDb, false, get, locate, scrape);
        && (r.Err? ==> o == Raised(r.error))
        && (r.Ok? ==> dbUpdated && tracked == Some(r.value)))
      ensures old(dbUpdated) ==> dbUpdated
      ensures o == Done ==> sheet.Some? && Saved()
    {
      o := RequestUpdateGgsheet();
      if o.Raised? {
        return;
      }
      o := EnrichAndSave(false);
    }

    /** The steps both branches share once the roster is filtered: museum
        pages, telemetry and pictures, then the save. */
    method EnrichAndSave(complete: bool) returns (o: Outcome)
      requires tracked.Some?
      modifies this`tracked, this`dbUpdated, this`ticks, this`lastUpdate, folder
      ensures (var r := Enrich(old(tracked).value, lastUpdateDb, complete, get, locate, scrape);
        && (r.Err? ==> o == Raised(r.error))
        && (r.Ok? ==> dbUpdated && tracked == Some(r.value))
        && (r.Ok? && old(folder.files).Keys == {} ==> o == Done))
      ensures old(dbUpdated) ==> dbUpdated
      ensures o == Done ==> Saved()
    {
      o := CheckPageMmr(complete);
      if o.Raised? {
        return;
      }
      o := RequestUpdateApi(complete);
      o := RequestImageLinks();
      dbUpdated := true;
      o := SaveDB();
    }

    /** `run(complete_init)`: `self.load_last_save` is tested without being
        called, and a bound method is always true, so the update is partial
        exactly when `complete_init` is false. */
    method Run(completeInit: bool) returns (o: Outcome)
      modifies this, folder
      ensures (!completeInit && sheet.Some? && old(folder.files).Keys == {} && |Roster.FilterMmsi(sheet.value)| > 0
        ==> o == Raised(MissingColumn("PAGE_LINK")))
      ensures (completeInit && sheet.Some? ==>
        tracked == Some(Refresh(sheet.value, RosterCopy(Roster.FilterMmsi(sheet.value)), true, get, locate, scrape).value))
      ensures (!completeInit && o == Done ==>
        && sheet.Some?
        && Refresh(sheet.value, lastUpdateDb, false, get, locate, scrape).Ok?
        && tracked == Some(Refresh(sheet.value, lastUpdateDb, false, get, locate, scrape).value))
      ensures (!completeInit && sheet.Some? && LatestSave(old(folder.files)).Some? ==>
        var r := Refresh(sheet.value, Loaded(LatestSave(old(folder.files)).value), false, get, locate, scrape);
        && lastUpdateDb == Loaded(LatestSave(old(folder.files)).value)
        && (r.Err? ==> o == Raised(r.error))
        && (r.Ok? ==> dbUpdated && tracked == Some(r.value)))
      ensures o == Done ==> dbUpdated && Saved()
    {
      o := UpdatetDB(completeInit);
    }
  }
}
