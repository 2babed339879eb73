# Sail-Tracker fleet database, modelled in Dafny

Sail-Tracker follows the yachts of a sailing club on a web map. Its fleet database does the following:

- reads the club's roster from a spreadsheet;
- keeps one row per boat that has an MMSI (the radio identifier ships broadcast);
- probes the maritime museum of La Rochelle for a page about each boat;
- asks an AIS provider (Automatic Identification System, MarineTraffic here) for each boat's position, speed, course, flag and ship id;
- picks a picture for each boat;
- writes the resulting table into a folder of dated CSV saves, of which it keeps the five newest.

A web-page generator reads those saves back, orders the boats by name and looks up each boat's country flag.

This project models that engine in Dafny and proves properties of the model. It has three parts, one per class of the program:

- `FleetDb.DataBase` models `DataBase` of `packages/db.py`. It covers the complete and the partial update, the loading and saving of snapshots, and `run`.
- `TrackerTools.TrackerDataBase` models the older `DataBase` of `tracker_tools.py`. There, initialisation runs the roster, pages, telemetry and pictures in a row, and telemetry is gathered into eight lists.
- `Server.TrackerServer` models `TrackerServer` of `packages/server.py`. It covers reading the saves back and the part of `generate_html` that decides what the page lists.

The outside world is passed in as parameters:

- the spreadsheet, as `sheet`: the rows, or `None` when it cannot be read;
- HTTP GET, as `get`: a status and a final URL, or `None` when the request raises;
- the page scraper, as `scrape`;
- the AIS provider, as `locate` in `packages/db.py` and `fetch` in `tracker_tools.py`;
- the clock, as `clock`, read once per save;
- the save folder, as the `Store.SaveFolder` object, which holds a map from file names to tables.

Each raised exception is an `Outcome` value, `Raised(failure)`. The `Failure` names the exception's cause.

The model keeps several pandas behaviours that decide what the program does:

- **Label alignment.** The masked write at `packages/db.py:291` aligns a boolean mask built on the baseline table with the tracked table's row *labels*. It therefore writes to the tracked row whose label is the baseline *position* of the MMSI. It raises when a tracked label is not a baseline position.
- **`.iloc` with a column name.** The `.iloc` copy at `packages/db.py:294` indexes with a column name, which `.iloc` refuses, so it always raises.
- **Shared `wanted_columns` list.** `wanted_columns` is the same list object as `always_updated_columns`, so the fixable columns appended for one boat stay requested for every later boat.
- **`run` and `load_last_save`.** `self.load_last_save` in `run` is a bound method that is never called, and a bound method is always true.
- **Torn records in `tracker_tools.py`.** The eight appends happen one key at a time. A record that lacks a key half-way leaves some lists one element longer than the others. The column assignment then raises `ValueError`.

Each of these surprises is proved about the model as written: the first three and the torn records as lemmas (module `PartialUpdate` and `TrackerTools.TrackerApiOutcome`), and `run`'s as the contract of `FleetDb.DataBase.Run`, which says that `run(False)` refreshes the roster against the latest save.

## Model

| member | source | states |
|---|---|---|
| Common.NatToString | tracker_tools.py:133 | The MMSI that `TrackerTools.ApiUrl` (through `IntToString`) puts in the MMSI filter of the provider address is written in decimal digits whose value is the MMSI, with no leading zero. |
| Common.PythonIndex | packages/db.py:153-154 | `list_files[choice]` succeeds exactly when `-n <= choice < n`. A negative choice counts from the end. |
| Fleet.Relabel | packages/db.py:195-196 | The table keeps its rows in order, and each row's index label becomes its position (`ignore_index=True`, `reset_index`, a CSV read). |
| Fleet.FirstWithMmsi | packages/db.py:273 | Returns the first row with the MMSI. It is absent exactly when no row has it. No earlier row carries the MMSI. |
| Fleet.DropMmsi | packages/db.py:301-304 | Dropping an MMSI's rows removes exactly that MMSI from the table's set of MMSIs and never lengthens the table. |
| Fleet.DropLabel | tracker_tools.py:147-148 | `drop(index=label)`: no remaining row carries the label, and the table does not grow. |
| Fleet.DropMmsiMembers | packages/db.py:301-304 | A row survives the drop exactly when it is a row of the table with another MMSI. |
| Fleet.DropMmsiConcat | packages/db.py:301-304 | Dropping distributes over concatenation, so rows elsewhere in the table are untouched. |
| Fleet.Telemetry.Set | packages/db.py:291 | Writing one telemetry column sets that column and leaves the six others unchanged. |
| Roster.FilterMmsi | packages/db.py:195-196 | The filtered table is no longer than the roster and its labels are its positions. Its MMSIs are distinct and are exactly the roster's non-missing MMSIs. |
| Roster.FilterMmsiIsFirstOccurrences | packages/db.py:195-196 | Row k of the filtered table is the roster row at the k-th first occurrence of an MMSI, in roster order, relabelled k. |
| Roster.FirstOccurrences | packages/db.py:195-196 | Reference definition: the increasing positions of exactly the roster rows that are the first with their MMSI. |
| Roster.KeepFirstPerMmsi_Props | packages/db.py:195-196 | Keeping the first row per MMSI yields distinct MMSIs, and the set of MMSIs is the roster's. |
| Roster.CountFleet | packages/db.py:197-199 | `_nb_mmsi` is the number of distinct non-missing MMSIs of the roster, which is also the number of filtered rows. `_nb_bateaux` is the number of distinct boat names, a missing name counting once, and at most the roster's length. `_nb_bateaux_sans_mmsi` is the difference of the two. |
| Roster.DistinctMmsiCardinality | packages/db.py:197 | With distinct MMSIs, the number of distinct MMSIs equals the number of rows (`len(MMSI.dropna().unique())`). |
| Roster.NameValuesBound | packages/db.py:198 | There are never more distinct names, a missing name counting once, than roster rows. |
| SaveNames.Pad2 | packages/db.py:32 | Two digits whose decimal value is the field (`%d %m %H %M %S`). |
| SaveNames.Pad4 | packages/db.py:32 | Four digits whose decimal value is the year (`%Y`). |
| SaveNames.FormatDate | packages/db.py:32 | `strftime("%d_%m_%Y_%H_%M_%S")` writes only digits and underscores. |
| SaveNames.SplitFormatDate | packages/db.py:32 | Splitting a formatted date on `_` gives back its six padded fields, day first. |
| SaveNames.ParseFormatDate | packages/db.py:32 | `strptime` with the same format (`SaveNames.ParseDate`: six underscore-separated fields forming a valid date) reads back every date `strftime` writes. |
| SaveNames.Find | packages/db.py:164 | Finds the first occurrence of the separator at or after a position, or reports that none exists. |
| SaveNames.ParseSaveName | packages/db.py:164 | The date read from a file name is one `datetime` accepts. A name that does not parse fails with that name. |
| SaveNames.SaveFileNameRoundTrip | packages/db.py:30-32 | The name `saveDB` writes for a date (`SaveNames.SaveFileName`, `SAVE__<date>.csv`) is read back by `get_list_of_saves` as that same date. |
| SaveNames.SaveFileNameInjective | packages/db.py:30-32 | Different dates are saved under different file names. |
| SaveNames.ListSaves | packages/db.py:158-165 | The listing succeeds exactly when every name parses. Its i-th date is the i-th name's date. Otherwise it fails on the first name that does not parse. |
| SaveNames.ListingFailsWithoutPrefix | packages/db.py:164 | A file name without `SAVE__` (`split('SAVE__')[1]` raises) makes the whole listing fail. |
| SaveNames.Latest | packages/db.py:134 | `max(list_files)` is a listed date that no listed date is later than. |
| SaveNames.Oldest | packages/db.py:175 | `min(list_files)` is a listed date that no listed date is earlier than. |
| Store.SaveFolder.constructor | packages/db.py:29 | The folder holds the given files. |
| Store.SaveFolder.ListDir | packages/db.py:162 | `os.listdir` lists every file exactly once, in an order left open. |
| Store.SaveFolder.GetListOfSaves | packages/db.py:158-165 | `get_list_of_saves` (the same code as packages/server.py:139-146, which both classes call): it succeeds exactly when every file name parses, and then lists one date per file, exactly the saved dates. Otherwise it fails on a name that does not parse. |
| Store.SaveFolder.Read | packages/db.py:113 | `read_csv` returns the file's table as written, or raises for a missing file. Cells that pandas would read back as missing are not modelled (see Left out). |
| Store.SaveFolder.Remove | packages/db.py:179 | `os.remove` removes exactly that file, or raises and changes nothing when the file does not exist. |
| Store.SaveFolder.Write | packages/db.py:185 | `to_csv` creates or overwrites exactly that file. |
| Store.SavedDates | packages/db.py:162-164 | The folder's dates are valid dates, and there are none exactly when the folder is empty. |
| Store.ListingDates | packages/db.py:162-164 | Whatever the listing order, the listing parses exactly when every file name does, and then it lists exactly the folder's dates. |
| Store.OldestOfListing | packages/db.py:175 | `min(list_files)` is the oldest saved date, whatever the listing order. |
| Store.LatestOfListing | packages/db.py:134 | `max(list_files)` is the latest saved date, whatever the listing order. |
| Store.OldestIsOrderFree | packages/db.py:175 | Two listings of the same dates have the same minimum. |
| Store.Victim | packages/db.py:173-179 | A file is removed exactly when the listing has at least `MAX_NUMBER_OF_FILES` (5) entries and the folder is not empty. |
| Store.Retain | packages/db.py:167-185 | The dates after one save always include the new date. |
| Store.RetainBound | packages/db.py:173-185 | A folder with at most five saves still has at most five after a save. |
| Store.RetainDropsOnlyTheOldest | packages/db.py:173-179 | When the new save is the latest, every dropped save is older than every kept one. |
| Store.SaveRunKeepsNewestFive | packages/db.py:167-185 | Starting from an empty folder, saves at increasing dates leave exactly the five most recent ones, or all of them when there are fewer (`Store.SaveRun` is the folder's dates after the repeated `saveDB`). |
| Store.SaveKeepsFolderCanonical | packages/db.py:167-185 | On a folder of `saveDB`'s own files, a save removes an existing file (the oldest) and leaves one file per retained date. |
| Store.CanonicalDates | packages/db.py:162-164 | A folder of `saveDB`'s own files lists exactly its dates, one file per date. |
| Enrichment.Lower | packages/db.py:347 | Lower-casing maps each character on its own, for the capitals of ASCII, Latin-1 and Latin Extended-A, and leaves no such capital behind. |
| Enrichment.ReplaceChar | packages/db.py:347 | `replace(" ", "-")` replaces exactly the matching characters. |
| Enrichment.Slug | packages/db.py:347 | The page name has the boat name's length and contains no space. |
| Enrichment.SlugIdempotent | packages/db.py:347 | A page name is its own page name. |
| Enrichment.SlugIgnoresCaseAndSpaces | packages/db.py:347 | Lower-casing first, or turning spaces into dashes first, leads to the same page. |
| Enrichment.ProbePage | packages/db.py:345-357 | The link is the final URL of the museum address (`Enrichment.PageUrl`, the prefix followed by the page name) exactly when the boat has a name and the museum answers 200. A missing name, another status or an exception gives a missing link. |
| Enrichment.CompletePageLinks | packages/db.py:340-358 | A complete check gives exactly one link per row. |
| Enrichment.CompletePageLinksAt | packages/db.py:340-358 | A complete check's link for row i is the probe of row i's name. |
| Enrichment.PartialPageLink | packages/db.py:360-384 | A boat the save knows keeps the save's first link for its MMSI, even a missing one. Any other boat is probed. |
| Enrichment.PartialLinkIgnoresSite | packages/db.py:363-384 | A boat already in the save gets the same link whatever the site answers. |
| Enrichment.PartialPageLinks | packages/db.py:360-386 | A partial check gives exactly one link per row. |
| Enrichment.PartialPageLinksAt | packages/db.py:360-386 | A partial check's link for row i is the link rule applied to row i. |
| Enrichment.SkipCount | packages/db.py:361-384 | `skip_count` is the number of rows whose MMSI the save knows. So it is at most the number of rows, and zero exactly when the save knows none of the boats. |
| Enrichment.PartialPageLinksOfSavedFleet | packages/db.py:360-386 | When the save holds the whole fleet, every boat is skipped and gets its saved link back. |
| Enrichment.ImageFromPage | packages/db.py:415-438 | Without a page, the MarineTraffic thumbnail (`Enrichment.MtImageUrl`, a missing `SHIP_ID` formatted as `nan`) on status 200, else the default. With a page, the scraped picture, else the default. The result is never missing. |
| Enrichment.MuseumPageOverridesMarineTraffic | packages/db.py:429-438 | A boat with a museum page never depends on MarineTraffic or on its `SHIP_ID`. |
| Enrichment.TrackerImageFromPage | tracker_tools.py:246-271 | Without a page the picture is always the default: the template lookup raises inside the `try`. With a page it is the scraped picture or the default. |
| Enrichment.ImageVersionsAgreeOnMuseumPages | tracker_tools.py:262-271 | Both versions of `get_image_from_page_link` agree on boats that have a museum page. |
| Enrichment.ImageLinks | packages/db.py:397-413 | `request_image_links` gives exactly one picture per row. |
| Enrichment.ImageLinksAt | packages/db.py:397-413 | Row i's picture is the one the fallback chain picks from row i's own page and `SHIP_ID`. |
| Enrichment.TrackerImageLinks | tracker_tools.py:228-244 | `request_image_links` in `tracker_tools.py` gives exactly one picture per row. |
| Enrichment.WithPages | packages/db.py:389 | Assigning `PAGE_LINK` changes only that cell of each row. |
| Enrichment.WithImages | packages/db.py:413 | Assigning `IMAGE_URL` changes only that cell of each row. |
| Reconcile.ResetTelemetry | packages/db.py:259-260 | Before the loop, every telemetry cell of every row is missing and nothing else changes. |
| Reconcile.InitialState | packages/db.py:255-262 | The loop starts with the reset table and zero `skipped` counters. It requests all seven columns in a complete update, and only the five always-updated ones in a partial update. |
| Reconcile.MaskedWrite | packages/db.py:291 | The aligned `.loc` write raises exactly when the baseline was never assigned or some tracked label is not a baseline position. Otherwise it writes the cell of exactly the rows whose label selects the MMSI, and no other cell. |
| Reconcile.WriteWanted | packages/db.py:289-291 | The write loop keeps every row's non-telemetry cells. It runs to its end only if the record has every requested key. |
| Reconcile.WriteWantedPositioned | packages/db.py:289-291 | As written: the writes reach the rows whose label is a baseline position holding the MMSI, and no other row. The loop completes exactly when every key is present, and then writes the record's values. |
| Reconcile.WriteWantedAligned | packages/db.py:289-291 | On a table aligned with the baseline, the writes reach exactly the rows with that MMSI and keep the table aligned. |
| Reconcile.SavedRow | packages/db.py:273 | The saved row is found exactly when the baseline is a loaded save that lists the MMSI. `.values[0]` raises otherwise. |
| Reconcile.CheckFixable | packages/db.py:269-276 | A fixable column is appended to the request exactly when the saved value is present. Its `skipped` counter is bumped exactly when it is missing. The check raises when the look-up does. |
| Reconcile.VesselStep | packages/db.py:267-304 | One boat's step never adds an MMSI and never removes a requested column. |
| Reconcile.ApiLoop | packages/db.py:264-304 | The loop never adds an MMSI, and the requested columns only grow. |
| Reconcile.RequestUpdateApi | packages/db.py:210-304 | The result's MMSIs are among the input's. A complete update requests all seven columns and skips nothing. |
| Reconcile.CompleteKeepsWanted | packages/db.py:261-262 | A complete loop never changes the request or the `skipped` counters. |
| Reconcile.ApplyRecord | packages/db.py:289-291 | Writing columns from a record sets exactly those columns to the record's values. |
| Reconcile.TelemetryOf | packages/db.py:289-291 | The telemetry read from a full record holds that record's value in every column. |
| Reconcile.CompleteUpdateRefreshesEachVessel | packages/db.py:210-304 | A complete update on an aligned table with distinct MMSIs equals the reference table `Reconcile.Refreshed`: the boats with a usable reply, in order, each with its own reply's telemetry. |
| PartialUpdate.ApiLoopShrinks | packages/db.py:227-304 | Later steps never bring a dropped MMSI back and never remove a requested column (the shared list only grows). |
| PartialUpdate.DroppedStaysDropped | packages/db.py:297-304 | A boat dropped at its own step is absent from the final table. |
| PartialUpdate.PartialDropsBoatMissingFromSave | packages/db.py:269-276 | In a partial update, a boat the loaded save does not list is dropped. |
| PartialUpdate.ProviderFailureDropsBoat | packages/db.py:285-304 | In both modes, a boat whose provider call raises or returns an empty list is dropped. |
| PartialUpdate.FixableNotRequestedYet | packages/db.py:269-276 | A fixable column is not requested while no boat so far has a saved value for it. |
| PartialUpdate.StepDropsWithoutFixable | packages/db.py:293-294 | A partial step drops its boat while a fixable column is not requested: the `.iloc` copy raises. |
| PartialUpdate.PartialDropsBoatsBeforeFirstSavedValue | packages/db.py:269-304 | As written, every boat before the first one with a saved value for a fixable column is dropped, and that boat too when its own value is missing. |
| PartialUpdate.PartialUpdateEmptiesTableWhenRosterOutgrowsSave | packages/db.py:291 | As written, when the tracked table has more rows than the loaded save, every masked write raises and a partial update drops every boat. |
| PartialUpdate.OutgrownWriteFails | packages/db.py:289-291 | With a tracked label past the save's end, the write loop raises before writing anything. |
| PartialUpdate.SwappedSaveMisplacesTelemetry | packages/db.py:291 | As written, with a save that lists two boats in the other order, the first boat's telemetry lands in the second boat's row. |
| FleetDb.PageCheck | packages/db.py:327-389 | A complete check probes every row. A partial check raises exactly when there are rows and the baseline is not a loaded save: `AttributeError` when unset, `KeyError 'PAGE_LINK'` for the roster copy. Only `PAGE_LINK` changes. A partial check against a loaded save gives each row the partial link rule's result. |
| PartialUpdate.PartialUpdateKeepsServedBoat | packages/db.py:264-304 | Against a loaded save aligned with the table, with distinct MMSIs, a boat with a usable reply is kept, with its own record's telemetry, once some boat up to it has a saved `COUNTRY_CODE` and some a saved `SHIP_ID`. |
| FleetDb.Enrich | packages/db.py:80-84 | The three enrichment steps raise exactly when the page check does, and never add an MMSI. |
| FleetDb.Refresh | packages/db.py:68-102 | An update raises exactly when it is partial, the filtered roster is not empty and no save is loaded. Its MMSIs are always roster MMSIs. |
| FleetDb.PartialUpdateKeepsServedBoat | packages/db.py:87-102 | A partial update against such a save succeeds. It holds each served boat with the save's link (or a fresh probe), its own reply's telemetry and the picture chosen from them. |
| FleetDb.CompleteUpdateOfRoster | packages/db.py:70-85 | A complete update saves the reference table: the roster boats with a usable reply, in roster order, with their museum link, their own reply's telemetry and the picture chosen from them. |
| FleetDb.RefreshedMmsis | packages/db.py:210-304 | The reference table keeps exactly the MMSIs whose reply is usable. |
| FleetDb.CompleteUpdateKeepsReachableBoats | packages/db.py:70-85 | A complete update succeeds and saves exactly the roster MMSIs whose reply is usable. |
| FleetDb.DataBase.constructor | packages/db.py:56-57 | A new database is not updated and holds no table, no baseline and no save date. |
| FleetDb.DataBase.RequestUpdateGgsheet | packages/db.py:201-208 | Reads the roster and filters it into the tracked table and the three counters. An unreadable sheet raises and changes nothing. |
| FleetDb.DataBase.FilterMmsi | packages/db.py:191-199 | The tracked table becomes the filtered roster, and the counters become the roster's counts. |
| FleetDb.DataBase.CheckPageMmr | packages/db.py:327-389 | The table becomes the page check's result. It is unchanged when the check raises. |
| FleetDb.DataBase.WriteWantedColumns | packages/db.py:289-291 | The loop over `wanted_columns` leaves the table and the success flag of the write-loop specification. |
| FleetDb.DataBase.UpdateVessel | packages/db.py:267-304 | One pass of the loop leaves the table, the request and the `skipped` counters that one boat's step specifies. |
| FleetDb.DataBase.RequestUpdateApi | packages/db.py:210-325 | The tracked table becomes the reconciled table of the loop specification. Without a table it raises. |
| FleetDb.DataBase.RequestImageLinks | packages/db.py:397-413 | Each row gets the picture the fallback chain picks, and nothing else changes. |
| FleetDb.DataBase.SaveDB | packages/db.py:167-189 | Removes the oldest save of a full folder, then writes the table under the current date, which becomes `_last_update`. It raises on an unparsable name or a missing oldest file. Saving into an empty folder always succeeds. |
| FleetDb.DataBase.RemoveOldestSave | packages/db.py:171-179 | With at least five saves, exactly the oldest file is removed. Otherwise nothing changes. |
| FleetDb.DataBase.LoadData | packages/db.py:104-122 | Records the date, then loads that save as the baseline. A missing file raises and keeps the old baseline. |
| FleetDb.DataBase.LoadLastSave | packages/db.py:124-140 | Loads the latest save as the baseline and answers true. With no save, it answers false after the complete update: the roster copy is the baseline, `_db_updated` is set, and the tracked table is the complete refresh of the roster, which is saved. |
| FleetDb.DataBase.LoadLatestSave | packages/db.py:130-136 | The latest saved date is recorded and its save loaded. An empty folder changes neither the baseline nor `_last_update`. |
| FleetDb.DataBase.LoadASave | packages/db.py:142-156 | Loads the save at position `choice` (counted from the end when negative) when `choice` is below the number of saves. A larger choice changes nothing. A choice below `-n` raises `IndexError`. |
| FleetDb.DataBase.UpdatetDB | packages/db.py:68-102 | A complete update saves the reference table and makes the roster copy the baseline. A partial update refreshes the roster against the latest save, whose table becomes the baseline: it raises what the refresh raises, else holds its table. On an empty folder, the partial update first runs the complete update (roster-copy baseline, `_db_updated` set), then raises `KeyError 'PAGE_LINK'` when the roster has a boat. A finished update is saved. |
| FleetDb.DataBase.CompleteUpdate | packages/db.py:70-85 | The baseline is the filtered roster, and the table is the complete update of it. Into an empty folder it succeeds. |
| FleetDb.DataBase.PartialUpdate | packages/db.py:87-102 | With saves, the latest save's table becomes the baseline; the update raises what the refresh of the roster against it raises, and otherwise holds that refresh. On an empty folder the complete update runs first, leaving the roster copy as the baseline and `_db_updated` set, and `KeyError 'PAGE_LINK'` follows when the roster has a boat. A finished partial update is saved. |
| FleetDb.DataBase.RefreshAgainstBaseline | packages/db.py:91-102 | Once the baseline is loaded: re-read the roster, enrich it against the baseline and save. It raises whatever the refresh raises, and never clears `_db_updated`. |
| FleetDb.DataBase.EnrichAndSave | packages/db.py:80-84 | Pages, telemetry and pictures, then `_db_updated` and the save. It raises when the page check does, leaving `_db_updated` as it was. |
| FleetDb.DataBase.Run | packages/db.py:59-66 | `run(True)` runs a complete update. `run(False)` always takes the partial path: with saves, the latest save's table becomes the baseline and the result is the partial refresh against it; a finished `run(False)` holds the partial refresh against its baseline; on an empty folder with a non-empty roster it raises `KeyError 'PAGE_LINK'`. A finished run is saved. |
| TrackerTools.ColumnsQuery | tracker_tools.py:130-132 | The `columns` parameter is empty exactly when there is no column. |
| TrackerTools.ColumnsQueryRoundTrip | tracker_tools.py:130-132 | Splitting the parameter on commas gives the column names back, followed by the empty piece after the trailing comma. |
| TrackerTools.AnswersOf | tracker_tools.py:133-134 | Each boat's reply is the provider's answer to the address built from its MMSI and the column parameter. |
| TrackerTools.FirstRecord | tracker_tools.py:135-136 | A record is used exactly when the reply is a non-empty list. |
| TrackerTools.PresentKeys | tracker_tools.py:137-144 | The appends stop at the first missing key: every earlier key is present. |
| TrackerTools.AppendRecord | tracker_tools.py:137-144 | The lists of the keys found before the first missing one grow by that key's value. The others stay as they were. |
| TrackerTools.AssignColumns | tracker_tools.py:158-165 | The table's length is its own, or, for an empty table, the length of the first non-empty list, which creates that many rows. The assignments succeed exactly when every list has that length (or all are empty). Otherwise the first list of another length raises `ValueError` naming its column. |
| TrackerTools.EmptyTableGrowsThenRaises | tracker_tools.py:158-165 | On an empty table, a non-empty `LONG` list with an empty last list raises at the first later list shorter than `LONG`. |
| TrackerTools.AssignLists | tracker_tools.py:158-165 | The eight column assignments, one by one, give the result and the exception of the assignment specification. |
| TrackerTools.Kept | tracker_tools.py:96-156 | Reference definition: the boats whose first record has all eight keys, in order. |
| TrackerTools.Refill | tracker_tools.py:158-165 | A kept boat's eight list cells hold its own record's values, and its other cells are untouched. |
| TrackerTools.HarvestLoopTable | tracker_tools.py:96-156 | After k rows, the table of the loop (`TrackerTools.HarvestLoop`, one `TrackerTools.HarvestStep` per row) is the kept boats among them followed by the rows not reached yet. |
| TrackerTools.HarvestLoopLists | tracker_tools.py:96-156 | After the loop, each list equals the reference list of the values appended for its key. |
| TrackerTools.KeptDistinct | tracker_tools.py:96-156 | The kept boats have distinct MMSIs, all among the rows'. |
| TrackerTools.TrackerApiOutcome | tracker_tools.py:96-165 | For the telemetry specification `TrackerTools.TrackerApiResult` (the harvest loop, then the eight assignments): the assignments succeed exactly when no record is torn (has `LON` but misses a later key). When some boat was kept, a torn record makes `LONG` raise. When every boat was dropped, the emptied table takes `LONG`'s length and the first later list that is shorter raises. Without a torn record, the table is the kept boats, each filled from its own record. |
| TrackerTools.TrackerInit | tracker_tools.py:49-56 | An unreadable roster raises and leaves no table. A finished initialisation leaves a table. |
| TrackerTools.TrackerInitRows | tracker_tools.py:49-56 | After a finished initialisation, every boat is a roster boat with an MMSI, at most once. It carries the probe of its own name and the picture chosen from that page. |
| TrackerTools.PagedFleet | tracker_tools.py:68-76 | After the roster step, labels are positions, MMSIs are distinct, and every row carries the probe of its own name. |
| TrackerTools.TrackerImageLinksAt | tracker_tools.py:228-244 | Picture i is the one chosen from row i's page. |
| TrackerTools.TrackerDataBase.constructor | tracker_tools.py:49-56 | Construction runs the roster, pages, telemetry and pictures, and leaves the table and the outcome the initialisation specification gives. |
| TrackerTools.TrackerDataBase.Initialise | tracker_tools.py:49-56 | The three steps run in order, and the first exception ends them, as the initialisation specification says. |
| TrackerTools.TrackerDataBase.RequestUpdateGgsheet | tracker_tools.py:68-76 | Reads and filters the roster, then probes every page. An unreadable sheet raises and keeps the table. |
| TrackerTools.TrackerDataBase.FilterMmsi | tracker_tools.py:58-66 | The table becomes the filtered roster, and the counters become the roster's counts. |
| TrackerTools.TrackerDataBase.CheckPageMmr | tracker_tools.py:189-220 | Each row gets the probe of its own name as `PAGE_LINK`. |
| TrackerTools.TrackerDataBase.RequestUpdateApi | tracker_tools.py:78-187 | The loop and the assignments leave the table and the outcome of the telemetry specification. |
| TrackerTools.TrackerDataBase.HarvestReply | tracker_tools.py:134-156 | One pass of the loop extends the lists and drops the boat by label, exactly as one step of the specification. |
| TrackerTools.TrackerDataBase.RequestImageLinks | tracker_tools.py:228-244 | Each row gets the picture chosen from its page. |
| Server.TextNotAfterTotal | packages/server.py:157 | Python's string order is total. |
| Server.TextNotAfterTransitive | packages/server.py:157 | Python's string order is transitive. |
| Server.InsertByName | packages/server.py:157 | Inserting into a sorted table keeps it sorted and adds exactly that row. |
| Server.SortByName | packages/server.py:157 | `sort_values(by=['Nom du bateau'])` returns a sorted permutation of the rows, with missing names last. |
| Server.PageOrder | packages/server.py:157-158 | After sorting and `reset_index(drop=True)`, rows are in name order, each row's label is its rank, and row k is the k-th sorted row. |
| Server.RowOfPage | packages/server.py:157-158 | Every row of the page is a row of the table. |
| Server.PageOfRow | packages/server.py:157-158 | Every row of the table is a row of the page. |
| Server.UnsupportedCountries | packages/server.py:468-471 | Warnings go to exactly the `COUNTRY_CODE` values of the table that have no flag. |
| Server.SameCountries | packages/server.py:157-158 | Ordering the rows does not change which codes are warned about. |
| Server.BoxListOutcome | packages/server.py:511-523 | The box loop finishes exactly when every code has a flag. Otherwise it raises `KeyError` on the first code without one. |
| Server.WarningsPredictKeyError | packages/server.py:468-523 | The flag lookups of the information box finish exactly when the check warned about nothing. The code the lookup stops on is one the check warned about. |
| Server.MarkerLoopOutcome | packages/server.py:197-460 | The marker loop finishes exactly when every row has `LAST_POSITION`, `LAT` and `LONG`. Otherwise it raises `ValueError` at the first row missing one, naming the first such cell that row reaches. |
| Server.PageBuiltExactlyWhenPlottableAndFlagged | packages/server.py:197-523 | `Server.HtmlOutcome` (the marker loop, then the information box) is Done, so the markers and the information box are both built, exactly when every boat has a time stamp and a position and the country check warned about nothing. |
| Server.TrackerServer.constructor | packages/server.py:79-83 | A new server holds no table and no date. |
| Server.TrackerServer.LoadData | packages/server.py:85-103 | Records the date, then makes that save the displayed table. A missing file raises and keeps the old table. |
| Server.TrackerServer.LoadLastSave | packages/server.py:105-121 | Loads the latest save and answers true. With no save it answers false and changes nothing. |
| Server.TrackerServer.LoadASave | packages/server.py:123-137 | Loads the save at position `choice` when `choice` is below the number of saves. Otherwise it changes nothing. A choice below `-n` raises. |
| Server.TrackerServer.GenerateHtml | packages/server.py:148-523 | The rows in page order and the outcome of the marker loop followed by the flag lookups. The warned codes are those of the country check when the marker loop finishes, and none otherwise. Without a table it raises. |

## Left out

- Network, scraping, spreadsheet and clock: `requests.get`, the AIS client (`get_location`, `get_data_by_url`, with its `num_retries`/`seconds_wait` retries), BeautifulSoup, `pd.read_csv` of the sheet and `datetime.now()` are parameters of the classes. What they answer is not modelled.
- Throttling, progress bars and printing: `time.sleep(random.uniform(...))`, tqdm, every `print`, and the `print_result` / `print_ggsheet_extraction` / `trace_on_log` displays are left out. They change no state.
- The pandas dtype coercions (`astype`) of `packages/db.py:207` and `packages/db.py:307-318`, and of `tracker_tools.py:74` and `tracker_tools.py:167-185`, are left out. Positions, speed and course are opaque text. As a result, the `int64` cast of a `SHIP_ID` column holding a missing value, which raises, is not modelled.
- FleetDb.DataBase.SaveDB: does not model the `os.path.isdir` test. The folder is assumed to exist, so the table is always written once the oldest save is removed.
- FleetDb.DataBase.LoadASave and Server.TrackerServer.LoadASave: the typed choice is a parameter. The `ValueError` of `int(input())` on text that is not a number is not modelled.
- SaveNames.FormatDate: years below 1000 are written with four digits. What `strftime("%Y")` does for them depends on the platform.
- Server.SortByName: rows with equal names keep their table order. pandas' default sort is not stable, so it promises no order for them, and the model fixes one.
- HTML rendering is not modelled: the markers' and popups' markup, the information box's markup, the flag URLs and the zoom settings beyond their assertion (`packages/server.py:148-747`, `tracker_tools.py:274-828`). Only the ordering, the marker loop's missing cells, the country check and the flag lookup are kept.
- Enrichment.Lower: covers the capitals of ASCII, Latin-1 and Latin Extended-A only. Greek, Cyrillic and other capitals stay as they are, and `İ` (U+0130), which `str.lower` turns into two characters, is left unchanged. The proved length preservation therefore does not hold in Python for names containing `İ`.
- Store.SaveFolder.Read: the model reads every cell back exactly as it was written. `read_csv`'s default missing-value texts (`""`, `"NA"`, `"nan"`, `"null"`, `"None"` and others) are read back as missing, so a boat of Namibia (country code `NA`) loses its code on reload. This is not modelled.
- Server.MarkerLoopOutcome: only missing cells stop the loop. Values present but unusable (a time stamp out of range, a coordinate that is not a number) are opaque cells here.
- TrackerTools.AssignColumns: the rows an empty table grows into carry MMSI 0 as a stand-in for pandas' missing value.
- Git publishing (`config_git`, `publish_site`) and `main.py` are not part of this model. They only run shell commands and wire the classes together.
- TrackerTools.ColumnsQuery: the round trip is proved for any list of comma-free names. The 28 names of `tracker_tools.py:101-129` are a constant of the model, but the literal query text built from them is not spelled out.
- `get_tracked_fleet_df` and `TrackerServer` of `tracker_tools.py` are not modelled: the first is a getter, the second is rendering.
