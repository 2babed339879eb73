/** `request_update_API` of packages/db.py: the AIS provider is asked, boat
    by boat, for the requested telemetry columns, and the answers are written
    into the tracked table; a boat whose step raises is dropped from it.

    Two pandas behaviours decide the outcome and are modelled as written:
    the row mask is built on `_last_update_db` and pandas aligns it on the
    tracked table's index labels, so a write reaches the tracked row whose
    LABEL is the baseline POSITION of the MMSI (and raises when some tracked
    label is not a baseline position); and the copy of unrequested fixable
    columns goes through `.iloc` with a column name, which always raises. */
module Reconcile {
  import opened Common
  import opened Fleet

  /** One record of the provider's reply. */
  type Record = map<string, Cell>

  /** `AIS.get_location(mmsi)`: the list of records, or `None` when the call
      raises or returns something that cannot be indexed. */
  type Locator = int -> Option<seq<Record>>

  /** The state the loop threads from boat to boat: the tracked table, the
      `wanted_columns` list (in a partial update it is the very list
      `always_updated_columns`, so what one boat appends stays for the
      next), and the `skipped` counters of the two fixable columns. */
  datatype ApiState = ApiState(table: Table, wanted: seq<Column>, skippedFlag: nat, skippedImo: nat)

  /** Every telemetry cell set to missing, before the loop. */
  function ResetTelemetry(t: Table): (r: Table)
    ensures |r| == |t|
    ensures forall i :: 0 <= i < |t| ==> r[i] == t[i].(tel := NoTelemetry)
  {
    seq(|t|, i requires 0 <= i < |t| => t[i].(tel := NoTelemetry))
  }

  function InitialState(t: Table, complete: bool): (s: ApiState)
    ensures s.table == ResetTelemetry(t) && s.skippedFlag == 0 && s.skippedImo == 0
    ensures s.wanted == if complete then AllColumns else AlwaysUpdatedColumns
  {
    ApiState(ResetTelemetry(t), if complete then AllColumns else AlwaysUpdatedColumns, 0, 0)
  }

  /** The mask `_last_update_db['MMSI'] == m`, read at the index label of a tracked row. */
  predicate Selected(rows: Table, x: Vessel, m: int) {
    x.tag < |rows| && rows[x.tag].mmsi == m
  }

  /** `.loc[_last_update_db['MMSI'] == m, column] = v` on the tracked table:
      raises (`None`) when the baseline was never assigned or when a tracked
      label is not a baseline position; otherwise writes the cell of every
      row the aligned mask selects. */
  function MaskedWrite(t: Table, b: Baseline, m: int, c: Column, v: Cell): (r: Option<Table>)
    ensures r.None? <==> b.Unset? || exists i :: 0 <= i < |t| && t[i].tag >= |b.rows|
    ensures r.Some? ==> |r.value| == |t|
    ensures r.Some? ==> forall i :: 0 <= i < |t| ==>
      r.value[i] == t[i].(tel := r.value[i].tel)
      && (Selected(b.rows, t[i], m) ==> r.value[i].tel.Get(c) == v)
      && (!Selected(b.rows, t[i], m) ==> r.value[i] == t[i])
      && (forall d :: d != c ==> r.value[i].tel.Get(d) == t[i].tel.Get(d))
  {
    if b.Unset? || exists i :: 0 <= i < |t| && t[i].tag >= |b.rows| then None
    else
      Some(seq(|t|, i requires 0 <= i < |t| =>
        if Selected(b.rows, t[i], m) then t[i].(tel := t[i].tel.Set(c, v)) else t[i]))
  }

  /** The loop over `wanted_columns`: each value is read from the first
      record and written; a missing key (`KeyError`) or a failed write stops
      the loop with `false`, the writes already done staying in place. */
  function WriteWanted(t: Table, cols: seq<Column>, rec: Record, b: Baseline, m: int): (r: (Table, bool))
    ensures |r.0| == |t|
    ensures forall i :: 0 <= i < |t| ==> r.0[i] == t[i].(tel := r.0[i].tel)
    ensures r.1 ==> forall c :: c in cols ==> ResponseKey(c) in rec
    decreases |cols|
  {
    if |cols| == 0 then (t, true)
    else if ResponseKey(cols[0]) !in rec then (t, false)
    else
      match MaskedWrite(t, b, m, cols[0], rec[ResponseKey(cols[0])])
      case None => (t, false)
      case Some(t1) => WriteWanted(t1, cols[1..], rec, b, m)
  }

  /** The value the baseline holds for a fixable column of a boat
      (`.loc[MMSI == m][column].values[0]`): `None` when that raises, i.e.
      when the baseline was never assigned, is the roster copy (which has no
      telemetry columns), or has no row for the MMSI. */
  function SavedRow(b: Baseline, m: int): (r: Option<Vessel>)
    ensures r.Some? <==> b.Loaded? && m in MmsiSet(b.rows)
    ensures r.Some? ==> r.value.mmsi == m
  {
    if b.Loaded? then FirstWithMmsi(b.rows, m) else None
  }

  /** The partial update's check of the fixable columns for a boat: each
      column whose saved value is present is appended to `wanted_columns`;
      each column whose saved value is missing bumps its `skipped` counter.
      `None` when the lookup raises. */
  function CheckFixable(st: ApiState, b: Baseline, m: int): (r: Option<ApiState>)
    ensures r.None? <==> SavedRow(b, m).None?
    ensures r.Some? ==> r.value.table == st.table
    ensures r.Some? ==> var w := SavedRow(b, m).value;
      r.value.wanted == st.wanted
        + (if w.tel.countryCode.Some? then [Flag] else [])
        + (if w.tel.shipId.Some? then [Imo] else [])
    ensures r.Some? ==> var w := SavedRow(b, m).value;
      r.value.skippedFlag == st.skippedFlag + (if w.tel.countryCode.None? then 1 else 0)
      && r.value.skippedImo == st.skippedImo + (if w.tel.shipId.None? then 1 else 0)
  {
    match SavedRow(b, m)
    case None => None
    case Some(w) =>
      var s1 := if w.tel.countryCode.Some? then st.(wanted := st.wanted + [Flag])
                else st.(skippedFlag := st.skippedFlag + 1);
      Some(if w.tel.shipId.Some? then s1.(wanted := s1.wanted + [Imo])
           else s1.(skippedImo := s1.skippedImo + 1))
  }

  /** The body of the loop for the boat with MMSI `m`. */
  function VesselStep(st: ApiState, m: int, b: Baseline, complete: bool, locate: Locator): (r: ApiState)
    ensures MmsiSet(r.table) <= MmsiSet(st.table)
    ensures |r.wanted| >= |st.wanted| && r.wanted[..|st.wanted|] == st.wanted
  {
    var pre := if complete then Some(st) else CheckFixable(st, b, m);
    if pre.None? then st.(table := DropMmsi(st.table, m))
    else
      var s := pre.value;
      var reply := locate(m);
      if reply.None? || |reply.value| == 0 then
        s.(table := DropMmsi(s.table, m))
      else
        var w := WriteWanted(s.table, s.wanted, reply.value[0], b, m);
        SameMmsiSet(s.table, w.0);
        if w.1 && Flag in s.wanted && Imo in s.wanted then s.(table := w.0)
        else s.(table := DropMmsi(w.0, m))
  }

  lemma SameMmsiSet(a: Table, b: Table)
    requires |a| == |b| && forall i :: 0 <= i < |a| ==> b[i] == a[i].(tel := b[i].tel)
    ensures MmsiSet(a) == MmsiSet(b)
  {
    forall x | x in MmsiSet(a) ensures x in MmsiSet(b) {
      var i :| 0 <= i < |a| && a[i].mmsi == x;
      assert b[i].mmsi == x;
    }
  }

  /** The loop over the rows of `rows` (the snapshot `iterrows` walks). */
  function ApiLoop(rows: Table, init: ApiState, b: Baseline, complete: bool, locate: Locator): (r: ApiState)
    ensures MmsiSet(r.table) <= MmsiSet(init.table)
    ensures |r.wanted| >= |init.wanted| && r.wanted[..|init.wanted|] == init.wanted
    decreases |rows|
  {
    if |rows| == 0 then init
    else
      var prev := ApiLoop(rows[..|rows| - 1], init, b, complete, locate);
      var r := VesselStep(prev, rows[|rows| - 1].mmsi, b, complete, locate);
      assert r.wanted[..|init.wanted|] == prev.wanted[..|prev.wanted|][..|init.wanted|];
      r
  }

  /** `request_update_API(complete_update)` on the tracked table `t`. */
  function RequestUpdateApi(t: Table, b: Baseline, complete: bool, locate: Locator): (r: ApiState)
    ensures MmsiSet(r.table) <= MmsiSet(t)
    ensures complete ==> r.wanted == AllColumns && r.skippedFlag == 0 && r.skippedImo == 0
  {
    var init := InitialState(t, complete);
    SameMmsiSet(t, init.table);
    CompleteKeepsWanted(init.table, init, b, complete, locate);
    ApiLoop(init.table, init, b, complete, locate)
  }

  lemma {:induction false} CompleteKeepsWanted(rows: Table, init: ApiState, b: Baseline, complete: bool, locate: Locator)
    ensures var r := ApiLoop(rows, init, b, complete, locate);
      complete ==> r.wanted == init.wanted && r.skippedFlag == init.skippedFlag && r.skippedImo == init.skippedImo
    decreases |rows|
  {
    if |rows| > 0 {
      CompleteKeepsWanted(rows[..|rows| - 1], init, b, complete, locate);
    }
  }

  // ---------------------------------------------------------------------
  // Reference definition of a complete update, and the theorem tying the
  // loop to it.

  /** The reply is a non-empty list whose first record has every key. */
  predicate Usable(reply: Option<seq<Record>>) {
    reply.Some? && |reply.value| > 0 && forall c :: ResponseKey(c) in reply.value[0]
  }

  /** The telemetry of a record that has every key. */
  function TelemetryOf(rec: Record): (tel: Telemetry)
    requires forall c :: ResponseKey(c) in rec
    ensures forall c :: tel.Get(c) == rec[ResponseKey(c)]
  {
    Telemetry(
      rec[ResponseKey(Flag)], rec[ResponseKey(Imo)], rec[ResponseKey(TimeOfLatestPosition)],
      rec[ResponseKey(LatOfLatestPosition)], rec[ResponseKey(LonOfLatestPosition)],
      rec[ResponseKey(Speed)], rec[ResponseKey(Course)])
  }

  /** Independent statement of what a complete update should produce: the
      boats whose provider reply is usable, in order, each carrying the
      telemetry of its own reply. */
  function Refreshed(rows: Table, locate: Locator): (r: Table)
    ensures |r| <= |rows|
    decreases |rows|
  {
    if |rows| == 0 then []
    else
      var x := rows[|rows| - 1];
      Refreshed(rows[..|rows| - 1], locate)
        + (if Usable(locate(x.mmsi)) then [x.(tel := TelemetryOf(locate(x.mmsi).value[0]))] else [])
  }

  /** Every tracked row sits at a baseline position that holds its own MMSI. */
  predicate Aligned(t: Table, rows: Table) {
    forall i :: 0 <= i < |t| ==> t[i].tag < |rows| && rows[t[i].tag].mmsi == t[i].mmsi
  }

  /** The telemetry after writing `cols` in order from a record that has their keys. */
  function ApplyRecord(tel: Telemetry, cols: seq<Column>, rec: Record): (r: Telemetry)
    requires forall c :: c in cols ==> ResponseKey(c) in rec
    ensures forall c :: c in cols ==> r.Get(c) == rec[ResponseKey(c)]
    ensures forall c :: c !in cols ==> r.Get(c) == tel.Get(c)
    decreases |cols|
  {
    if |cols| == 0 then tel
    else
      var r := ApplyRecord(tel.Set(cols[0], rec[ResponseKey(cols[0])]), cols[1..], rec);
      assert forall c :: c in cols ==> c == cols[0] || c in cols[1..];
      r
  }

  /** Every tracked label is a position of the baseline, so the aligned
      mask raises nowhere. */
  predicate Positioned(t: Table, rows: Table) {
    forall i :: 0 <= i < |t| ==> t[i].tag < |rows|
  }

  /** As written: the writes for MMSI `m` reach the rows whose LABEL is a
      baseline position holding `m`, whatever their own MMSI, and no other
      row; the loop runs to its end exactly when the record has every
      requested key. */
  lemma {:induction false} WriteWantedPositioned(t: Table, cols: seq<Column>, rec: Record, b: Baseline, m: int)
    requires !b.Unset? && Positioned(t, b.rows)
    ensures var r := WriteWanted(t, cols, rec, b, m);
      (r.1 <==> forall c :: c in cols ==> ResponseKey(c) in rec)
      && (forall i :: 0 <= i < |t| && !Selected(b.rows, t[i], m) ==> r.0[i] == t[i])
    ensures (forall c :: c in cols ==> ResponseKey(c) in rec) ==>
      forall i :: 0 <= i < |t| && Selected(b.rows, t[i], m) ==>
        WriteWanted(t, cols, rec, b, m).0[i] == t[i].(tel := ApplyRecord(t[i].tel, cols, rec))
    decreases |cols|
  {
    if |cols| > 0 && ResponseKey(cols[0]) in rec {
      var v := rec[ResponseKey(cols[0])];
      var t1 := MaskedWrite(t, b, m, cols[0], v).value;
      forall i | 0 <= i < |t| && Selected(b.rows, t[i], m)
        ensures t1[i] == t[i].(tel := t[i].tel.Set(cols[0], v))
      {
        TelemetryEquality(t1[i].tel, t[i].tel.Set(cols[0], v));
      }
      assert forall i :: 0 <= i < |t| ==> Selected(b.rows, t1[i], m) == Selected(b.rows, t[i], m);
      WriteWantedPositioned(t1, cols[1..], rec, b, m);
      assert forall c :: c in cols ==> c == cols[0] || c in cols[1..];
    }
  }

  /** On an aligned table, the writes for MMSI `m` reach exactly the rows
      with that MMSI; they succeed when the record has every key. */
  lemma WriteWantedAligned(t: Table, cols: seq<Column>, rec: Record, b: Baseline, m: int)
    requires !b.Unset? && Aligned(t, b.rows)
    ensures var r := WriteWanted(t, cols, rec, b, m);
      Aligned(r.0, b.rows)
      && (forall i :: 0 <= i < |t| && t[i].mmsi != m ==> r.0[i] == t[i])
      && (r.1 <==> forall c :: c in cols ==> ResponseKey(c) in rec)
    ensures (forall c :: c in cols ==> ResponseKey(c) in rec) ==>
      forall i :: 0 <= i < |t| && t[i].mmsi == m ==>
        WriteWanted(t, cols, rec, b, m).0[i] == t[i].(tel := ApplyRecord(t[i].tel, cols, rec))
  {
    assert forall i :: 0 <= i < |t| ==> Selected(b.rows, t[i], m) == (t[i].mmsi == m);
    WriteWantedPositioned(t, cols, rec, b, m);
  }

  /** Rows that differ only on MMSI `m` vanish alike when `m` is dropped. */
  lemma {:induction false} DropMmsiIgnoresDroppedRows(a: Table, c: Table, m: int)
    requires |a| == |c|
    requires forall i :: 0 <= i < |a| ==> a[i].mmsi == c[i].mmsi
    requires forall i :: 0 <= i < |a| && a[i].mmsi != m ==> a[i] == c[i]
    ensures DropMmsi(a, m) == DropMmsi(c, m)
    decreases |a|
  {
    if |a| > 0 {
      DropMmsiIgnoresDroppedRows(a[1..], c[1..], m);
    }
  }

  lemma RefreshedFacts(rows: Table, locate: Locator, base: Table)
    requires Aligned(rows, base)
    ensures Aligned(Refreshed(rows, locate), base)
    ensures MmsiSet(Refreshed(rows, locate)) <= MmsiSet(rows)
    decreases |rows|
  {
    if |rows| > 0 {
      var n := |rows| - 1;
      RefreshedFacts(rows[..n], locate, base);
      var p := Refreshed(rows[..n], locate);
      var r := Refreshed(rows, locate);
      forall x | x in MmsiSet(r) ensures x in MmsiSet(rows) {
        var i :| 0 <= i < |r| && r[i].mmsi == x;
        if i < |p| {
          assert r[i] == p[i];
          assert x in MmsiSet(rows[..n]);
          var j :| 0 <= j < n && rows[..n][j].mmsi == x;
          assert rows[j].mmsi == x;
        } else {
          assert r[i].mmsi == rows[n].mmsi;
        }
      }
    }
  }

  /** Dropping the current row's MMSI leaves the done prefix and the suffix. */
  lemma DropCurrent(s: Table, x: Vessel, rest: Table)
    requires Avoids(s, x.mmsi)
    requires Avoids(rest, x.mmsi)
    ensures DropMmsi(s + [x] + rest, x.mmsi) == s + rest
  {
    DropMmsiKeepsSuffix(s + [x], rest, x.mmsi);
    DropMmsiLastOnly(s, x);
  }

  /** With every key present, the complete write loop replaces the
      telemetry of the only row holding the MMSI by its record's. */
  lemma WriteSoleRow(t: Table, p: int, rec: Record, b: Baseline)
    requires !b.Unset? && Aligned(t, b.rows) && 0 <= p < |t|
    requires forall i :: 0 <= i < |t| && i != p ==> t[i].mmsi != t[p].mmsi
    requires forall c :: ResponseKey(c) in rec
    ensures WriteWanted(t, AllColumns, rec, b, t[p].mmsi) == (t[p := t[p].(tel := TelemetryOf(rec))], true)
  {
    var m := t[p].mmsi;
    WriteWantedAligned(t, AllColumns, rec, b, m);
    var w := WriteWanted(t, AllColumns, rec, b, m).0;
    forall c ensures ApplyRecord(t[p].tel, AllColumns, rec).Get(c) == TelemetryOf(rec).Get(c) {
      AllColumnsCover(c);
    }
    TelemetryEquality(ApplyRecord(t[p].tel, AllColumns, rec), TelemetryOf(rec));
    assert w[p] == t[p].(tel := TelemetryOf(rec));
    assert w == t[p := t[p].(tel := TelemetryOf(rec))];
  }

  lemma WriteCurrent(s: Table, x: Vessel, rest: Table, rec: Record, b: Baseline)
    requires !b.Unset?
    requires Aligned(s + [x] + rest, b.rows)
    requires Avoids(s, x.mmsi)
    requires Avoids(rest, x.mmsi)
    requires forall c :: ResponseKey(c) in rec
    ensures WriteWanted(s + [x] + rest, AllColumns, rec, b, x.mmsi) == (s + [x.(tel := TelemetryOf(rec))] + rest, true)
  {
    var t := s + [x] + rest;
    MiddleIsSole(s, x, rest);
    WriteSoleRow(t, |s|, rec, b);
    UpdateMiddle(s, x, x.(tel := TelemetryOf(rec)), rest);
  }

  lemma UpdateMiddle<T>(s: seq<T>, x: T, y: T, rest: seq<T>)
    ensures (s + [x] + rest)[|s| := y] == s + [y] + rest
  {
  }

  lemma MiddleIsSole(s: Table, x: Vessel, rest: Table)
    requires Avoids(s, x.mmsi)
    requires Avoids(rest, x.mmsi)
    ensures var t := s + [x] + rest;
      t[|s|] == x && forall i :: 0 <= i < |t| && i != |s| ==> t[i].mmsi != x.mmsi
  {
    var t := s + [x] + rest;
    forall i | 0 <= i < |t| && i != |s| ensures t[i].mmsi != x.mmsi {
      if i < |s| { assert t[i] == s[i]; } else { assert t[i] == rest[i - |s| - 1]; }
    }
  }

  /** When a key is missing, the partial writes land on the current row only,
      and dropping it leaves the done prefix and the suffix. */
  lemma WriteCurrentFails(s: Table, x: Vessel, rest: Table, rec: Record, b: Baseline)
    requires !b.Unset?
    requires Aligned(s + [x] + rest, b.rows)
    requires Avoids(s, x.mmsi)
    requires Avoids(rest, x.mmsi)
    requires exists c :: ResponseKey(c) !in rec
    ensures !WriteWanted(s + [x] + rest, AllColumns, rec, b, x.mmsi).1
    ensures DropMmsi(WriteWanted(s + [x] + rest, AllColumns, rec, b, x.mmsi).0, x.mmsi) == s + rest
  {
    var m := x.mmsi;
    var t := s + [x] + rest;
    WriteWantedAligned(t, AllColumns, rec, b, m);
    var w := WriteWanted(t, AllColumns, rec, b, m);
    var c :| ResponseKey(c) !in rec;
    AllColumnsCover(c);
    DropMmsiIgnoresDroppedRows(w.0, t, m);
    DropCurrent(s, x, rest);
  }

  /** One step of a complete update on an aligned table with distinct
      MMSIs, written as done prefix, current row and untouched suffix. */
  lemma CompleteStep(s: Table, x: Vessel, rest: Table, b: Baseline, locate: Locator)
    requires !b.Unset?
    requires Aligned(s + [x] + rest, b.rows)
    requires Avoids(s, x.mmsi)
    requires Avoids(rest, x.mmsi)
    ensures var st := ApiState(s + [x] + rest, AllColumns, 0, 0);
      VesselStep(st, x.mmsi, b, true, locate)
        == st.(table := s + (if Usable(locate(x.mmsi)) then [x.(tel := TelemetryOf(locate(x.mmsi).value[0]))] else []) + rest)
  {
    var reply := locate(x.mmsi);
    DropCurrent(s, x, rest);
    if reply.Some? && |reply.value| > 0 {
      var rec := reply.value[0];
      if Usable(reply) {
        WriteCurrent(s, x, rest, rec, b);
        assert Flag in AllColumns && Imo in AllColumns;
      } else {
        WriteCurrentFails(s, x, rest, rec, b);
      }
    }
  }

  /** A complete update, started from a table aligned with the baseline and
      holding distinct MMSIs (the situation `updatetDB(True)` creates),
      produces exactly the reference table: the boats with a usable reply,
      in order, each with its own reply's telemetry. */
  lemma CompleteUpdateRefreshesEachVessel(t: Table, b: Baseline, locate: Locator)
    requires !b.Unset? && Aligned(t, b.rows) && DistinctMmsi(t)
    ensures RequestUpdateApi(t, b, true, locate).table == Refreshed(ResetTelemetry(t), locate)
  {
    var rows := ResetTelemetry(t);
    var init := InitialState(t, true);
    CompleteKeepsWanted(rows, init, b, true, locate);
    CompleteLoopInvariant(rows, init, b, locate, |rows|);
    assert rows[..|rows|] == rows;
  }

  lemma {:induction false} CompleteLoopInvariant(rows: Table, init: ApiState, b: Baseline, locate: Locator, k: nat)
    requires !b.Unset? && Aligned(rows, b.rows) && DistinctMmsi(rows)
    requires init == ApiState(rows, AllColumns, 0, 0)
    requires k <= |rows|
    ensures ApiLoop(rows[..k], init, b, true, locate) == ApiState(Refreshed(rows[..k], locate) + rows[k..], AllColumns, 0, 0)
    decreases k
  {
    if k == 0 {
      assert rows[..0] == [] && rows[0..] == rows;
    } else {
      var j := k - 1;
      CompleteLoopInvariant(rows, init, b, locate, j);
      ApiLoopSnoc(rows, j, init, b, true, locate);
      var s := Refreshed(rows[..j], locate);
      var x := rows[j];
      var rest := rows[k..];
      CompletePrefixFacts(rows, j, locate, b.rows);
      var st := ApiState(s + [x] + rest, AllColumns, 0, 0);
      assert ApiLoop(rows[..j], init, b, true, locate) == st by {
        assert s + rows[j..] == s + [x] + rest;
      }
      CompleteStep(s, x, rest, b, locate);
      RefreshedSnoc(rows, j, locate);
      var y := if Usable(locate(x.mmsi)) then [x.(tel := TelemetryOf(locate(x.mmsi).value[0]))] else [];
      assert s + y + rest == Refreshed(rows[..k], locate) + rows[k..];
    }
  }

  lemma ApiLoopSnoc(rows: Table, j: nat, init: ApiState, b: Baseline, complete: bool, locate: Locator)
    requires j < |rows|
    ensures ApiLoop(rows[..j + 1], init, b, complete, locate)
      == VesselStep(ApiLoop(rows[..j], init, b, complete, locate), rows[j].mmsi, b, complete, locate)
  {
    assert rows[..j + 1][..j] == rows[..j];
  }

  lemma RefreshedSnoc(rows: Table, j: nat, locate: Locator)
    requires j < |rows|
    ensures var x := rows[j];
      Refreshed(rows[..j + 1], locate) == Refreshed(rows[..j], locate)
        + (if Usable(locate(x.mmsi)) then [x.(tel := TelemetryOf(locate(x.mmsi).value[0]))] else [])
  {
    assert rows[..j + 1][..j] == rows[..j];
  }

  /** The table before step `j` of a complete update is the done prefix, the
      current row and the suffix, aligned and with the current MMSI alone. */
  lemma CompletePrefixFacts(rows: Table, j: nat, locate: Locator, base: Table)
    requires Aligned(rows, base) && DistinctMmsi(rows) && j < |rows|
    ensures var s := Refreshed(rows[..j], locate);
      rows[j..] == [rows[j]] + rows[j + 1..]
      && Aligned(s + [rows[j]] + rows[j + 1..], base)
      && Avoids(s, rows[j].mmsi) && Avoids(rows[j + 1..], rows[j].mmsi)
  {
    var s := Refreshed(rows[..j], locate);
    var x := rows[j];
    var rest := rows[j + 1..];
    assert Aligned(rows[..j], base);
    RefreshedFacts(rows[..j], locate, base);
    var t := s + [x] + rest;
    forall i | 0 <= i < |t| ensures t[i].tag < |base| && base[t[i].tag].mmsi == t[i].mmsi {
      if i < |s| { assert t[i] == s[i]; }
      else if i > |s| { assert t[i] == rows[j + 1 + (i - |s| - 1)]; }
    }
    forall i | 0 <= i < |s| ensures s[i].mmsi != x.mmsi {
      assert s[i].mmsi in MmsiSet(rows[..j]);
      var l :| 0 <= l < j && rows[..j][l].mmsi == s[i].mmsi;
      assert rows[l].mmsi == s[i].mmsi;
    }
    forall i | 0 <= i < |rest| ensures rest[i].mmsi != x.mmsi {
      assert rest[i] == rows[j + 1 + i];
    }
  }
}
