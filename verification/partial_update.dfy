/** What the boat-by-boat loop of `request_update_API` does to the tracked
    table over a whole run, with the partial update (against a loaded save)
    in view: which boats leave the table, and where the telemetry lands. */
module PartialUpdate {
  import opened Common
  import opened Fleet
  import opened Reconcile

  /** Later steps never bring an MMSI back, and never remove a requested column. */
  lemma {:induction false} ApiLoopShrinks(rows: Table, k: nat, init: ApiState, b: Baseline, complete: bool, locate: Locator)
    requires k <= |rows|
    ensures var early := ApiLoop(rows[..k], init, b, complete, locate);
      var late := ApiLoop(rows, init, b, complete, locate);
      MmsiSet(late.table) <= MmsiSet(early.table)
      && |early.wanted| <= |late.wanted| && late.wanted[..|early.wanted|] == early.wanted
    decreases |rows|
  {
    if k < |rows| {
      var n := |rows| - 1;
      ApiLoopShrinks(rows[..n], k, init, b, complete, locate);
      assert rows[..n][..k] == rows[..k];
      var mid := ApiLoop(rows[..n], init, b, complete, locate);
      var late := ApiLoop(rows, init, b, complete, locate);
      var early := ApiLoop(rows[..k], init, b, complete, locate);
      assert late == VesselStep(mid, rows[n].mmsi, b, complete, locate);
      assert late.wanted[..|early.wanted|] == late.wanted[..|mid.wanted|][..|early.wanted|];
    } else {
      assert rows[..k] == rows;
    }
  }

  /** A boat removed at its own step is absent from the final table. */
  lemma DroppedStaysDropped(t: Table, k: nat, b: Baseline, complete: bool, locate: Locator)
    requires k < |t|
    requires var rows := ResetTelemetry(t);
      t[k].mmsi !in MmsiSet(ApiLoop(rows[..k + 1], InitialState(t, complete), b, complete, locate).table)
    ensures t[k].mmsi !in MmsiSet(RequestUpdateApi(t, b, complete, locate).table)
  {
    var rows := ResetTelemetry(t);
    var init := InitialState(t, complete);
    assert RequestUpdateApi(t, b, complete, locate) == ApiLoop(rows, init, b, complete, locate);
    ApiLoopShrinks(rows, k + 1, init, b, complete, locate);
  }

  /** The step of boat `k`, as the loop reaches it. */
  lemma StepAt(t: Table, k: nat, b: Baseline, complete: bool, locate: Locator)
    requires k < |t|
    ensures var rows := ResetTelemetry(t);
      var init := InitialState(t, complete);
      ApiLoop(rows[..k + 1], init, b, complete, locate)
        == VesselStep(ApiLoop(rows[..k], init, b, complete, locate), t[k].mmsi, b, complete, locate)
  {
    var rows := ResetTelemetry(t);
    assert rows[..k + 1][..k] == rows[..k];
    assert rows[k].mmsi == t[k].mmsi;
  }

  /** In a partial update, a boat the baseline has no row for is dropped:
      the look-up of its saved fixable values raises. */
  lemma PartialDropsBoatMissingFromSave(t: Table, k: nat, b: Baseline, locate: Locator)
    requires k < |t| && SavedRow(b, t[k].mmsi).None?
    ensures t[k].mmsi !in MmsiSet(RequestUpdateApi(t, b, false, locate).table)
  {
    StepAt(t, k, b, false, locate);
    DroppedStaysDropped(t, k, b, false, locate);
  }

  /** In both modes, a boat whose provider call raises or returns an empty
      list is dropped. */
  lemma ProviderFailureDropsBoat(t: Table, k: nat, b: Baseline, complete: bool, locate: Locator)
    requires k < |t|
    requires locate(t[k].mmsi).None? || |locate(t[k].mmsi).value| == 0
    ensures t[k].mmsi !in MmsiSet(RequestUpdateApi(t, b, complete, locate).table)
  {
    StepAt(t, k, b, complete, locate);
    DroppedStaysDropped(t, k, b, complete, locate);
  }

  /** No boat among the first `k` has a saved value for fixable column `c`. */
  predicate NoSavedValueUpTo(t: Table, k: nat, b: Baseline, c: Column)
    requires k <= |t|
  {
    forall j :: 0 <= j < k ==> SavedRow(b, t[j].mmsi).None? || SavedRow(b, t[j].mmsi).value.tel.Get(c).None?
  }

  lemma {:induction false} FixableNotRequestedYet(t: Table, k: nat, b: Baseline, locate: Locator, c: Column)
    requires k <= |t| && c in FixableColumns && NoSavedValueUpTo(t, k, b, c)
    ensures c !in ApiLoop(ResetTelemetry(t)[..k], InitialState(t, false), b, false, locate).wanted
    decreases k
  {
    if k > 0 {
      FixableNotRequestedYet(t, k - 1, b, locate, c);
      StepAt(t, k - 1, b, false, locate);
      var st := ApiLoop(ResetTelemetry(t)[..k - 1], InitialState(t, false), b, false, locate);
      StepKeepsFixableOut(st, t[k - 1].mmsi, b, locate, c);
    }
  }

  lemma StepKeepsFixableOut(st: ApiState, m: int, b: Baseline, locate: Locator, c: Column)
    requires c in FixableColumns && c !in st.wanted
    requires SavedRow(b, m).None? || SavedRow(b, m).value.tel.Get(c).None?
    ensures c !in VesselStep(st, m, b, false, locate).wanted
  {
    var pre := CheckFixable(st, b, m);
    if pre.Some? {
      var w := SavedRow(b, m).value;
      assert c == Flag || c == Imo;
    }
  }

  /** As written, a partial update appends a fixable column to the request
      only for a boat whose SAVED value is present, and drops every boat
      reached while that column is not requested: so every boat before the
      first one with a saved value for the column (and that one too, when
      the value is missing) leaves the table. */
  lemma PartialDropsBoatsBeforeFirstSavedValue(t: Table, k: nat, b: Baseline, locate: Locator, c: Column)
    requires k < |t| && c in FixableColumns && NoSavedValueUpTo(t, k + 1, b, c)
    ensures t[k].mmsi !in MmsiSet(RequestUpdateApi(t, b, false, locate).table)
  {
    FixableNotRequestedYet(t, k, b, locate, c);
    StepAt(t, k, b, false, locate);
    var st := ApiLoop(ResetTelemetry(t)[..k], InitialState(t, false), b, false, locate);
    StepDropsWithoutFixable(st, t[k].mmsi, b, locate, c);
    DroppedStaysDropped(t, k, b, false, locate);
  }

  /** A partial step drops its boat while a fixable column is not
      requested, unless this very boat has a saved value for it. */
  lemma StepDropsWithoutFixable(st: ApiState, m: int, b: Baseline, locate: Locator, c: Column)
    requires c in FixableColumns && c !in st.wanted
    requires SavedRow(b, m).None? || SavedRow(b, m).value.tel.Get(c).None?
    ensures m !in MmsiSet(VesselStep(st, m, b, false, locate).table)
  {
    StepKeepsFixableOut(st, m, b, locate, c);
  }

  /** As written, when the tracked table has more rows than the loaded save,
      its last label is not a position of the save, every masked write
      raises, and a partial update drops every boat. */
  lemma PartialUpdateEmptiesTableWhenRosterOutgrowsSave(t: Table, saved: Table, locate: Locator)
    requires LabelsArePositions(t) && DistinctMmsi(t) && |t| > |saved|
    ensures RequestUpdateApi(t, Loaded(saved), false, locate).table == []
  {
    var rows := ResetTelemetry(t);
    OutgrownLoop(t, saved, locate, |t|);
    assert rows[..|t|] == rows;
  }

  lemma {:induction false} OutgrownLoop(t: Table, saved: Table, locate: Locator, k: nat)
    requires LabelsArePositions(t) && DistinctMmsi(t) && |t| > |saved| && k <= |t|
    ensures ApiLoop(ResetTelemetry(t)[..k], InitialState(t, false), Loaded(saved), false, locate).table
      == ResetTelemetry(t)[k..]
    decreases k
  {
    var rows := ResetTelemetry(t);
    var init := InitialState(t, false);
    var b := Loaded(saved);
    if k == 0 {
      assert rows[..0] == [] && rows[0..] == rows;
    } else {
      var j := k - 1;
      OutgrownLoop(t, saved, locate, j);
      StepAt(t, j, b, false, locate);
      var st := ApiLoop(rows[..j], init, b, false, locate);
      SuffixFacts(t, saved, j);
      assert |st.wanted| >= |init.wanted|;
      OutgrownStep(st, rows[j], rows[k..], saved, locate);
    }
  }

  lemma SuffixFacts(t: Table, saved: Table, j: nat)
    requires LabelsArePositions(t) && DistinctMmsi(t) && |t| > |saved| && j < |t|
    ensures var rows := ResetTelemetry(t);
      rows[j..] == [rows[j]] + rows[j + 1..]
      && Avoids(rows[j + 1..], rows[j].mmsi)
      && rows[j..][|rows[j..]| - 1].tag >= |saved|
  {
    var rows := ResetTelemetry(t);
    var rest := rows[j + 1..];
    forall i | 0 <= i < |rest| ensures rest[i].mmsi != rows[j].mmsi {
      assert rest[i] == rows[j + 1 + i];
    }
    assert rows[j..][|rows[j..]| - 1] == rows[|t| - 1];
  }

  /** One step when some tracked label is not a position of the save: the
      current boat is dropped, whatever the save and the provider say. */
  lemma OutgrownStep(st: ApiState, x: Vessel, rest: Table, saved: Table, locate: Locator)
    requires st.table == [x] + rest && Avoids(rest, x.mmsi) && |st.wanted| > 0
    requires st.table[|st.table| - 1].tag >= |saved|
    ensures VesselStep(st, x.mmsi, Loaded(saved), false, locate).table == rest
  {
    var b := Loaded(saved);
    DropMmsiFirst(x, rest);
    var pre := CheckFixable(st, b, x.mmsi);
    if pre.Some? {
      var s := pre.value;
      var reply := locate(x.mmsi);
      if reply.Some? && |reply.value| > 0 {
        OutgrownWriteFails(s.table, s.wanted, reply.value[0], b, x.mmsi);
      }
    }
  }

  lemma OutgrownWriteFails(t: Table, cols: seq<Column>, rec: Record, b: Baseline, m: int)
    requires b.Loaded? && |cols| > 0 && |t| > 0 && t[|t| - 1].tag >= |b.rows|
    ensures WriteWanted(t, cols, rec, b, m) == (t, false)
  {
    if ResponseKey(cols[0]) in rec {
      assert MaskedWrite(t, b, m, cols[0], rec[ResponseKey(cols[0])]).None?;
    }
  }

  lemma DropMmsiFirst(x: Vessel, rest: Table)
    requires Avoids(rest, x.mmsi)
    ensures DropMmsi([x] + rest, x.mmsi) == rest
  {
    DropMmsiKeepsSuffix([x], rest, x.mmsi);
    DropMmsiLastOnly([], x);
  }

  /** As written, with a save that lists two boats in the opposite order of
      the tracked table, the first boat's telemetry is written into the
      second boat's row: the mask is read by label, the label of the second
      row is the save position of the first boat. Both rows stay, the first
      one with its telemetry missing. */
  lemma SwappedSaveMisplacesTelemetry(a: Vessel, z: Vessel, sa: Vessel, sz: Vessel, rec: Record, locate: Locator)
    requires a.tag == 0 && z.tag == 1 && a.mmsi != z.mmsi
    requires sa.mmsi == a.mmsi && sz.mmsi == z.mmsi
    requires sa.tel.countryCode.Some? && sa.tel.shipId.Some?
    requires locate(a.mmsi) == Some([rec]) && forall c :: ResponseKey(c) in rec
    ensures VesselStep(InitialState([a, z], false), a.mmsi, Loaded([sz, sa]), false, locate).table
      == [a.(tel := NoTelemetry), z.(tel := TelemetryOf(rec))]
  {
    var b := Loaded([sz, sa]);
    var st := InitialState([a, z], false);
    SwappedCheck(a, z, sa, sz);
    SwappedWrite(a, z, sz, sa, rec);
    assert Flag in AllColumns && Imo in AllColumns;
  }

  lemma SwappedCheck(a: Vessel, z: Vessel, sa: Vessel, sz: Vessel)
    requires a.mmsi != z.mmsi && sa.mmsi == a.mmsi && sz.mmsi == z.mmsi
    requires sa.tel.countryCode.Some? && sa.tel.shipId.Some?
    ensures var st := InitialState([a, z], false);
      CheckFixable(st, Loaded([sz, sa]), a.mmsi) == Some(st.(wanted := AllColumns))
  {
    assert [sz, sa][1..] == [sa];
    assert FirstWithMmsi([sa], a.mmsi) == Some(sa);
    assert SavedRow(Loaded([sz, sa]), a.mmsi) == Some(sa);
    assert AlwaysUpdatedColumns + [Flag] + [Imo] == AllColumns;
  }

  lemma SwappedWrite(a: Vessel, z: Vessel, sz: Vessel, sa: Vessel, rec: Record)
    requires a.tag == 0 && z.tag == 1 && sa.mmsi == a.mmsi && sz.mmsi != a.mmsi
    requires forall c :: ResponseKey(c) in rec
    ensures WriteWanted(ResetTelemetry([a, z]), AllColumns, rec, Loaded([sz, sa]), a.mmsi)
      == ([a.(tel := NoTelemetry), z.(tel := TelemetryOf(rec))], true)
  {
    var b := Loaded([sz, sa]);
    var t := ResetTelemetry([a, z]);
    assert t == [a.(tel := NoTelemetry), z.(tel := NoTelemetry)];
    assert Positioned(t, b.rows);
    WriteWantedPositioned(t, AllColumns, rec, b, a.mmsi);
    assert !Selected(b.rows, t[0], a.mmsi) && Selected(b.rows, t[1], a.mmsi);
    forall c ensures ApplyRecord(NoTelemetry, AllColumns, rec).Get(c) == TelemetryOf(rec).Get(c) {
      AllColumnsCover(c);
    }
    TelemetryEquality(ApplyRecord(NoTelemetry, AllColumns, rec), TelemetryOf(rec));
    var w := WriteWanted(t, AllColumns, rec, b, a.mmsi);
    assert w.0 == [a.(tel := NoTelemetry), z.(tel := TelemetryOf(rec))];
  }

  // ---------------------------------------------------------------------
  // Which boats a partial update keeps

  /** The loaded save has a value for fixable column `c` of the boat with MMSI `m`. */
  predicate SavedValuePresent(b: Baseline, m: int, c: Column) {
    SavedRow(b, m).Some? && SavedRow(b, m).value.tel.Get(c).Some?
  }

  /** The state of a partial update once the first `n` boats are done. */
  function PartialAfter(t: Table, b: Baseline, locate: Locator, n: nat): ApiState
    requires n <= |t|
  {
    ApiLoop(ResetTelemetry(t)[..n], InitialState(t, false), b, false, locate)
  }

  /** The converse of the drop lemmas. On a table aligned with a loaded save
      and holding distinct MMSIs, a boat whose provider reply is usable
      survives a partial update with its own record's telemetry, provided
      some boat up to it has a saved flag and some boat up to it a saved
      ship id (so that both fixable columns are requested when it is
      reached). */
  lemma PartialUpdateKeepsServedBoat(t: Table, k: nat, b: Baseline, locate: Locator)
    requires b.Loaded? && Aligned(t, b.rows) && DistinctMmsi(t)
    requires k < |t| && Usable(locate(t[k].mmsi))
    requires exists j :: 0 <= j <= k && SavedValuePresent(b, t[j].mmsi, Flag)
    requires exists j :: 0 <= j <= k && SavedValuePresent(b, t[j].mmsi, Imo)
    ensures t[k].(tel := TelemetryOf(locate(t[k].mmsi).value[0])) in RequestUpdateApi(t, b, false, locate).table
  {
    var rows := ResetTelemetry(t);
    var m := t[k].mmsi;
    var y := t[k].(tel := TelemetryOf(locate(m).value[0]));
    assert rows[k] in PartialAfter(t, b, locate, 0).table by {
      assert rows[..0] == [];
    }
    forall j | 0 <= j < k ensures t[j].mmsi != rows[k].mmsi {
    }
    LoopKeepsUntouched(t, b, locate, 0, k, rows[k]);
    ServedStep(t, k, b, locate);
    forall j | k + 1 <= j < |t| ensures t[j].mmsi != y.mmsi {
    }
    LoopKeepsUntouched(t, b, locate, k + 1, |t|, y);
    assert rows[..|t|] == rows;
  }

  /** Step `k` writes the boat's record into its row and keeps it. */
  lemma ServedStep(t: Table, k: nat, b: Baseline, locate: Locator)
    requires b.Loaded? && Aligned(t, b.rows)
    requires k < |t| && Usable(locate(t[k].mmsi))
    requires ResetTelemetry(t)[k] in PartialAfter(t, b, locate, k).table
    requires exists j :: 0 <= j <= k && SavedValuePresent(b, t[j].mmsi, Flag)
    requires exists j :: 0 <= j <= k && SavedValuePresent(b, t[j].mmsi, Imo)
    ensures t[k].(tel := TelemetryOf(locate(t[k].mmsi).value[0])) in PartialAfter(t, b, locate, k + 1).table
  {
    var m := t[k].mmsi;
    var st := PartialAfter(t, b, locate, k);
    StepAt(t, k, b, false, locate);
    LoopAligned(t, b, locate, k);
    assert m in MmsiSet(b.rows) by {
      assert b.rows[t[k].tag].mmsi == m;
    }
    FixableRequestedAtStep(t, k, b, locate, Flag);
    FixableRequestedAtStep(t, k, b, locate, Imo);
    assert st.wanted[..|AlwaysUpdatedColumns|] == AlwaysUpdatedColumns by {
      assert InitialState(t, false).wanted == AlwaysUpdatedColumns;
    }
    ServedVesselStep(st, ResetTelemetry(t)[k], b, locate);
  }

  /** The step of a boat whose row is in the table, whose reply is usable
      and for which every column is requested: its row takes the record. */
  lemma ServedVesselStep(st: ApiState, x: Vessel, b: Baseline, locate: Locator)
    requires b.Loaded? && Aligned(st.table, b.rows) && x in st.table
    requires Usable(locate(x.mmsi)) && SavedRow(b, x.mmsi).Some?
    requires |st.wanted| >= |AlwaysUpdatedColumns| && st.wanted[..|AlwaysUpdatedColumns|] == AlwaysUpdatedColumns
    requires Flag in CheckFixable(st, b, x.mmsi).value.wanted
    requires Imo in CheckFixable(st, b, x.mmsi).value.wanted
    ensures x.(tel := TelemetryOf(locate(x.mmsi).value[0])) in VesselStep(st, x.mmsi, b, false, locate).table
  {
    var m := x.mmsi;
    var rec := locate(m).value[0];
    var s := CheckFixable(st, b, m).value;
    forall c | c in AllColumns ensures c in s.wanted {
      if c in AlwaysUpdatedColumns {
        var i :| 0 <= i < |AlwaysUpdatedColumns| && AlwaysUpdatedColumns[i] == c;
        assert st.wanted[i] == c;
        assert s.wanted[i] == c;
      }
    }
    var p :| 0 <= p < |s.table| && s.table[p] == x;
    WriteWantedAligned(s.table, s.wanted, rec, b, m);
    var w := WriteWanted(s.table, s.wanted, rec, b, m);
    forall c ensures ApplyRecord(x.tel, s.wanted, rec).Get(c) == TelemetryOf(rec).Get(c) {
      AllColumnsCover(c);
    }
    TelemetryEquality(ApplyRecord(x.tel, s.wanted, rec), TelemetryOf(rec));
    assert w.0[p] == x.(tel := TelemetryOf(rec));
    assert VesselStep(st, m, b, false, locate).table == w.0;
  }

  /** When boat `k` is reached, a fixable column some boat up to it has a
      saved value for is in the request its check leaves. */
  lemma FixableRequestedAtStep(t: Table, k: nat, b: Baseline, locate: Locator, c: Column)
    requires k < |t| && (c == Flag || c == Imo)
    requires SavedRow(b, t[k].mmsi).Some?
    requires exists j :: 0 <= j <= k && SavedValuePresent(b, t[j].mmsi, c)
    ensures c in CheckFixable(PartialAfter(t, b, locate, k), b, t[k].mmsi).value.wanted
  {
    var j :| 0 <= j <= k && SavedValuePresent(b, t[j].mmsi, c);
    if j < k {
      FixableRequested(t, b, locate, k, c);
    }
  }

  /** Once some boat among the first `n` has a saved value for a fixable
      column, the column stays requested. */
  lemma {:induction false} FixableRequested(t: Table, b: Baseline, locate: Locator, n: nat, c: Column)
    requires n <= |t| && (c == Flag || c == Imo)
    requires exists j :: 0 <= j < n && SavedValuePresent(b, t[j].mmsi, c)
    ensures c in PartialAfter(t, b, locate, n).wanted
    decreases n
  {
    PartialStepAt(t, b, locate, n);
    var st := PartialAfter(t, b, locate, n - 1);
    if SavedValuePresent(b, t[n - 1].mmsi, c) {
      StepRequestsSaved(st, t[n - 1].mmsi, b, locate, c);
    } else {
      assert exists j :: 0 <= j < n - 1 && SavedValuePresent(b, t[j].mmsi, c);
      FixableRequested(t, b, locate, n - 1, c);
      StepKeepsRequest(st, t[n - 1].mmsi, b, locate, c);
    }
  }

  lemma PartialStepAt(t: Table, b: Baseline, locate: Locator, n: nat)
    requires 0 < n <= |t|
    ensures PartialAfter(t, b, locate, n) == VesselStep(PartialAfter(t, b, locate, n - 1), t[n - 1].mmsi, b, false, locate)
  {
    StepAt(t, n - 1, b, false, locate);
  }

  lemma StepRequestsSaved(st: ApiState, m: int, b: Baseline, locate: Locator, c: Column)
    requires (c == Flag || c == Imo) && SavedValuePresent(b, m, c)
    ensures c in VesselStep(st, m, b, false, locate).wanted
  {
    assert VesselStep(st, m, b, false, locate).wanted == CheckFixable(st, b, m).value.wanted;
  }

  lemma StepKeepsRequest(st: ApiState, m: int, b: Baseline, locate: Locator, c: Column)
    requires c in st.wanted
    ensures c in VesselStep(st, m, b, false, locate).wanted
  {
    var r := VesselStep(st, m, b, false, locate);
    var i :| 0 <= i < |st.wanted| && st.wanted[i] == c;
    assert r.wanted[..|st.wanted|][i] == c;
  }

  /** Every row of a partial update stays at a baseline position holding its MMSI. */
  lemma {:induction false} LoopAligned(t: Table, b: Baseline, locate: Locator, n: nat)
    requires b.Loaded? && Aligned(t, b.rows) && n <= |t|
    ensures Aligned(PartialAfter(t, b, locate, n).table, b.rows)
    decreases n
  {
    if n == 0 {
      assert ResetTelemetry(t)[..0] == [];
    } else {
      LoopAligned(t, b, locate, n - 1);
      PartialStepAt(t, b, locate, n);
      StepKeepsOthers(PartialAfter(t, b, locate, n - 1), t[n - 1].mmsi, b, locate);
    }
  }

  /** From step `n0` to step `n`, a row whose MMSI none of those steps
      handles stays in the table. */
  lemma {:induction false} LoopKeepsUntouched(t: Table, b: Baseline, locate: Locator, n0: nat, n: nat, y: Vessel)
    requires b.Loaded? && Aligned(t, b.rows) && n0 <= n <= |t|
    requires y in PartialAfter(t, b, locate, n0).table
    requires forall j :: n0 <= j < n ==> t[j].mmsi != y.mmsi
    ensures y in PartialAfter(t, b, locate, n).table
    decreases n
  {
    if n > n0 {
      LoopKeepsUntouched(t, b, locate, n0, n - 1, y);
      LoopAligned(t, b, locate, n - 1);
      PartialStepAt(t, b, locate, n);
      StepKeepsOthers(PartialAfter(t, b, locate, n - 1), t[n - 1].mmsi, b, locate);
    }
  }

  /** One partial step for MMSI `m` keeps the table aligned and keeps every
      row with another MMSI. */
  lemma StepKeepsOthers(st: ApiState, m: int, b: Baseline, locate: Locator)
    requires b.Loaded? && Aligned(st.table, b.rows)
    ensures var r := VesselStep(st, m, b, false, locate);
      Aligned(r.table, b.rows) && forall y :: y in st.table && y.mmsi != m ==> y in r.table
  {
    var pre := CheckFixable(st, b, m);
    DropMmsiMembers(st.table, m);
    DropAligned(st.table, m, b.rows);
    if pre.Some? {
      var s := pre.value;
      var reply := locate(m);
      if reply.Some? && |reply.value| > 0 {
        var rec := reply.value[0];
        WriteWantedAligned(s.table, s.wanted, rec, b, m);
        var w := WriteWanted(s.table, s.wanted, rec, b, m).0;
        DropMmsiMembers(w, m);
        DropAligned(w, m, b.rows);
        forall y | y in st.table && y.mmsi != m ensures y in w {
          var i :| 0 <= i < |st.table| && st.table[i] == y;
          assert w[i] == y;
        }
      }
    }
  }

  lemma DropAligned(t: Table, m: int, base: Table)
    requires Aligned(t, base)
    ensures Aligned(DropMmsi(t, m), base)
  {
    DropMmsiMembers(t, m);
    var d := DropMmsi(t, m);
    forall i | 0 <= i < |d| ensures d[i].tag < |base| && base[d[i].tag].mmsi == d[i].mmsi {
      assert d[i] in t;
    }
  }
}
