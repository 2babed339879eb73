/** The tables of the fleet database: roster rows as read from the club's
    sheet, and rows of the tracked-fleet table (`_tracked_fleet_df`), which
    carry the roster identity, the telemetry columns and the enrichment
    columns. A row keeps its pandas index label (`tag`), because some of the
    source's writes select rows by label. */
module Fleet {
  import opened Common

  /** One row of the roster sheet (`__df`) after `MMSI` and the skipper
      number are cast to `Int64`; `None` is a missing cell. */
  datatype RosterRow = RosterRow(name: Option<string>, mmsi: Option<int>, owner: Option<int>)

  /** The telemetry columns of packages/db.py, by the names used to request
      them from the AIS provider. */
  datatype Column =
    | Flag | Imo
    | TimeOfLatestPosition | LatOfLatestPosition | LonOfLatestPosition | Speed | Course

  /** Re-fetched on every run. */
  const AlwaysUpdatedColumns: seq<Column> :=
    [TimeOfLatestPosition, LatOfLatestPosition, LonOfLatestPosition, Speed, Course]

  /** Fetched once and then only under the rule of the partial update. */
  const FixableColumns: seq<Column> := [Flag, Imo]

  /** `always_updated_columns + fixable_columns`, the request of a complete update. */
  const AllColumns: seq<Column> := AlwaysUpdatedColumns + FixableColumns

  lemma AllColumnsCover(c: Column)
    ensures c in AllColumns
  {
  }

  /** `Conversion`: the table column filled from a request column. */
  function TableColumn(c: Column): string {
    match c
    case Flag => "COUNTRY_CODE"
    case Imo => "SHIP_ID"
    case TimeOfLatestPosition => "LAST_POSITION"
    case LatOfLatestPosition => "LAT"
    case LonOfLatestPosition => "LONG"
    case Speed => "SPEED"
    case Course => "CAP"
  }

  /** `response_conversion`: the key of the provider's record that holds a
      request column. */
  function ResponseKey(c: Column): string {
    match c
    case Flag => "CODE2"
    case Imo => "SHIP_ID"
    case TimeOfLatestPosition => "LAST_POS"
    case LatOfLatestPosition => "LAT"
    case LonOfLatestPosition => "LON"
    case Speed => "SPEED"
    case Course => "COURSE"
  }

  /** The seven telemetry cells of a row. */
  datatype Telemetry = Telemetry(
    countryCode: Cell, shipId: Cell, lastPosition: Cell,
    lat: Cell, long: Cell, speed: Cell, cap: Cell)
  {
    function Get(c: Column): Cell {
      match c
      case Flag => countryCode
      case Imo => shipId
      case TimeOfLatestPosition => lastPosition
      case LatOfLatestPosition => lat
      case LonOfLatestPosition => long
      case Speed => speed
      case Course => cap
    }

    /** Writing one cell leaves the six others as they were. */
    function Set(c: Column, v: Cell): (t: Telemetry)
      ensures t.Get(c) == v
      ensures forall d :: d != c ==> t.Get(d) == Get(d)
    {
      match c
      case Flag => this.(countryCode := v)
      case Imo => this.(shipId := v)
      case TimeOfLatestPosition => this.(lastPosition := v)
      case LatOfLatestPosition => this.(lat := v)
      case LonOfLatestPosition => this.(long := v)
      case Speed => this.(speed := v)
      case Course => this.(cap := v)
    }
  }

  /** Every telemetry cell missing (`np.nan`). */
  const NoTelemetry: Telemetry := Telemetry(None, None, None, None, None, None, None)

  /** Two telemetry records that agree on every column are equal. */
  lemma TelemetryEquality(a: Telemetry, b: Telemetry)
    requires forall c :: a.Get(c) == b.Get(c)
    ensures a == b
  {
    assert a.Get(Flag) == b.Get(Flag) && a.Get(Imo) == b.Get(Imo);
    assert a.Get(TimeOfLatestPosition) == b.Get(TimeOfLatestPosition);
    assert a.Get(LatOfLatestPosition) == b.Get(LatOfLatestPosition);
    assert a.Get(LonOfLatestPosition) == b.Get(LonOfLatestPosition);
    assert a.Get(Speed) == b.Get(Speed) && a.Get(Course) == b.Get(Course);
  }

  /** A row of the tracked-fleet table: its index label, the roster identity
      (`Nom du bateau`, `MMSI`, the skipper number), `PAGE_LINK`, the
      telemetry, `COUNT_PHOTOS` (tracker_tools.py only) and `IMAGE_URL`. */
  datatype Vessel = Vessel(
    tag: nat, name: Option<string>, mmsi: int, owner: Option<int>,
    page: Cell, tel: Telemetry, countPhotos: Cell, image: Cell)

  type Table = seq<Vessel>

  /** `_last_update_db`, the table a partial update compares against: never
      assigned, the copy of the freshly filtered roster a complete update
      takes (it has no `PAGE_LINK` nor telemetry columns), or a save read
      back from disk (index labels 0, 1, ... in file order). */
  datatype Baseline = Unset | RosterCopy(rows: Table) | Loaded(rows: Table)

  /** Index labels 0 .. n-1 in row order (`ignore_index=True`, `reset_index`,
      or a table read from a CSV file). */
  function Relabel(t: Table): (r: Table)
    ensures |r| == |t|
    ensures forall i :: 0 <= i < |t| ==> r[i] == t[i].(tag := i)
  {
    seq(|t|, i requires 0 <= i < |t| => t[i].(tag := i))
  }

  predicate LabelsArePositions(t: Table) {
    forall i :: 0 <= i < |t| ==> t[i].tag == i
  }

  /** No row of `t` has MMSI `m`. */
  predicate Avoids(t: Table, m: int) {
    forall i :: 0 <= i < |t| ==> t[i].mmsi != m
  }

  predicate DistinctMmsi(t: Table) {
    forall i, j :: 0 <= i < j < |t| ==> t[i].mmsi != t[j].mmsi
  }

  function MmsiSet(t: Table): set<int> {
    set i | 0 <= i < |t| :: t[i].mmsi
  }

  /** The first row of `t` with the given MMSI (what `.loc[MMSI == m]...values[0]` reads). */
  function FirstWithMmsi(t: Table, m: int): (r: Option<Vessel>)
    ensures r.None? <==> m !in MmsiSet(t)
    ensures r.Some? ==> r.value in t && r.value.mmsi == m
    ensures r.Some? ==>
      (exists i :: 0 <= i < |t| && t[i] == r.value && forall j :: 0 <= j < i ==> t[j].mmsi != m)
  {
    if |t| == 0 then None
    else if t[0].mmsi == m then Some(t[0])
    else
      var r := FirstWithMmsi(t[1..], m);
      assert MmsiSet(t) == {t[0].mmsi} + MmsiSet(t[1..]) by {
        forall x | x in MmsiSet(t) ensures x in {t[0].mmsi} + MmsiSet(t[1..]) {
          var i :| 0 <= i < |t| && t[i].mmsi == x;
          if i > 0 { assert t[1..][i - 1] == t[i]; }
        }
      }
      if r.Some? then
        var i :| 0 <= i < |t[1..]| && t[1..][i] == r.value
          && forall j :: 0 <= j < i ==> t[1..][j].mmsi != m;
        assert t[i + 1] == r.value;
        assert forall j :: 0 <= j < i + 1 ==> t[j].mmsi != m by {
          forall j | 0 <= j < i + 1 ensures t[j].mmsi != m {
            if j > 0 { assert t[j] == t[1..][j - 1]; }
          }
        }
        r
      else r
  }

  /** `df.drop(df[df['MMSI'] == m].index)`: every row with MMSI `m` removed,
      the others kept in order. */
  function DropMmsi(t: Table, m: int): (r: Table)
    ensures |r| <= |t|
    ensures MmsiSet(r) == MmsiSet(t) - {m}
  {
    if |t| == 0 then []
    else
      var r := DropMmsi(t[1..], m);
      MmsiSetCons(t);
      if t[0].mmsi == m then r
      else
        MmsiSetCons([t[0]] + r);
        assert ([t[0]] + r)[1..] == r;
        [t[0]] + r
  }

  lemma MmsiSetCons(t: Table)
    requires |t| > 0
    ensures MmsiSet(t) == {t[0].mmsi} + MmsiSet(t[1..])
  {
    forall x | x in MmsiSet(t) ensures x in {t[0].mmsi} + MmsiSet(t[1..]) {
      var i :| 0 <= i < |t| && t[i].mmsi == x;
      if i > 0 { assert t[1..][i - 1] == t[i]; }
    }
    forall x | x in MmsiSet(t[1..]) ensures x in MmsiSet(t) {
      var i :| 0 <= i < |t[1..]| && t[1..][i].mmsi == x;
      assert t[i + 1] == t[1..][i];
    }
  }

  lemma {:induction false} DropMmsiConcat(a: Table, b: Table, m: int)
    ensures DropMmsi(a + b, m) == DropMmsi(a, m) + DropMmsi(b, m)
    decreases |a|
  {
    if |a| > 0 {
      assert (a + b)[1..] == a[1..] + b;
      DropMmsiConcat(a[1..], b, m);
    } else {
      assert a + b == b;
    }
  }

  lemma {:induction false} DropMmsiAbsent(t: Table, m: int)
    requires Avoids(t, m)
    ensures DropMmsi(t, m) == t
    decreases |t|
  {
    if |t| > 0 {
      DropMmsiAbsent(t[1..], m);
      assert [t[0]] + t[1..] == t;
    }
  }

  /** A row is left by the drop of an MMSI exactly when it was there and has another MMSI. */
  lemma {:induction false} DropMmsiMembers(t: Table, m: int)
    ensures forall y :: y in DropMmsi(t, m) <==> y in t && y.mmsi != m
    decreases |t|
  {
    if |t| > 0 {
      DropMmsiMembers(t[1..], m);
      assert forall y :: y in t <==> y == t[0] || y in t[1..];
    }
  }

  /** Dropping the MMSI of the last row, which no earlier row has, removes just that row. */
  lemma DropMmsiLastOnly(s: Table, x: Vessel)
    requires Avoids(s, x.mmsi)
    ensures DropMmsi(s + [x], x.mmsi) == s
  {
    DropMmsiConcat(s, [x], x.mmsi);
    DropMmsiAbsent(s, x.mmsi);
    assert DropMmsi([x], x.mmsi) == [];
  }

  /** A suffix without the MMSI survives the drop unchanged. */
  lemma DropMmsiKeepsSuffix(a: Table, rest: Table, m: int)
    requires Avoids(rest, m)
    ensures DropMmsi(a + rest, m) == DropMmsi(a, m) + rest
  {
    DropMmsiConcat(a, rest, m);
    DropMmsiAbsent(rest, m);
  }

  /** `df.drop(index=tag)`: the row with that index label removed. */
  function DropLabel(t: Table, tag: nat): (r: Table)
    ensures |r| <= |t|
    ensures forall i :: 0 <= i < |r| ==> r[i].tag != tag
    decreases |t|
  {
    if |t| == 0 then []
    else if t[0].tag == tag then DropLabel(t[1..], tag)
    else [t[0]] + DropLabel(t[1..], tag)
  }

  lemma {:induction false} DropLabelConcat(a: Table, b: Table, tag: nat)
    ensures DropLabel(a + b, tag) == DropLabel(a, tag) + DropLabel(b, tag)
    decreases |a|
  {
    if |a| > 0 {
      assert (a + b)[1..] == a[1..] + b;
      DropLabelConcat(a[1..], b, tag);
    } else {
      assert a + b == b;
    }
  }

  lemma {:induction false} DropLabelAbsent(t: Table, tag: nat)
    requires forall i :: 0 <= i < |t| ==> t[i].tag != tag
    ensures DropLabel(t, tag) == t
    decreases |t|
  {
    if |t| > 0 {
      DropLabelAbsent(t[1..], tag);
      assert [t[0]] + t[1..] == t;
    }
  }
}
