/** The older fleet database of tracker_tools.py. Its constructor reads the
    roster, keeps the boats with an MMSI, probes the museum site for every
    boat, asks MarineTraffic for the telemetry of every boat and picks a
    picture for every boat, in that order. The telemetry step collects the
    replies into eight lists, one per column, and assigns the lists as
    columns at the end; a boat whose reply is unusable is dropped by its
    index label. */
module TrackerTools {
  import opened Common
  import opened Fleet
  import opened SaveNames
  import opened Roster
  import opened Enrichment
  import Reconcile

  // ---------------------------------------------------------------------
  // The request

  /** The 28 columns asked of MarineTraffic, in the order of the request. */
  const WantedColumns: seq<string> := [
    "time_of_latest_position", "flag", "shipname", "photo", "recognized_next_port",
    "reported_eta", "reported_destination", "current_port", "imo", "mmsi",
    "ship_type", "show_on_live_map", "area", "area_local", "lat_of_latest_position",
    "lon_of_latest_position", "status", "eni", "speed", "course", "draught",
    "navigational_status", "year_of_build", "length", "width", "dwt",
    "current_port_unlocode", "current_port_country"]

  /** The `columns` parameter: every name followed by a comma. */
  function ColumnsQuery(cols: seq<string>): (q: string)
    ensures |cols| == 0 <==> q == ""
    decreases |cols|
  {
    if |cols| == 0 then "" else cols[0] + "," + ColumnsQuery(cols[1..])
  }

  predicate NoComma(s: string) {
    forall i :: 0 <= i < |s| ==> s[i] != ','
  }

  /** Splitting the parameter on commas gives the names back, followed by
      the empty piece after the trailing comma. */
  lemma {:induction false} ColumnsQueryRoundTrip(cols: seq<string>)
    requires forall k :: 0 <= k < |cols| ==> NoComma(cols[k])
    ensures Split(ColumnsQuery(cols), ',') == cols + [""]
    decreases |cols|
  {
    if |cols| > 0 {
      ColumnsQueryRoundTrip(cols[1..]);
      SplitAtSeparator(cols[0], ColumnsQuery(cols[1..]), ',');
      assert cols[0] + "," + ColumnsQuery(cols[1..]) == cols[0] + [','] + ColumnsQuery(cols[1..]);
      assert [cols[0]] + (cols[1..] + [""]) == cols + [""];
    }
  }

  const ApiUrlPrefix: string := "https://www.marinetraffic.com/en/data/?asset_type=vessels&columns="
  const ApiMmsiFilter: string := "&mmsi|eq|mmsi="

  /** `API_TEMPLATE.format(row['MMSI'], substring)`. */
  function ApiUrl(mmsi: int, columns: string): string {
    ApiUrlPrefix + columns + ApiMmsiFilter + IntToString(mmsi)
  }

  /** What `AIS.get_data_by_url` gives back: a list of records, another
      value, or an exception. */
  datatype AisReply = ListReply(records: seq<Reconcile.Record>) | OtherReply | Failed

  type AisFetch = string -> AisReply

  /** The reply the request for each MMSI gets; the loop's specification is
      stated over it, so that the request address is built in one place. */
  type Answers = int -> AisReply

  function AnswersOf(fetch: AisFetch, columns: string): (answer: Answers)
    ensures forall m :: answer(m) == fetch(ApiUrl(m, columns))
  {
    m => fetch(ApiUrl(m, columns))
  }

  // ---------------------------------------------------------------------
  // Harvesting the replies into eight lists

  /** The keys read from a reply, in the order of the appends. */
  const ReplyKeys: seq<string> := ["LON", "LAT", "SPEED", "LAST_POS", "COUNT_PHOTOS", "SHIP_ID", "COURSE", "CODE2"]

  /** The columns the eight lists become, in the order of the assignments. */
  const ListColumns: seq<string> := ["LONG", "LAT", "SPEED", "LAST_POSITION", "COUNT_PHOTOS", "SHIP_ID", "CAP", "COUNTRY_CODE"]

  const NoLists: seq<seq<Cell>> := [[], [], [], [], [], [], [], []]

  /** `reply[0]` when the reply is a non-empty list; `None` when the boat is
      dropped before any append (another value, an exception, or an empty
      list on which `reply[0]` raises). */
  function FirstRecord(reply: AisReply): (r: Option<Reconcile.Record>)
    ensures r.Some? <==> reply.ListReply? && |reply.records| > 0
  {
    if reply.ListReply? && |reply.records| > 0 then Some(reply.records[0]) else None
  }

  /** The keys found before the first missing one (a `KeyError` stops the appends). */
  function PresentKeys(rec: Reconcile.Record, k: nat): (n: nat)
    requires k <= 8
    ensures k <= n <= 8
    ensures forall j :: k <= j < n ==> ReplyKeys[j] in rec
    ensures n < 8 ==> ReplyKeys[n] !in rec
    decreases 8 - k
  {
    if k == 8 || ReplyKeys[k] !in rec then k else PresentKeys(rec, k + 1)
  }

  /** How many of the eight lists the boat's reply extends. */
  function Appended(x: Vessel, answer: Answers): (n: nat)
    ensures n <= 8
  {
    match FirstRecord(answer(x.mmsi))
    case None => 0
    case Some(rec) => PresentKeys(rec, 0)
  }

  /** The appends made for one record: the lists of the keys found before
      the first missing one grow by that key's value. */
  function AppendRecord(lists: seq<seq<Cell>>, rec: Reconcile.Record): (r: seq<seq<Cell>>)
    requires |lists| == 8
    ensures |r| == 8
    ensures forall j :: 0 <= j < 8 ==>
      r[j] == if j < PresentKeys(rec, 0) then lists[j] + [rec[ReplyKeys[j]]] else lists[j]
  {
    var n := PresentKeys(rec, 0);
    seq(8, j requires 0 <= j < 8 => if j < n then lists[j] + [rec[ReplyKeys[j]]] else lists[j])
  }

  /** The tracked table and the eight lists as the loop leaves them. */
  datatype Harvest = Harvest(table: Table, lists: seq<seq<Cell>>)

  /** The loop body for boat `x`: a usable record extends the lists; the
      boat is dropped by label unless every key was found. */
  function HarvestStep(h: Harvest, x: Vessel, answer: Answers): (r: Harvest)
    requires |h.lists| == 8
    ensures |r.lists| == 8
  {
    match FirstRecord(answer(x.mmsi))
    case None => h.(table := DropLabel(h.table, x.tag))
    case Some(rec) =>
      var l := AppendRecord(h.lists, rec);
      if PresentKeys(rec, 0) == 8 then h.(lists := l) else Harvest(DropLabel(h.table, x.tag), l)
  }

  /** The loop over the snapshot `rows`, starting from table `t` and empty lists. */
  function HarvestLoop(t: Table, rows: Table, answer: Answers): (h: Harvest)
    ensures |h.lists| == 8
    decreases |rows|
  {
    if |rows| == 0 then Harvest(t, NoLists)
    else HarvestStep(HarvestLoop(t, rows[..|rows| - 1], answer), rows[|rows| - 1], answer)
  }

  // ---------------------------------------------------------------------
  // Assigning the lists as columns

  /** Cell `j` of the eight list columns in a row. */
  function SetCell(v: Vessel, j: nat, c: Cell): (r: Vessel)
    requires j < 8
  {
    if j == 0 then v.(tel := v.tel.(long := c))
    else if j == 1 then v.(tel := v.tel.(lat := c))
    else if j == 2 then v.(tel := v.tel.(speed := c))
    else if j == 3 then v.(tel := v.tel.(lastPosition := c))
    else if j == 4 then v.(countPhotos := c)
    else if j == 5 then v.(tel := v.tel.(shipId := c))
    else if j == 6 then v.(tel := v.tel.(cap := c))
    else v.(tel := v.tel.(countryCode := c))
  }

  /** `df[ListColumns[j]] = vals` with a list of the right length. */
  function SetColumn(t: Table, j: nat, vals: seq<Cell>): (r: Table)
    requires j < 8 && |vals| == |t|
    ensures |r| == |t|
    ensures forall i :: 0 <= i < |t| ==> r[i] == SetCell(t[i], j, vals[i])
  {
    seq(|t|, i requires 0 <= i < |t| => SetCell(t[i], j, vals[i]))
  }

  /** The rows a table with an empty index takes on when a non-empty list
      is assigned to it (pandas adopts the list's index): labels
      `0 .. n-1`, every cell missing, and MMSI 0 standing for pandas' NaN. */
  function BlankRows(n: nat): (r: Table)
    ensures |r| == n && LabelsArePositions(r)
  {
    seq(n, i requires 0 <= i < n => Vessel(i, None, 0, None, None, NoTelemetry, None, None))
  }

  /** The length of a table of `n` rows once lists `j..7` are assigned: its
      own, or for an empty table that of the first non-empty list. */
  function TakenLength(n: nat, lists: seq<seq<Cell>>, j: nat): nat
    requires |lists| == 8 && j <= 8
    decreases 8 - j
  {
    if n > 0 || j == 8 then n
    else if |lists[j]| > 0 then |lists[j]|
    else TakenLength(0, lists, j + 1)
  }

  /** Whether assigning list `k` succeeds, the assignments starting at list
      `j` on a table of `n` rows: the list has the length the table takes,
      or the table is still empty and so are the lists up to `k`. */
  predicate Fits(n: nat, lists: seq<seq<Cell>>, j: nat, k: nat)
    requires |lists| == 8 && j <= k < 8
  {
    |lists[k]| == TakenLength(n, lists, j) || (n == 0 && forall l :: j <= l <= k ==> |lists[l]| == 0)
  }

  /** The assignments of lists `j..7`, in order. A table with rows accepts
      only lists of its length; an empty table takes the length of the first
      non-empty list assigned to it. The first list that does not fit raises
      `ValueError`, the earlier columns staying assigned. */
  function AssignColumns(t: Table, lists: seq<seq<Cell>>, j: nat): (r: (Table, Outcome))
    requires |lists| == 8 && j <= 8
    ensures |r.0| == TakenLength(|t|, lists, j)
    ensures r.1 == Done <==> forall k :: j <= k < 8 ==> Fits(|t|, lists, j, k)
    ensures r.1.Raised? ==> exists k :: (j <= k < 8 && !Fits(|t|, lists, j, k)
      && r.1 == Raised(LengthMismatch(ListColumns[k])) && forall l :: j <= l < k ==> Fits(|t|, lists, j, l))
    decreases 8 - j
  {
    if j == 8 then (t, Done)
    else if |t| == 0 && |lists[j]| > 0 then
      var m := |lists[j]|;
      var r := AssignColumns(SetColumn(BlankRows(m), j, lists[j]), lists, j + 1);
      FitsAfterGrowth(lists, j, j + 1);
      r
    else if |lists[j]| != |t| then
      assert !Fits(|t|, lists, j, j);
      (t, Raised(LengthMismatch(ListColumns[j])))
    else
      var r := AssignColumns(SetColumn(t, j, lists[j]), lists, j + 1);
      FitsAfterFit(|t|, lists, j, j + 1);
      r
  }

  /** Once an empty table has grown to the length of list `j`, the later
      lists fit exactly when they have that length. */
  lemma FitsAfterGrowth(lists: seq<seq<Cell>>, j: nat, next: nat)
    requires |lists| == 8 && j < 8 && |lists[j]| > 0 && next == j + 1
    ensures TakenLength(0, lists, j) == TakenLength(|lists[j]|, lists, next) == |lists[j]|
    ensures Fits(0, lists, j, j)
    ensures forall k :: j < k < 8 ==> (Fits(0, lists, j, k) <==> Fits(|lists[j]|, lists, next, k))
    ensures (forall k :: j <= k < 8 ==> Fits(0, lists, j, k))
      <==> (forall k :: next <= k < 8 ==> Fits(|lists[j]|, lists, next, k))
  {
    forall k | j < k < 8 ensures Fits(0, lists, j, k) <==> Fits(|lists[j]|, lists, next, k) {
      assert !(forall l :: j <= l <= k ==> |lists[l]| == 0) by {
        assert |lists[j]| != 0;
      }
    }
    if forall k :: next <= k < 8 ==> Fits(|lists[j]|, lists, next, k) {
      forall k | j <= k < 8 ensures Fits(0, lists, j, k) {
        if k > j {
          assert Fits(|lists[j]|, lists, next, k);
        }
      }
    }
  }

  /** A list that fits leaves the later lists fitting as before. */
  lemma FitsAfterFit(n: nat, lists: seq<seq<Cell>>, j: nat, next: nat)
    requires |lists| == 8 && j < 8 && |lists[j]| == n && next == j + 1
    ensures TakenLength(n, lists, j) == TakenLength(n, lists, next)
    ensures Fits(n, lists, j, j)
    ensures forall k :: j < k < 8 ==> (Fits(n, lists, j, k) <==> Fits(n, lists, next, k))
    ensures (forall k :: j <= k < 8 ==> Fits(n, lists, j, k))
      <==> (forall k :: next <= k < 8 ==> Fits(n, lists, next, k))
  {
    forall k | j < k < 8 ensures Fits(n, lists, j, k) <==> Fits(n, lists, next, k) {
      if n == 0 {
        assert (forall l :: j <= l <= k ==> |lists[l]| == 0) <==> (forall l :: next <= l <= k ==> |lists[l]| == 0);
      }
    }
    if forall k :: next <= k < 8 ==> Fits(n, lists, next, k) {
      forall k | j <= k < 8 ensures Fits(n, lists, j, k) {
        if k > j {
          assert Fits(n, lists, next, k);
        }
      }
    }
  }

  /** `request_update_API` of tracker_tools.py on the tracked table `t`. */
  function TrackerApiResult(t: Table, answer: Answers): (r: (Table, Outcome))
  {
    var h := HarvestLoop(t, t, answer);
    AssignColumns(h.table, h.lists, 0)
  }

  // ---------------------------------------------------------------------
  // Reference definitions and the outcome of the telemetry step

  /** The boats whose first record has all eight keys, in order. */
  function Kept(rows: Table, answer: Answers): (r: Table)
    ensures |r| <= |rows|
    decreases |rows|
  {
    if |rows| == 0 then []
    else
      var x := rows[|rows| - 1];
      Kept(rows[..|rows| - 1], answer) + (if Appended(x, answer) == 8 then [x] else [])
  }

  /** The boats dropped after extending list `j`: a first record holding
      the first `j + 1` keys but not all eight. */
  function Torn(rows: Table, j: nat, answer: Answers): (n: nat)
    decreases |rows|
  {
    if |rows| == 0 then 0
    else
      var x := rows[|rows| - 1];
      Torn(rows[..|rows| - 1], j, answer) + (if j < Appended(x, answer) < 8 then 1 else 0)
  }

  /** The value of key `j` in the first record of boat `x`. */
  function KeyValue(x: Vessel, j: nat, answer: Answers): Cell
    requires j < Appended(x, answer)
  {
    FirstRecord(answer(x.mmsi)).value[ReplyKeys[j]]
  }

  /** List `j` as a reference: the value of key `j` of every boat whose
      record reaches it. */
  function Values(rows: Table, j: nat, answer: Answers): (r: seq<Cell>)
    decreases |rows|
  {
    if |rows| == 0 then []
    else
      var x := rows[|rows| - 1];
      Values(rows[..|rows| - 1], j, answer) + (if j < Appended(x, answer) then [KeyValue(x, j, answer)] else [])
  }

  /** A boat filled in from its own reply. */
  function Refill(x: Vessel, answer: Answers): (r: Vessel)
    requires Appended(x, answer) == 8
    ensures r.tel.long == KeyValue(x, 0, answer) && r.tel.lat == KeyValue(x, 1, answer)
    ensures r.tel.speed == KeyValue(x, 2, answer) && r.tel.lastPosition == KeyValue(x, 3, answer)
    ensures r.countPhotos == KeyValue(x, 4, answer) && r.tel.shipId == KeyValue(x, 5, answer)
    ensures r.tel.cap == KeyValue(x, 6, answer) && r.tel.countryCode == KeyValue(x, 7, answer)
    ensures r.tag == x.tag && r.name == x.name && r.mmsi == x.mmsi && r.owner == x.owner
    ensures r.page == x.page && r.image == x.image
  {
    x.(tel := Telemetry(KeyValue(x, 7, answer), KeyValue(x, 5, answer), KeyValue(x, 3, answer),
                        KeyValue(x, 1, answer), KeyValue(x, 0, answer), KeyValue(x, 2, answer),
                        KeyValue(x, 6, answer)),
       countPhotos := KeyValue(x, 4, answer))
  }

  /** The loop leaves the kept boats followed by the boats not reached yet. */
  lemma {:induction false} HarvestLoopTable(t: Table, k: nat, answer: Answers)
    requires LabelsArePositions(t) && k <= |t|
    ensures HarvestLoop(t, t[..k], answer).table == Kept(t[..k], answer) + t[k..]
    decreases k
  {
    if k == 0 {
      assert t[..0] == [];
      assert t[0..] == t;
    } else {
      HarvestLoopTable(t, k - 1, answer);
      HarvestLoopTableStep(t, k, answer);
    }
  }

  lemma HarvestLoopTableStep(t: Table, k: nat, answer: Answers)
    requires LabelsArePositions(t) && 0 < k <= |t|
    requires HarvestLoop(t, t[..k - 1], answer).table == Kept(t[..k - 1], answer) + t[k - 1..]
    ensures HarvestLoop(t, t[..k], answer).table == Kept(t[..k], answer) + t[k..]
  {
    var n := k - 1;
    var x := t[n];
    var S := Kept(t[..n], answer);
    HarvestLoopSnoc(t, t, k, answer);
    KeptSnoc(t, k, answer);
    SuffixCons(t, n);
    ConcatAssoc(S, [x], t[k..]);
    if Appended(x, answer) < 8 {
      PrefixTagsBelow(t, n);
      KeptTagsBelow(t[..n], n, answer);
      DropRowAt(S, x, t[k..], t, k);
      assert S + [] == S;
    }
  }

  /** One more row walked by the loop. */
  lemma HarvestLoopSnoc(t: Table, rows: Table, k: nat, answer: Answers)
    requires 0 < k <= |rows|
    ensures HarvestLoop(t, rows[..k], answer).table ==
      var h := HarvestLoop(t, rows[..k - 1], answer).table;
      if Appended(rows[k - 1], answer) == 8 then h else DropLabel(h, rows[k - 1].tag)
  {
    PrefixOfPrefix(rows, k);
    HarvestStepTable(HarvestLoop(t, rows[..k - 1], answer), rows[k - 1], answer);
  }

  /** The loop over one more row is one more step. */
  lemma HarvestLoopUnfold(t: Table, rows: Table, k: nat, answer: Answers)
    requires 0 < k <= |rows|
    ensures HarvestLoop(t, rows[..k], answer) == HarvestStep(HarvestLoop(t, rows[..k - 1], answer), rows[k - 1], answer)
  {
    PrefixOfPrefix(rows, k);
  }

  /** One more row considered by the reference. */
  lemma KeptSnoc(rows: Table, k: nat, answer: Answers)
    requires 0 < k <= |rows|
    ensures Kept(rows[..k], answer) ==
      Kept(rows[..k - 1], answer) + if Appended(rows[k - 1], answer) == 8 then [rows[k - 1]] else []
  {
    PrefixOfPrefix(rows, k);
  }

  lemma PrefixTagsBelow(t: Table, n: nat)
    requires LabelsArePositions(t) && n <= |t|
    ensures forall i :: 0 <= i < |t[..n]| ==> t[..n][i].tag < n
  {
    forall i | 0 <= i < |t[..n]| ensures t[..n][i].tag < n {
      assert t[..n][i] == t[i];
    }
  }

  lemma KeptTagsBelow(rows: Table, n: nat, answer: Answers)
    requires forall i :: 0 <= i < |rows| ==> rows[i].tag < n
    ensures forall i :: 0 <= i < |Kept(rows, answer)| ==> Kept(rows, answer)[i].tag < n
  {
    KeptPreserves(rows, answer, (v: Vessel) => v.tag < n);
  }

  /** The table after one step of the loop. */
  lemma HarvestStepTable(h: Harvest, x: Vessel, answer: Answers)
    requires |h.lists| == 8
    ensures HarvestStep(h, x, answer).table ==
      if Appended(x, answer) == 8 then h.table else DropLabel(h.table, x.tag)
  {
  }

  lemma ConcatAssoc<T>(a: seq<T>, b: seq<T>, c: seq<T>)
    ensures a + (b + c) == a + b + c
  {
  }

  lemma PrefixOfPrefix<T>(s: seq<T>, k: nat)
    requires 0 < k <= |s|
    ensures s[..k][..k - 1] == s[..k - 1] && s[..k][k - 1] == s[k - 1]
  {
  }

  lemma SuffixCons<T>(s: seq<T>, n: nat)
    requires n < |s|
    ensures s[n..] == [s[n]] + s[n + 1..]
  {
  }

  /** The lists equal the reference lists of the boats walked. */
  lemma {:induction false} HarvestLoopLists(t: Table, rows: Table, answer: Answers)
    ensures forall j :: 0 <= j < 8 ==> HarvestLoop(t, rows, answer).lists[j] == Values(rows, j, answer)
    decreases |rows|
  {
    if |rows| > 0 {
      HarvestLoopLists(t, rows[..|rows| - 1], answer);
    }
  }

  /** Whatever holds of every row holds of every kept boat. */
  lemma {:induction false} KeptPreserves(rows: Table, answer: Answers, P: Vessel -> bool)
    requires forall i :: 0 <= i < |rows| ==> P(rows[i])
    ensures forall i :: 0 <= i < |Kept(rows, answer)| ==> P(Kept(rows, answer)[i])
    decreases |rows|
  {
    if |rows| > 0 {
      var n := |rows| - 1;
      assert forall i :: 0 <= i < n ==> rows[..n][i] == rows[i];
      KeptPreserves(rows[..n], answer, P);
    }
  }

  /** The kept boats have distinct MMSIs when the rows do. */
  lemma {:induction false} KeptDistinct(rows: Table, answer: Answers)
    requires DistinctMmsi(rows)
    ensures DistinctMmsi(Kept(rows, answer))
    ensures MmsiSet(Kept(rows, answer)) <= MmsiSet(rows)
    decreases |rows|
  {
    if |rows| > 0 {
      var n := |rows| - 1;
      assert DistinctMmsi(rows[..n]);
      KeptDistinct(rows[..n], answer);
      var S := Kept(rows[..n], answer);
      assert MmsiSet(rows[..n]) <= MmsiSet(rows) by {
        forall m | m in MmsiSet(rows[..n]) ensures m in MmsiSet(rows) {
          var i :| 0 <= i < n && rows[..n][i].mmsi == m;
          assert rows[i].mmsi == m;
        }
      }
      if Appended(rows[n], answer) == 8 {
        MmsiSetSnoc(S, rows[n]);
        assert rows[n].mmsi !in MmsiSet(rows[..n]);
        DistinctSnoc(S, rows[n]);
      }
    }
  }

  /** Dropping the label of the row between the kept boats and the rest. */
  lemma DropRowAt(S: Table, x: Vessel, rest: Table, t: Table, k: nat)
    requires LabelsArePositions(t) && 0 < k <= |t| && x == t[k - 1] && rest == t[k..]
    requires forall i :: 0 <= i < |S| ==> S[i].tag < k - 1
    ensures DropLabel(S + [x] + rest, x.tag) == S + rest
  {
    DropLabelConcat(S + [x], rest, x.tag);
    DropLabelConcat(S, [x], x.tag);
    DropLabelAbsent(S, x.tag);
    assert forall i :: 0 <= i < |rest| ==> rest[i] == t[k + i];
    DropLabelAbsent(rest, x.tag);
    assert DropLabel([x], x.tag) == [];
  }

  lemma {:induction false} ValuesLength(rows: Table, j: nat, answer: Answers)
    requires j < 8
    ensures |Values(rows, j, answer)| == |Kept(rows, answer)| + Torn(rows, j, answer)
    decreases |rows|
  {
    if |rows| > 0 {
      ValuesLength(rows[..|rows| - 1], j, answer);
    }
  }

  lemma {:induction false} TornBound(rows: Table, j: nat, answer: Answers)
    ensures Torn(rows, j, answer) <= Torn(rows, 0, answer)
    ensures Torn(rows, 0, answer) == 0 ==> Torn(rows, j, answer) == 0
    decreases |rows|
  {
    if |rows| > 0 {
      TornBound(rows[..|rows| - 1], j, answer);
    }
  }

  /** Without a torn record, list `j` holds key `j` of each kept boat, in order. */
  lemma {:induction false} ValuesOfKept(rows: Table, j: nat, answer: Answers)
    requires j < 8 && Torn(rows, 0, answer) == 0
    ensures |Values(rows, j, answer)| == |Kept(rows, answer)|
    ensures forall i :: 0 <= i < |Kept(rows, answer)| ==>
      Appended(Kept(rows, answer)[i], answer) == 8
      && Values(rows, j, answer)[i] == KeyValue(Kept(rows, answer)[i], j, answer)
    decreases |rows|
  {
    if |rows| > 0 {
      var n := |rows| - 1;
      ValuesOfKept(rows[..n], j, answer);
    }
  }

  /** The eight assignments of lists that all have the table's length. */
  lemma {:induction false} AssignAll(t: Table, lists: seq<seq<Cell>>, j: nat, i: nat)
    requires |lists| == 8 && j <= 8 && i < |t|
    requires forall k :: 0 <= k < 8 ==> |lists[k]| == |t|
    ensures AssignColumns(t, lists, j).0[i] == FillFrom(t[i], lists, i, j)
    decreases 8 - j
  {
    if j < 8 {
      AssignAll(SetColumn(t, j, lists[j]), lists, j + 1, i);
      FillFromSet(t[i], lists, i, j);
    }
  }

  /** Cells `j..7` of a row written from row `i` of the lists. */
  function FillFrom(v: Vessel, lists: seq<seq<Cell>>, i: nat, j: nat): Vessel
    requires |lists| == 8 && j <= 8
    requires forall k :: 0 <= k < 8 ==> i < |lists[k]|
    decreases 8 - j
  {
    if j == 8 then v else FillFrom(SetCell(v, j, lists[j][i]), lists, i, j + 1)
  }

  lemma FillFromSet(v: Vessel, lists: seq<seq<Cell>>, i: nat, j: nat)
    requires |lists| == 8 && j < 8
    requires forall k :: 0 <= k < 8 ==> i < |lists[k]|
    ensures FillFrom(SetCell(v, j, lists[j][i]), lists, i, j + 1) == FillFrom(v, lists, i, j)
  {
  }

  /** `request_update_API` of tracker_tools.py, on a table whose labels are
      its positions (as `filter_mmsi` leaves them): the column assignments
      succeed exactly when no reply is torn, i.e. when no first record holds
      `LON` but misses a later key. A torn record leaves the `LONG` list
      longer than the kept boats: when some boat is kept, that first
      assignment raises; when every boat was dropped, the empty table takes
      the `LONG` list's length and the first later list that is shorter
      raises. Without a torn record the table is the boats with a complete
      record, in order, each filled in from its own record. */
  lemma TrackerApiOutcome(t: Table, answer: Answers)
    requires LabelsArePositions(t)
    ensures Torn(t, 0, answer) == 0 <==> TrackerApiResult(t, answer).1 == Done
    ensures Torn(t, 0, answer) > 0 && |Kept(t, answer)| > 0 ==>
      TrackerApiResult(t, answer).1 == Raised(LengthMismatch("LONG"))
    ensures Torn(t, 0, answer) > 0 && |Kept(t, answer)| == 0 ==>
      RaisedAtFirstShorterList(t, answer, TrackerApiResult(t, answer).1)
    ensures Torn(t, 0, answer) == 0 ==>
      |TrackerApiResult(t, answer).0| == |Kept(t, answer)|
      && forall i :: 0 <= i < |Kept(t, answer)| ==>
        Appended(Kept(t, answer)[i], answer) == 8
        && TrackerApiResult(t, answer).0[i] == Refill(Kept(t, answer)[i], answer)
  {
    if Torn(t, 0, answer) == 0 {
      UntornOutcome(t, answer);
    } else if |Kept(t, answer)| > 0 {
      TornKeptOutcome(t, answer);
    } else {
      TornEmptyOutcome(t, answer);
    }
  }

  /** The outcome is the `ValueError` of the first list after `LONG` that is
      shorter than it: fewer torn records reach that key. */
  predicate RaisedAtFirstShorterList(t: Table, answer: Answers, o: Outcome) {
    exists k :: 0 < k < 8 && o == Raised(LengthMismatch(ListColumns[k]))
      && Torn(t, k, answer) < Torn(t, 0, answer)
      && forall l :: 0 < l < k ==> Torn(t, l, answer) == Torn(t, 0, answer)
  }

  lemma UntornOutcome(t: Table, answer: Answers)
    requires LabelsArePositions(t) && Torn(t, 0, answer) == 0
    ensures TrackerApiResult(t, answer).1 == Done
    ensures |TrackerApiResult(t, answer).0| == |Kept(t, answer)|
      && forall i :: 0 <= i < |Kept(t, answer)| ==>
        Appended(Kept(t, answer)[i], answer) == 8
        && TrackerApiResult(t, answer).0[i] == Refill(Kept(t, answer)[i], answer)
  {
    HarvestAtEnd(t, answer);
    var h := HarvestLoop(t, t, answer);
    var K := Kept(t, answer);
    forall j | 0 <= j < 8 ensures |h.lists[j]| == |K| {
      ValuesLength(t, j, answer);
      TornBound(t, j, answer);
    }
    AllFit(|K|, h.lists);
    forall i | 0 <= i < |K|
      ensures Appended(K[i], answer) == 8 && TrackerApiResult(t, answer).0[i] == Refill(K[i], answer)
    {
      RowRefilled(t, answer, i);
    }
  }

  /** Lists that all have the table's length all fit. */
  lemma AllFit(n: nat, lists: seq<seq<Cell>>)
    requires |lists| == 8 && forall k :: 0 <= k < 8 ==> |lists[k]| == n
    ensures forall k :: 0 <= k < 8 ==> Fits(n, lists, 0, k)
  {
    forall k | 0 <= k < 8 ensures Fits(n, lists, 0, k) {
      if n == 0 {
        assert forall l :: 0 <= l <= k ==> |lists[l]| == 0;
      }
    }
  }

  lemma TornKeptOutcome(t: Table, answer: Answers)
    requires LabelsArePositions(t) && Torn(t, 0, answer) > 0 && |Kept(t, answer)| > 0
    ensures TrackerApiResult(t, answer).1 == Raised(LengthMismatch("LONG"))
  {
    HarvestAtEnd(t, answer);
    var h := HarvestLoop(t, t, answer);
    ValuesLength(t, 0, answer);
    assert !Fits(|h.table|, h.lists, 0, 0);
  }

  lemma TornEmptyOutcome(t: Table, answer: Answers)
    requires LabelsArePositions(t) && Torn(t, 0, answer) > 0 && |Kept(t, answer)| == 0
    ensures RaisedAtFirstShorterList(t, answer, TrackerApiResult(t, answer).1)
  {
    HarvestAtEnd(t, answer);
    var h := HarvestLoop(t, t, answer);
    forall j | 0 <= j < 8 ensures |h.lists[j]| == Torn(t, j, answer) <= Torn(t, 0, answer) {
      ValuesLength(t, j, answer);
      TornBound(t, j, answer);
    }
    NoTornPastLast(t, answer);
    EmptyTableGrowsThenRaises(h.lists);
    assert TrackerApiResult(t, answer) == AssignColumns([], h.lists, 0);
  }

  /** An empty table given a non-empty first list and an empty last one
      takes the first list's length and raises at the first later list that
      is shorter. */
  lemma EmptyTableGrowsThenRaises(lists: seq<seq<Cell>>)
    requires |lists| == 8 && |lists[0]| > 0 && |lists[7]| == 0
    requires forall j :: 0 <= j < 8 ==> |lists[j]| <= |lists[0]|
    ensures exists k :: (0 < k < 8 && AssignColumns([], lists, 0).1 == Raised(LengthMismatch(ListColumns[k]))
      && |lists[k]| < |lists[0]| && forall l :: 0 < l < k ==> |lists[l]| == |lists[0]|)
  {
    var n := |lists[0]|;
    assert TakenLength(0, lists, 0) == n;
    assert !Fits(0, lists, 0, 7);
    var r := AssignColumns([], lists, 0);
    var k :| 0 <= k < 8 && !Fits(0, lists, 0, k)
      && r.1 == Raised(LengthMismatch(ListColumns[k])) && forall l :: 0 <= l < k ==> Fits(0, lists, 0, l);
    assert Fits(0, lists, 0, 0);
    forall l | 0 < l < k ensures |lists[l]| == n {
      assert Fits(0, lists, 0, l);
    }
  }

  /** No record is torn after its last key. */
  lemma {:induction false} NoTornPastLast(t: Table, answer: Answers)
    ensures Torn(t, 7, answer) == 0
    decreases |t|
  {
    if |t| > 0 {
      NoTornPastLast(t[..|t| - 1], answer);
    }
  }

  lemma HarvestAtEnd(t: Table, answer: Answers)
    requires LabelsArePositions(t)
    ensures HarvestLoop(t, t, answer).table == Kept(t, answer)
    ensures forall j :: 0 <= j < 8 ==> HarvestLoop(t, t, answer).lists[j] == Values(t, j, answer)
  {
    HarvestLoopTable(t, |t|, answer);
    HarvestLoopLists(t, t, answer);
    assert t[..|t|] == t;
    assert t[|t|..] == [];
  }

  lemma RowRefilled(t: Table, answer: Answers, i: nat)
    requires LabelsArePositions(t) && Torn(t, 0, answer) == 0 && i < |Kept(t, answer)|
    ensures |TrackerApiResult(t, answer).0| == |Kept(t, answer)|
    ensures Appended(Kept(t, answer)[i], answer) == 8
    ensures TrackerApiResult(t, answer).0[i] == Refill(Kept(t, answer)[i], answer)
  {
    var h := HarvestLoop(t, t, answer);
    var K := Kept(t, answer);
    HarvestOfKept(t, answer, i);
    AssignAll(K, h.lists, 0, i);
    FillFromIsRefill(K[i], h.lists, i, answer);
  }

  /** Without a torn record, the loop leaves the kept boats and row `i` of
      every list is the matching key of kept boat `i`. */
  lemma HarvestOfKept(t: Table, answer: Answers, i: nat)
    requires LabelsArePositions(t) && Torn(t, 0, answer) == 0 && i < |Kept(t, answer)|
    ensures HarvestLoop(t, t, answer).table == Kept(t, answer)
    ensures Appended(Kept(t, answer)[i], answer) == 8
    ensures forall j :: 0 <= j < 8 ==>
      |HarvestLoop(t, t, answer).lists[j]| == |Kept(t, answer)|
      && HarvestLoop(t, t, answer).lists[j][i] == KeyValue(Kept(t, answer)[i], j, answer)
  {
    HarvestAtEnd(t, answer);
    ValuesOfKeptAt(t, answer, i);
  }

  lemma ValuesOfKeptAt(rows: Table, answer: Answers, i: nat)
    requires Torn(rows, 0, answer) == 0 && i < |Kept(rows, answer)|
    ensures Appended(Kept(rows, answer)[i], answer) == 8
    ensures forall j :: 0 <= j < 8 ==>
      |Values(rows, j, answer)| == |Kept(rows, answer)|
      && Values(rows, j, answer)[i] == KeyValue(Kept(rows, answer)[i], j, answer)
  {
    forall j | 0 <= j < 8
      ensures |Values(rows, j, answer)| == |Kept(rows, answer)|
      && Values(rows, j, answer)[i] == KeyValue(Kept(rows, answer)[i], j, answer)
    {
      ValuesOfKept(rows, j, answer);
    }
    ValuesOfKept(rows, 0, answer);
  }

  lemma FillFromIsRefill(v: Vessel, lists: seq<seq<Cell>>, i: nat, answer: Answers)
    requires |lists| == 8 && Appended(v, answer) == 8
    requires forall j :: 0 <= j < 8 ==> i < |lists[j]| && lists[j][i] == KeyValue(v, j, answer)
    ensures FillFrom(v, lists, i, 0) == Refill(v, answer)
  {
    var v1 := SetCell(v, 0, lists[0][i]);
    var v2 := SetCell(v1, 1, lists[1][i]);
    var v3 := SetCell(v2, 2, lists[2][i]);
    var v4 := SetCell(v3, 3, lists[3][i]);
    var v5 := SetCell(v4, 4, lists[4][i]);
    var v6 := SetCell(v5, 5, lists[5][i]);
    var v7 := SetCell(v6, 6, lists[6][i]);
    var v8 := SetCell(v7, 7, lists[7][i]);
    assert FillFrom(v, lists, i, 0) == FillFrom(v1, lists, i, 1) == FillFrom(v2, lists, i, 2);
    assert FillFrom(v2, lists, i, 2) == FillFrom(v3, lists, i, 3) == FillFrom(v4, lists, i, 4);
    assert FillFrom(v4, lists, i, 4) == FillFrom(v5, lists, i, 5) == FillFrom(v6, lists, i, 6);
    assert FillFrom(v6, lists, i, 6) == FillFrom(v7, lists, i, 7) == FillFrom(v8, lists, i, 8) == v8;
  }

  // ---------------------------------------------------------------------
  // Initialisation, end to end

  /** What the constructor leaves: the tracked table (absent when the roster
      could not be read) and whether an exception escaped. */
  function TrackerInit(sheet: Option<seq<RosterRow>>, get: HttpGet, answer: Answers, scrape: Scraper): (r: (Option<Table>, Outcome))
    ensures sheet.None? ==> r == (None, Raised(RosterUnavailable))
    ensures r.1.Done? ==> r.0.Some?
  {
    if sheet.None? then (None, Raised(RosterUnavailable))
    else
      var t0 := Roster.FilterMmsi(sheet.value);
      var t1 := WithPages(t0, CompletePageLinks(t0, get));
      var api := TrackerApiResult(t1, answer);
      if api.1.Raised? then (Some(api.0), api.1)
      else (Some(WithImages(api.0, TrackerImageLinks(api.0, scrape))), Done)
  }

  /** After a successful initialisation every boat carries the probe of its
      own name as `PAGE_LINK`, the picture chosen from that page, and the
      telemetry of its own reply; each is a roster boat with an MMSI, at
      most once. */
  lemma TrackerInitRows(roster: seq<RosterRow>, get: HttpGet, answer: Answers, scrape: Scraper)
    requires TrackerInit(Some(roster), get, answer, scrape).1.Done?
    ensures var t := TrackerInit(Some(roster), get, answer, scrape).0.value;
      forall i :: 0 <= i < |t| ==>
        t[i].page == ProbePage(t[i].name, get)
        && t[i].image == Some(TrackerImageFromPage(t[i].page, scrape))
        && t[i].mmsi in MmsiValues(roster)
    ensures DistinctMmsi(TrackerInit(Some(roster), get, answer, scrape).0.value)
  {
    var t0 := Roster.FilterMmsi(roster);
    var t1 := WithPages(t0, CompletePageLinks(t0, get));
    var api := TrackerApiResult(t1, answer);
    ApiRowsOfRoster(roster, get, answer);
    ImagedRows(api.0, roster, get, scrape);
  }

  /** The picture step keeps what the telemetry step established. */
  lemma ImagedRows(t: Table, roster: seq<RosterRow>, get: HttpGet, scrape: Scraper)
    requires DistinctMmsi(t)
    requires forall i :: 0 <= i < |t| ==> t[i].page == ProbePage(t[i].name, get) && t[i].mmsi in MmsiValues(roster)
    ensures var r := WithImages(t, TrackerImageLinks(t, scrape));
      DistinctMmsi(r)
      && forall i :: 0 <= i < |r| ==>
        r[i].page == ProbePage(r[i].name, get)
        && r[i].image == Some(TrackerImageFromPage(r[i].page, scrape))
        && r[i].mmsi in MmsiValues(roster)
  {
    var r := WithImages(t, TrackerImageLinks(t, scrape));
    forall i | 0 <= i < |r|
      ensures r[i].page == ProbePage(r[i].name, get) && r[i].mmsi in MmsiValues(roster)
      ensures r[i].image == Some(TrackerImageFromPage(r[i].page, scrape))
    {
      TrackerImageLinksAt(t, scrape, i);
    }
    assert forall i :: 0 <= i < |r| ==> r[i].mmsi == t[i].mmsi;
  }

  /** After a successful telemetry step on the paged roster, every row is a
      roster boat carrying the probe of its own name, at most once per MMSI. */
  lemma ApiRowsOfRoster(roster: seq<RosterRow>, get: HttpGet, answer: Answers)
    ensures var t0 := Roster.FilterMmsi(roster);
      var api := TrackerApiResult(WithPages(t0, CompletePageLinks(t0, get)), answer);
      api.1.Done? ==>
        DistinctMmsi(api.0)
        && forall i :: 0 <= i < |api.0| ==>
          api.0[i].page == ProbePage(api.0[i].name, get) && api.0[i].mmsi in MmsiValues(roster)
  {
    var t0 := Roster.FilterMmsi(roster);
    var t1 := WithPages(t0, CompletePageLinks(t0, get));
    var api := TrackerApiResult(t1, answer);
    PagedFleet(roster, get);
    TrackerApiOutcome(t1, answer);
    if api.1.Done? {
      var K := Kept(t1, answer);
      KeptPreserves(t1, answer, (v: Vessel) => v.page == ProbePage(v.name, get) && v.mmsi in MmsiValues(roster));
      KeptDistinct(t1, answer);
      forall i | 0 <= i < |api.0|
        ensures api.0[i].page == ProbePage(api.0[i].name, get) && api.0[i].mmsi in MmsiValues(roster)
      {
        assert api.0[i] == Refill(K[i], answer);
      }
      forall i, j | 0 <= i < j < |api.0| ensures api.0[i].mmsi != api.0[j].mmsi {
        assert api.0[i].mmsi == K[i].mmsi && api.0[j].mmsi == K[j].mmsi;
      }
    }
  }

  /** The table after `check_page_MMR`: labels are positions, one row per
      MMSI of the roster, each row carrying the probe of its name. */
  lemma PagedFleet(roster: seq<RosterRow>, get: HttpGet)
    ensures var t0 := Roster.FilterMmsi(roster);
      var t1 := WithPages(t0, CompletePageLinks(t0, get));
      LabelsArePositions(t1) && DistinctMmsi(t1)
      && forall i :: 0 <= i < |t1| ==> t1[i].page == ProbePage(t1[i].name, get) && t1[i].mmsi in MmsiValues(roster)
  {
    var t0 := Roster.FilterMmsi(roster);
    var t1 := WithPages(t0, CompletePageLinks(t0, get));
    forall i | 0 <= i < |t1| ensures t1[i].page == ProbePage(t1[i].name, get) && t1[i].mmsi in MmsiValues(roster) {
      CompletePageLinksAt(t0, get, i);
      assert t1[i].mmsi in MmsiSet(t0);
    }
    assert forall i :: 0 <= i < |t1| ==> t1[i].mmsi == t0[i].mmsi && t1[i].tag == t0[i].tag;
  }

  lemma {:induction false} TrackerImageLinksAt(t: Table, scrape: Scraper, i: int)
    requires 0 <= i < |t|
    ensures TrackerImageLinks(t, scrape)[i] == TrackerImageFromPage(t[i].page, scrape)
    decreases |t|
  {
    if i < |t| - 1 {
      TrackerImageLinksAt(t[..|t| - 1], scrape, i);
    }
  }

  /** The eight column assignments at the end of `request_update_API`. */
  method AssignLists(t: Table, lists: seq<seq<Cell>>) returns (table: Table, o: Outcome)
    requires |lists| == 8
    ensures (table, o) == AssignColumns(t, lists, 0)
  {
    var j := 0;
    table := t;
    o := Done;
    while j < 8
      invariant 0 <= j <= 8
      invariant o == Done ==> AssignColumns(table, lists, j) == AssignColumns(t, lists, 0)
      invariant o.Raised? ==> (table, o) == AssignColumns(t, lists, 0)
      decreases 8 - j
    {
      if |table| == 0 && |lists[j]| > 0 {
        table := BlankRows(|lists[j]|);
      } else if |lists[j]| != |table| {
        o := Raised(LengthMismatch(ListColumns[j]));
        break;
      }
      table := SetColumn(table, j, lists[j]);
      j := j + 1;
    }
  }

  // ---------------------------------------------------------------------
  // The class

  class TrackerDataBase {
    /** `pd.read_csv(url_fleet)` cast to `Int64`; `None` when that raises. */
    const sheet: Option<seq<RosterRow>>
    const get: HttpGet
    const fetch: AisFetch
    /** The `columns` parameter of the request; the source rebuilds it for
        every boat, always to the same text. */
    const columns: string
    const scrape: Scraper

    var roster: seq<RosterRow>
    var tracked: Option<Table>
    var counters: Counters
    /** Whether the constructor finished or an exception escaped it. */
    var initOutcome: Outcome

    /** `__init__`: roster and filter, museum pages, telemetry, pictures. */
    constructor(sheet: Option<seq<RosterRow>>, get: HttpGet, fetch: AisFetch, scrape: Scraper)
      ensures columns == ColumnsQuery(WantedColumns)
      ensures (tracked, initOutcome) == TrackerInit(sheet, get, AnswersOf(fetch, columns), scrape)
    {
      this.sheet := sheet;
      this.get := get;
      this.fetch := fetch;
      this.columns := ColumnsQuery(WantedColumns);
      this.scrape := scrape;
      roster := [];
      tracked := None;
      counters := Counters(0, 0, 0);
      initOutcome := Done;
      new;
      Initialise();
    }

    /** The three steps of `__init__`, the first exception ending them. */
    method Initialise()
      requires tracked.None?
      modifies this`roster, this`tracked, this`counters, this`initOutcome
      ensures (tracked, initOutcome) == TrackerInit(sheet, get, AnswersOf(fetch, columns), scrape)
    {
      var o := RequestUpdateGgsheet();
      if o.Raised? {
        initOutcome := o;
        return;
      }
      o := RequestUpdateApi();
      if o.Raised? {
        initOutcome := o;
        return;
      }
      o := RequestImageLinks();
      initOutcome := o;
    }

    /** `request_update_ggsheet`: read the roster, filter it, probe the pages. */
    method RequestUpdateGgsheet() returns (o: Outcome)
      modifies this`roster, this`tracked, this`counters
      ensures sheet.None? ==> o == Raised(RosterUnavailable) && tracked == old(tracked)
      ensures sheet.Some? ==> (o == Done && roster == sheet.value && counters == CountFleet(sheet.value)
        && var t0 := Roster.FilterMmsi(sheet.value);
           tracked == Some(WithPages(t0, CompletePageLinks(t0, get))))
    {
      if sheet.None? {
        return Raised(RosterUnavailable);
      }
      roster := sheet.value;
      FilterMmsi();
      o := CheckPageMmr();
    }

    /** `filter_mmsi`. */
    method FilterMmsi()
      modifies this`tracked, this`counters
      ensures tracked == Some(Roster.FilterMmsi(roster)) && counters == CountFleet(roster)
    {
      tracked := Some(Roster.FilterMmsi(roster));
      counters := CountFleet(roster);
    }

    /** `check_page_MMR`: one probe per row, then the `PAGE_LINK` column. */
    method CheckPageMmr() returns (o: Outcome)
      modifies this`tracked
      ensures old(tracked).None? ==> o == Raised(FleetUnset) && tracked == old(tracked)
      ensures old(tracked).Some? ==> (o == Done
        && tracked == Some(WithPages(old(tracked).value, CompletePageLinks(old(tracked).value, get))))
    {
      assert NewTimeSleepMaxMs < MaxTimeSleepMs;
      if tracked.None? {
        return Raised(FleetUnset);
      }
      var t := tracked.value;
      var links: seq<Cell> := [];
      var i := 0;
      while i < |t|
        invariant 0 <= i <= |t|
        invariant links == CompletePageLinks(t[..i], get)
      {
        links := links + [ProbePage(t[i].name, get)];
        i := i + 1;
        assert t[..i][..i - 1] == t[..i - 1];
      }
      assert t[..i] == t;
      tracked := Some(WithPages(t, links));
      o := Done;
    }

    /** `request_update_API`: the loop over the rows, then the eight column
      assignments. */
    method RequestUpdateApi() returns (o: Outcome)
      modifies this`tracked
      ensures old(tracked).None? ==> o == Raised(FleetUnset) && tracked == old(tracked)
      ensures old(tracked).Some? ==>
        tracked.Some? && (tracked.value, o) == TrackerApiResult(old(tracked).value, AnswersOf(fetch, columns))
    {
      if tracked.None? {
        return Raised(FleetUnset);
      }
      var rows := tracked.value;
      ghost var answer := AnswersOf(fetch, columns);
      var lists := NoLists;
      var i := 0;
      assert rows[..0] == [];
      while i < |rows|
        invariant 0 <= i <= |rows|
        invariant tracked.Some? && |lists| == 8
        invariant Harvest(tracked.value, lists) == HarvestLoop(rows, rows[..i], answer)
      {
        lists := HarvestReply(rows[i], lists);
        i := i + 1;
        HarvestLoopUnfold(rows, rows, i, answer);
      }
      assert rows[..i] == rows;
      var table;
      table, o := AssignLists(tracked.value, lists);
      tracked := Some(table);
    }

    /** One pass of the loop: the reply for boat `x` extends the lists,
        and the boat is dropped by label unless all eight keys were found. */
    method HarvestReply(x: Vessel, lists: seq<seq<Cell>>) returns (lists': seq<seq<Cell>>)
      requires tracked.Some? && |lists| == 8
      modifies this`tracked
      ensures tracked.Some?
      ensures Harvest(tracked.value, lists') == HarvestStep(Harvest(old(tracked).value, lists), x, AnswersOf(fetch, columns))
    {
      lists' := lists;
      var reply := fetch(ApiUrl(x.mmsi, columns));
      if reply.ListReply? && |reply.records| > 0 {
        var rec := reply.records[0];
        lists' := AppendRecord(lists, rec);
        if PresentKeys(rec, 0) < 8 {
          tracked := Some(DropLabel(tracked.value, x.tag));
        }
      } else {
        tracked := Some(DropLabel(tracked.value, x.tag));
      }
    }

    /** `request_image_links`: one picture per row, then the `IMAGE_URL` column. */
    method RequestImageLinks() returns (o: Outcome)
      modifies this`tracked
      ensures old(tracked).None? ==> o == Raised(FleetUnset) && tracked == old(tracked)
      ensures old(tracked).Some? ==> (o == Done
        && tracked == Some(WithImages(old(tracked).value, TrackerImageLinks(old(tracked).value, scrape))))
    {
      if tracked.None? {
        return Raised(FleetUnset);
      }
      var t := tracked.value;
      var urls: seq<string> := [];
      var i := 0;
      while i < |t|
        invariant 0 <= i <= |t|
        invariant urls == TrackerImageLinks(t[..i], scrape)
      {
        urls := urls + [TrackerImageFromPage(t[i].page, scrape)];
        i := i + 1;
        assert t[..i][..i - 1] == t[..i - 1];
      }
      assert t[..i] == t;
      tracked := Some(WithImages(t, urls));
      o := Done;
    }
  }
}
