/** `filter_mmsi`: from the roster sheet to the tracked-fleet table and the
    three fleet counters. */
module Roster {
  import opened Common
  import opened Fleet

  /** The tracked row made of a roster row that has an MMSI; the enrichment
      and telemetry columns do not exist yet. */
  function FromRoster(r: RosterRow): (v: Vessel)
    requires r.mmsi.Some?
    ensures v.name == r.name && v.mmsi == r.mmsi.value && v.owner == r.owner
  {
    Vessel(0, r.name, r.mmsi.value, r.owner, None, NoTelemetry, None, None)
  }

  /** `df[df['MMSI'].notnull()].drop_duplicates(subset=['MMSI'])` before the
      relabelling: rows with an MMSI, the first row of each MMSI kept. */
  function KeepFirstPerMmsi(roster: seq<RosterRow>): (t: Table)
    ensures |t| <= |roster|
    decreases |roster|
  {
    if |roster| == 0 then []
    else
      var prev := KeepFirstPerMmsi(roster[..|roster| - 1]);
      var r := roster[|roster| - 1];
      if r.mmsi.None? || r.mmsi.value in MmsiSet(prev) then prev else prev + [FromRoster(r)]
  }

  /** The tracked-fleet table `filter_mmsi` builds (`ignore_index=True`). */
  function FilterMmsi(roster: seq<RosterRow>): (t: Table)
    ensures |t| <= |roster|
    ensures LabelsArePositions(t)
    ensures DistinctMmsi(t)
    ensures MmsiSet(t) == MmsiValues(roster)
  {
    KeepFirstPerMmsi_Props(roster);
    Relabel(KeepFirstPerMmsi(roster))
  }

  /** The distinct MMSIs present in the roster (`MMSI.dropna().unique()`). */
  function MmsiValues(roster: seq<RosterRow>): set<int> {
    set i | 0 <= i < |roster| && roster[i].mmsi.Some? :: roster[i].mmsi.value
  }

  /** The distinct boat names, a missing name counting once (`unique()` keeps one NaN). */
  function NameValues(roster: seq<RosterRow>): set<Option<string>> {
    set i | 0 <= i < |roster| :: roster[i].name
  }

  /** `_nb_mmsi`, `_nb_bateaux`, `_nb_bateaux_sans_mmsi`. */
  datatype Counters = Counters(nbMmsi: int, nbBateaux: int, nbSansMmsi: int)

  function CountFleet(roster: seq<RosterRow>): (c: Counters)
    ensures c.nbMmsi == |FilterMmsi(roster)| == |MmsiValues(roster)|
    ensures c.nbBateaux == |NameValues(roster)|
    ensures c.nbSansMmsi == c.nbBateaux - c.nbMmsi
    ensures 0 <= c.nbMmsi && 0 <= c.nbBateaux <= |roster|
  {
    var t := FilterMmsi(roster);
    DistinctMmsiCardinality(t);
    NameValuesBound(roster);
    Counters(|MmsiValues(roster)|, |NameValues(roster)|, |NameValues(roster)| - |MmsiValues(roster)|)
  }

  /** Row `i` of the roster is the first one carrying its MMSI. */
  predicate IsFirstOccurrence(roster: seq<RosterRow>, i: int)
    requires 0 <= i < |roster|
  {
    roster[i].mmsi.Some? && forall j :: 0 <= j < i ==> roster[j].mmsi != roster[i].mmsi
  }

  /** Reference definition: the positions of the first occurrences, in roster order. */
  function FirstOccurrences(roster: seq<RosterRow>): (idx: seq<nat>)
    ensures forall k :: 0 <= k < |idx| ==> idx[k] < |roster| && IsFirstOccurrence(roster, idx[k])
    ensures forall k, l :: 0 <= k < l < |idx| ==> idx[k] < idx[l]
    ensures forall i :: 0 <= i < |roster| && IsFirstOccurrence(roster, i) ==> i in idx
    decreases |roster|
  {
    if |roster| == 0 then []
    else
      var n := |roster| - 1;
      var prev := FirstOccurrences(roster[..n]);
      assert forall k :: 0 <= k < |prev| ==> IsFirstOccurrence(roster, prev[k]) by {
        forall k | 0 <= k < |prev| ensures IsFirstOccurrence(roster, prev[k]) {
          assert IsFirstOccurrence(roster[..n], prev[k]);
        }
      }
      assert forall i :: 0 <= i < n && IsFirstOccurrence(roster, i) ==> i in prev by {
        forall i | 0 <= i < n && IsFirstOccurrence(roster, i) ensures i in prev {
          assert IsFirstOccurrence(roster[..n], i);
        }
      }
      if IsFirstOccurrence(roster, n) then prev + [n] else prev
  }

  lemma {:induction false} KeepFirstPerMmsi_Props(roster: seq<RosterRow>)
    ensures DistinctMmsi(KeepFirstPerMmsi(roster))
    ensures MmsiSet(KeepFirstPerMmsi(roster)) == MmsiValues(roster)
    decreases |roster|
  {
    if |roster| > 0 {
      var n := |roster| - 1;
      var prev := KeepFirstPerMmsi(roster[..n]);
      KeepFirstPerMmsi_Props(roster[..n]);
      MmsiValuesSnoc(roster);
      var r := roster[n];
      if !(r.mmsi.None? || r.mmsi.value in MmsiSet(prev)) {
        var v := FromRoster(r);
        MmsiSetSnoc(prev, v);
        DistinctSnoc(prev, v);
      }
    }
  }

  lemma MmsiValuesSnoc(roster: seq<RosterRow>)
    requires |roster| > 0
    ensures var n := |roster| - 1;
      MmsiValues(roster) == MmsiValues(roster[..n])
        + (if roster[n].mmsi.Some? then {roster[n].mmsi.value} else {})
  {
    var n := |roster| - 1;
    var r := roster[n];
    forall x | x in MmsiValues(roster)
      ensures x in MmsiValues(roster[..n]) + (if r.mmsi.Some? then {r.mmsi.value} else {})
    {
      var i :| 0 <= i < |roster| && roster[i].mmsi.Some? && roster[i].mmsi.value == x;
      if i < n { assert roster[..n][i] == roster[i]; }
    }
    forall x | x in MmsiValues(roster[..n]) ensures x in MmsiValues(roster) {
      var i :| 0 <= i < n && roster[..n][i].mmsi.Some? && roster[..n][i].mmsi.value == x;
      assert roster[i] == roster[..n][i];
    }
  }

  lemma MmsiSetSnoc(t: Table, v: Vessel)
    ensures MmsiSet(t + [v]) == MmsiSet(t) + {v.mmsi}
  {
    var u := t + [v];
    forall x | x in MmsiSet(u) ensures x in MmsiSet(t) + {v.mmsi} {
      var i :| 0 <= i < |u| && u[i].mmsi == x;
      if i < |t| { assert u[i] == t[i]; }
    }
    forall x | x in MmsiSet(t) ensures x in MmsiSet(u) {
      var i :| 0 <= i < |t| && t[i].mmsi == x;
      assert u[i] == t[i];
    }
    assert u[|t|].mmsi == v.mmsi;
  }

  lemma DistinctSnoc(t: Table, v: Vessel)
    requires DistinctMmsi(t) && v.mmsi !in MmsiSet(t)
    ensures DistinctMmsi(t + [v])
  {
    var u := t + [v];
    forall i, j | 0 <= i < j < |u| ensures u[i].mmsi != u[j].mmsi {
      assert u[i] == t[i];
      if j < |t| {
        assert u[j] == t[j];
      } else {
        assert t[i].mmsi in MmsiSet(t);
      }
    }
  }

  lemma {:induction false} DistinctMmsiCardinality(t: Table)
    requires DistinctMmsi(t)
    ensures |MmsiSet(t)| == |t|
    decreases |t|
  {
    if |t| > 0 {
      var n := |t| - 1;
      var s := t[..n];
      assert DistinctMmsi(s);
      DistinctMmsiCardinality(s);
      assert MmsiSet(t) == MmsiSet(s) + {t[n].mmsi} by {
        forall x | x in MmsiSet(t) ensures x in MmsiSet(s) + {t[n].mmsi} {
          var i :| 0 <= i < |t| && t[i].mmsi == x;
          if i < n { assert s[i] == t[i]; }
        }
      }
      assert t[n].mmsi !in MmsiSet(s);
    }
  }

  lemma {:induction false} NameValuesBound(roster: seq<RosterRow>)
    ensures |NameValues(roster)| <= |roster|
    decreases |roster|
  {
    if |roster| > 0 {
      var n := |roster| - 1;
      NameValuesBound(roster[..n]);
      assert NameValues(roster) <= NameValues(roster[..n]) + {roster[n].name} by {
        forall x | x in NameValues(roster) ensures x in NameValues(roster[..n]) + {roster[n].name} {
          var i :| 0 <= i < |roster| && roster[i].name == x;
          if i < n { assert roster[..n][i] == roster[i]; }
        }
      }
      assert |NameValues(roster[..n]) + {roster[n].name}| <= |NameValues(roster[..n])| + 1;
      SubsetCardinality(NameValues(roster), NameValues(roster[..n]) + {roster[n].name});
    }
  }

  lemma SubsetCardinality<T>(a: set<T>, b: set<T>)
    requires a <= b
    ensures |a| <= |b|
  {
    assert b == a + (b - a);
  }

  /** The table `filter_mmsi` builds is the sequence of first occurrences of
      each MMSI, in roster order, relabelled 0 .. n-1. */
  lemma {:induction false} FilterMmsiIsFirstOccurrences(roster: seq<RosterRow>)
    ensures |FilterMmsi(roster)| == |FirstOccurrences(roster)|
    ensures forall k :: 0 <= k < |FilterMmsi(roster)| ==>
      FilterMmsi(roster)[k] == FromRoster(roster[FirstOccurrences(roster)[k]]).(tag := k)
  {
    KeepFirstMatchesFirstOccurrences(roster);
  }

  lemma {:induction false} KeepFirstMatchesFirstOccurrences(roster: seq<RosterRow>)
    ensures |KeepFirstPerMmsi(roster)| == |FirstOccurrences(roster)|
    ensures forall k :: 0 <= k < |KeepFirstPerMmsi(roster)| ==>
      KeepFirstPerMmsi(roster)[k] == FromRoster(roster[FirstOccurrences(roster)[k]])
    decreases |roster|
  {
    if |roster| > 0 {
      var n := |roster| - 1;
      var pre := roster[..n];
      KeepFirstMatchesFirstOccurrences(pre);
      var prevI := FirstOccurrences(pre);
      assert forall k :: 0 <= k < |prevI| ==> roster[prevI[k]] == pre[prevI[k]];
      LastKeptIffFirstOccurrence(roster);
    }
  }

  /** The last roster row is appended exactly when it is the first row with its MMSI. */
  lemma LastKeptIffFirstOccurrence(roster: seq<RosterRow>)
    requires |roster| > 0
    ensures var n := |roster| - 1;
      (roster[n].mmsi.Some? && roster[n].mmsi.value !in MmsiSet(KeepFirstPerMmsi(roster[..n])))
        <==> IsFirstOccurrence(roster, n)
  {
    var n := |roster| - 1;
    var pre := roster[..n];
    KeepFirstPerMmsi_Props(pre);
    var r := roster[n];
    if r.mmsi.Some? {
      if r.mmsi.value in MmsiValues(pre) {
        var j :| 0 <= j < n && pre[j].mmsi.Some? && pre[j].mmsi.value == r.mmsi.value;
        assert roster[j].mmsi == r.mmsi;
      }
      if !IsFirstOccurrence(roster, n) {
        var j :| 0 <= j < n && roster[j].mmsi == r.mmsi;
        assert pre[j] == roster[j];
      }
    }
  }
}
