/**
 * The hospital dashboard: the stored alerts mapped to display rows with a
 * numeric id, the new-alert badge, the statistics cards and the status
 * colour. The rows' display order is not modelled (see the README).
 */
module HospitalDashboard {
  import opened Optional
  import ArrayOps
  import opened AccidentAlerts

  predicate IsDigit(c: char) { '0' as int <= c as int <= '9' as int }

  /** `s.replace(/\D/g, "")`: the decimal digits of `s`, in order. */
  function Digits(s: string): (r: string)
    ensures |r| <= |s|
    ensures forall i :: 0 <= i < |r| ==> IsDigit(r[i])
    ensures (forall i :: 0 <= i < |s| ==> IsDigit(s[i])) ==> r == s
  {
    if s == [] then []
    else (if IsDigit(s[0]) then [s[0]] else []) + Digits(s[1..])
  }

  /** `s.slice(-6)`: the last six characters, or all of a shorter string. */
  function LastSix(s: string): (r: string)
    ensures |r| == if |s| < 6 then |s| else 6
    ensures r == s[|s| - |r|..]
  {
    if |s| <= 6 then s else s[|s| - 6..]
  }

  /** Removing the non-digits of a concatenation removes them from each part, in order. */
  lemma {:induction false} DigitsAppend(s: string, t: string)
    ensures Digits(s + t) == Digits(s) + Digits(t)
    decreases |s|
  {
    if s == [] {
      assert s + t == t;
    } else {
      var h := if IsDigit(s[0]) then [s[0]] else [];
      assert (s + t)[0] == s[0] && (s + t)[1..] == s[1..] + t;
      calc {
        Digits(s + t);
        h + Digits(s[1..] + t);
        { DigitsAppend(s[1..], t); }
        h + (Digits(s[1..]) + Digits(t));
        (h + Digits(s[1..])) + Digits(t);
        Digits(s) + Digits(t);
      }
    }
  }

  /** A single character is kept exactly when it is a digit. */
  lemma DigitsOne(c: char)
    ensures Digits([c]) == if IsDigit(c) then [c] else []
  {
    assert [c][1..] == [];
  }

  function Pow10(n: nat): (r: nat)
    ensures r >= 1
  {
    if n == 0 then 1 else 10 * Pow10(n - 1)
  }

  /** Every character is '0' (true of the empty string). */
  predicate AllZeros(ds: string)
  {
    forall i :: 0 <= i < |ds| ==> ds[i] == '0'
  }

  /** `Number(ds)` for a string of decimal digits (the empty string gives 0). */
  function DecimalValue(ds: string): (v: nat)
    requires forall i :: 0 <= i < |ds| ==> IsDigit(ds[i])
    ensures v < Pow10(|ds|)
    ensures v == 0 <==> AllZeros(ds)
    ensures ds != [] ==> v % 10 == ds[|ds| - 1] as int - '0' as int
    decreases |ds|
  {
    if ds == [] then 0
    else
      var front := ds[..|ds| - 1];
      var digit := ds[|ds| - 1] as int - '0' as int;
      assert IsDigit(ds[|ds| - 1]);
      assert Pow10(|ds|) == 10 * Pow10(|front|);
      assert digit == 0 <==> ds[|ds| - 1] == '0';
      assert AllZeros(ds) <==> AllZeros(front) && ds[|ds| - 1] == '0';
      DecimalValue(front) * 10 + digit
  }

  /**
   * The row id: the number formed by the last six digits of the alert id.
   * When that number is 0 (no digits, or only zeros) the page falls back to
   * a random number, which is `None` here.
   */
  function NumericId(id: string): (r: Option<nat>)
    ensures r.Some? ==> 0 < r.value < 1000000
    ensures r == None <==> AllZeros(LastSix(Digits(id)))
    ensures r.Some? ==> r.value == DecimalValue(LastSix(Digits(id)))
  {
    var ds := LastSix(Digits(id));
    assert Pow10(|ds|) <= 1000000 by { Pow10Mono(|ds|, 6); }
    var v := DecimalValue(ds);
    if v == 0 then None else Some(v)
  }

  lemma {:induction false} Pow10Mono(m: nat, n: nat)
    requires m <= n
    ensures Pow10(m) <= Pow10(n)
    decreases n
  {
    if m < n {
      Pow10Mono(m, n - 1);
    }
  }

  /** An id with no digits at all falls back to the random id. */
  lemma NoDigitsNoId(id: string)
    requires forall i :: 0 <= i < |id| ==> !IsDigit(id[i])
    ensures NumericId(id) == None
  {
    assert Digits(id) == [] by { NoDigitsEmpty(id); }
  }

  lemma {:induction false} NoDigitsEmpty(s: string)
    requires forall i :: 0 <= i < |s| ==> !IsDigit(s[i])
    ensures Digits(s) == []
    decreases |s|
  {
    if s != [] {
      NoDigitsEmpty(s[1..]);
    }
  }

  /** One row of `accidents`. */
  datatype HospitalRow = HospitalRow(
    id: Option<nat>,
    severity: Severity,
    injured: int,
    status: HospitalStatus,
    lat: real,
    lng: real,
    location: string,
    isNewRow: bool,
    assignedHospital: string,
    assignedPoliceStation: string,
    photoDataUrl: Option<string>)

  function ToRow(a: Alert): HospitalRow
  {
    HospitalRow(NumericId(a.id), a.severity, a.injured, a.hospitalStatus, a.lat, a.lng, a.location,
                a.isNew, a.assignedHospital, a.assignedPoliceStation, a.photoDataUrl)
  }

  /** `accidents`: one row per stored alert, in the stored order. */
  function Rows(alerts: seq<Alert>): (r: seq<HospitalRow>)
    ensures |r| == |alerts|
    ensures forall i :: 0 <= i < |r| ==>
      && r[i].severity == alerts[i].severity
      && r[i].injured == alerts[i].injured
      && r[i].status == alerts[i].hospitalStatus
      && r[i].isNewRow == alerts[i].isNew
  {
    ArrayOps.Map(ToRow, alerts)
  }

  /** Rows of a list with one more alert in front. */
  lemma RowsCons(a: Alert, alerts: seq<Alert>)
    ensures Rows([a] + alerts) == [ToRow(a)] + Rows(alerts)
  {
    ArrayOps.MapCons(ToRow, a, alerts);
  }

  predicate IsNew(r: HospitalRow) { r.isNewRow }
  predicate IsCritical(r: HospitalRow) { r.severity == Critical }
  predicate IsPending(r: HospitalRow) { r.status == HospitalPending }

  /** `accidents.reduce((sum, a) => sum + a.injured, 0)`. */
  function TotalInjured(rows: seq<HospitalRow>): (n: int)
    ensures rows == [] ==> n == 0
    ensures (forall i :: 0 <= i < |rows| ==> rows[i].injured >= 0) ==> n >= 0
    decreases |rows|
  {
    if rows == [] then 0 else TotalInjured(rows[..|rows| - 1]) + rows[|rows| - 1].injured
  }

  /** The sum seen from the front: the first row's injured plus the rest's. */
  lemma {:induction false} TotalInjuredCons(r: HospitalRow, rows: seq<HospitalRow>)
    ensures TotalInjured([r] + rows) == r.injured + TotalInjured(rows)
    decreases |rows|
  {
    if rows != [] {
      var front := rows[..|rows| - 1];
      TotalInjuredCons(r, front);
      assert ([r] + rows)[..|rows|] == [r] + front;
    }
  }

  /** The statistics cards and the badge count. */
  datatype Stats = Stats(newAccidentsCount: nat, totalAccidents: nat, criticalCount: nat, pendingCount: nat, totalInjured: int)

  function Statistics(rows: seq<HospitalRow>): (s: Stats)
    ensures s.totalAccidents == |rows|
    ensures s.newAccidentsCount <= s.totalAccidents
    ensures s.criticalCount <= s.totalAccidents
    ensures s.pendingCount <= s.totalAccidents
    ensures s.newAccidentsCount == 0 <==> forall i :: 0 <= i < |rows| ==> !rows[i].isNewRow
    ensures s.criticalCount == 0 <==> forall i :: 0 <= i < |rows| ==> rows[i].severity != Critical
    ensures s.pendingCount == 0 <==> forall i :: 0 <= i < |rows| ==> rows[i].status != HospitalPending
    ensures rows == [] ==> s.totalInjured == 0
  {
    Stats(ArrayOps.Count(rows, IsNew), |rows|, ArrayOps.Count(rows, IsCritical), ArrayOps.Count(rows, IsPending), TotalInjured(rows))
  }

  /**
   * Publishing an alert adds one accident, adds its injured to the total,
   * and adds one to the badge, critical and pending counts exactly when it
   * is new, critical and pending respectively.
   */
  lemma PublishUpdatesStatistics(alerts: seq<Alert>, a: Alert)
    ensures var before := Statistics(Rows(alerts));
      var after := Statistics(Rows([a] + alerts));
      && after.totalAccidents == before.totalAccidents + 1
      && after.newAccidentsCount == before.newAccidentsCount + (if a.isNew then 1 else 0)
      && after.criticalCount == before.criticalCount + (if a.severity == Critical then 1 else 0)
      && after.pendingCount == before.pendingCount + (if a.hospitalStatus == HospitalPending then 1 else 0)
      && after.totalInjured == before.totalInjured + a.injured
  {
    RowsCons(a, alerts);
    ArrayOps.CountCons(ToRow(a), Rows(alerts), IsNew);
    ArrayOps.CountCons(ToRow(a), Rows(alerts), IsCritical);
    ArrayOps.CountCons(ToRow(a), Rows(alerts), IsPending);
    TotalInjuredCons(ToRow(a), Rows(alerts));
  }

  /** The new alerts with this id. */
  function NewWithId(alertId: string): Alert -> bool
  {
    (a: Alert) => a.isNew && a.id == alertId
  }

  /**
   * Marking an id as not new lowers the badge count by the number of new
   * alerts that carry that id, and by nothing else.
   */
  lemma {:induction false} MarkLowersNewCount(alerts: seq<Alert>, alertId: string)
    ensures Statistics(Rows(MarkedNotNew(alerts, alertId))).newAccidentsCount
      + ArrayOps.Count(alerts, NewWithId(alertId))
      == Statistics(Rows(alerts)).newAccidentsCount
    decreases |alerts|
  {
    if alerts != [] {
      var a, rest := alerts[0], alerts[1..];
      assert alerts == [a] + rest;
      var m := if a.id == alertId then a.(isNew := false) else a;
      MarkedNotNewCons(rest, a, alertId);
      MarkLowersNewCount(rest, alertId);
      RowsCons(a, rest);
      RowsCons(m, MarkedNotNew(rest, alertId));
      ArrayOps.CountCons(ToRow(a), Rows(rest), IsNew);
      ArrayOps.CountCons(ToRow(m), Rows(MarkedNotNew(rest, alertId)), IsNew);
      ArrayOps.CountCons(a, rest, NewWithId(alertId));
    }
  }

  /** `getStatusColor`: green when the ambulance is dispatched, yellow otherwise. */
  function StatusColor(s: HospitalStatus): (c: string)
    ensures c == "bg-green-500 text-white" <==> s == AmbulanceDispatched
    ensures c == "bg-yellow-500 text-black" <==> s != AmbulanceDispatched
  {
    if s == AmbulanceDispatched then "bg-green-500 text-white" else "bg-yellow-500 text-black"
  }

  /** The badge text: the count, then "New Alert" or "New Alerts". */
  datatype Badge = Badge(count: nat, noun: string)

  /** The new-alert badge: shown only for a positive count, with a plural noun above 1. */
  function NewAlertBadge(count: nat): (b: Option<Badge>)
    ensures b.Some? <==> count > 0
    ensures b.Some? ==> b.value.count == count
    ensures b.Some? ==> (b.value.noun == "New Alerts" <==> count > 1)
    ensures b.Some? ==> (b.value.noun == "New Alert" <==> count == 1)
  {
    if count > 0 then Some(Badge(count, "New Alert" + (if count > 1 then "s" else ""))) else None
  }
}
