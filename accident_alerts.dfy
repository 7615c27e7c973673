/**
 * The shared accident-alert list that the detection panel publishes to and
 * the police and hospital dashboards read. The browser keeps it as a JSON
 * string in local storage; here the persisted list is the `alerts` field of
 * an `AlertStore`, and `JSON.parse` is an abstract outcome.
 */
module AccidentAlerts {
  import opened Optional

  datatype Severity = Low | Medium | High | Critical
  datatype HospitalStatus = AmbulanceDispatched | HospitalPending
  datatype TrafficStatus = RoadBlocked | Diverted | Cleared
  datatype InvestigationStatus = InvestigationPending | UnderInvestigation | Completed
  datatype RoadType = Highway | City | Junction
  datatype Source = Image | Video

  /** One stored alert; the optional fields are `confidence` and `photoDataUrl`. */
  datatype Alert = Alert(
    id: string,
    createdAt: string,
    severity: Severity,
    confidence: Option<real>,
    lat: real,
    lng: real,
    location: string,
    assignedHospital: string,
    assignedPoliceStation: string,
    injured: int,
    vehicles: int,
    roadType: RoadType,
    photoDataUrl: Option<string>,
    source: Source,
    hospitalStatus: HospitalStatus,
    trafficStatus: TrafficStatus,
    investigationStatus: InvestigationStatus,
    isNew: bool)

  /** What `JSON.parse` makes of the stored text: it throws, or gives a non-array, or an array of alerts. */
  datatype Parsed = Threw | NotArray | AlertArray(items: seq<Alert>)

  /**
   * `safeParseAlerts`: a missing or empty text, a parse that throws and a
   * parsed value that is not an array all give the empty list; an array is
   * taken as the list of alerts. `parse` is only consulted for non-empty text.
   */
  function SafeParseAlerts(raw: Option<string>, parse: string -> Parsed): (r: seq<Alert>)
    ensures (raw == None || raw == Some("")) ==> r == []
    ensures raw.Some? && raw.value != "" && !parse(raw.value).AlertArray? ==> r == []
    ensures raw.Some? && raw.value != "" && parse(raw.value).AlertArray? ==> r == parse(raw.value).items
    ensures r != [] ==> raw.Some? && parse(raw.value) == AlertArray(r)
  {
    match raw
    case None => []
    case Some(text) =>
      if text == "" then []
      else
        match parse(text)
        case AlertArray(items) => items
        case _ => []
  }

  /** `alerts.map(a => a.id === alertId ? { ...a, isNew: false } : a)`. */
  function MarkedNotNew(alerts: seq<Alert>, alertId: string): (r: seq<Alert>)
    ensures |r| == |alerts|
  {
    seq(|alerts|, i requires 0 <= i < |alerts| => if alerts[i].id == alertId then alerts[i].(isNew := false) else alerts[i])
  }

  /**
   * Marking keeps length and order: each alert keeps every field but `isNew`,
   * which is cleared exactly on the alerts with the given id.
   */
  lemma MarkedNotNewFields(alerts: seq<Alert>, alertId: string)
    ensures var r := MarkedNotNew(alerts, alertId);
      |r| == |alerts|
      && (forall i :: 0 <= i < |r| ==> r[i].(isNew := alerts[i].isNew) == alerts[i])
      && (forall i :: 0 <= i < |r| ==> r[i].isNew == (alerts[i].isNew && alerts[i].id != alertId))
  {
  }

  /** An id no alert has leaves the list as it was. */
  lemma MarkUnknownIdUnchanged(alerts: seq<Alert>, alertId: string)
    requires forall i :: 0 <= i < |alerts| ==> alerts[i].id != alertId
    ensures MarkedNotNew(alerts, alertId) == alerts
  {
  }

  /** Marking the same id twice is marking it once. */
  lemma MarkIdempotent(alerts: seq<Alert>, alertId: string)
    ensures MarkedNotNew(MarkedNotNew(alerts, alertId), alertId) == MarkedNotNew(alerts, alertId)
  {
  }

  /** Marking a list with an alert in front marks that alert and the rest independently. */
  lemma MarkedNotNewCons(alerts: seq<Alert>, alert: Alert, alertId: string)
    ensures MarkedNotNew([alert] + alerts, alertId)
      == [if alert.id == alertId then alert.(isNew := false) else alert] + MarkedNotNew(alerts, alertId)
  {
  }

  /** The persisted alert list. */
  class AlertStore {
    var alerts: seq<Alert>

    /** A store over the list that was persisted before. */
    constructor (stored: seq<Alert>)
      ensures alerts == stored
    {
      alerts := stored;
    }

    /**
     * `publishAccidentAlert`: the new alert goes in front; every stored alert
     * follows, unchanged and in its order.
     */
    method Publish(alert: Alert)
      modifies this
      ensures alerts == [alert] + old(alerts)
      ensures alerts[0] == alert && |alerts| == |old(alerts)| + 1 && alerts[1..] == old(alerts)
    {
      var next := [alert] + alerts;
      alerts := next;
    }

    /** `markAlertNotNew`: the stored list with `isNew` cleared on the alerts with this id. */
    method MarkNotNew(alertId: string)
      modifies this
      ensures alerts == MarkedNotNew(old(alerts), alertId)
    {
      var next := MarkedNotNew(alerts, alertId);
      alerts := next;
    }
  }
}
