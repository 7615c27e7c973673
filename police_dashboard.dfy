/**
 * The police dashboard: the stored alerts mapped to display rows, the rows
 * sorted by severity (Critical first) with a stable sort, the statistics
 * cards, the colour classes, and the two action handlers.
 *
 * The displayed time and date are formatted from `createdAt` by the
 * browser's date and locale functions and are not part of the rows here.
 */
module PoliceDashboard {
  import opened Optional
  import ArrayOps
  import opened AccidentAlerts

  /** One row of `accidents`: the fields the dashboard copies from a stored alert. */
  datatype PoliceRow = PoliceRow(
    id: string,
    severity: Severity,
    vehicles: int,
    roadType: RoadType,
    trafficStatus: TrafficStatus,
    lat: real,
    lng: real,
    location: string,
    investigationStatus: InvestigationStatus,
    assignedHospital: string,
    assignedPoliceStation: string,
    photoDataUrl: Option<string>,
    isNew: bool)

  function ToRow(a: Alert): PoliceRow
  {
    PoliceRow(a.id, a.severity, a.vehicles, a.roadType, a.trafficStatus, a.lat, a.lng, a.location,
              a.investigationStatus, a.assignedHospital, a.assignedPoliceStation, a.photoDataUrl, a.isNew)
  }

  /** `accidents`: one row per stored alert, in the stored order. */
  function Rows(alerts: seq<Alert>): (r: seq<PoliceRow>)
    ensures |r| == |alerts|
    ensures forall i :: 0 <= i < |r| ==>
      && r[i].id == alerts[i].id
      && r[i].severity == alerts[i].severity
      && r[i].trafficStatus == alerts[i].trafficStatus
      && r[i].investigationStatus == alerts[i].investigationStatus
      && r[i].isNew == alerts[i].isNew
  {
    ArrayOps.Map(ToRow, alerts)
  }

  /** `severityOrder`: Critical 4, High 3, Medium 2, Low 1. */
  function SeverityRank(s: Severity): (r: int)
    ensures 1 <= r <= 4
    ensures r == 4 <==> s == Critical
  {
    match s
    case Critical => 4
    case High => 3
    case Medium => 2
    case Low => 1
  }

  /** The severity ranks strictly increase from Low to Critical. */
  lemma SeverityRankOrdered()
    ensures SeverityRank(Low) < SeverityRank(Medium) < SeverityRank(High) < SeverityRank(Critical)
  {
  }

  /** The sort key of a row. */
  function Rank(r: PoliceRow): real
  {
    SeverityRank(r.severity) as real
  }

  /**
   * `sortedAccidents`: a copy of `accidents` sorted by the comparator
   * `severityOrder[b.severity] - severityOrder[a.severity]`. The copy is
   * sorted, so `accidents` itself is left as it was.
   */
  function SortedAccidents(rows: seq<PoliceRow>): (r: seq<PoliceRow>)
    ensures multiset(r) == multiset(rows) && |r| == |rows|
  {
    ArrayOps.SortDesc(rows, Rank)
  }

  /**
   * The sorted rows are a permutation of the rows with non-increasing rank,
   * rows of equal severity keep their relative order, and that pins the
   * result down: it is the only such arrangement.
   */
  lemma SortedAccidentsSpec(rows: seq<PoliceRow>)
    ensures var r := SortedAccidents(rows);
      && multiset(r) == multiset(rows)
      && (forall i, j :: 0 <= i < j < |r| ==> SeverityRank(r[i].severity) >= SeverityRank(r[j].severity))
      && (forall k :: ArrayOps.Tied(r, Rank, k) == ArrayOps.Tied(rows, Rank, k))
  {
    ArrayOps.SortDescSorted(rows, Rank);
    forall k ensures ArrayOps.Tied(SortedAccidents(rows), Rank, k) == ArrayOps.Tied(rows, Rank, k) {
      ArrayOps.SortDescStable(rows, Rank, k);
    }
  }

  /** Any permutation of the rows that is in severity order and keeps ties in order is `SortedAccidents`. */
  lemma SortedAccidentsUnique(rows: seq<PoliceRow>, r: seq<PoliceRow>)
    requires multiset(r) == multiset(rows)
    requires forall i, j :: 0 <= i < j < |r| ==> SeverityRank(r[i].severity) >= SeverityRank(r[j].severity)
    requires forall k :: ArrayOps.Tied(r, Rank, k) == ArrayOps.Tied(rows, Rank, k)
    ensures r == SortedAccidents(rows)
  {
    ArrayOps.StableSortIsUnique(rows, r, Rank);
  }

  predicate IsBlocked(r: PoliceRow) { r.trafficStatus == RoadBlocked }
  predicate IsCleared(r: PoliceRow) { r.trafficStatus == Cleared }
  predicate IsUnderInvestigation(r: PoliceRow) { r.investigationStatus == UnderInvestigation }

  /** The statistics cards. */
  datatype Stats = Stats(totalAccidents: nat, blockedCount: nat, underInvestigationCount: nat, clearedCount: nat)

  function Statistics(rows: seq<PoliceRow>): (s: Stats)
    ensures s.totalAccidents == |rows|
    ensures s.blockedCount + s.clearedCount <= s.totalAccidents
    ensures s.underInvestigationCount <= s.totalAccidents
    ensures s.blockedCount == 0 <==> forall i :: 0 <= i < |rows| ==> rows[i].trafficStatus != RoadBlocked
    ensures s.clearedCount == 0 <==> forall i :: 0 <= i < |rows| ==> rows[i].trafficStatus != Cleared
    ensures s.underInvestigationCount == 0 <==> forall i :: 0 <= i < |rows| ==> rows[i].investigationStatus != UnderInvestigation
  {
    ArrayOps.CountDisjoint(rows, IsBlocked, IsCleared);
    Stats(|rows|, ArrayOps.Count(rows, IsBlocked), ArrayOps.Count(rows, IsUnderInvestigation), ArrayOps.Count(rows, IsCleared))
  }

  /**
   * Each card counts exact matches: one more row in front adds one to the
   * total and one to each count whose status that row has, and nothing else.
   */
  lemma StatisticsCons(r: PoliceRow, rows: seq<PoliceRow>)
    ensures var before, after := Statistics(rows), Statistics([r] + rows);
      && after.totalAccidents == before.totalAccidents + 1
      && after.blockedCount == before.blockedCount + (if r.trafficStatus == RoadBlocked then 1 else 0)
      && after.underInvestigationCount == before.underInvestigationCount + (if r.investigationStatus == UnderInvestigation then 1 else 0)
      && after.clearedCount == before.clearedCount + (if r.trafficStatus == Cleared then 1 else 0)
  {
    ArrayOps.CountCons(r, rows, IsBlocked);
    ArrayOps.CountCons(r, rows, IsUnderInvestigation);
    ArrayOps.CountCons(r, rows, IsCleared);
  }

  /** Counts add up over the two halves of a list of rows. */
  lemma StatisticsAppend(a: seq<PoliceRow>, b: seq<PoliceRow>)
    ensures var sa, sb, s := Statistics(a), Statistics(b), Statistics(a + b);
      && s.totalAccidents == sa.totalAccidents + sb.totalAccidents
      && s.blockedCount == sa.blockedCount + sb.blockedCount
      && s.underInvestigationCount == sa.underInvestigationCount + sb.underInvestigationCount
      && s.clearedCount == sa.clearedCount + sb.clearedCount
  {
    ArrayOps.CountAppend(a, b, IsBlocked);
    ArrayOps.CountAppend(a, b, IsUnderInvestigation);
    ArrayOps.CountAppend(a, b, IsCleared);
  }

  /** `getSeverityColor`. */
  function SeverityColor(s: Severity): string
  {
    match s
    case Critical => "bg-red-600 text-white"
    case High => "bg-orange-500 text-white"
    case Medium => "bg-yellow-500 text-black"
    case Low => "bg-green-500 text-white"
  }

  /** Each severity has its own colour. */
  lemma SeverityColorDistinct(s: Severity, t: Severity)
    ensures SeverityColor(s) == SeverityColor(t) <==> s == t
  {
    if s != t {
      assert SeverityColor(s)[3] != SeverityColor(t)[3];
    }
  }

  /** `getTrafficStatusColor`. */
  function TrafficStatusColor(s: TrafficStatus): string
  {
    match s
    case RoadBlocked => "bg-red-600 text-white"
    case Diverted => "bg-orange-500 text-white"
    case Cleared => "bg-green-500 text-white"
  }

  /** Each traffic status has its own colour, the colour of the severity it signals. */
  lemma TrafficStatusColorDistinct(s: TrafficStatus, t: TrafficStatus)
    ensures TrafficStatusColor(s) == TrafficStatusColor(t) <==> s == t
    ensures TrafficStatusColor(RoadBlocked) == SeverityColor(Critical)
    ensures TrafficStatusColor(Cleared) == SeverityColor(Low)
  {
    if s != t {
      assert TrafficStatusColor(s)[3] != TrafficStatusColor(t)[3];
    }
  }

  /** A toast notification. */
  datatype Toast = Toast(title: string, description: string)

  function InvestigationStatusText(s: InvestigationStatus): string
  {
    match s
    case InvestigationPending => "Pending"
    case UnderInvestigation => "Under Investigation"
    case Completed => "Completed"
  }

  /** `handleStatusChange`: only a toast naming the new status; the store is not written. */
  method HandleStatusChange(store: AlertStore, alertId: string, status: InvestigationStatus) returns (t: Toast)
    ensures t == Toast("Status Updated", "Investigation status changed to " + InvestigationStatusText(status))
    ensures store.alerts == old(store.alerts)
  {
    t := Toast("Status Updated", "Investigation status changed to " + InvestigationStatusText(status));
  }

  /** `handleRoadCleared`: only a toast; the store is not written. */
  method HandleRoadCleared(store: AlertStore, alertId: string) returns (t: Toast)
    ensures t == Toast("Road Cleared", "Traffic status updated and investigation marked as completed")
    ensures store.alerts == old(store.alerts)
  {
    t := Toast("Road Cleared", "Traffic status updated and investigation marked as completed");
  }
}
