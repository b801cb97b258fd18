/** The maintenance alerts of one car: next service by distance, registration and insurance by whole days, issues. */
module MaintenanceAlerts {
  import opened Wrappers
  import opened Rental

  const SERVICE_INTERVAL: int := 10_000
  const CRITICAL_KM_THRESHOLD: int := 500
  const WARNING_KM_THRESHOLD: int := 2_000
  const CRITICAL_DAYS_THRESHOLD: int := 7
  const WARNING_DAYS_THRESHOLD: int := 30

  datatype Document = Registration | Insurance

  /** A car's records, the latest first: the mileage at each service, and when each document expires. */
  datatype CarFile = CarFile(
    mileage: Option<nat>,
    services: seq<Option<nat>>,
    registrations: seq<Millis>,
    insurances: seq<Millis>,
    openIssues: nat)

  datatype Urgency = Critical | Warning

  datatype Alert =
    | NoServiceHistory
    | ServiceOverdue
    | ServiceCritical(kmRemaining: int)
    | ServiceWarning(kmRemaining: int)
    | NoDocument(document: Document)
    | DocumentExpired(document: Document)
    | DocumentCritical(document: Document, daysRemaining: int)
    | DocumentWarning(document: Document, daysRemaining: int)
    | IssuesCritical(count: nat)
    | IssuesWarning(count: nat)

  function UrgencyOf(a: Alert): Urgency {
    if a.ServiceOverdue? || a.ServiceCritical? || a.DocumentExpired? || a.DocumentCritical? || a.IssuesCritical?
    then Critical else Warning
  }

  function Latest<T>(records: seq<T>): Option<T> {
    if records == [] then None else Some(records[0])
  }

  function Expiry(file: CarFile, document: Document): Option<Millis> {
    match document
    case Registration => Latest(file.registrations)
    case Insurance => Latest(file.insurances)
  }

  function Max(a: int, b: int): int {
    if a >= b then a else b
  }

  function KmRemaining(mileage: nat, mileageAtService: nat): int {
    SERVICE_INTERVAL - Max(0, mileage - mileageAtService)
  }

  /** `Math.ceil((expiry - now) / day)`. */
  function DaysRemaining(expiry: Millis, now: Millis): int {
    -((now - expiry) / MILLIS_PER_DAY)
  }

  function GenerateServiceAlert(file: CarFile): Option<Alert> {
    match Latest(file.services)
    case None => Some(NoServiceHistory)
    case Some(mileageAtService) =>
      var kmRemaining := KmRemaining(file.mileage.GetOr(0), mileageAtService.GetOr(0));
      if kmRemaining <= 0 then Some(ServiceOverdue)
      else if kmRemaining < CRITICAL_KM_THRESHOLD then Some(ServiceCritical(kmRemaining))
      else if kmRemaining < WARNING_KM_THRESHOLD then Some(ServiceWarning(kmRemaining))
      else None
  }

  function GenerateDocumentAlert(document: Document, expiry: Option<Millis>, now: Millis): Option<Alert> {
    if expiry.None? then Some(NoDocument(document))
    else
      var daysRemaining := DaysRemaining(expiry.value, now);
      if daysRemaining < 0 then Some(DocumentExpired(document))
      else if daysRemaining < CRITICAL_DAYS_THRESHOLD then Some(DocumentCritical(document, daysRemaining))
      else if daysRemaining < WARNING_DAYS_THRESHOLD then Some(DocumentWarning(document, daysRemaining))
      else None
  }

  function GenerateIssueAlert(count: nat): Option<Alert> {
    if count == 0 then None
    else if count >= 3 then Some(IssuesCritical(count))
    else Some(IssuesWarning(count))
  }

  function DocumentAlert(file: CarFile, document: Document, now: Millis): Option<Alert> {
    GenerateDocumentAlert(document, Expiry(file, document), now)
  }

  /** What is raised about a car: at most one alert for each of the four concerns. */
  predicate Raised(file: CarFile, now: Millis, a: Alert) {
    || GenerateServiceAlert(file) == Some(a)
    || DocumentAlert(file, Registration, now) == Some(a)
    || DocumentAlert(file, Insurance, now) == Some(a)
    || GenerateIssueAlert(file.openIssues) == Some(a)
  }

  function ConcernOf(a: Alert): nat {
    match a
    case NoServiceHistory => 0
    case ServiceOverdue => 0
    case ServiceCritical(_) => 0
    case ServiceWarning(_) => 0
    case IssuesCritical(_) => 3
    case IssuesWarning(_) => 3
    case _ => if a.document == Registration then 1 else 2
  }

  method GenerateAlerts(file: CarFile, now: Millis) returns (alerts: seq<Alert>)
    ensures forall a :: a in alerts <==> Raised(file, now, a)
    ensures forall i, j | 0 <= i < j < |alerts| :: ConcernOf(alerts[i]) < ConcernOf(alerts[j])
  {
    alerts := [];
    var serviceAlert := GenerateServiceAlert(file);
    if serviceAlert.Some? {
      alerts := alerts + [serviceAlert.value];
    }
    var registrationAlert := DocumentAlert(file, Registration, now);
    if registrationAlert.Some? {
      alerts := alerts + [registrationAlert.value];
    }
    var insuranceAlert := DocumentAlert(file, Insurance, now);
    if insuranceAlert.Some? {
      alerts := alerts + [insuranceAlert.value];
    }
    var issueAlert := GenerateIssueAlert(file.openIssues);
    if issueAlert.Some? {
      alerts := alerts + [issueAlert.value];
    }
  }

  /** The order of a list by concerns: service, registration, insurance, issues. */
  lemma ConcernsInOrder(alerts: seq<Alert>, i: nat, j: nat)
    requires forall k, l | 0 <= k < l < |alerts| :: ConcernOf(alerts[k]) < ConcernOf(alerts[l])
    requires i < |alerts| && j < |alerts|
    ensures AboutService(alerts[i]) ==> i == 0
    ensures alerts[i].IssuesCritical? || alerts[i].IssuesWarning? ==> i == |alerts| - 1
    ensures AboutDocument(alerts[i], Registration) && AboutDocument(alerts[j], Insurance) ==> i < j
  {
    assert i > 0 ==> ConcernOf(alerts[0]) < ConcernOf(alerts[i]);
    assert i < |alerts| - 1 ==> ConcernOf(alerts[i]) < ConcernOf(alerts[|alerts| - 1]);
  }

  predicate AboutService(a: Alert) {
    a.NoServiceHistory? || a.ServiceOverdue? || a.ServiceCritical? || a.ServiceWarning?
  }

  predicate AboutDocument(a: Alert, document: Document) {
    (a.NoDocument? || a.DocumentExpired? || a.DocumentCritical? || a.DocumentWarning?) && a.document == document
  }

  datatype AlertSummary = AlertSummary(critical: nat, warnings: nat, total: nat)

  function CountOf(alerts: seq<Alert>, u: Urgency): nat {
    if alerts == [] then 0 else (if UrgencyOf(alerts[0]) == u then 1 else 0) + CountOf(alerts[1..], u)
  }

  function GenerateSummary(alerts: seq<Alert>): AlertSummary {
    AlertSummary(CountOf(alerts, Critical), CountOf(alerts, Warning), |alerts|)
  }

  /** One alert more raises the total and the count of its urgency by one; nothing is counted of nothing. */
  lemma {:induction false} SummaryCountsEach(alerts: seq<Alert>, a: Alert)
    ensures GenerateSummary([]) == AlertSummary(0, 0, 0)
    ensures var s := GenerateSummary(alerts);
            GenerateSummary(alerts + [a])
            == if UrgencyOf(a) == Critical then AlertSummary(s.critical + 1, s.warnings, s.total + 1)
               else AlertSummary(s.critical, s.warnings + 1, s.total + 1)
  {
    if alerts == [] {
      assert alerts + [a] == [a];
    } else {
      assert (alerts + [a])[1..] == alerts[1..] + [a];
      SummaryCountsEach(alerts[1..], a);
    }
  }

  /** No alert is of urgency `ok`, so the summary's two counts make up its total. */
  lemma {:induction false} SummaryAddsUp(alerts: seq<Alert>)
    ensures GenerateSummary(alerts).critical + GenerateSummary(alerts).warnings == GenerateSummary(alerts).total
  {
    if alerts != [] {
      SummaryAddsUp(alerts[1..]);
    }
  }

  // ---------- When alerts are raised, in kilometres, instants and counts ----------

  /** The kilometres since the latest service; none if the mileage was set back since. */
  function KmSince(file: CarFile): nat
    requires file.services != []
  {
    var driven, serviced := file.mileage.GetOr(0), file.services[0].GetOr(0);
    if driven > serviced then driven - serviced else 0
  }

  /** Overdue from 10,000 km on, critical with less than 500 km left, a warning with less than 2,000 km left. */
  lemma ServiceAlertsExactly(file: CarFile, now: Millis, left: int)
    ensures Raised(file, now, NoServiceHistory) <==> file.services == []
    ensures Raised(file, now, ServiceOverdue) <==> file.services != [] && KmSince(file) >= 10_000
    ensures Raised(file, now, ServiceCritical(left)) <==>
            file.services != [] && 1 <= left < 500 && left == 10_000 - KmSince(file)
    ensures Raised(file, now, ServiceWarning(left)) <==>
            file.services != [] && 500 <= left < 2_000 && left == 10_000 - KmSince(file)
  {
  }

  /** When the records of a document say that it expires. */
  function Records(file: CarFile, document: Document): seq<Millis> {
    if document.Registration? then file.registrations else file.insurances
  }

  /** Expired a whole day ago or longer; up to 6 and up to 29 days left, each begun day counting as one. */
  lemma DocumentAlertsExactly(file: CarFile, now: Millis, document: Document, days: int)
    ensures Raised(file, now, NoDocument(document)) <==> Records(file, document) == []
    ensures Records(file, document) != [] ==>
              && var left := Records(file, document)[0] - now;
                 var begun := (days - 1) * MILLIS_PER_DAY < left <= days * MILLIS_PER_DAY;
                 && (Raised(file, now, DocumentExpired(document)) <==> left <= -MILLIS_PER_DAY)
                 && (Raised(file, now, DocumentCritical(document, days)) <==> 0 <= days <= 6 && begun)
                 && (Raised(file, now, DocumentWarning(document, days)) <==> 7 <= days <= 29 && begun)
    ensures Records(file, document) == [] ==>
              && !Raised(file, now, DocumentExpired(document))
              && !Raised(file, now, DocumentCritical(document, days))
              && !Raised(file, now, DocumentWarning(document, days))
  {
  }

  /** One or two open issues are a warning, three and more critical, with their number. */
  lemma IssueAlertsExactly(file: CarFile, now: Millis, count: nat)
    ensures Raised(file, now, IssuesCritical(count)) <==> count == file.openIssues >= 3
    ensures Raised(file, now, IssuesWarning(count)) <==> count == file.openIssues && 1 <= count <= 2
  {
  }

  ghost predicate SomeAlert(file: CarFile, now: Millis, u: Urgency) {
    exists a :: Raised(file, now, a) && UrgencyOf(a) == u
  }

  predicate ExpiresWithin(file: CarFile, document: Document, now: Millis, days: int) {
    Records(file, document) != [] && Records(file, document)[0] - now <= days * MILLIS_PER_DAY
  }

  lemma DocumentUrgency(file: CarFile, document: Document, now: Millis)
    ensures DocumentAlert(file, document, now).Some? && UrgencyOf(DocumentAlert(file, document, now).value) == Critical
            <==> ExpiresWithin(file, document, now, 6)
    ensures DocumentAlert(file, document, now).Some? && UrgencyOf(DocumentAlert(file, document, now).value) == Warning
            <==> !ExpiresWithin(file, document, now, 6)
                 && (Records(file, document) == [] || ExpiresWithin(file, document, now, 29))
  {
  }

  /** When a car has a critical alert: a service due within 500 km, a document within 6 days, or three open issues. */
  lemma CriticalExactlyWhen(file: CarFile, now: Millis)
    ensures SomeAlert(file, now, Critical) <==>
            || (file.services != [] && KmSince(file) > 9_500)
            || ExpiresWithin(file, Registration, now, 6) || ExpiresWithin(file, Insurance, now, 6)
            || file.openIssues >= 3
  {
    DocumentUrgency(file, Registration, now);
    DocumentUrgency(file, Insurance, now);
    ByConcern(file, now, Critical);
  }

  /** An alert of some urgency is one of the four. */
  lemma ByConcern(file: CarFile, now: Millis, u: Urgency)
    ensures SomeAlert(file, now, u) <==>
            || (GenerateServiceAlert(file).Some? && UrgencyOf(GenerateServiceAlert(file).value) == u)
            || (DocumentAlert(file, Registration, now).Some?
                && UrgencyOf(DocumentAlert(file, Registration, now).value) == u)
            || (DocumentAlert(file, Insurance, now).Some?
                && UrgencyOf(DocumentAlert(file, Insurance, now).value) == u)
            || (GenerateIssueAlert(file.openIssues).Some?
                && UrgencyOf(GenerateIssueAlert(file.openIssues).value) == u)
  {
    forall a | Some(a) in {GenerateServiceAlert(file), DocumentAlert(file, Registration, now),
                           DocumentAlert(file, Insurance, now), GenerateIssueAlert(file.openIssues)}
      ensures Raised(file, now, a)
    {
    }
  }

  lemma DaysRemainingIsTheCeiling(expiry: Millis, now: Millis, n: int)
    ensures DaysRemaining(expiry, now) <= n <==> expiry - now <= n * MILLIS_PER_DAY
  {
  }
}
