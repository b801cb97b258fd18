/**
 The maintenance summary of a fleet: one loop over the cars with counters and two flags per car. It
 judges documents by comparing instants, where the alerts of a single car count whole days.
 */
module FleetMaintenance {
  import opened Wrappers
  import opened Rental
  import opened MaintenanceAlerts

  const SEVEN_DAYS: int := 7 * MILLIS_PER_DAY
  const THIRTY_DAYS: int := 30 * MILLIS_PER_DAY

  /** What can be found about a car. */
  datatype Finding =
    | ServiceDue
    | ServiceSoon
    | NeverServiced
    | OutOfDate(document: Document)
    | DueInAWeek(document: Document)
    | DueInAMonth(document: Document)
    | WithIssues

  predicate ServicedAndDriven(file: CarFile) {
    file.services != [] && file.mileage.GetOr(0) > 0
  }

  function KmLeft(file: CarFile): int
    requires ServicedAndDriven(file)
  {
    KmRemaining(file.mileage.value, file.services[0].GetOr(0))
  }

  /** The time a document is still valid lies in `[from, to)`; without a bound on one side. */
  predicate ValidFor(file: CarFile, document: Document, now: Millis, from: Option<int>, to: int) {
    var expiry := Expiry(file, document);
    expiry.Some? && expiry.value - now < to && (from.Some? ==> from.value <= expiry.value - now)
  }

  predicate Has(file: CarFile, now: Millis, f: Finding) {
    match f
    case ServiceDue => ServicedAndDriven(file) && KmLeft(file) < CRITICAL_KM_THRESHOLD
    case ServiceSoon => ServicedAndDriven(file) && CRITICAL_KM_THRESHOLD <= KmLeft(file) < WARNING_KM_THRESHOLD
    case NeverServiced => file.services == []
    case OutOfDate(document) => ValidFor(file, document, now, None, 0)
    case DueInAWeek(document) => ValidFor(file, document, now, Some(0), SEVEN_DAYS)
    case DueInAMonth(document) => ValidFor(file, document, now, Some(SEVEN_DAYS), THIRTY_DAYS)
    case WithIssues => file.openIssues > 0
  }

  predicate CriticalFinding(f: Finding) {
    f.ServiceDue? || f.OutOfDate? || f.DueInAWeek? || f.WithIssues?
  }

  ghost predicate SomeCritical(file: CarFile, now: Millis) {
    exists f :: CriticalFinding(f) && Has(file, now, f)
  }

  ghost predicate SomeFinding(file: CarFile, now: Millis) {
    exists f :: Has(file, now, f)
  }

  /** The ways cars are counted. */
  datatype Class = With(finding: Finding) | CriticalCar | WarningCar | FoundCar | OutOfDateCar | DoublyOutOfDateCar

  ghost predicate In(file: CarFile, now: Millis, c: Class) {
    match c
    case With(f) => Has(file, now, f)
    case CriticalCar => SomeCritical(file, now)
    case WarningCar => SomeFinding(file, now) && !SomeCritical(file, now)
    case FoundCar => SomeFinding(file, now)
    case OutOfDateCar => Has(file, now, OutOfDate(Registration)) || Has(file, now, OutOfDate(Insurance))
    case DoublyOutOfDateCar => Has(file, now, OutOfDate(Registration)) && Has(file, now, OutOfDate(Insurance))
  }

  ghost function Count(cars: seq<CarFile>, now: Millis, c: Class): nat {
    if cars == [] then 0 else Count(cars[..|cars| - 1], now, c) + if In(cars[|cars| - 1], now, c) then 1 else 0
  }

  function OpenIssues(cars: seq<CarFile>): nat {
    if cars == [] then 0 else OpenIssues(cars[..|cars| - 1]) + cars[|cars| - 1].openIssues
  }

  datatype Counts = Counts(critical: nat, warning: nat)

  datatype Summary = Summary(
    totalCars: nat,
    carsWithCriticalAlerts: nat,
    carsWithWarnings: nat,
    carsNeedingService: nat,
    carsWithExpiredDocs: nat,
    totalActiveIssues: nat,
    upcomingMaintenanceCount: nat,
    service: Counts,
    registration: Counts,
    insurance: Counts,
    issues: nat)

  ghost function DocumentCounts(cars: seq<CarFile>, now: Millis, document: Document): Counts {
    Counts(Count(cars, now, With(OutOfDate(document))) + Count(cars, now, With(DueInAWeek(document))),
      Count(cars, now, With(DueInAMonth(document))))
  }

  /** Each counter counts what it is named for; expired documents are counted one by one. */
  ghost predicate Counted(s: Summary, cars: seq<CarFile>, now: Millis) {
    && s.carsWithCriticalAlerts == Count(cars, now, CriticalCar)
    && s.carsWithWarnings == Count(cars, now, WarningCar)
    && s.carsNeedingService == Count(cars, now, With(ServiceDue))
    && s.carsWithExpiredDocs ==
         Count(cars, now, With(OutOfDate(Registration))) + Count(cars, now, With(OutOfDate(Insurance)))
    && s.totalActiveIssues == OpenIssues(cars)
    && s.upcomingMaintenanceCount ==
         Count(cars, now, With(ServiceSoon)) + Count(cars, now, With(DueInAMonth(Registration)))
         + Count(cars, now, With(DueInAMonth(Insurance)))
    && s.service == Counts(Count(cars, now, With(ServiceDue)),
         Count(cars, now, With(ServiceSoon)) + Count(cars, now, With(NeverServiced)))
    && s.registration == DocumentCounts(cars, now, Registration)
    && s.insurance == DocumentCounts(cars, now, Insurance)
    && s.issues == OpenIssues(cars)
  }

  // ---------- The loop ----------

  function Bump(n: nat, c: bool): nat {
    if c then n + 1 else n
  }

  /** The registration check and the insurance check, which differ in the counter they use. */
  method CheckDocument(file: CarFile, document: Document, now: Millis, counts: Counts, s: Summary,
    hasCritical: bool, hasWarning: bool)
    returns (counts': Counts, s': Summary, hasCritical': bool, hasWarning': bool)
    ensures counts' == DocumentUpdated(counts, file, now, document)
    ensures s' == s.(
              carsWithExpiredDocs := Bump(s.carsWithExpiredDocs, Has(file, now, OutOfDate(document))),
              upcomingMaintenanceCount := Bump(s.upcomingMaintenanceCount, Has(file, now, DueInAMonth(document))))
    ensures hasCritical' == (hasCritical || Has(file, now, OutOfDate(document)) || Has(file, now, DueInAWeek(document)))
    ensures hasWarning' == (hasWarning || Has(file, now, DueInAMonth(document)))
  {
    counts', s', hasCritical', hasWarning' := counts, s, hasCritical, hasWarning;
    var latest := Expiry(file, document);
    if latest.Some? {
      var expiryDate, sevenDaysFromNow, thirtyDaysFromNow := latest.value, now + SEVEN_DAYS, now + THIRTY_DAYS;
      if expiryDate < now {
        counts' := counts'.(critical := counts'.critical + 1);
        hasCritical' := true;
        s' := s'.(carsWithExpiredDocs := s'.carsWithExpiredDocs + 1);
      } else if expiryDate < sevenDaysFromNow {
        counts' := counts'.(critical := counts'.critical + 1);
        hasCritical' := true;
      } else if expiryDate < thirtyDaysFromNow {
        counts' := counts'.(warning := counts'.warning + 1);
        hasWarning' := true;
        s' := s'.(upcomingMaintenanceCount := s'.upcomingMaintenanceCount + 1);
      }
    }
  }

  /** The service check. */
  method CheckService(file: CarFile, now: Millis, s: Summary) returns (s': Summary, hasCritical: bool, hasWarning: bool)
    ensures s' == s.(
              service := Counts(Bump(s.service.critical, Has(file, now, ServiceDue)),
                Bump(s.service.warning, Has(file, now, ServiceSoon) || Has(file, now, NeverServiced))),
              carsNeedingService := Bump(s.carsNeedingService, Has(file, now, ServiceDue)),
              upcomingMaintenanceCount := Bump(s.upcomingMaintenanceCount, Has(file, now, ServiceSoon)))
    ensures hasCritical == Has(file, now, ServiceDue)
    ensures hasWarning == (Has(file, now, ServiceSoon) || Has(file, now, NeverServiced))
  {
    s', hasCritical, hasWarning := s, false, false;
    if file.services != [] && file.mileage.GetOr(0) > 0 {
      var kmRemaining := KmRemaining(file.mileage.value, file.services[0].GetOr(0));
      if kmRemaining <= 0 || kmRemaining < CRITICAL_KM_THRESHOLD {
        s' := s'.(service := s'.service.(critical := s'.service.critical + 1));
        hasCritical := true;
        s' := s'.(carsNeedingService := s'.carsNeedingService + 1);
      } else if kmRemaining < WARNING_KM_THRESHOLD {
        s' := s'.(service := s'.service.(warning := s'.service.warning + 1));
        hasWarning := true;
        s' := s'.(upcomingMaintenanceCount := s'.upcomingMaintenanceCount + 1);
      }
    } else if file.services == [] {
      s' := s'.(service := s'.service.(warning := s'.service.warning + 1));
      hasWarning := true;
    }
  }

  /** One round of the loop. */
  method CheckCar(file: CarFile, now: Millis, s: Summary) returns (s': Summary)
    ensures s' == Updated(s, file, now)
  {
    var hasCritical, hasWarning, counts;
    s', hasCritical, hasWarning := CheckService(file, now, s);
    counts, s', hasCritical, hasWarning :=
      CheckDocument(file, Registration, now, s'.registration, s', hasCritical, hasWarning);
    s' := s'.(registration := counts);
    counts, s', hasCritical, hasWarning :=
      CheckDocument(file, Insurance, now, s'.insurance, s', hasCritical, hasWarning);
    s' := s'.(insurance := counts);
    if file.openIssues > 0 {
      s' := s'.(issues := s'.issues + file.openIssues, totalActiveIssues := s'.totalActiveIssues + file.openIssues);
      hasCritical := true;
    }
    if hasCritical {
      s' := s'.(carsWithCriticalAlerts := s'.carsWithCriticalAlerts + 1);
    } else if hasWarning {
      s' := s'.(carsWithWarnings := s'.carsWithWarnings + 1);
    }
    Judgement(file, now);
  }

  method GetMaintenanceSummary(cars: seq<CarFile>, now: Millis) returns (s: Summary)
    ensures s.totalCars == |cars| && Counted(s, cars, now)
  {
    s := Summary(|cars|, 0, 0, 0, 0, 0, 0, Counts(0, 0), Counts(0, 0), Counts(0, 0), 0);
    for i := 0 to |cars|
      invariant s.totalCars == |cars| && Counted(s, cars[..i], now)
    {
      assert cars[..i + 1] == cars[..i] + [cars[i]];
      CountedAfter(s, cars[..i], cars[i], now);
      s := CheckCar(cars[i], now, s);
    }
    assert cars[..|cars|] == cars;
  }

  /** Whether a car is critical, or has anything found at all, case by case. */
  lemma Judgement(file: CarFile, now: Millis)
    ensures SomeCritical(file, now) <==>
            || Has(file, now, ServiceDue) || Has(file, now, WithIssues)
            || Has(file, now, OutOfDate(Registration)) || Has(file, now, DueInAWeek(Registration))
            || Has(file, now, OutOfDate(Insurance)) || Has(file, now, DueInAWeek(Insurance))
    ensures SomeFinding(file, now) <==>
            || SomeCritical(file, now) || Has(file, now, ServiceSoon) || Has(file, now, NeverServiced)
            || Has(file, now, DueInAMonth(Registration)) || Has(file, now, DueInAMonth(Insurance))
  {
  }

  ghost function DocumentUpdated(counts: Counts, file: CarFile, now: Millis, document: Document): Counts {
    Counts(Bump(counts.critical, Has(file, now, OutOfDate(document)) || Has(file, now, DueInAWeek(document))),
      Bump(counts.warning, Has(file, now, DueInAMonth(document))))
  }

  /** The counters after one more car. */
  ghost function Updated(s: Summary, file: CarFile, now: Millis): Summary {
    Summary(
      s.totalCars,
      Bump(s.carsWithCriticalAlerts, SomeCritical(file, now)),
      Bump(s.carsWithWarnings, SomeFinding(file, now) && !SomeCritical(file, now)),
      Bump(s.carsNeedingService, Has(file, now, ServiceDue)),
      Bump(Bump(s.carsWithExpiredDocs, Has(file, now, OutOfDate(Registration))), Has(file, now, OutOfDate(Insurance))),
      s.totalActiveIssues + file.openIssues,
      Bump(
        Bump(Bump(s.upcomingMaintenanceCount, Has(file, now, ServiceSoon)), Has(file, now, DueInAMonth(Registration))),
        Has(file, now, DueInAMonth(Insurance))),
      Counts(Bump(s.service.critical, Has(file, now, ServiceDue)),
        Bump(s.service.warning, Has(file, now, ServiceSoon) || Has(file, now, NeverServiced))),
      DocumentUpdated(s.registration, file, now, Registration),
      DocumentUpdated(s.insurance, file, now, Insurance),
      s.issues + file.openIssues)
  }

  lemma CountAppend(cars: seq<CarFile>, file: CarFile, now: Millis, c: Class)
    ensures Count(cars + [file], now, c) == Bump(Count(cars, now, c), In(file, now, c))
    ensures OpenIssues(cars + [file]) == OpenIssues(cars) + file.openIssues
  {
  }

  lemma DocumentCountsAfter(cars: seq<CarFile>, file: CarFile, now: Millis, document: Document)
    ensures DocumentCounts(cars + [file], now, document)
         == DocumentUpdated(DocumentCounts(cars, now, document), file, now, document)
  {
  }

  lemma CountedAfter(s: Summary, cars: seq<CarFile>, file: CarFile, now: Millis)
    requires Counted(s, cars, now)
    ensures Counted(Updated(s, file, now), cars + [file], now)
  {
    CountAppend(cars, file, now, CriticalCar);
    CountAppend(cars, file, now, WarningCar);
    CountAppend(cars, file, now, With(ServiceDue));
    CountAppend(cars, file, now, With(ServiceSoon));
    CountAppend(cars, file, now, With(NeverServiced));
    CountAppend(cars, file, now, With(OutOfDate(Registration)));
    CountAppend(cars, file, now, With(OutOfDate(Insurance)));
    CountAppend(cars, file, now, With(DueInAMonth(Registration)));
    CountAppend(cars, file, now, With(DueInAMonth(Insurance)));
    DocumentCountsAfter(cars, file, now, Registration);
    DocumentCountsAfter(cars, file, now, Insurance);
  }

  // ---------- Accounting ----------

  lemma {:induction false} CriticalAndWarningMakeFound(cars: seq<CarFile>, now: Millis)
    ensures Count(cars, now, CriticalCar) + Count(cars, now, WarningCar) == Count(cars, now, FoundCar) <= |cars|
  {
    if cars != [] {
      var file := cars[|cars| - 1];
      CriticalAndWarningMakeFound(cars[..|cars| - 1], now);
      assert SomeCritical(file, now) ==> SomeFinding(file, now);
    }
  }

  lemma {:induction false} ExpiredDocumentsAndCars(cars: seq<CarFile>, now: Millis)
    ensures Count(cars, now, With(OutOfDate(Registration))) + Count(cars, now, With(OutOfDate(Insurance))) ==
            Count(cars, now, OutOfDateCar) + Count(cars, now, DoublyOutOfDateCar)
  {
    if cars != [] {
      ExpiredDocumentsAndCars(cars[..|cars| - 1], now);
    }
  }

  /**
   For any number of cars: critical and warning cars together are the cars with some finding; cars
   needing service are the critical service alerts; both issue counters agree; the warning counters
   are the upcoming maintenance and the cars never serviced; and "cars with expired documents" counts
   cars exactly when no car has both documents expired.
   */
  lemma Accounting(s: Summary, cars: seq<CarFile>, now: Millis)
    requires s.totalCars == |cars| && Counted(s, cars, now)
    ensures s.carsWithCriticalAlerts + s.carsWithWarnings == Count(cars, now, FoundCar) <= s.totalCars
    ensures s.carsNeedingService == s.service.critical
    ensures s.totalActiveIssues == s.issues
    ensures s.service.warning + s.registration.warning + s.insurance.warning ==
            s.upcomingMaintenanceCount + Count(cars, now, With(NeverServiced))
    ensures s.carsWithExpiredDocs == Count(cars, now, OutOfDateCar) <==> Count(cars, now, DoublyOutOfDateCar) == 0
  {
    CriticalAndWarningMakeFound(cars, now);
    ExpiredDocumentsAndCars(cars, now);
  }

  // ---------- Fleet severity and the alerts of one car ----------

  /** The latest record of a document expires before the given time from now. */
  predicate ExpiresBefore(file: CarFile, document: Document, now: Millis, time: int) {
    Records(file, document) != [] && Records(file, document)[0] - now < time
  }

  predicate DrivenSinceService(file: CarFile, km: nat) {
    file.services != [] && file.mileage.GetOr(0) > 0 && KmSince(file) > km
  }

  /** When the fleet takes a car for critical, and when it finds anything: in kilometres, instants and issues. */
  lemma CarsAreJudgedExactly(file: CarFile, now: Millis)
    ensures In(file, now, CriticalCar) <==>
            || DrivenSinceService(file, 9_500) || file.openIssues > 0
            || ExpiresBefore(file, Registration, now, SEVEN_DAYS) || ExpiresBefore(file, Insurance, now, SEVEN_DAYS)
    ensures In(file, now, FoundCar) <==>
            || DrivenSinceService(file, 8_000) || file.openIssues > 0 || file.services == []
            || ExpiresBefore(file, Registration, now, THIRTY_DAYS) || ExpiresBefore(file, Insurance, now, THIRTY_DAYS)
    ensures In(file, now, WarningCar) <==> In(file, now, FoundCar) && !In(file, now, CriticalCar)
  {
    Judgement(file, now);
  }

  /** Whole days put the same document in another band exactly in the last day before a threshold. */
  lemma BandsDifferExactly(file: CarFile, document: Document, now: Millis)
    requires Expiry(file, document).Some?
    ensures var left, alert := Expiry(file, document).value - now, DocumentAlert(file, document, now);
            && ((alert.Some? && UrgencyOf(alert.value) == Critical) !=
                  (Has(file, now, OutOfDate(document)) || Has(file, now, DueInAWeek(document)))
                <==> 6 * MILLIS_PER_DAY < left < 7 * MILLIS_PER_DAY)
            && ((alert.Some? && UrgencyOf(alert.value) == Warning) != Has(file, now, DueInAMonth(document))
                <==> 6 * MILLIS_PER_DAY < left < 7 * MILLIS_PER_DAY || 29 * MILLIS_PER_DAY < left < 30 * MILLIS_PER_DAY)
            && ((alert == Some(DocumentExpired(document))) != Has(file, now, OutOfDate(document))
                <==> -MILLIS_PER_DAY < left < 0)
  {
  }

  /** A document's critical alert, or any alert about a document that is there, is a finding of the fleet. */
  lemma DocumentAlertIsFound(file: CarFile, document: Document, now: Millis)
    requires DocumentAlert(file, document, now).Some?
    ensures UrgencyOf(DocumentAlert(file, document, now).value) == Critical ==> SomeCritical(file, now)
    ensures Expiry(file, document).Some? ==> SomeFinding(file, now)
  {
    if Expiry(file, document).Some? {
      BandsDifferExactly(file, document, now);
      var expiry := Expiry(file, document).value;
      DaysRemainingIsTheCeiling(expiry, now, 6);
      DaysRemainingIsTheCeiling(expiry, now, 29);
      assert Has(file, now, OutOfDate(document)) || Has(file, now, DueInAWeek(document))
          || Has(file, now, DueInAMonth(document));
      assert CriticalFinding(OutOfDate(document)) && CriticalFinding(DueInAWeek(document));
    }
  }

  /**
   For cars that are driven, the fleet and the alerts agree on services: more than 9,500 km since the last
   one is critical to both, more than 8,000 km a warning to both.
   */
  lemma ServiceBandsAgreeExactly(file: CarFile, now: Millis)
    requires file.services != []
    ensures var alert := GenerateServiceAlert(file);
            && (Has(file, now, ServiceDue) <==> file.mileage.GetOr(0) > 0 && KmSince(file) > 9_500)
            && (Has(file, now, ServiceSoon) <==> file.mileage.GetOr(0) > 0 && 8_000 < KmSince(file) <= 9_500)
            && (file.mileage.GetOr(0) > 0 ==>
                  && (alert.Some? && UrgencyOf(alert.value) == Critical <==> Has(file, now, ServiceDue))
                  && (alert.Some? && UrgencyOf(alert.value) == Warning <==> Has(file, now, ServiceSoon)))
  {
  }

  lemma ServiceAlertIsFound(file: CarFile, now: Millis)
    requires GenerateServiceAlert(file).Some?
    ensures UrgencyOf(GenerateServiceAlert(file).value) == Critical ==> SomeCritical(file, now)
    ensures SomeFinding(file, now)
  {
    assert Has(file, now, ServiceDue) || Has(file, now, ServiceSoon) || Has(file, now, NeverServiced);
    assert CriticalFinding(ServiceDue);
  }

  lemma IssueAlertIsFound(file: CarFile, now: Millis)
    requires GenerateIssueAlert(file.openIssues).Some?
    ensures SomeCritical(file, now) && SomeFinding(file, now)
  {
    assert Has(file, now, WithIssues) && CriticalFinding(WithIssues);
  }

  /** A critical alert about a car makes the fleet count it as critical, whatever records it has. */
  lemma CriticalAlertsMakeCriticalCars(file: CarFile, now: Millis, a: Alert)
    requires Raised(file, now, a) && UrgencyOf(a) == Critical
    ensures In(file, now, CriticalCar)
  {
    if GenerateServiceAlert(file) == Some(a) {
      ServiceAlertIsFound(file, now);
    } else if GenerateIssueAlert(file.openIssues) == Some(a) {
      IssueAlertIsFound(file, now);
    } else if DocumentAlert(file, Registration, now) == Some(a) {
      DocumentAlertIsFound(file, Registration, now);
    } else {
      DocumentAlertIsFound(file, Insurance, now);
    }
  }

  lemma AlertsAreFound(file: CarFile, now: Millis, a: Alert)
    requires Raised(file, now, a) && !a.NoDocument?
    ensures In(file, now, FoundCar)
  {
    if GenerateServiceAlert(file) == Some(a) {
      ServiceAlertIsFound(file, now);
    } else if GenerateIssueAlert(file.openIssues) == Some(a) {
      IssueAlertIsFound(file, now);
    } else if DocumentAlert(file, Registration, now) == Some(a) {
      DocumentAlertIsFound(file, Registration, now);
    } else {
      DocumentAlertIsFound(file, Insurance, now);
    }
  }

  /** A document, if it is there, is good for thirty days. */
  predicate NotDue(file: CarFile, document: Document, now: Millis) {
    var expiry := Expiry(file, document);
    expiry.Some? ==> expiry.value - now >= THIRTY_DAYS
  }

  /**
   The fleet overlooks a car that has alerts of its own exactly when it was serviced, not driven or with
   2000 km to go, without open issues, the documents it has are good for thirty days, and one is missing.
   */
  lemma OverlooksExactlyWhen(file: CarFile, now: Millis)
    ensures (exists a :: Raised(file, now, a)) && !In(file, now, FoundCar) <==>
            && file.services != [] && file.openIssues == 0
            && (file.mileage.GetOr(0) == 0
                || KmRemaining(file.mileage.value, file.services[0].GetOr(0)) >= WARNING_KM_THRESHOLD)
            && NotDue(file, Registration, now) && NotDue(file, Insurance, now)
            && (file.registrations == [] || file.insurances == [])
  {
    Judgement(file, now);
    if file.registrations == [] {
      assert Raised(file, now, NoDocument(Registration));
    }
    if file.insurances == [] {
      assert Raised(file, now, NoDocument(Insurance));
    }
    if a :| Raised(file, now, a) && !a.NoDocument? {
      AlertsAreFound(file, now, a);
    }
  }
}
