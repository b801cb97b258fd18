/** The cars that cost most: each car's charges folded one by one, the cars sorted by cost, the first few kept. */
module TopExpenses {
  import opened Wrappers
  import opened Lists
  import opened StableSort
  import opened CostAnalytics

  datatype CarRecord = CarRecord(id: nat, mileage: Option<nat>, service: seq<Charge>, insurance: seq<Charge>)

  datatype TopExpenseCar = TopExpenseCar(
    carId: nat,
    totalCosts: real,
    service: real,
    insurance: real,
    registration: real,
    issues: real,
    costPerKm: Option<real>,
    mileage: nat)

  /** What the entry of a car should be. */
  function ExpenseOf(car: CarRecord): TopExpenseCar {
    var total := CostOf(car.service) + CostOf(car.insurance);
    TopExpenseCar(car.id, total, CostOf(car.service), CostOf(car.insurance), 0.0, 0.0,
      if car.mileage.GetOr(0) > 0 then Some(total / car.mileage.value as real) else None,
      car.mileage.GetOr(0))
  }

  /** The columns of the entry are the totals of the car's own analytics, and grow with its own records only. */
  lemma EntryAddsUp(car: CarRecord, c: Charge)
    ensures var e, totals := ExpenseOf(car), TotalsOf(CostOf(car.service), CostOf(car.insurance));
            && e.carId == car.id && e.mileage == car.mileage.GetOr(0)
            && TotalCosts(e.totalCosts, e.service, e.insurance, e.registration, e.issues) == totals
    ensures var cost, e, e' := c.cost.GetOr(0.0), ExpenseOf(car), ExpenseOf(car.(service := car.service + [c]));
            e'.service == e.service + cost && e'.insurance == e.insurance && e'.totalCosts == e.totalCosts + cost
    ensures var cost, e, e' := c.cost.GetOr(0.0), ExpenseOf(car), ExpenseOf(car.(insurance := car.insurance + [c]));
            e'.insurance == e.insurance + cost && e'.service == e.service && e'.totalCosts == e.totalCosts + cost
  {
    OneRecordMore(car.service, c, c.month);
    OneRecordMore(car.insurance, c, c.month);
  }

  predicate CostsNoLess(a: TopExpenseCar, b: TopExpenseCar) {
    a.totalCosts >= b.totalCosts
  }

  function Expenses(cars: seq<CarRecord>): (r: seq<TopExpenseCar>)
    ensures |r| == |cars|
  {
    seq(|cars|, i requires 0 <= i < |cars| => ExpenseOf(cars[i]))
  }

  function MostExpensive(expenses: seq<TopExpenseCar>, limit: nat): seq<TopExpenseCar> {
    var sorted := Sort(expenses, CostsNoLess);
    sorted[..Min(limit, |sorted|)]
  }

  /** `reduce` from the first charge to the last. */
  method FoldCosts(charges: seq<Charge>) returns (sum: real)
    ensures sum == CostOf(charges)
  {
    sum := 0.0;
    for i := 0 to |charges|
      invariant sum == CostOf(charges[..i])
    {
      OneRecordMore(charges[..i], charges[i], charges[i].month);
      assert charges[..i + 1] == charges[..i] + [charges[i]];
      sum := sum + charges[i].cost.GetOr(0.0);
    }
    assert charges[..|charges|] == charges;
  }

  method GetTopExpenses(cars: seq<CarRecord>, limit: nat) returns (top: seq<TopExpenseCar>)
    ensures top == MostExpensive(Expenses(cars), limit)
  {
    if |cars| == 0 {
      return [];
    }
    var carExpenses: seq<TopExpenseCar> := [];
    for i := 0 to |cars|
      invariant |carExpenses| == i
      invariant forall j | 0 <= j < i :: carExpenses[j] == ExpenseOf(cars[j])
    {
      var car := cars[i];
      var serviceCosts := FoldCosts(car.service);
      var insuranceCosts := FoldCosts(car.insurance);
      var registrationCosts, issueCosts := 0.0, 0.0;
      var totalCosts := serviceCosts + insuranceCosts + registrationCosts + issueCosts;
      var costPerKm :=
        if car.mileage.Some? && car.mileage.value > 0 then Some(totalCosts / car.mileage.value as real) else None;
      carExpenses := carExpenses + [TopExpenseCar(car.id, totalCosts, serviceCosts, insuranceCosts, registrationCosts,
        issueCosts, costPerKm, car.mileage.GetOr(0))];
    }
    assert carExpenses == Expenses(cars);
    var sorted := Sort(carExpenses, CostsNoLess);
    top := sorted[..Min(limit, |sorted|)];
  }

  lemma OrderedMeansDescending(top: seq<TopExpenseCar>, rest: seq<TopExpenseCar>)
    requires Ordered(top, CostsNoLess) && forall a, b | a in top && b in rest :: CostsNoLess(a, b)
    ensures forall i, j | 0 <= i < j < |top| :: top[i].totalCosts >= top[j].totalCosts
    ensures forall a, b | a in top && b in rest :: a.totalCosts >= b.totalCosts
  {
    forall a, b | a in top && b in rest
      ensures a.totalCosts >= b.totalCosts
    {
      assert CostsNoLess(a, b);
    }
    forall i, j | 0 <= i < j < |top|
      ensures top[i].totalCosts >= top[j].totalCosts
    {
      assert CostsNoLess(top[i], top[j]);
    }
  }

  /**
   The list is the expensive end of all the cars: with what it leaves out it is a rearrangement of them,
   it descends, nothing left out costs more than anything in it, and equal costs keep the cars' order.
   */
  lemma TopIsTheExpensiveEnd(cars: seq<CarRecord>, limit: nat, x: TopExpenseCar)
    ensures var expenses, n := Expenses(cars), Min(limit, |cars|);
            var top := MostExpensive(expenses, limit);
            && |top| == n <= |Sort(expenses, CostsNoLess)|
            && multiset(top) + multiset(Sort(expenses, CostsNoLess)[n..]) == multiset(expenses)
            && (forall i, j | 0 <= i < j < |top| :: top[i].totalCosts >= top[j].totalCosts)
            && (forall a, b | a in top && b in Sort(expenses, CostsNoLess)[n..] :: a.totalCosts >= b.totalCosts)
            && Ties(Sort(expenses, CostsNoLess), x, CostsNoLess) == Ties(expenses, x, CostsNoLess)
  {
    CostsAreOrdered();
    CutSorted(Expenses(cars), CostsNoLess, Min(limit, |cars|));
    OrderedMeansDescending(MostExpensive(Expenses(cars), limit),
                           Sort(Expenses(cars), CostsNoLess)[Min(limit, |cars|)..]);
    SortIsStable(Expenses(cars), x, CostsNoLess);
  }

  lemma CostsAreOrdered()
    ensures IsOrder(CostsNoLess)
  {
  }

  /**
   Fast equals naive: for every list of service and insurance records, the monthly rows of a car's cost
   analytics add up to its total by the plain fold; so do the categories exactly when neither kind of cost
   is negative in sum, or both cancel.
   */
  lemma FastEqualsNaive(car: CarRecord, rows: seq<MonthlyCost>)
    requires IsMerge(rows, MonthlyBreakdown(car.service), MonthlyBreakdown(car.insurance))
    ensures RowsTotal(rows) == ExpenseOf(car).totalCosts == TotalsOf(CostOf(car.service), CostOf(car.insurance)).all
    ensures AmountsTotal(Categories(TotalsOf(CostOf(car.service), CostOf(car.insurance)))) ==
              ExpenseOf(car).totalCosts <==>
            (CostOf(car.service) >= 0.0 && CostOf(car.insurance) >= 0.0) || ExpenseOf(car).totalCosts == 0.0
  {
    MergeOfGroups(rows, Recorded(car.service), Recorded(car.insurance));
    MergeConservesCosts(rows, Recorded(car.service), Recorded(car.insurance));
    AmountsAddUpExactlyWhen(CostOf(car.service), CostOf(car.insurance));
  }

  /** The cost per kilometre is the one of the car's own analytics; only a missing one is shown differently. */
  lemma SameCostPerKm(car: CarRecord)
    ensures ExpenseOf(car).costPerKm.GetOr(0.0) == CostPerKm(ExpenseOf(car).totalCosts, car.mileage)
    ensures ExpenseOf(car).costPerKm.None? <==> car.mileage.GetOr(0) == 0
  {
  }

  /** Non-negative records have non-negative sums. */
  lemma {:induction false} CostsAreNotNegative(charges: seq<Charge>)
    requires forall i | 0 <= i < |charges| :: charges[i].cost.GetOr(0.0) >= 0.0
    ensures CostOf(charges) >= 0.0
  {
    if charges != [] {
      assert forall i | 0 <= i < |charges| - 1 :: charges[1..][i] == charges[i + 1];
      CostsAreNotNegative(charges[1..]);
    }
  }
}
