/**
 * The load-time data derivations of `scrollVis`: the three-way financial
 * classification of the program cost-of-living table (colDataPreprocessor)
 * and the regrouping of the 2022 CPI table into one series per CPI
 * component (dataDict["PCI22Grouped"]).
 */
module Preprocess {
  import opened JsValues

  datatype FinancialStatus = AlwaysEnough | EnoughAfterSupport | StillNotEnough

  /** A row of CoL_programs.csv as loaded: every cell is text. */
  datatype ColRawRow = ColRawRow(
    program: string, basicExpenses: string, basicIncome: string, supportedIncome: string)

  /** A row after colDataPreprocessor's map; `financialStatus` is None until
      the classification pass has assigned it. */
  datatype ColRow = ColRow(
    program: string, basicExpenses: Num, basicIncome: Num, supportedIncome: Num,
    financialStatus: Option<FinancialStatus>)

  /** The status a row deserves: enough on the basic income alone, enough
      once the support is added, or not enough either way. The comparisons are
      strict, so a tie falls through, and a NaN makes every comparison fail. */
  function Classify(expenses: Num, income: Num, supported: Num): (s: FinancialStatus)
    ensures s == AlwaysEnough <==> Gt(income, expenses)
    ensures s == EnoughAfterSupport <==> !Gt(income, expenses) && Gt(supported, expenses)
    ensures s == StillNotEnough <==> !Gt(income, expenses) && !Gt(supported, expenses)
  {
    if Gt(income, expenses) then AlwaysEnough
    else if Gt(supported, expenses) then EnoughAfterSupport
    else StillNotEnough
  }

  /** The three documented cases of the classification. */
  lemma ClassifyExamples()
    ensures Classify(Val(900.0), Val(1000.0), Val(950.0)) == AlwaysEnough
    ensures Classify(Val(900.0), Val(800.0), Val(950.0)) == EnoughAfterSupport
    ensures Classify(Val(900.0), Val(800.0), Val(850.0)) == StillNotEnough
    ensures Classify(Val(900.0), Val(900.0), Val(900.0)) == StillNotEnough
    ensures Classify(NaN, Val(1000.0), Val(1000.0)) == StillNotEnough
  {
  }

  /** colDataPreprocessor: coerce the three amounts with `+`, then walk the
      rows and assign each its financial status. `num` is JavaScript's
      string-to-number conversion. */
  method ColDataPreprocessor(rawData: seq<ColRawRow>, num: string -> Num) returns (temp: seq<ColRow>)
    ensures |temp| == |rawData|
    ensures forall i :: 0 <= i < |temp| ==>
      && temp[i].program == rawData[i].program
      && temp[i].basicExpenses == num(rawData[i].basicExpenses)
      && temp[i].basicIncome == num(rawData[i].basicIncome)
      && temp[i].supportedIncome == num(rawData[i].supportedIncome)
      && temp[i].financialStatus == Some(Classify(temp[i].basicExpenses, temp[i].basicIncome, temp[i].supportedIncome))
  {
    temp := seq(|rawData|, i requires 0 <= i < |rawData| =>
      ColRow(rawData[i].program, num(rawData[i].basicExpenses), num(rawData[i].basicIncome),
             num(rawData[i].supportedIncome), None));
    var i := 0;
    while i < |temp|
      invariant 0 <= i <= |temp| == |rawData|
      invariant forall j :: 0 <= j < |temp| ==>
        && temp[j].program == rawData[j].program
        && temp[j].basicExpenses == num(rawData[j].basicExpenses)
        && temp[j].basicIncome == num(rawData[j].basicIncome)
        && temp[j].supportedIncome == num(rawData[j].supportedIncome)
      invariant forall j :: 0 <= j < i ==>
        temp[j].financialStatus == Some(Classify(temp[j].basicExpenses, temp[j].basicIncome, temp[j].supportedIncome))
    {
      var d := temp[i];
      if Gt(d.basicIncome, d.basicExpenses) {
        d := d.(financialStatus := Some(AlwaysEnough));
      } else if Gt(d.supportedIncome, d.basicExpenses) {
        d := d.(financialStatus := Some(EnoughAfterSupport));
      } else {
        d := d.(financialStatus := Some(StillNotEnough));
      }
      temp := temp[i := d];
      i := i + 1;
    }
  }

  /** The CPI components of allGroup, in its order. */
  datatype SubCpi =
    | FoodMonthCPI | ShelterMonthCPI | HouseholdMonthCPI | ClothingMonthCPI
    | TransportationMonthCPI | HealthMonthCPI | RecreationMonthCPI

  const AllGroup: seq<SubCpi> := [FoodMonthCPI, ShelterMonthCPI, HouseholdMonthCPI,
    ClothingMonthCPI, TransportationMonthCPI, HealthMonthCPI, RecreationMonthCPI]

  /** A parsed month. */
  datatype Date = Date(year: int, month: int)

  /** A row of dataDict["PCI22"] after cpi22DataPreprocessor. */
  datatype Cpi22Row = Cpi22Row(
    // None stands for the null an unparsable time label gives
    time: Option<Date>, allItems: Num, monthCpi: Num,
    food: Num, shelter: Num, household: Num, clothing: Num,
    transportation: Num, health: Num, recreation: Num)

  /** `d[gpName]`: the column of a row named by a component. */
  function Component(row: Cpi22Row, g: SubCpi): Num
  {
    match g
    case FoodMonthCPI => row.food
    case ShelterMonthCPI => row.shelter
    case HouseholdMonthCPI => row.household
    case ClothingMonthCPI => row.clothing
    case TransportationMonthCPI => row.transportation
    case HealthMonthCPI => row.health
    case RecreationMonthCPI => row.recreation
  }

  datatype Point = Point(time: Option<Date>, value: Num)
  datatype Series = Series(subCpi: SubCpi, values: seq<Point>)

  /** One series per component of allGroup, each holding that component's
      value at every row's time. */
  function Pci22Grouped(rows: seq<Cpi22Row>): (r: seq<Series>)
    ensures |r| == |AllGroup|
    ensures forall k :: 0 <= k < |r| ==> r[k].subCpi == AllGroup[k] && |r[k].values| == |rows|
  {
    seq(|AllGroup|, k requires 0 <= k < |AllGroup| =>
      Series(AllGroup[k], seq(|rows|, i requires 0 <= i < |rows| =>
        Point(rows[i].time, Component(rows[i], AllGroup[k])))))
  }

  /** The seven component readings of one month. */
  datatype Reading = Reading(
    time: Option<Date>, food: Num, shelter: Num, household: Num, clothing: Num,
    transportation: Num, health: Num, recreation: Num)

  function ReadingOf(row: Cpi22Row): Reading
  {
    Reading(row.time, row.food, row.shelter, row.household, row.clothing,
            row.transportation, row.health, row.recreation)
  }

  /** Reads the grouped series back into one reading per month: the i-th
      month takes its time from the first series and its seven values from
      the i-th point of the series of each component. */
  function Ungroup(series: seq<Series>): seq<Reading>
    requires |series| == |AllGroup|
    requires forall k :: 0 <= k < |series| ==> |series[k].values| == |series[0].values|
  {
    seq(|series[0].values|, i requires 0 <= i < |series[0].values| =>
      Reading(series[0].values[i].time,
        series[0].values[i].value, series[1].values[i].value, series[2].values[i].value,
        series[3].values[i].value, series[4].values[i].value, series[5].values[i].value,
        series[6].values[i].value))
  }

  /** Grouping loses nothing: every series shares the rows' time axis, and
      reading the series back gives each row's seven component values. */
  lemma GroupedRoundTrip(rows: seq<Cpi22Row>)
    ensures forall k, i :: 0 <= k < |AllGroup| && 0 <= i < |rows| ==>
      Pci22Grouped(rows)[k].values[i].time == rows[i].time
    ensures Ungroup(Pci22Grouped(rows)) == seq(|rows|, i requires 0 <= i < |rows| => ReadingOf(rows[i]))
  {
  }
}
