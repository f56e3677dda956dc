/**
 * The axis domains of the scatterplot and the bar chart, and reOrderBar's
 * re-sorting of the funding table. A scale domain is a pair of numbers; an
 * `undefined` bound coerces to NaN inside the scale.
 */
module Charts {
  import opened JsValues
  import opened D3Array
  import Preprocess

  datatype Domain = Domain(lo: Num, hi: Num)

  /** paddingForAxis of setupScatterVis. */
  const PaddingForAxis: real := 200.0

  /** `bound - paddingForAxis` or `+`, with undefined - 200 being NaN. */
  function Padded(bound: Option<real>, delta: real): Num
  {
    match bound
    case None => NaN
    case Some(b) => Val(b + delta)
  }

  function Expenses(coldata: seq<Preprocess.ColRow>): seq<Num>
  {
    seq(|coldata|, i requires 0 <= i < |coldata| => coldata[i].basicExpenses)
  }

  function SupportedIncomes(coldata: seq<Preprocess.ColRow>): seq<Num>
  {
    seq(|coldata|, i requires 0 <= i < |coldata| => coldata[i].supportedIncome)
  }

  /** The domain of one scatter axis: from the smallest to the largest of the
      values, widened by paddingForAxis at both ends. When some value is a
      number, every number lies at least the padding inside the domain and
      both bounds sit exactly the padding beyond a value; when none is, both
      bounds are NaN. */
  function PaddedDomain(xs: seq<Num>): (r: Domain)
    ensures (exists i :: 0 <= i < |xs| && xs[i].Val?) ==> r.lo.Val? && r.hi.Val?
    ensures (forall i :: 0 <= i < |xs| ==> xs[i].NaN?) ==> r.lo.NaN? && r.hi.NaN?
    ensures r.lo.Val? ==> forall i :: 0 <= i < |xs| && xs[i].Val? ==>
      r.lo.v + PaddingForAxis <= xs[i].v <= r.hi.v - PaddingForAxis
    ensures r.lo.Val? ==> Val(r.lo.v + PaddingForAxis) in xs && Val(r.hi.v - PaddingForAxis) in xs
  {
    Domain(Padded(MinOf(xs), -PaddingForAxis), Padded(MaxOf(xs), PaddingForAxis))
  }

  /** setupScatterVis: x follows the basic expenses, y the supported income.
      Each numeric bound is exactly paddingForAxis beyond some program's value
      and every program's point lies at least paddingForAxis inside it, so the
      axis runs from the smallest value minus 200 to the largest plus 200; an
      axis whose values are all NaN gets NaN bounds. */
  function ScatterDomains(coldata: seq<Preprocess.ColRow>): (r: (Domain, Domain))
    ensures (exists i :: 0 <= i < |coldata| && coldata[i].basicExpenses.Val?) <==> r.0.lo.Val? && r.0.hi.Val?
    ensures (exists i :: 0 <= i < |coldata| && coldata[i].supportedIncome.Val?) <==> r.1.lo.Val? && r.1.hi.Val?
    ensures r.0.lo.Val? && r.0.hi.Val? ==> forall i :: 0 <= i < |coldata| && coldata[i].basicExpenses.Val? ==>
      r.0.lo.v + PaddingForAxis <= coldata[i].basicExpenses.v <= r.0.hi.v - PaddingForAxis
    ensures r.1.lo.Val? && r.1.hi.Val? ==> forall i :: 0 <= i < |coldata| && coldata[i].supportedIncome.Val? ==>
      r.1.lo.v + PaddingForAxis <= coldata[i].supportedIncome.v <= r.1.hi.v - PaddingForAxis
    ensures r.0.lo.Val? ==> exists i :: 0 <= i < |coldata| && coldata[i].basicExpenses == Val(r.0.lo.v + PaddingForAxis)
    ensures r.0.hi.Val? ==> exists i :: 0 <= i < |coldata| && coldata[i].basicExpenses == Val(r.0.hi.v - PaddingForAxis)
    ensures r.1.lo.Val? ==> exists i :: 0 <= i < |coldata| && coldata[i].supportedIncome == Val(r.1.lo.v + PaddingForAxis)
    ensures r.1.hi.Val? ==> exists i :: 0 <= i < |coldata| && coldata[i].supportedIncome == Val(r.1.hi.v - PaddingForAxis)
  {
    var xs := Expenses(coldata);
    var ys := SupportedIncomes(coldata);
    assert forall i :: 0 <= i < |coldata| ==> xs[i] == coldata[i].basicExpenses && ys[i] == coldata[i].supportedIncome;
    (PaddedDomain(xs), PaddedDomain(ys))
  }

  /** A row of phdFunding.csv, kept as text: fundingDataPreprocessor returns
      the loaded rows unchanged. */
  datatype FundingRow = FundingRow(university: string, yearlyFunding: string, yearlyLeft: string)

  /** The funding cells, as text, in row order. */
  function FundingTexts(rows: seq<FundingRow>): seq<string>
  {
    seq(|rows|, i requires 0 <= i < |rows| => rows[i].yearlyFunding)
  }

  function FundingNumbers(rows: seq<FundingRow>, num: string -> Num): seq<Num>
  {
    seq(|rows|, i requires 0 <= i < |rows| => num(rows[i].yearlyFunding))
  }

  /** The universities of the rows, in row order: the band scale's domain. */
  function Universities(rows: seq<FundingRow>): (r: seq<string>)
    ensures |r| == |rows| && forall i :: 0 <= i < |rows| ==> r[i] == rows[i].university
  {
    if rows == [] then [] else [rows[0].university] + Universities(rows[1..])
  }

  lemma UniversitiesCons(y: FundingRow, rows: seq<FundingRow>)
    ensures multiset(Universities([y] + rows)) == multiset{y.university} + multiset(Universities(rows))
  {
  }

  /** setupBarVis's x domain as written: d3.max runs over the funding cells
      as text, so the upper bound is the number of the string that compares
      largest, which the scale then coerces. */
  function BarXDomainAsWritten(rows: seq<FundingRow>, num: string -> Num): (r: Domain)
    ensures r.lo == Val(0.0)
    ensures rows == [] ==> r.hi.NaN?
    ensures rows != [] ==>
      exists i :: 0 <= i < |rows| && r.hi == num(rows[i].yearlyFunding) &&
        (forall j :: 0 <= j < |rows| ==> !StrLess(rows[i].yearlyFunding, rows[j].yearlyFunding))
  {
    var texts := FundingTexts(rows);
    var m := StrMaxOf(texts);
    assert forall i :: 0 <= i < |rows| ==> texts[i] == rows[i].yearlyFunding;
    if m.None? then Domain(Val(0.0), NaN)
    else
      assert exists i :: 0 <= i < |rows| && texts[i] == m.value;
      Domain(Val(0.0), num(m.value))
  }

  /** Read as text, "9" outranks "25": with two universities funded 9 and 25
      kCAD, the axis ends at 9 and the longer bar runs past it, while the
      numeric maximum ends it at 25. */
  lemma BarXDomainTextOrder(num: string -> Num)
    requires num("9") == Val(9.0) && num("25") == Val(25.0)
    ensures var rows := [FundingRow("A", "9", "1"), FundingRow("B", "25", "1")];
      && BarXDomainAsWritten(rows, num).hi == Val(9.0)
      && BarXDomain(rows, num).hi == Val(25.0)
  {
  }

  /** setupBarVis's x domain with the funding read as numbers: from 0 to the
      largest funding, so every numeric bar fits; NaN when no cell is a number. */
  function BarXDomain(rows: seq<FundingRow>, num: string -> Num): (r: Domain)
    ensures r.lo == Val(0.0)
    ensures r.hi.NaN? <==> forall i :: 0 <= i < |rows| ==> num(rows[i].yearlyFunding).NaN?
    ensures r.hi.Val? ==> forall i :: 0 <= i < |rows| && num(rows[i].yearlyFunding).Val? ==>
      num(rows[i].yearlyFunding).v <= r.hi.v
    ensures r.hi.Val? ==> exists i :: 0 <= i < |rows| && num(rows[i].yearlyFunding) == r.hi
  {
    var xs := FundingNumbers(rows, num);
    var m := MaxOf(xs);
    assert forall i :: 0 <= i < |rows| ==> xs[i] == num(rows[i].yearlyFunding);
    Domain(Val(0.0), if m.None? then NaN else Val(m.value))
  }

  /** The sort key of reOrderBar: Number(row.Yearly_left_kCAD). */
  function Left(row: FundingRow, num: string -> Num): Num
  {
    num(row.yearlyLeft)
  }

  predicate AllLeftNumeric(rows: seq<FundingRow>, num: string -> Num)
  {
    forall i :: 0 <= i < |rows| ==> Left(rows[i], num).Val?
  }

  /** Ascending by the money left: no row is followed by one with less. */
  predicate SortedByLeft(rows: seq<FundingRow>, num: string -> Num)
  {
    forall i, j :: 0 <= i < j < |rows| ==> !Gt(Left(rows[i], num), Left(rows[j], num))
  }

  /** Puts x in front of the first row it does not exceed under
      d3.ascending, so x stays ahead of rows with an equal key. */
  function InsertByLeft(x: FundingRow, rows: seq<FundingRow>, num: string -> Num): (r: seq<FundingRow>)
    ensures multiset(r) == multiset(rows) + multiset{x}
    ensures forall e :: e in r ==> e == x || e in rows
  {
    if rows == [] then [x]
    else if Gt(Left(x, num), Left(rows[0], num)) then
      assert rows == [rows[0]] + rows[1..];
      [rows[0]] + InsertByLeft(x, rows[1..], num)
    else
      [x] + rows
  }

  /** Inserting a row with a numeric key into rows sorted by numeric keys
      keeps them sorted. */
  lemma {:induction false} InsertByLeftSorted(x: FundingRow, rows: seq<FundingRow>, num: string -> Num)
    requires SortedByLeft(rows, num) && AllLeftNumeric(rows, num) && Left(x, num).Val?
    ensures SortedByLeft(InsertByLeft(x, rows, num), num)
    decreases |rows|
  {
    if rows != [] && Gt(Left(x, num), Left(rows[0], num)) {
      var tail := InsertByLeft(x, rows[1..], num);
      InsertByLeftSorted(x, rows[1..], num);
      var r := [rows[0]] + tail;
      forall j | 1 <= j < |r|
        ensures !Gt(Left(r[0], num), Left(r[j], num))
      {
        assert r[j] == tail[j - 1] && r[j] in tail;
        if r[j] != x {
          var m :| 0 <= m < |rows[1..]| && rows[1..][m] == r[j];
          assert rows[1 + m] == r[j];
        }
      }
      forall i, j | 0 <= i < j < |r|
        ensures !Gt(Left(r[i], num), Left(r[j], num))
      {
        if i > 0 {
          assert r[i] == tail[i - 1] && r[j] == tail[j - 1];
        }
      }
    } else if rows != [] {
      var r := [x] + rows;
      forall i, j | 0 <= i < j < |r|
        ensures !Gt(Left(r[i], num), Left(r[j], num))
      {
        if i == 0 {
          assert r[j] == rows[j - 1];
          assert !Gt(Left(rows[0], num), Left(rows[j - 1], num)) || j == 1;
        } else {
          assert r[i] == rows[i - 1] && r[j] == rows[j - 1];
        }
      }
    }
  }

  /** The rows whose money left is `k`, in their order. */
  function SameKey(rows: seq<FundingRow>, num: string -> Num, k: Num): seq<FundingRow>
  {
    if rows == [] then []
    else (if Left(rows[0], num) == k then [rows[0]] else []) + SameKey(rows[1..], num, k)
  }

  /** The rows of a non-empty table with key k: its first row if it has
      that key, then those of the rest. */
  lemma SameKeyHead(rows: seq<FundingRow>, num: string -> Num, k: Num)
    requires rows != []
    ensures SameKey(rows, num, k) == (if Left(rows[0], num) == k then [rows[0]] else []) + SameKey(rows[1..], num, k)
  {
  }

  /** Inserting x keeps every key's rows in their order, with x ahead of the
      rows that share its key. */
  lemma {:induction false} InsertByLeftStable(x: FundingRow, rows: seq<FundingRow>, num: string -> Num, k: Num)
    ensures SameKey(InsertByLeft(x, rows, num), num, k)
         == (if Left(x, num) == k then [x] else []) + SameKey(rows, num, k)
    decreases |rows|
  {
    var ins := InsertByLeft(x, rows, num);
    if rows == [] {
      SameKeyHead(ins, num, k);
      assert ins[1..] == [];
    } else if Gt(Left(x, num), Left(rows[0], num)) {
      InsertByLeftStable(x, rows[1..], num, k);
      InsertByLeftStablePast(x, rows, num, k);
    } else {
      assert ins == [x] + rows;
      assert ins[0] == x && ins[1..] == rows;
      SameKeyHead(ins, num, k);
    }
  }

  /** When x's key exceeds the first row's, that row stays in front. */
  lemma InsertByLeftPast(x: FundingRow, rows: seq<FundingRow>, num: string -> Num)
    requires rows != [] && Gt(Left(x, num), Left(rows[0], num))
    ensures InsertByLeft(x, rows, num) == [rows[0]] + InsertByLeft(x, rows[1..], num)
  {
  }

  /** Prepending a row puts it in front of its key's rows. */
  lemma SameKeyCons(y: FundingRow, rows: seq<FundingRow>, num: string -> Num, k: Num)
    ensures SameKey([y] + rows, num, k) == (if Left(y, num) == k then [y] else []) + SameKey(rows, num, k)
  {
    SameKeyHead([y] + rows, num, k);
    assert ([y] + rows)[1..] == rows;
  }

  /** The step of InsertByLeftStable where x moves past the first row, whose
      key is below x's and so is not x's key. */
  lemma InsertByLeftStablePast(x: FundingRow, rows: seq<FundingRow>, num: string -> Num, k: Num)
    requires rows != [] && Gt(Left(x, num), Left(rows[0], num))
    requires SameKey(InsertByLeft(x, rows[1..], num), num, k)
          == (if Left(x, num) == k then [x] else []) + SameKey(rows[1..], num, k)
    ensures SameKey(InsertByLeft(x, rows, num), num, k)
         == (if Left(x, num) == k then [x] else []) + SameKey(rows, num, k)
  {
    var tail := InsertByLeft(x, rows[1..], num);
    var rest := SameKey(rows[1..], num, k);
    var p0: seq<FundingRow> := if Left(rows[0], num) == k then [rows[0]] else [];
    var px: seq<FundingRow> := if Left(x, num) == k then [x] else [];
    InsertByLeftPast(x, rows, num);
    SameKeyCons(rows[0], tail, num, k);
    SameKeyHead(rows, num, k);
    // rows[0]'s key is below x's, so at most one of them has key k
    EmptyCommutes(p0, px, rest);
  }

  /** Two pieces, one of them empty, can be prepended in either order. */
  lemma EmptyCommutes<T>(a: seq<T>, b: seq<T>, c: seq<T>)
    requires a == [] || b == []
    ensures a + (b + c) == b + (a + c)
  {
  }

  /** `phdFunding.concat().sort(...)` by Yearly_left_kCAD ascending: the same
      rows, in ascending order whenever every key is a number, and stable as
      `Array.prototype.sort` is: rows with the same money left keep their
      table order. */
  function SortByLeft(rows: seq<FundingRow>, num: string -> Num): (r: seq<FundingRow>)
    ensures multiset(r) == multiset(rows)
    ensures AllLeftNumeric(rows, num) ==> SortedByLeft(r, num)
    ensures forall k :: SameKey(r, num, k) == SameKey(rows, num, k)
  {
    if rows == [] then []
    else
      var rest := SortByLeft(rows[1..], num);
      assert rows == [rows[0]] + rows[1..];
      assert AllLeftNumeric(rows, num) ==> SortedByLeft(InsertByLeft(rows[0], rest, num), num) by {
        if AllLeftNumeric(rows, num) {
          forall i | 0 <= i < |rest| ensures Left(rest[i], num).Val? {
            assert rest[i] in multiset(rows[1..]);
          }
          InsertByLeftSorted(rows[0], rest, num);
        }
      }
      assert forall k :: SameKey(InsertByLeft(rows[0], rest, num), num, k) == SameKey(rows, num, k) by {
        forall k ensures SameKey(InsertByLeft(rows[0], rest, num), num, k) == SameKey(rows, num, k) {
          InsertByLeftStable(rows[0], rest, num, k);
        }
      }
      InsertByLeft(rows[0], rest, num)
  }

  /** The bar order after reOrderBar names the same universities as before,
      as often as before. */
  lemma {:induction false} ReorderedUniversities(rows: seq<FundingRow>, num: string -> Num)
    ensures multiset(Universities(SortByLeft(rows, num))) == multiset(Universities(rows))
    decreases |rows|
  {
    if rows != [] {
      var rest := SortByLeft(rows[1..], num);
      ReorderedUniversities(rows[1..], num);
      UniversitiesInsert(rows[0], rest, num);
    }
  }

  lemma {:induction false} UniversitiesInsert(x: FundingRow, rows: seq<FundingRow>, num: string -> Num)
    ensures multiset(Universities(InsertByLeft(x, rows, num)))
         == multiset(Universities(rows)) + multiset{x.university}
    decreases |rows|
  {
    if rows == [] {
      UniversitiesCons(x, []);
    } else if Gt(Left(x, num), Left(rows[0], num)) {
      UniversitiesInsert(x, rows[1..], num);
      UniversitiesInsertPast(x, rows, num);
    } else {
      assert InsertByLeft(x, rows, num) == [x] + rows;
      UniversitiesCons(x, rows);
    }
  }

  /** The step of UniversitiesInsert where x moves past the first row. */
  lemma UniversitiesInsertPast(x: FundingRow, rows: seq<FundingRow>, num: string -> Num)
    requires rows != [] && Gt(Left(x, num), Left(rows[0], num))
    requires multiset(Universities(InsertByLeft(x, rows[1..], num)))
          == multiset(Universities(rows[1..])) + multiset{x.university}
    ensures multiset(Universities(InsertByLeft(x, rows, num)))
         == multiset(Universities(rows)) + multiset{x.university}
  {
  }

  /** The bar chart's part of scrollVis's closure: the funding table in
      dataDict, its sorted copy, and the two bar scale domains. */
  class BarChart {
    var phdFunding: seq<FundingRow>
    var phdFundingSorted: seq<FundingRow>
    var xBarDomain: Domain
    var yBarDomain: seq<string>

    /** After loading: the rows as read, nothing sorted, d3's default domains. */
    constructor (loaded: seq<FundingRow>)
      ensures phdFunding == loaded && phdFundingSorted == []
      ensures xBarDomain == Domain(Val(0.0), Val(1.0)) && yBarDomain == []
    {
      phdFunding := loaded;
      phdFundingSorted := [];
      xBarDomain := Domain(Val(0.0), Val(1.0));
      yBarDomain := [];
    }

    /** setupBarVis: x from 0 to the funding cell that is largest as text
        (BarXDomainTextOrder shows where that falls short of the largest
        funding), y the universities in table order. */
    method SetupBarVis(num: string -> Num)
      modifies this`xBarDomain, this`yBarDomain
      ensures xBarDomain == BarXDomainAsWritten(phdFunding, num)
      ensures yBarDomain == Universities(phdFunding)
    {
      xBarDomain := BarXDomainAsWritten(phdFunding, num);
      yBarDomain := Universities(phdFunding);
    }

    /** reOrderBar: sorts a copy of the funding table by the money left and
        orders the bars by it; the table in dataDict keeps its order. */
    method ReOrderBar(num: string -> Num)
      modifies this`phdFundingSorted, this`yBarDomain
      ensures phdFunding == old(phdFunding)
      ensures multiset(phdFundingSorted) == multiset(phdFunding)
      ensures AllLeftNumeric(phdFunding, num) ==> SortedByLeft(phdFundingSorted, num)
      ensures AllLeftNumeric(phdFunding, num) ==>
        forall k :: SameKey(phdFundingSorted, num, k) == SameKey(phdFunding, num, k)
      ensures yBarDomain == Universities(phdFundingSorted)
      ensures multiset(yBarDomain) == multiset(Universities(phdFunding))
    {
      phdFundingSorted := SortByLeft(phdFunding, num);
      yBarDomain := Universities(phdFundingSorted);
      ReorderedUniversities(phdFunding, num);
    }

    /** showReverseBar (the enter function of step 14): puts the bars back
        in table order, undoing reOrderBar's band order; nothing else of the
        chart's state changes. */
    method ShowReverseBar()
      modifies this`yBarDomain
      ensures yBarDomain == Universities(phdFunding)
    {
      yBarDomain := Universities(phdFunding);
    }
  }
}
