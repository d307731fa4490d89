/**
 * The trend page: a line chart of the global evolution of the happiness
 * score and a GDP/happiness scatter for the selected year. The page state is
 * the five React state variables; each callback that updates them is a
 * method. What a fetch returns is a parameter.
 */
module TrendPage {
  import opened Wrappers
  import opened YearOrder

  /** A decoded JSON response: an array of items, or anything else. */
  datatype Payload<T> = NotArray | Array(items: seq<T>)

  /** The outcome of a fetch: it threw, or it delivered a decoded payload. */
  datatype Fetched<T> = Failed | Received(payload: Payload<T>)

  /** One row of `/kpis/global-evolution`. */
  datatype EvolutionRow = EvolutionRow(year: int, score: real)

  /** One point of `/kpis/correlation-data`. */
  datatype Point = Point(x: real, y: real)

  /** The line chart's data: one label and one value per payload row. */
  datatype LineSeries = LineSeries(labels: seq<string>, data: seq<real>)

  /** The scatter chart's data: the `data` of each dataset. */
  datatype ScatterSeries = ScatterSeries(datasets: seq<seq<Point>>)

  /** What the scatter card shows. */
  datatype ScatterPanel = LoadingMessage | ScatterChart | NoDataMessage

  /** The initial selected year, kept when no evolution data arrives. */
  const DefaultYear := 2024

  function DigitChar(d: nat): char
    requires d < 10
  {
    "0123456789"[d]
  }

  function Digits(n: nat): string
    decreases n
  {
    if n < 10 then [DigitChar(n)] else Digits(n / 10) + [DigitChar(n % 10)]
  }

  /** `year.toString()`. */
  function YearText(year: int): string {
    if year < 0 then "-" + Digits(-year) else Digits(year)
  }

  predicate IsDigits(s: string) {
    forall i :: 0 <= i < |s| ==> '0' <= s[i] <= '9'
  }

  /** The number a string of decimal digits denotes, read left to right. */
  function NumeralValue(s: string): nat
    requires IsDigits(s)
  {
    if s == [] then 0 else NumeralValue(s[..|s| - 1]) * 10 + (s[|s| - 1] as int - '0' as int)
  }

  lemma DigitCharValue(d: nat)
    requires d < 10
    ensures '0' <= DigitChar(d) <= '9' && DigitChar(d) as int - '0' as int == d
  {
  }

  /** `Digits(n)` is the canonical decimal numeral of `n`: digits only, no leading zero, denoting `n`. */
  lemma {:induction false} DigitsNumeral(n: nat)
    ensures |Digits(n)| > 0 && IsDigits(Digits(n))
    ensures Digits(n)[0] == '0' ==> n == 0
    ensures NumeralValue(Digits(n)) == n
  {
    DigitCharValue(n % 10);
    if n >= 10 {
      DigitsNumeral(n / 10);
      var s := Digits(n);
      assert s[..|s| - 1] == Digits(n / 10);
      assert s[0] == Digits(n / 10)[0];
    }
  }

  /**
   * `YearText(year)` is the decimal numeral JavaScript's `toString` gives:
   * a minus sign exactly for a negative year, then the digits of its
   * magnitude with no leading zero.
   */
  lemma YearTextDecimal(year: int)
    ensures var t := YearText(year);
            var magnitude := if year < 0 then -year else year;
            && |t| > 0
            && (t[0] == '-' <==> year < 0)
            && var body := if year < 0 then t[1..] else t;
               && |body| > 0 && IsDigits(body)
               && (body[0] == '0' ==> year == 0)
               && NumeralValue(body) == magnitude
  {
    var magnitude := if year < 0 then -year else year;
    DigitsNumeral(magnitude);
    var t := YearText(year);
    if year < 0 {
      assert t[1..] == Digits(magnitude);
    }
  }

  /** `data.map(item => item.year)`. */
  function YearsOf(rows: seq<EvolutionRow>): (years: seq<int>)
    ensures |years| == |rows|
    ensures forall i :: 0 <= i < |rows| ==> years[i] == rows[i].year
  {
    if rows == [] then [] else [rows[0].year] + YearsOf(rows[1..])
  }

  /** The line series: labels and scores taken row by row, in payload order. */
  function LineFor(rows: seq<EvolutionRow>): (line: LineSeries)
    ensures |line.labels| == |rows| && |line.data| == |rows|
  {
    if rows == [] then LineSeries([], [])
    else
      var rest := LineFor(rows[1..]);
      LineSeries([YearText(rows[0].year)] + rest.labels, [rows[0].score] + rest.data)
  }

  /** Point `i` of the line is row `i` of the payload: its year as text and its score. */
  lemma {:induction false} LineFollowsRows(rows: seq<EvolutionRow>, i: nat)
    requires i < |rows|
    ensures LineFor(rows).labels[i] == YearText(rows[i].year)
    ensures LineFor(rows).data[i] == rows[i].score
  {
    if i > 0 {
      LineFollowsRows(rows[1..], i - 1);
    }
  }

  /** The evolution response passes the guard: an array with at least one row. */
  predicate UsableEvolution(fetched: Fetched<EvolutionRow>) {
    fetched.Received? && fetched.payload.Array? && fetched.payload.items != []
  }

  /**
   * The scatter data after a correlation fetch: the array as the single
   * dataset; no dataset when the fetch failed or the payload is not an array.
   */
  function ScatterFor(fetched: Fetched<Point>): (s: ScatterSeries)
    ensures |s.datasets| <= 1
    ensures s.datasets == [] <==> !(fetched.Received? && fetched.payload.Array?)
    ensures s.datasets != [] ==> s.datasets[0] == fetched.payload.items
  {
    match fetched
    case Received(Array(points)) => ScatterSeries([points])
    case _ => ScatterSeries([])
  }

  /**
   * The year-change effect: a correlation fetch for `selectedYear` is issued
   * only when the year is truthy (not 0) and some years are available.
   */
  function CorrelationRequest(selectedYear: int, availableYears: seq<int>): (request: Option<int>)
    ensures request.Some? <==> selectedYear != 0 && availableYears != []
    ensures request.Some? ==> request.value == selectedYear
  {
    if selectedYear != 0 && |availableYears| > 0 then Some(selectedYear) else None
  }

  /**
   * The scatter card: a loading message while a load runs; otherwise the
   * chart when there is a first dataset with at least one point, else a
   * no-data message.
   */
  function Panel(isLoading: bool, scatter: Option<ScatterSeries>): (view: ScatterPanel)
    ensures view == LoadingMessage <==> isLoading
    ensures view == ScatterChart <==>
              !isLoading && scatter.Some? && |scatter.value.datasets| > 0 && |scatter.value.datasets[0]| > 0
  {
    if isLoading then LoadingMessage
    else if scatter.Some? && |scatter.value.datasets| > 0 && |scatter.value.datasets[0]| > 0 then ScatterChart
    else NoDataMessage
  }

  /**
   * Once a correlation load has finished, the chart is shown exactly when the
   * response was a non-empty array; a failure, a non-array or an empty array
   * shows the no-data message.
   */
  lemma FinishedLoadShowsChart(fetched: Fetched<Point>)
    ensures Panel(false, Some(ScatterFor(fetched))) == ScatterChart <==>
              fetched.Received? && fetched.payload.Array? && fetched.payload.items != []
    ensures Panel(false, Some(ScatterFor(fetched))) != LoadingMessage
  {
  }

  /**
   * A usable evolution payload selects its latest year: the head of the
   * sorted years is one of the rows' years and no row has a later one.
   */
  lemma EvolutionSelectsLatest(rows: seq<EvolutionRow>)
    requires rows != []
    ensures var years := SortDescending(YearsOf(rows));
            |years| == |rows| && Descending(years) &&
            (exists i :: 0 <= i < |rows| && rows[i].year == years[0]) &&
            forall i :: 0 <= i < |rows| ==> rows[i].year <= years[0]
  {
    var ys := YearsOf(rows);
    SortedHeadIsMax(ys);
    var years := SortDescending(ys);
    var i :| 0 <= i < |ys| && ys[i] == years[0];
    assert rows[i].year == years[0];
    forall k | 0 <= k < |rows|
      ensures rows[k].year <= years[0]
    {
      assert ys[k] in ys;
    }
  }

  /**
   * When every row has a non-zero year, the year-change effect that follows
   * a usable evolution payload asks for the correlation of the latest year.
   */
  lemma EvolutionTriggersCorrelation(rows: seq<EvolutionRow>)
    requires rows != []
    requires forall i :: 0 <= i < |rows| ==> rows[i].year != 0
    ensures var years := SortDescending(YearsOf(rows));
            CorrelationRequest(years[0], years) == Some(years[0])
  {
    EvolutionSelectsLatest(rows);
  }

  /** The labels of the example below. */
  lemma ExampleYearTexts()
    ensures YearText(2016) == "2016" && YearText(2015) == "2015"
  {
    assert Digits(201) == "201";
    assert Digits(2016) == Digits(201) + "6";
    assert Digits(2015) == Digits(201) + "5";
  }

  /** The selector order of the example below. */
  lemma ExampleYearsSorted()
    ensures SortDescending([2016, 2015]) == [2016, 2015]
  {
    assert SortDescending([2015]) == [2015];
    assert SortDescending([2016, 2015]) == InsertDescending(2016, [2015]);
  }

  /**
   * The line series is not sorted: for the payload `[2016, 2015]` the
   * selector lists 2016 first and selects it, and the line keeps the
   * payload's order.
   */
  lemma EvolutionExample(rows: seq<EvolutionRow>)
    requires rows == [EvolutionRow(2016, 5.4), EvolutionRow(2015, 5.2)]
    ensures SortDescending(YearsOf(rows)) == [2016, 2015]
    ensures LineFor(rows) == LineSeries(["2016", "2015"], [5.4, 5.2])
  {
    ExampleSelection(rows);
    ExampleLine(rows);
  }

  /** The selector of the example above: 2016 first. */
  lemma ExampleSelection(rows: seq<EvolutionRow>)
    requires rows == [EvolutionRow(2016, 5.4), EvolutionRow(2015, 5.2)]
    ensures SortDescending(YearsOf(rows)) == [2016, 2015]
  {
    assert YearsOf(rows) == [2016, 2015];
    ExampleYearsSorted();
  }

  /** The line of the example above, label by label. */
  lemma ExampleLine(rows: seq<EvolutionRow>)
    requires rows == [EvolutionRow(2016, 5.4), EvolutionRow(2015, 5.2)]
    ensures LineFor(rows) == LineSeries(["2016", "2015"], [5.4, 5.2])
  {
    var line := LineFor(rows);
    LineFollowsRows(rows, 0);
    LineFollowsRows(rows, 1);
    ExampleYearTexts();
    assert line.labels == ["2016", "2015"];
    assert line.data == [5.4, 5.2];
  }

  /** The state of the trend page. */
  class TrendView {
    var selectedYear: int
    var availableYears: seq<int>
    var lineData: Option<LineSeries>
    var scatterData: Option<ScatterSeries>
    var isLoadingCorrelation: bool

    /**
     * The years are kept latest first, they and the line series are set
     * together, and once there are years the selection is one of them.
     */
    ghost predicate Valid()
      reads this
    {
      && Descending(availableYears)
      && (availableYears == [] <==> lineData.None?)
      && (lineData.Some? ==> |lineData.value.labels| == |lineData.value.data| == |availableYears|)
      && (availableYears != [] ==> selectedYear in availableYears)
    }

    /** The initial state of the five state variables. */
    constructor ()
      ensures Valid()
      ensures selectedYear == DefaultYear && availableYears == [] && lineData == None
      ensures scatterData == None && !isLoadingCorrelation
    {
      selectedYear := DefaultYear;
      availableYears := [];
      lineData := None;
      scatterData := None;
      isLoadingCorrelation := false;
    }

    /** What the scatter card shows in the current state. */
    function ScatterView(): (view: ScatterPanel)
      reads this
      ensures view == LoadingMessage <==> isLoadingCorrelation
      ensures view == ScatterChart <==>
                !isLoadingCorrelation && scatterData.Some? &&
                |scatterData.value.datasets| > 0 && |scatterData.value.datasets[0]| > 0
    {
      Panel(isLoadingCorrelation, scatterData)
    }

    /**
     * `fetchEvolutionAndYears` once its response is in: a failed fetch, a
     * non-array or an empty array changes nothing; otherwise the years are
     * sorted latest first, the latest is selected, the line series is built
     * in payload order and a correlation fetch for that year is issued.
     */
    method LoadEvolution(fetched: Fetched<EvolutionRow>) returns (request: Option<int>)
      requires Valid()
      modifies this
      ensures Valid()
      ensures !UsableEvolution(fetched) ==> unchanged(this) && request == None
      ensures UsableEvolution(fetched) ==>
                && availableYears == SortDescending(YearsOf(fetched.payload.items))
                && selectedYear == availableYears[0]
                && lineData == Some(LineFor(fetched.payload.items))
                && request == Some(selectedYear)
      ensures scatterData == old(scatterData) && isLoadingCorrelation == old(isLoadingCorrelation)
    {
      if fetched.Failed? {
        return None;
      }
      var data := fetched.payload;
      if !data.Array? || |data.items| == 0 {
        return None;
      }
      var years := SortDescending(YearsOf(data.items));
      var line := LineFor(data.items);
      assert |years| == |line.labels| == |line.data| > 0;
      availableYears := years;
      var initialYear := if |years| > 0 then years[0] else DefaultYear;
      selectedYear := initialYear;
      lineData := Some(line);
      request := Some(initialYear);
    }

    /** `fetchCorrelationData` starts: the loading flag is raised. */
    method BeginCorrelationLoad()
      requires Valid()
      modifies this`isLoadingCorrelation
      ensures Valid() && isLoadingCorrelation
    {
      isLoadingCorrelation := true;
    }

    /**
     * `fetchCorrelationData` ends, on every path: the scatter data is set
     * from the response and the loading flag is cleared.
     */
    method FinishCorrelationLoad(fetched: Fetched<Point>)
      requires Valid()
      modifies this`scatterData, this`isLoadingCorrelation
      ensures Valid()
      ensures scatterData == Some(ScatterFor(fetched)) && !isLoadingCorrelation
    {
      scatterData := Some(ScatterFor(fetched));
      isLoadingCorrelation := false;
    }

    /** `handleYearChange`: the select offers only the available years. */
    method ChangeYear(year: int)
      requires Valid()
      requires year in availableYears
      modifies this`selectedYear
      ensures Valid() && selectedYear == year
    {
      selectedYear := year;
    }

    /** The year-change effect: the correlation fetch it issues, if any. */
    method YearEffect() returns (request: Option<int>)
      ensures request == CorrelationRequest(selectedYear, availableYears)
      ensures request.Some? ==> request.value == selectedYear && availableYears != []
    {
      request := CorrelationRequest(selectedYear, availableYears);
    }
  }

  /**
   * The page's first load, for the payload `[2016, 2015]`, in the order the
   * page issues it: the direct call at the end of the evolution load starts
   * one correlation fetch, then the year-change effect, run again because
   * the available years changed, starts a second one for the same year
   * before either has answered. The first response is not an array, the
   * second holds one point; the one to arrive last decides the card.
   */
  method MountExample() {
    var page := new TrendView();
    assert page.ScatterView() == NoDataMessage;
    var rows := [EvolutionRow(2016, 5.4), EvolutionRow(2015, 5.2)];
    ExampleSelection(rows);
    var request := page.LoadEvolution(Received(Array(rows)));
    assert page.selectedYear == 2016 && request == Some(2016);
    page.BeginCorrelationLoad();
    var again := page.YearEffect();
    assert again == Some(2016);
    page.BeginCorrelationLoad();
    assert page.ScatterView() == LoadingMessage;
    page.FinishCorrelationLoad(Received(NotArray));
    assert page.ScatterView() == NoDataMessage;
    page.FinishCorrelationLoad(Received(Array([Point(1.2, 5.4)])));
    assert page.ScatterView() == ScatterChart;
  }
}
