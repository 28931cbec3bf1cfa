/** The state of one `pfUtilizationBarChart` instance: the caller's chart
    data object, which the chart writes its percentage into, and the
    chart's own scope with the colour flags and the animation flag. */
module UtilizationBarChart {
  import opened Utilization

  /** The `chartData` object the embedding page owns and binds to the chart.
      `percentageUsed` is None until a chart has written it. */
  class ChartData {
    var used: int
    var total: int
    var percentageUsed: Option<Percentage>

    constructor (used: int, total: int)
      ensures this.used == used && this.total == total && percentageUsed == None
    {
      this.used := used;
      this.total := total;
      percentageUsed := None;
    }
  }

  /** The isolated scope of one chart. `chartData` is null while the binding
      is undefined; `pendingResets` counts the zero-delay timeouts that have
      been scheduled and have not yet run. */
  class Chart {
    var chartData: ChartData?
    var thresholds: Option<Thresholds>
    var isOk: bool
    var isWarn: bool
    var isError: bool
    var animate: bool
    var pendingResets: nat

    /** The animation flag is never left on without a timeout that will
        turn it off: whenever `animate` holds, `TimerFires` may be called.
        Constructing a chart establishes it and both methods preserve it. */
    ghost predicate Valid()
      reads this
    {
      animate ==> pendingResets > 0
    }

    /** The three colour flags as one value. */
    function Colour(): (f: Flags)
      reads this
    {
      Flags(isOk, isWarn, isError)
    }

    /** A chart just linked to its bindings, before its watch has run: the
        flags it has not assigned read as false. */
    constructor (chartData: ChartData?, thresholds: Option<Thresholds>)
      ensures Valid()
      ensures this.chartData == chartData && this.thresholds == thresholds
      ensures Colour() == Flags(false, false, false) && !animate && pendingResets == 0
    {
      this.chartData := chartData;
      this.thresholds := thresholds;
      isOk, isWarn, isError := false, false, false;
      animate := false;
      pendingResets := 0;
    }

    /** The `$watch('chartData', ...)` listener. With the data undefined it
        does nothing. Otherwise it writes the rounded percentage into the
        caller's object, sets the colour flags from it and the thresholds,
        turns the animation on and schedules one timeout to turn it off. */
    method OnChartDataChange()
      requires Valid()
      modifies this, chartData
      ensures Valid()
      ensures chartData == old(chartData) && thresholds == old(thresholds)
      ensures chartData == null ==>
        Colour() == old(Colour()) && animate == old(animate) && pendingResets == old(pendingResets)
      ensures chartData != null ==>
        && chartData.used == old(chartData.used)
        && chartData.total == old(chartData.total)
        && chartData.percentageUsed == Some(Percent(chartData.used, chartData.total))
        && Colour() == Classify(Percent(chartData.used, chartData.total), thresholds)
        && animate
        && pendingResets == old(pendingResets) + 1
    {
      if chartData != null {
        var p := Percent(chartData.used, chartData.total);
        chartData.percentageUsed := Some(p);
        var f := Classify(p, thresholds);
        isError := f.isError;
        isWarn := f.isWarn;
        isOk := f.isOk;
        animate := true;
        pendingResets := pendingResets + 1;
      }
    }

    /** One scheduled timeout runs: the animation flag goes off and nothing
        else changes. */
    method TimerFires()
      requires Valid()
      requires pendingResets > 0
      modifies this
      ensures Valid()
      ensures !animate && pendingResets == old(pendingResets) - 1
      ensures chartData == old(chartData) && thresholds == old(thresholds)
      ensures Colour() == old(Colour())
    {
      animate := false;
      pendingResets := pendingResets - 1;
    }
  }

  /** The documentation page binds the same data object to a regular and
      an inline chart: both handlers run, then both pending timeouts fire. */
  method SharedDataExample() returns (data: ChartData, regular: Chart, inline: Chart)
    ensures regular.chartData == data && inline.chartData == data
    ensures data.used == 420 && data.total == 500
    ensures data.percentageUsed == Some(Finite(84))
    ensures regular.Colour() == Flags(false, true, false) && inline.Colour() == regular.Colour()
    ensures !regular.animate && !inline.animate
    ensures regular.pendingResets == 0 && inline.pendingResets == 0
  {
    var thresholds := Some(Thresholds(60, 85));
    data := new ChartData(420, 500);
    regular := new Chart(data, thresholds);
    inline := new Chart(data, thresholds);
    regular.OnChartDataChange();
    assert data.percentageUsed == Some(Finite(84));
    inline.OnChartDataChange();
    regular.TimerFires();
    assert inline.animate;
    inline.TimerFires();
  }

  /** A chart whose data binding is undefined: its handler leaves every flag
      off and schedules nothing. */
  method UndefinedDataExample() returns (chart: Chart)
    ensures chart.chartData == null
    ensures chart.Colour() == Flags(false, false, false)
    ensures !chart.animate && chart.pendingResets == 0
  {
    chart := new Chart(null, Some(Thresholds(60, 85)));
    chart.OnChartDataChange();
  }
}
