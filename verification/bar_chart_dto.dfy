/** The persistence mapping of bars and charts: a flat record without the
    `valid` flag, and its conversions to and from the business types. */
module BarChartDtos {
  import opened TimeFrames
  import opened Bars
  import opened BarCharts

  datatype BarDto = BarDto(
    interval: TimeFrame,
    openTime: int,
    open: real,
    close: real,
    high: real,
    low: real,
    volume: real)

  datatype BarChartDto = BarChartDto(symbol: string, interval: TimeFrame, startTime: int, data: seq<BarDto>)

  /** `Bar.toDTO`: every field but `valid`. */
  function BarToDto(b: Bar): (d: BarDto)
    ensures d.interval == b.interval && d.openTime == b.openTime
    ensures d.open == b.open && d.close == b.close && d.high == b.high && d.low == b.low
    ensures d.volume == b.volume
  {
    BarDto(b.interval, b.openTime, b.open, b.close, b.high, b.low, b.volume)
  }

  /** `BarDTO.toBO`: the primary constructor, whose `valid` defaults to true. */
  function DtoToBar(d: BarDto): (b: Bar)
    ensures b.valid
  {
    Bar(d.interval, d.openTime, d.open, d.close, d.high, d.low, d.volume, true)
  }

  /** A valid bar survives the round trip unchanged; any bar, placeholder or
      not, comes back valid with all its data. */
  lemma BarRoundTrip(b: Bar)
    ensures DtoToBar(BarToDto(b)) == b.(valid := true)
    ensures b.valid ==> DtoToBar(BarToDto(b)) == b
  {
  }

  /** The placeholder standing for a missing bar is not restored as one: the
      flag that marked it is not stored. */
  lemma PlaceholderComesBackValid(interval: TimeFrame, timeSeconds: int)
    ensures DtoToBar(BarToDto(Placeholder(interval, timeSeconds))) != Placeholder(interval, timeSeconds)
    ensures DtoToBar(BarToDto(Placeholder(interval, timeSeconds))).valid
  {
  }

  lemma DtoRoundTrip(d: BarDto)
    ensures BarToDto(DtoToBar(d)) == d
  {
  }

  /** `BarChart.toDTO`. */
  function ChartToDto(c: BarChart): (d: BarChartDto)
    ensures d.symbol == c.symbol && d.interval == c.interval && d.startTime == c.startTime
    ensures |d.data| == |c.data|
    ensures forall i :: 0 <= i < |c.data| ==> d.data[i] == BarToDto(c.data[i])
  {
    BarChartDto(c.symbol, c.interval, c.startTime,
                seq(|c.data|, i requires 0 <= i < |c.data| => BarToDto(c.data[i])))
  }

  /** `BarChartDTO.toBO`. */
  function DtoToChart(d: BarChartDto): (c: BarChart)
    ensures c.symbol == d.symbol && c.interval == d.interval && c.startTime == d.startTime
    ensures |c.data| == |d.data|
    ensures forall i :: 0 <= i < |d.data| ==> c.data[i] == DtoToBar(d.data[i])
  {
    BarChart(d.symbol, d.interval, d.startTime,
             seq(|d.data|, i requires 0 <= i < |d.data| => DtoToBar(d.data[i])))
  }

  /** The chart round trip keeps the symbol, interval, start time and every
      bar in order, with each bar marked valid; a chart of valid bars comes
      back equal. */
  lemma ChartRoundTrip(c: BarChart)
    ensures var c2 := DtoToChart(ChartToDto(c));
            && c2.symbol == c.symbol && c2.interval == c.interval && c2.startTime == c.startTime
            && |c2.data| == |c.data|
            && forall i :: 0 <= i < |c.data| ==> c2.data[i] == c.data[i].(valid := true)
    ensures (forall i :: 0 <= i < |c.data| ==> c.data[i].valid) ==> DtoToChart(ChartToDto(c)) == c
  {
    var c2 := DtoToChart(ChartToDto(c));
    if forall i :: 0 <= i < |c.data| ==> c.data[i].valid {
      assert c2.data == c.data;
    }
  }

  lemma ChartDtoRoundTrip(d: BarChartDto)
    ensures ChartToDto(DtoToChart(d)) == d
  {
    assert ChartToDto(DtoToChart(d)).data == d.data;
  }
}
