/**
 * The weather card: the temperature conversion, which forecast periods are
 * shown, the unit toggle, the "show complete forecast" button, the
 * precipitation default and which of loading / error / nothing / forecast
 * is rendered.
 *
 * The three HTTP requests behind the card are not modelled: their combined
 * outcome is an input. Temperatures are whole degrees.
 */
module Weather {
  import opened Options
  import JsText

  /** The error shown when something other than an `Error` is thrown. */
  const GenericFailure: string := "Failed to fetch weather data"

  /** `Math.round(((f - 32) * 5) / 9)`: half-up rounding of the exact quotient. */
  function ToCelsius(f: int): (c: int)
    ensures -9 < 18 * c - 10 * (f - 32) < 9
  {
    var n := 10 * (f - 32) + 9;
    var c := n / 18;
    var rem := n % 18;
    assert n == 18 * c + rem;
    // the remainder is odd, so it is never 0: no exact half degree
    assert rem == 2 * (5 * (f - 32) + 4 - 9 * c) + 1;
    c
  }

  /**
   * The result is the only integer strictly within half a degree of the
   * exact value 5(f - 32)/9, so the rounding never meets a tie.
   */
  lemma CelsiusIsNearest(f: int, c: int)
    requires -9 < 18 * c - 10 * (f - 32) < 9
    ensures c == ToCelsius(f)
  {
    var r := ToCelsius(f);
    assert -18 < 18 * (c - r) < 18;
  }

  /** Warmer in Fahrenheit is never colder in Celsius. */
  lemma CelsiusMonotone(f1: int, f2: int)
    requires f1 <= f2
    ensures ToCelsius(f1) <= ToCelsius(f2)
  {
    var c1, c2 := ToCelsius(f1), ToCelsius(f2);
    assert 18 * c1 < 10 * (f1 - 32) + 9 <= 10 * (f2 - 32) + 9 < 18 * c2 + 18;
  }

  /** Freezing, boiling and the point where the scales meet. */
  lemma CelsiusLandmarks()
    ensures ToCelsius(32) == 0 && ToCelsius(212) == 100 && ToCelsius(-40) == -40
  {
    CelsiusIsNearest(32, 0);
    CelsiusIsNearest(212, 100);
    CelsiusIsNearest(-40, -40);
  }

  /** The `value` of a period's precipitation probability. */
  datatype Precipitation = Null | Absent | Percent(n: int)

  /** `value === null ? 0 : value`: null shows 0, a number shows itself, an absent value shows nothing. */
  function PrecipitationShown(p: Precipitation): (r: Option<int>)
    ensures p.Null? ==> r == Some(0)
    ensures p.Percent? ==> r == Some(p.n)
    ensures p.Absent? ==> r.None?
  {
    match p
    case Null => Some(0)
    case Percent(n) => Some(n)
    case Absent => None
  }

  /** One forecast period (half a day). */
  datatype Period = Period(temperature: int, shortForecast: string, windSpeed: string, precipitation: Precipitation)

  /** The card's state. */
  datatype WeatherState = WeatherState(
    useCelsius: bool,
    showFullForecast: bool,
    forecastDays: int,
    forecast: Option<seq<Period>>,
    error: Option<string>,
    loading: bool)

  /** The first render: Fahrenheit, two periods' worth, loading. */
  const Initial: WeatherState := WeatherState(false, false, 2, None, None, true)

  /** `handleClick`: show the complete forecast, eight periods' worth; nothing else changes. */
  function HandleClick(s: WeatherState): (t: WeatherState)
    ensures t.showFullForecast && t.forecastDays == 8
    ensures t.(showFullForecast := s.showFullForecast, forecastDays := s.forecastDays) == s
  {
    s.(showFullForecast := true, forecastDays := 8)
  }

  /** `handleConvert`: switch between Fahrenheit and Celsius; nothing else changes. */
  function HandleConvert(s: WeatherState): (t: WeatherState)
    ensures t.useCelsius == !s.useCelsius
    ensures t.(useCelsius := s.useCelsius) == s
  {
    s.(useCelsius := !s.useCelsius)
  }

  /** Switching units twice gives back the state, and a single switch changes only the unit. */
  lemma ConvertIsInvolution(s: WeatherState)
    ensures HandleConvert(HandleConvert(s)) == s
    ensures HandleConvert(s).useCelsius != s.useCelsius
    ensures HandleConvert(s).(useCelsius := s.useCelsius) == s
  {
  }

  /** What was thrown while fetching: an `Error` carries a message. */
  datatype Thrown = ErrorObject(message: string) | NotAnError

  /** How the three requests ended. */
  datatype FetchOutcome = Fetched(periods: seq<Period>) | Failed(thrown: Thrown)

  /** The start of the effect: loading on, error cleared; the forecast and the view settings are kept. */
  function StartFetch(s: WeatherState): (t: WeatherState)
    ensures t.loading && t.error.None?
    ensures t.(loading := s.loading, error := s.error) == s
  {
    s.(loading := true, error := None)
  }

  /**
   * The end of the effect: store the forecast or the error text, loading off
   * (the `finally`); a failure keeps the previous forecast, a success the
   * previous error, and the view settings are kept.
   */
  function SettleFetch(s: WeatherState, outcome: FetchOutcome): (t: WeatherState)
    ensures !t.loading
    ensures outcome.Fetched? ==> t == s.(forecast := Some(outcome.periods), loading := false)
    ensures outcome.Failed? ==> t.forecast == s.forecast && t.error.Some?
    ensures outcome.Failed? && outcome.thrown.ErrorObject? ==> t.error == Some(outcome.thrown.message)
    ensures outcome == Failed(NotAnError) ==> t.error == Some(GenericFailure)
    ensures t.(loading := s.loading, error := s.error, forecast := s.forecast) == s
  {
    match outcome
    case Fetched(periods) => s.(forecast := Some(periods), loading := false)
    case Failed(ErrorObject(m)) => s.(error := Some(m), loading := false)
    case Failed(NotAnError) => s.(error := Some(GenericFailure), loading := false)
  }

  /**
   * The indices below `count` that the `map` renders, in order: even, and
   * below `days`.
   */
  function Shown(count: nat, days: int): (r: seq<nat>)
    ensures forall j :: 0 <= j < |r| ==> r[j] < count
    ensures forall i: int :: i in r <==> 0 <= i < count && i % 2 == 0 && i < days
    ensures forall j, k :: 0 <= j < k < |r| ==> r[j] < r[k]
  {
    if count == 0 then []
    else
      var n := count - 1;
      Shown(n, days) + (if n % 2 == 0 && n < days then [n] else [])
  }

  /** Before the click exactly the first period is shown. */
  lemma {:induction false} ShownInitially(count: nat)
    requires count >= 1
    ensures Shown(count, Initial.forecastDays) == [0]
  {
    if count > 1 {
      ShownInitially(count - 1);
    }
  }

  /** After the click the periods 0, 2, 4 and 6 are shown, when there are that many. */
  lemma {:induction false} ShownAfterClick(count: nat)
    requires count >= 8
    ensures Shown(count, 8) == [0, 2, 4, 6]
  {
    if count > 8 {
      ShownAfterClick(count - 1);
    } else {
      assert Shown(7, 8) == [0, 2, 4, 6];
    }
  }

  /** One rendered period. */
  datatype Row = Row(
    index: nat,
    temperature: int,
    celsius: bool,
    precipitation: Option<int>,
    windSpeed: string,
    shortForecast: string,
    showMoreButton: bool)

  /** What the card renders. */
  datatype Card = LoadingCard | ErrorCard(message: string) | NoCard | ForecastCard(rows: seq<Row>)

  /** One period as rendered, in the chosen unit. */
  function RenderRow(s: WeatherState, i: nat, p: Period): Row {
    Row(i, if s.useCelsius then ToCelsius(p.temperature) else p.temperature, s.useCelsius,
        PrecipitationShown(p.precipitation), p.windSpeed, p.shortForecast, !s.showFullForecast)
  }

  /** The rows of the shown periods, in index order. */
  function Rows(s: WeatherState, periods: seq<Period>): (rows: seq<Row>)
    ensures var idx := Shown(|periods|, s.forecastDays);
      |rows| == |idx| && forall j :: 0 <= j < |rows| ==> rows[j] == RenderRow(s, idx[j], periods[idx[j]])
  {
    var idx := Shown(|periods|, s.forecastDays);
    seq(|idx|, j requires 0 <= j < |idx| => RenderRow(s, idx[j], periods[idx[j]]))
  }

  /**
   * Loading first, then a truthy error, then nothing (`return null`) without
   * data, then the forecast; each card is shown in exactly its own case.
   */
  function Render(s: WeatherState): (c: Card)
    ensures c.LoadingCard? <==> s.loading
    ensures c.ErrorCard? <==> !s.loading && s.error.Some? && JsText.Truthy(s.error.value)
    ensures c.ErrorCard? ==> c.message == s.error.value
    ensures c.NoCard? <==> !s.loading && (s.error.None? || s.error == Some([])) && s.forecast.None?
    ensures c.ForecastCard? <==> !s.loading && (s.error.None? || s.error == Some([])) && s.forecast.Some?
    ensures c.ForecastCard? ==> c.rows == Rows(s, s.forecast.value)
  {
    if s.loading then LoadingCard
    else if s.error.Some? && JsText.Truthy(s.error.value) then ErrorCard(s.error.value)
    else if s.forecast.None? then NoCard
    else ForecastCard(Rows(s, s.forecast.value))
  }

  /**
   * One fetch, as the card goes through it: the loading card while it runs,
   * then the forecast on success, the thrown message on an `Error` with a
   * message, and the generic text when something else was thrown.
   */
  lemma FetchRendersOutcome(s: WeatherState, outcome: FetchOutcome)
    ensures Render(StartFetch(s)) == LoadingCard
    ensures outcome.Fetched? ==> Render(SettleFetch(StartFetch(s), outcome)) == ForecastCard(Rows(s, outcome.periods))
    ensures outcome == Failed(NotAnError) ==> Render(SettleFetch(StartFetch(s), outcome)) == ErrorCard(GenericFailure)
    ensures outcome.Failed? && outcome.thrown.ErrorObject? && outcome.thrown.message != [] ==>
      Render(SettleFetch(StartFetch(s), outcome)) == ErrorCard(outcome.thrown.message)
  {
    if outcome.Fetched? {
      var t := SettleFetch(StartFetch(s), outcome);
      assert Rows(t, outcome.periods) == Rows(s, outcome.periods);
    }
  }

  /** The first forecast shows its first period only, with the button to expand. */
  lemma FirstForecastShowsOnePeriod(periods: seq<Period>)
    requires |periods| >= 1
    ensures var s := SettleFetch(StartFetch(Initial), Fetched(periods));
      Render(s) == ForecastCard([RenderRow(s, 0, periods[0])]) && RenderRow(s, 0, periods[0]).showMoreButton
  {
    ShownInitially(|periods|);
  }

  /**
   * After the click a forecast of at least eight periods shows periods 0, 2,
   * 4 and 6, without the button.
   */
  lemma ClickExpandsForecast(s: WeatherState)
    requires !s.loading && (s.error.None? || s.error == Some([])) && s.forecast.Some? && |s.forecast.value| >= 8
    ensures var t := HandleClick(s);
      && Render(t).ForecastCard?
      && |Render(t).rows| == 4
      && (forall j :: 0 <= j < 4 ==> Render(t).rows[j] == RenderRow(t, 2 * j, s.forecast.value[2 * j]))
      && (forall j :: 0 <= j < 4 ==> !Render(t).rows[j].showMoreButton)
  {
    ShownAfterClick(|s.forecast.value|);
  }

  /**
   * Switching to Celsius changes each shown temperature from the period's
   * Fahrenheit value to its conversion, and nothing else about the rows.
   */
  lemma ConvertChangesTemperatures(s: WeatherState)
    requires !s.loading && (s.error.None? || s.error == Some([])) && s.forecast.Some? && !s.useCelsius
    ensures Render(s).ForecastCard? && Render(HandleConvert(s)).ForecastCard?
    ensures |Render(HandleConvert(s)).rows| == |Render(s).rows|
    ensures forall j :: 0 <= j < |Render(s).rows| ==>
      Render(HandleConvert(s)).rows[j]
        == Render(s).rows[j].(temperature := ToCelsius(Render(s).rows[j].temperature), celsius := true)
  {
  }
}
