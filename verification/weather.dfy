/**
 The weather screen (src/projects/WeatherApp.tsx): the weather-code table and
 icon thresholds, the unit labels, and the geocode-then-forecast search.
 */
module Weather {
  import opened Js
  import opened Http

  /** The icon buckets of `getWeatherIcon`, in threshold order. */
  datatype Icon = ClearSun | PartlyCloudy | Fog | Rain | Storm | Rainbow

  /** The emoji shown for each bucket. */
  function Glyph(i: Icon): string
  {
    match i
    case ClearSun => "\U{2600}\U{FE0F}"
    case PartlyCloudy => "\U{26C5}"
    case Fog => "\U{1F32B}\U{FE0F}"
    case Rain => "\U{1F327}\U{FE0F}"
    case Storm => "\U{26C8}\U{FE0F}"
    case Rainbow => "\U{1F308}"
  }

  /** Different buckets show different emoji. */
  lemma GlyphInjective(a: Icon, b: Icon)
    requires Glyph(a) == Glyph(b)
    ensures a == b
  {
  }

  /** `getWeatherIcon(code)`, as the bucket it picks. The chain of tests cuts the
      integers into contiguous ranges; negative codes pass `code <= 3`, and
      `code <= 67 || code <= 82` is just `code <= 82`. */
  function IconFor(code: int): (r: Icon)
    ensures r == ClearSun <==> code == 0
    ensures r == PartlyCloudy <==> code < 0 || 1 <= code <= 3
    ensures r == Fog <==> 4 <= code <= 48
    ensures r == Rain <==> 49 <= code <= 82
    ensures r == Storm <==> 83 <= code <= 99
    ensures r == Rainbow <==> code > 99
  {
    if code == 0 then ClearSun
    else if code <= 3 then PartlyCloudy
    else if code <= 48 then Fog
    else if code <= 67 || code <= 82 then Rain
    else if code <= 99 then Storm
    else Rainbow
  }

  /** `getWeatherIcon(code)` */
  function WeatherIcon(code: int): (r: string)
    ensures r == Glyph(ClearSun) <==> code == 0
    ensures r == Glyph(PartlyCloudy) <==> code < 0 || 1 <= code <= 3
    ensures r == Glyph(Fog) <==> 4 <= code <= 48
    ensures r == Glyph(Rain) <==> 49 <= code <= 82
    ensures r == Glyph(Storm) <==> 83 <= code <= 99
    ensures r == Glyph(Rainbow) <==> code > 99
  {
    Glyph(IconFor(code))
  }

  /** The position of a bucket in the threshold chain. */
  function Rank(i: Icon): nat
  {
    match i
    case ClearSun => 0
    case PartlyCloudy => 1
    case Fog => 2
    case Rain => 3
    case Storm => 4
    case Rainbow => 5
  }

  /** On the non-negative codes the buckets follow each other in order: a larger
      code never gets an earlier bucket, so each bucket is one interval. */
  lemma IconsOrdered(a: int, b: int)
    requires 0 <= a <= b
    ensures Rank(IconFor(a)) <= Rank(IconFor(b))
  {
  }

  /** `weatherCodes` */
  const WeatherCodes: map<int, string> := map[
    0 := "Clear sky",
    1 := "Mainly clear",
    2 := "Partly cloudy",
    3 := "Overcast",
    45 := "Fog",
    48 := "Depositing rime fog",
    51 := "Light drizzle",
    53 := "Moderate drizzle",
    55 := "Dense drizzle",
    61 := "Slight rain",
    63 := "Moderate rain",
    65 := "Heavy rain",
    80 := "Slight rain showers",
    81 := "Moderate rain showers",
    82 := "Violent rain showers",
    95 := "Thunderstorm",
    96 := "Thunderstorm with slight hail",
    99 := "Thunderstorm with heavy hail"
  ]

  const UnknownDescription: string := "Unknown"

  /** `weatherCodes[code] || 'Unknown'` */
  function Describe(code: int): (r: string)
    ensures Truthy(r)
    ensures code in WeatherCodes ==> r == WeatherCodes[code]
    ensures code !in WeatherCodes ==> r == UnknownDescription
  {
    if code in WeatherCodes && Truthy(WeatherCodes[code]) then WeatherCodes[code] else UnknownDescription
  }

  /** The description is `Unknown` exactly for the codes the table does not list,
      and the table lists eighteen codes. */
  lemma DescribeUnknownIff(code: int)
    ensures Describe(code) == UnknownDescription <==> code !in WeatherCodes
    ensures WeatherCodes.Keys == {0, 1, 2, 3, 45, 48, 51, 53, 55, 61, 63, 65, 80, 81, 82, 95, 96, 99}
  {
  }

  /** Every listed code has a weather icon (none falls in the catch-all
      bucket), and the sun is shown exactly for `Clear sky`. */
  lemma ListedCodesHaveIcons()
    ensures forall code :: code in WeatherCodes ==> IconFor(code) != Rainbow
    ensures forall code :: code in WeatherCodes ==> (IconFor(code) == ClearSun <==> WeatherCodes[code] == "Clear sky")
  {
  }

  /** The two buttons of the unit toggle. */
  datatype Unit = Celsius | Fahrenheit

  /** `getTemperatureUnit()` */
  function TemperatureUnit(u: Unit): (r: string)
    ensures r == "°C" <==> u == Celsius
    ensures r == "°F" <==> u == Fahrenheit
  {
    assert "°F" != "°C" by { assert "°F"[1] != "°C"[1]; }
    match u
    case Celsius => "°C"
    case Fahrenheit => "°F"
  }

  /** `getWindUnit()` */
  function WindUnit(u: Unit): (r: string)
    ensures r == "km/h" <==> u == Celsius
    ensures r == "mph" <==> u == Fahrenheit
  {
    assert "mph" != "km/h" by { assert |"mph"| != |"km/h"|; }
    match u
    case Celsius => "km/h"
    case Fahrenheit => "mph"
  }

  /** The two labels shown together always belong to the same system. */
  lemma UnitLabels(u: Unit)
    ensures TemperatureUnit(u) == "°C" <==> WindUnit(u) == "km/h"
    ensures TemperatureUnit(u) == "°F" <==> WindUnit(u) == "mph"
  {
  }

  /** `convertTemperature(temp)` on exact reals. */
  function ConvertTemperature(celsius: real, u: Unit): (r: real)
    ensures u == Celsius ==> r == celsius
    ensures u == Fahrenheit ==> (r - 32.0) * 5.0 / 9.0 == celsius
  {
    if u == Celsius then celsius else celsius * 9.0 / 5.0 + 32.0
  }

  /** A number shown with its unit label. */
  datatype Reading = Reading(value: real, units: string)

  /** The temperature cell: the converted number with the temperature label. */
  function TemperatureReading(celsius: real, u: Unit): Reading
  {
    Reading(ConvertTemperature(celsius, u), TemperatureUnit(u))
  }

  /** The Fahrenheit cell puts the fixed points where they belong (0 °C is
      32 °F and 100 °C is 212 °F), and the conversion keeps the order of temperatures. */
  lemma TemperatureReadingAgreesWithLabel(celsius: real, other: real)
    ensures TemperatureReading(0.0, Fahrenheit).value == 32.0
    ensures TemperatureReading(100.0, Fahrenheit).value == 212.0
    ensures celsius < other ==> ConvertTemperature(celsius, Fahrenheit) < ConvertTemperature(other, Fahrenheit)
  {
  }

  /** The wind cell as written: the forecast's number (kilometres per hour, the
      forecast service's default) with the wind label of the selected unit. */
  function WindReading(kmh: real, u: Unit): (r: Reading)
    ensures r.value == kmh
    ensures r.units == "mph" <==> u == Fahrenheit
  {
    Reading(kmh, WindUnit(u))
  }

  /** Kilometres in a mile. */
  const KmPerMile: real := 1.609344

  /** A speed of 16.09344 km/h is 10 mph, but in Fahrenheit mode the wind cell
      shows it as 16.09344 mph. */
  lemma WindMislabelled()
    ensures WindReading(16.09344, Fahrenheit) == Reading(16.09344, "mph")
    ensures 16.09344 / KmPerMile == 10.0
  {
  }

  /** The wind cell as evidently intended: the number is converted to miles per
      hour when the label says so. */
  function ConvertedWindReading(kmh: real, u: Unit): Reading
  {
    if u == Celsius then Reading(kmh, WindUnit(u)) else Reading(kmh / KmPerMile, WindUnit(u))
  }

  /** With the conversion, the number always measures the same speed in the unit its label names. */
  lemma ConvertedWindAgreesWithLabel(kmh: real, u: Unit)
    ensures var r := ConvertedWindReading(kmh, u);
            r.units == WindUnit(u)
            && (r.units == "km/h" ==> r.value == kmh)
            && (r.units == "mph" ==> r.value * KmPerMile == kmh)
  {
  }

  /** One geocoding match. */
  datatype Place = Place(name: string, latitude: real, longitude: real)

  /** The geocoding answer; `results` is missing when nothing matched. */
  datatype Geocoding = Geocoding(results: Option<seq<Place>>)

  /** The `current` block of the forecast answer. */
  datatype Current = Current(temperature: real, apparentTemperature: real, humidity: real,
                             windSpeed: real, weatherCode: int)

  /** `WeatherData`: what the result card shows. */
  datatype WeatherData = WeatherData(name: string, temperature: real, feelsLike: real, humidity: real,
                                     windSpeed: real, weatherCode: int, description: string)

  /** The component state of the search: the card, the loading flag and the error banner. */
  datatype WeatherView = WeatherView(data: Option<WeatherData>, loading: bool, error: string)

  datatype Coordinates = Coordinates(latitude: real, longitude: real)

  /** One search: the view afterwards and where the forecast was requested, if it was. */
  datatype Search = Search(view: WeatherView, forecastAt: Option<Coordinates>)

  /** A stage of the search: it produced a value, or it threw with a message. */
  datatype Stage<+T> = Found(value: T) | Threw(message: string)

  const WeatherFallback: string := "Failed to fetch weather data"

  /** The geocoding stage: the first match, or the error it throws. */
  function LocateCity(geo: Reply<(), Read<Geocoding>>): (r: Stage<Place>)
    ensures geo.NotOk? ==> r == Threw("Failed to find city")
    ensures geo.Rejected? ==> r == Threw(MessageOf(geo.thrown, WeatherFallback))
    ensures geo.Ok? && geo.payload.ReadFailed? ==> r == Threw(MessageOf(geo.payload.thrown, WeatherFallback))
    ensures geo.Ok? && geo.payload.Parsed? ==>
              var g := geo.payload.value;
              && (r.Found? <==> g.results.Some? && |g.results.value| > 0)
              && (r.Found? ==> r.value == g.results.value[0])
              && (r.Threw? ==> r.message == "City not found")
    ensures r.Found? ==> geo.Ok? && geo.payload.Parsed?
  {
    match geo
    case Rejected(t) => Threw(MessageOf(t, WeatherFallback))
    case NotOk(_, _) => Threw("Failed to find city")
    case Ok(ReadFailed(t)) => Threw(MessageOf(t, WeatherFallback))
    case Ok(Parsed(g)) =>
      if g.results.None? || |g.results.value| == 0 then Threw("City not found")
      else Found(g.results.value[0])
  }

  /** The forecast stage for a located place. */
  function ReadForecast(place: Place, forecast: Reply<(), Read<Current>>): (r: Stage<WeatherData>)
    ensures r.Found? <==> forecast.Ok? && forecast.payload.Parsed?
    ensures forecast.NotOk? ==> r == Threw(WeatherFallback)
    ensures forecast.Rejected? ==> r == Threw(MessageOf(forecast.thrown, WeatherFallback))
    ensures forecast.Ok? && forecast.payload.ReadFailed? ==>
              r == Threw(MessageOf(forecast.payload.thrown, WeatherFallback))
    ensures r.Found? ==>
              var c := forecast.payload.value;
              r.value == WeatherData(place.name, c.temperature, c.apparentTemperature, c.humidity,
                                     c.windSpeed, c.weatherCode, Describe(c.weatherCode))
  {
    match forecast
    case Rejected(t) => Threw(MessageOf(t, WeatherFallback))
    case NotOk(_, _) => Threw(WeatherFallback)
    case Ok(ReadFailed(t)) => Threw(MessageOf(t, WeatherFallback))
    case Ok(Parsed(c)) =>
      Found(WeatherData(place.name, c.temperature, c.apparentTemperature, c.humidity,
                        c.windSpeed, c.weatherCode, Describe(c.weatherCode)))
  }

  /** `fetchWeather(city)`: geocode, then fetch the forecast for the first match.
      The forecast outcome is consulted only when geocoding found a place. */
  function FetchWeather(v: WeatherView, geo: Reply<(), Read<Geocoding>>, forecast: Reply<(), Read<Current>>): (r: Search)
    ensures !r.view.loading
    ensures r.forecastAt.Some? <==> LocateCity(geo).Found?
    ensures r.forecastAt.Some? ==>
              r.forecastAt.value == Coordinates(LocateCity(geo).value.latitude, LocateCity(geo).value.longitude)
    ensures r.view.data.Some? <==> LocateCity(geo).Found? && forecast.Ok? && forecast.payload.Parsed?
    ensures r.view.data.Some? ==> r.view.error == "" && r.view.data.value.name == LocateCity(geo).value.name
                                   && Truthy(r.view.data.value.description)
    ensures r.view.data.Some? ==> r.view.data.value == ReadForecast(LocateCity(geo).value, forecast).value
    ensures LocateCity(geo).Threw? ==> r.view.error == LocateCity(geo).message
    ensures LocateCity(geo).Found? && ReadForecast(LocateCity(geo).value, forecast).Threw? ==>
              r.view.error == ReadForecast(LocateCity(geo).value, forecast).message
  {
    match LocateCity(geo)
    case Threw(m) => Search(WeatherView(None, false, m), None)
    case Found(place) =>
      var at := Coordinates(place.latitude, place.longitude);
      match ReadForecast(place, forecast)
      case Threw(m) => Search(WeatherView(None, false, m), Some(at))
      case Found(d) => Search(WeatherView(Some(d), false, ""), Some(at))
  }

  /** A search does not depend on the previous one: the card, error and loading
      flag are all replaced. */
  lemma SearchForgetsPreviousView(v1: WeatherView, v2: WeatherView,
                                  geo: Reply<(), Read<Geocoding>>, forecast: Reply<(), Read<Current>>)
    ensures FetchWeather(v1, geo, forecast) == FetchWeather(v2, geo, forecast)
  {
  }

  /** A missing or empty `results` list ends the search with `City not found`,
      no card and no forecast request. */
  lemma CityNotFound(v: WeatherView, g: Geocoding, forecast: Reply<(), Read<Current>>)
    requires g.results.None? || g.results.value == []
    ensures FetchWeather(v, Ok(Parsed(g)), forecast) == Search(WeatherView(None, false, "City not found"), None)
  {
  }

  /** Only the first geocoding match is used: answers that agree on it give the same search. */
  lemma OnlyFirstMatchUsed(v: WeatherView, g1: Geocoding, g2: Geocoding, forecast: Reply<(), Read<Current>>)
    requires g1.results.Some? && g2.results.Some? && |g1.results.value| > 0 && |g2.results.value| > 0
    requires g1.results.value[0] == g2.results.value[0]
    ensures FetchWeather(v, Ok(Parsed(g1)), forecast) == FetchWeather(v, Ok(Parsed(g2)), forecast)
  {
  }

  /** A search either shows a card and no error, or no card and the error of
      the stage that failed; a refused forecast request names itself. */
  lemma SearchOutcomes(v: WeatherView, geo: Reply<(), Read<Geocoding>>, forecast: Reply<(), Read<Current>>)
    ensures var r := FetchWeather(v, geo, forecast);
            r.view.data.None? ==> r.view.error == (if LocateCity(geo).Threw? then LocateCity(geo).message
                                                  else ReadForecast(LocateCity(geo).value, forecast).message)
    ensures LocateCity(geo).Found? && forecast.NotOk? ==>
              FetchWeather(v, geo, forecast).view == WeatherView(None, false, WeatherFallback)
  {
  }

  /** London with weather code 0 shows `Clear sky` and the sun. */
  lemma ClearSkyScenario(v: WeatherView, london: Place, c: Current)
    requires c.weatherCode == 0
    ensures var r := FetchWeather(v, Ok(Parsed(Geocoding(Some([london])))), Ok(Parsed(c)));
            && r.view.data.Some?
            && r.view.data.value.description == "Clear sky"
            && WeatherIcon(r.view.data.value.weatherCode) == "\U{2600}\U{FE0F}"
  {
  }
}
