/**
 * The weather entity of the integration: the fixed table that turns the
 * service's Chinese condition text into one of the host framework's twelve
 * condition codes, the current-condition lookup, the daily forecast built
 * from the `predict.detail` and `tempchart` lists of one snapshot, and the
 * plain accessors whose behaviour is decided by how the class body is laid
 * out.
 */
module Weather {
  import opened Wrappers
  import opened PyDict

  /** The host framework's twelve weather condition codes. */
  datatype Condition =
    | Sunny | Cloudy | PartlyCloudy | Fog | Rainy | Pouring
    | Snowy | SnowyRainy | LightningRainy | Hail | Windy | Exceptional

  /**
   * The entries of the condition table in the order the dictionary display
   * lists them, in four consecutive blocks (26 entries, '雾' twice).
   */
  function ConditionEntries(): seq<(string, Condition)>
  {
    ConditionBlock(0) + ConditionBlock(1) + ConditionBlock(2) + ConditionBlock(3)
  }

  /** One block of consecutive entries of the display. */
  function ConditionBlock(b: nat): seq<(string, Condition)>
    requires b < 4
  {
    match b
    case 0 => [ ("晴", Sunny), ("多云", Cloudy), ("局部多云", PartlyCloudy), ("阴", Cloudy),
                ("雾", Fog), ("中雾", Fog), ("大雾", Fog) ]
    case 1 => [ ("小雨", Rainy), ("中雨", Rainy), ("大雨", Pouring), ("暴雨", Pouring), ("雾", Fog),
                ("小雪", Snowy), ("中雪", Snowy) ]
    case 2 => [ ("大雪", Snowy), ("暴雪", Snowy), ("扬沙", Fog), ("沙尘", Fog),
                ("雷阵雨", LightningRainy), ("冰雹", Hail) ]
    case 3 => [ ("雨夹雪", SnowyRainy), ("大风", Windy),
                ("薄雾", Fog), ("雨", Rainy), ("雪", Snowy), ("9999", Exceptional) ]
  }

  /** The condition table as Python builds it from the display. */
  function ConditionMap(): map<string, Condition>
  {
    FromPairs(ConditionEntries())
  }

  /** Within one block no text is paired with two codes. */
  lemma ConditionBlockConsistent(b: nat)
    requires b < 4
    ensures Consistent(ConditionBlock(b))
  {
  }

  /** A text listed in two blocks ('雾') is paired with the same code in both. */
  lemma ConditionBlocksAgree(x: nat, y: nat)
    requires x < y < 4
    ensures Agree(ConditionBlock(x), ConditionBlock(y))
  {
  }

  /**
   * The table is a function of the listed text: where a text is listed twice
   * ('雾'), both entries give the same code.
   */
  lemma ConditionEntriesConsistent()
    ensures Consistent(ConditionEntries())
  {
    var b0, b1, b2, b3 := ConditionBlock(0), ConditionBlock(1), ConditionBlock(2), ConditionBlock(3);
    ConditionBlockConsistent(0);
    ConditionBlockConsistent(1);
    ConditionBlockConsistent(2);
    ConditionBlockConsistent(3);
    ConditionBlocksAgree(0, 1);
    ConditionBlocksAgree(0, 2);
    ConditionBlocksAgree(1, 2);
    ConditionBlocksAgree(0, 3);
    ConditionBlocksAgree(1, 3);
    ConditionBlocksAgree(2, 3);
    ConsistentConcat(b0, b1);
    AgreeConcat(b0, b1, b2);
    ConsistentConcat(b0 + b1, b2);
    AgreeConcat(b0, b1, b3);
    AgreeConcat(b0 + b1, b2, b3);
    ConsistentConcat(b0 + b1 + b2, b3);
  }

  /** Every entry of the listing, the repeated one included, is what the built table gives for its text. */
  lemma ConditionMapHasEveryEntry()
    ensures forall i :: 0 <= i < |ConditionEntries()| ==>
      ConditionEntries()[i].0 in ConditionMap() && ConditionMap()[ConditionEntries()[i].0] == ConditionEntries()[i].1
  {
    var es := ConditionEntries();
    ConditionEntriesConsistent();
    forall i | 0 <= i < |es|
      ensures es[i].0 in ConditionMap() && ConditionMap()[es[i].0] == es[i].1
    {
      FromPairsOfConsistent(es, es[i].0, es[i].1);
    }
  }

  /** Every one of the twelve codes is the table's value for some listed text. */
  lemma EveryConditionListed(c: Condition)
    ensures exists i :: 0 <= i < |ConditionEntries()| && ConditionEntries()[i].1 == c
  {
    var es := ConditionEntries();
    var i := match c
      case Sunny => 0 case Cloudy => 1 case PartlyCloudy => 2 case Fog => 4
      case Rainy => 7 case Pouring => 9 case Snowy => 12 case LightningRainy => 18
      case Hail => 19 case SnowyRainy => 20 case Windy => 21 case Exceptional => 25;
    assert es[i].1 == c;
  }

  /** `dict.get` on the condition table: `None` for text the table does not list. */
  function LookupCondition(info: string): Option<Condition>
  {
    if info in ConditionMap() then Some(ConditionMap()[info]) else None
  }

  // ---------------------------------------------------------------------
  // The parts of one snapshot that the entity reads.

  /** A `wind` object: its `direct`, `power` and `speed` fields, kept as text. */
  datatype Wind = Wind(direct: string, power: string, speed: string)

  /** The `real` section: `weather.info` and the `wind` object. */
  datatype Real = Real(info: string, wind: Wind)

  /** One half-day of a `predict.detail` element: `weather.info` and its `wind`. */
  datatype Period = Period(info: string, wind: Wind)

  /** One element of `predict.detail`: its date text and its `day` half. */
  datatype Detail = Detail(date: string, day: Period)

  /** One element of `tempchart`. */
  datatype TempPoint = TempPoint(maxTemp: real, minTemp: real)

  /** The snapshot the coordinator holds for the weather entity. */
  datatype WeatherData = WeatherData(
    current: Real,
    aqi: int,
    detail: seq<Detail>,
    tempchart: seq<TempPoint>)

  // ---------------------------------------------------------------------
  // Current conditions.

  /** The `state` property: the table's code for the current text, or `None`. */
  function State(data: WeatherData): (r: Option<Condition>)
    ensures r.Some? ==> (data.current.info, r.value) in ConditionEntries()
    ensures r.None? ==> forall i :: 0 <= i < |ConditionEntries()| ==> ConditionEntries()[i].0 != data.current.info
  {
    var r := LookupCondition(data.current.info);
    ConditionEntriesConsistent();
    if r.Some? then
      FromPairsOfConsistent(ConditionEntries(), data.current.info, r.value);
      r
    else
      r
  }

  /** `state` gives exactly a table pair for the current text: no fallback, no guessing. */
  lemma StateIsTablePair(data: WeatherData, c: Condition)
    ensures State(data) == Some(c) <==> (data.current.info, c) in ConditionEntries()
  {
    ConditionEntriesConsistent();
    FromPairsOfConsistent(ConditionEntries(), data.current.info, c);
  }

  /** `state` is `None` exactly when no entry of the table has the current text. */
  lemma StateNoneIffUnlisted(data: WeatherData)
    ensures State(data) == None <==>
      forall i :: 0 <= i < |ConditionEntries()| ==> ConditionEntries()[i].0 != data.current.info
  {
  }

  /** Which field of `wind` a property returns. */
  datatype WindField = Speed | Direct | Power

  /**
   * The wind properties in the order the class body defines them; the class
   * namespace is a dictionary, so the second `wind_speed` replaces the first.
   */
  function WindProperties(): seq<(string, WindField)>
  {
    [("wind_speed", Speed), ("wind_bearing", Direct), ("wind_speed", Power)]
  }

  function ReadWind(w: Wind, f: WindField): string
  {
    match f
    case Speed => w.speed
    case Direct => w.direct
    case Power => w.power
  }

  /** The `wind_speed` property as the class ends up defining it: the wind's power, not its speed. */
  function WindSpeed(data: WeatherData): (r: string)
    ensures r == data.current.wind.power
  {
    var ps := WindProperties();
    assert IsLast(ps, 2);
    ReadWind(data.current.wind, FromPairs(ps)["wind_speed"])
  }

  /** The `wind_bearing` property: the wind's direction. */
  function WindBearing(data: WeatherData): (r: string)
    ensures r == data.current.wind.direct
  {
    var ps := WindProperties();
    assert IsLast(ps, 1);
    ReadWind(data.current.wind, FromPairs(ps)["wind_bearing"])
  }

  /** The `aqi` property. */
  function Aqi(data: WeatherData): int
  {
    data.aqi
  }

  /** The `aqi_description` property reads the same field as `aqi`. */
  function AqiDescription(data: WeatherData): (r: int)
    ensures r == Aqi(data)
  {
    data.aqi
  }

  /** The `unique_id` property: `str` of the configured station code. */
  function UniqueId(stationCode: Value): (r: string)
    ensures stationCode.Text? ==> r == stationCode.text
    ensures stationCode.Null? ==> r == "None"
  {
    Format(stationCode)
  }

  // ---------------------------------------------------------------------
  // The daily forecast.

  /** One element of the forecast list. */
  datatype ForecastEntry = ForecastEntry(
    time: string,
    condition: Condition,
    temp: real,
    tempLow: real,
    windBearing: string,
    windSpeed: string)

  /** The exceptions `forecast` can raise. */
  datatype ForecastError =
    | UnknownCondition(info: string)   // KeyError from `CONDITION_MAP[...]`
    | TempChartIndex(index: int)       // IndexError from `tempchart[i + 7]`

  /** The condition table the weather entity reads. */
  type Table = map<string, Condition>

  /**
   * The entry the loop builds for `predict.detail[i]` with condition table
   * `t`, or the exception it raises first: the condition lookup is evaluated
   * before `tempchart` is indexed.
   */
  function EntryAt(t: Table, data: WeatherData, i: int): Result<ForecastEntry, ForecastError>
    requires 1 <= i < |data.detail|
  {
    var d := data.detail[i];
    if d.day.info !in t then Err(UnknownCondition(d.day.info))
    else if i + 7 >= |data.tempchart| then Err(TempChartIndex(i + 7))
    else Ok(ForecastEntry(d.date, t[d.day.info],
                          data.tempchart[i + 7].maxTemp, data.tempchart[i + 7].minTemp,
                          d.day.wind.direct, d.day.wind.power))
  }

  /** The outcome of the loop once it has run for `i` in `range(1, n)`. */
  function ForecastUpTo(t: Table, data: WeatherData, n: int): Result<seq<ForecastEntry>, ForecastError>
    requires n <= 1 || n <= |data.detail|
    decreases n
  {
    if n <= 1 then Ok([])
    else
      match ForecastUpTo(t, data, n - 1)
      case Err(e) => Err(e)
      case Ok(acc) =>
        match EntryAt(t, data, n - 1)
        case Err(e) => Err(e)
        case Ok(x) => Ok(acc + [x])
  }

  /** The `forecast` property: the whole loop over `predict.detail`. */
  function ForecastOf(data: WeatherData): Result<seq<ForecastEntry>, ForecastError>
  {
    ForecastUpTo(ConditionMap(), data, |data.detail|)
  }

  /** Once an iteration raises, every longer run raises the same exception. */
  lemma {:induction false} ForecastErrSticks(t: Table, data: WeatherData, m: int, n: int)
    requires m <= n
    requires n <= 1 || n <= |data.detail|
    requires m <= 1 || m <= |data.detail|
    requires ForecastUpTo(t, data, m).Err?
    ensures ForecastUpTo(t, data, n) == ForecastUpTo(t, data, m)
    decreases n - m
  {
    if m < n {
      ForecastErrSticks(t, data, m, n - 1);
    }
  }

  /**
   * The `forecast` loop: it skips `detail[0]`, builds one entry per later
   * element and appends it, and propagates the first exception.
   */
  method Forecast(data: WeatherData) returns (r: Result<seq<ForecastEntry>, ForecastError>)
    ensures r == ForecastOf(data)
  {
    var table := ConditionMap();
    var forecastData: seq<ForecastEntry> := [];
    var i := 1;
    while i < |data.detail|
      invariant 1 <= i && (i == 1 || i <= |data.detail|)
      invariant ForecastUpTo(table, data, i) == Ok(forecastData)
    {
      var d := data.detail[i];
      if d.day.info !in table {
        r := Err(UnknownCondition(d.day.info));
        assert ForecastUpTo(table, data, i + 1) == r;
        ForecastErrSticks(table, data, i + 1, |data.detail|);
        return;
      }
      if i + 7 >= |data.tempchart| {
        r := Err(TempChartIndex(i + 7));
        assert ForecastUpTo(table, data, i + 1) == r;
        ForecastErrSticks(table, data, i + 1, |data.detail|);
        return;
      }
      var entry := ForecastEntry(d.date, table[d.day.info],
                                 data.tempchart[i + 7].maxTemp, data.tempchart[i + 7].minTemp,
                                 d.day.wind.direct, d.day.wind.power);
      assert EntryAt(table, data, i) == Ok(entry);
      forecastData := forecastData + [entry];
      i := i + 1;
    }
    r := Ok(forecastData);
  }

  /** Whether iteration `i` of the loop completes with table `t`. */
  predicate EntryOk(t: Table, data: WeatherData, i: int)
    requires 1 <= i < |data.detail|
  {
    data.detail[i].day.info in t && i + 7 < |data.tempchart|
  }

  /** A run up to `n` succeeds exactly when each of its iterations does. */
  lemma {:induction false} ForecastUpToOkIff(t: Table, data: WeatherData, n: int)
    requires n <= 1 || n <= |data.detail|
    ensures ForecastUpTo(t, data, n).Ok? <==> forall i :: 1 <= i < n ==> EntryOk(t, data, i)
    decreases n
  {
    if n > 1 {
      ForecastUpToOkIff(t, data, n - 1);
      assert EntryAt(t, data, n - 1).Ok? <==> EntryOk(t, data, n - 1);
    }
  }

  /**
   * The forecast is produced exactly when every element after the first has a
   * listed day condition and `tempchart` reaches index `len(detail) + 6`;
   * one unlisted condition anywhere makes the whole property raise.
   */
  lemma ForecastOkIff(data: WeatherData)
    ensures ForecastOf(data).Ok? <==>
      (forall i :: 1 <= i < |data.detail| ==> LookupCondition(data.detail[i].day.info).Some?)
      && (|data.detail| <= 1 || |data.tempchart| >= |data.detail| + 7)
  {
    var t := ConditionMap();
    ForecastUpToOkIff(t, data, |data.detail|);
    if (forall i :: 1 <= i < |data.detail| ==> LookupCondition(data.detail[i].day.info).Some?)
       && (|data.detail| <= 1 || |data.tempchart| >= |data.detail| + 7)
    {
      assert forall i :: 1 <= i < |data.detail| ==> EntryOk(t, data, i);
    }
    if ForecastOf(data).Ok? {
      forall i | 1 <= i < |data.detail|
        ensures LookupCondition(data.detail[i].day.info).Some?
      {
        assert EntryOk(t, data, i);
      }
      if |data.detail| > 1 {
        assert EntryOk(t, data, |data.detail| - 1);
      }
    }
  }

  /** A successful run up to `n` has one entry per index `1 .. n - 1`, built from that element. */
  lemma {:induction false} ForecastUpToShape(t: Table, data: WeatherData, n: int)
    requires n <= 1 || n <= |data.detail|
    requires ForecastUpTo(t, data, n).Ok?
    ensures var f := ForecastUpTo(t, data, n).value;
      && |f| == (if n <= 1 then 0 else n - 1)
      && forall k :: 0 <= k < |f| ==> EntryAt(t, data, k + 1) == Ok(f[k])
    decreases n
  {
    if n > 1 {
      ForecastUpToShape(t, data, n - 1);
    }
  }

  /**
   * A produced forecast has `max(0, len(detail) - 1)` entries, and entry `k`
   * is built from `detail[k + 1]` and `tempchart[k + 8]`: its date, the table
   * code of its day condition, its day wind direction and power, and the
   * high and low of that `tempchart` element.
   */
  lemma ForecastShape(data: WeatherData)
    requires ForecastOf(data).Ok?
    ensures var f := ForecastOf(data).value;
      && |f| == (if |data.detail| == 0 then 0 else |data.detail| - 1)
      && forall k :: 0 <= k < |f| ==>
        var d := data.detail[k + 1];
        && k + 8 < |data.tempchart|
        && f[k].time == d.date
        && LookupCondition(d.day.info) == Some(f[k].condition)
        && f[k].windBearing == d.day.wind.direct
        && f[k].windSpeed == d.day.wind.power
        && f[k].temp == data.tempchart[k + 8].maxTemp
        && f[k].tempLow == data.tempchart[k + 8].minTemp
  {
    ForecastUpToShape(ConditionMap(), data, |data.detail|);
  }

  /**
   * When a run raises, it raises the exception of the first element that
   * fails, and every earlier element succeeds.
   */
  lemma {:induction false} ForecastFirstError(t: Table, data: WeatherData, n: int)
    requires n <= 1 || n <= |data.detail|
    requires ForecastUpTo(t, data, n).Err?
    ensures exists i :: 1 <= i < n && EntryAt(t, data, i) == Err(ForecastUpTo(t, data, n).error)
                        && forall j :: 1 <= j < i ==> EntryAt(t, data, j).Ok?
    decreases n
  {
    if ForecastUpTo(t, data, n - 1).Err? {
      ForecastFirstError(t, data, n - 1);
    } else {
      ForecastUpToOkIff(t, data, n - 1);
      forall j | 1 <= j < n - 1
        ensures EntryAt(t, data, j).Ok?
      {
        assert EntryOk(t, data, j);
      }
      assert EntryAt(t, data, n - 1) == Err(ForecastUpTo(t, data, n).error);
    }
  }
}
