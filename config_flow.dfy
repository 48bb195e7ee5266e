/**
 * The configuration flow: the province and station choices offered to the
 * user, the name a station gets when the user leaves it blank, and the entry
 * created at the end, whose unique id is the station code.
 */
module ConfigFlow {
  import opened PyDict
  import Weather

  /** `CONF_NAME` of the host framework and `CONF_STATION_CODE` of the integration. */
  const ConfName: string := "name"
  const ConfStationCode: string := "station_code"

  /** The form's answers, a dictionary the steps update in place. */
  type UserInput = map<string, Value>

  /** A record of the province list. */
  datatype Province = Province(code: string, name: string)

  /** A record of a province's city list. */
  datatype City = City(code: string, province: string, city: string)

  /** `{p['code']: p['name'] for p in provinces}`. */
  function Provinces(ps: seq<Province>): (m: map<string, string>)
    ensures forall i :: 0 <= i < |ps| ==> ps[i].code in m
    ensures forall k :: k in m ==> exists i :: 0 <= i < |ps| && ps[i].code == k
    ensures forall i :: 0 <= i < |ps| && (forall j :: i < j < |ps| ==> ps[j].code != ps[i].code) ==>
      m[ps[i].code] == ps[i].name
  {
    var pairs := seq(|ps|, i requires 0 <= i < |ps| => (ps[i].code, ps[i].name));
    assert forall i :: 0 <= i < |ps| ==> pairs[i].0 == ps[i].code;
    forall i | 0 <= i < |ps| && (forall j :: i < j < |ps| ==> ps[j].code != ps[i].code)
      ensures FromPairs(pairs)[ps[i].code] == ps[i].name
    {
      assert IsLast(pairs, i);
      FromPairsLast(pairs, i);
    }
    FromPairs(pairs)
  }

  /** `{city['code']: city['city'] for city in cities}`. */
  function Stations(cs: seq<City>): (m: map<string, string>)
    ensures forall i :: 0 <= i < |cs| ==> cs[i].code in m
    ensures forall k :: k in m ==> exists i :: 0 <= i < |cs| && cs[i].code == k
    ensures forall i :: 0 <= i < |cs| && (forall j :: i < j < |cs| ==> cs[j].code != cs[i].code) ==>
      m[cs[i].code] == cs[i].city
  {
    var pairs := seq(|cs|, i requires 0 <= i < |cs| => (cs[i].code, cs[i].city));
    assert forall i :: 0 <= i < |cs| ==> pairs[i].0 == cs[i].code;
    forall i | 0 <= i < |cs| && (forall j :: i < j < |cs| ==> cs[j].code != cs[i].code)
      ensures FromPairs(pairs)[cs[i].code] == cs[i].city
    {
      assert IsLast(pairs, i);
      FromPairsLast(pairs, i);
    }
    FromPairs(pairs)
  }

  /** The user left the name out: `user_input.get(CONF_NAME) is None`. */
  predicate NameMissing(input: UserInput)
  {
    Get(input, ConfName) == Null
  }

  /** The name of the first city in list order whose code is `code`, or else the code as text. */
  function CityName(cities: seq<City>, code: Value): string
  {
    if cities == [] then Format(code)
    else if Text(cities[0].code) == code then cities[0].province + cities[0].city
    else CityName(cities[1..], code)
  }

  /** What `async_step_city` makes of `user_input`. */
  function NamedForCity(input: UserInput, cities: seq<City>): (out: UserInput)
    requires NameMissing(input) ==> ConfStationCode in input
    ensures !NameMissing(out)
    ensures forall k :: k in input && k != ConfName ==> k in out && out[k] == input[k]
    ensures !NameMissing(input) ==> out == input
  {
    if NameMissing(input) then input[ConfName := Text(CityName(cities, input[ConfStationCode]))]
    else input
  }

  /** What `async_step_manual` makes of `user_input`. */
  function NamedManually(input: UserInput): (out: UserInput)
    requires NameMissing(input) ==> ConfStationCode in input
    ensures !NameMissing(out)
    ensures forall k :: k in input && k != ConfName ==> k in out && out[k] == input[k]
    ensures NameMissing(input) && input[ConfStationCode].Text? ==> Get(out, ConfName) == input[ConfStationCode]
  {
    if NameMissing(input) then input[ConfName := Text(Format(input[ConfStationCode]))]
    else input
  }

  /** A name the user gave is kept as it is by both steps. */
  lemma GivenNameKept(input: UserInput, cities: seq<City>)
    requires !NameMissing(input)
    ensures NamedForCity(input, cities) == input
    ensures NamedManually(input) == input
  {
  }

  /** The manual step names an unnamed station by its code. */
  lemma ManualNameIsCode(input: UserInput)
    requires NameMissing(input) && ConfStationCode in input
    ensures NamedManually(input)[ConfName] == Text(Format(input[ConfStationCode]))
  {
  }

  /** With no city of that code, the city step names the station by its code. */
  lemma {:induction false} CityNameWithoutMatch(cities: seq<City>, code: Value)
    requires forall i :: 0 <= i < |cities| ==> Text(cities[i].code) != code
    ensures CityName(cities, code) == Format(code)
  {
    if cities != [] {
      CityNameWithoutMatch(cities[1..], code);
    }
  }

  /** With a city of that code, the name is province and city of the first such city. */
  lemma {:induction false} CityNameFirstMatch(cities: seq<City>, code: Value, i: int)
    requires 0 <= i < |cities| && Text(cities[i].code) == code
    requires forall j :: 0 <= j < i ==> Text(cities[j].code) != code
    ensures CityName(cities, code) == cities[i].province + cities[i].city
  {
    if i > 0 {
      CityNameFirstMatch(cities[1..], code, i - 1);
    }
  }

  /** Both steps change at most the name field, and always leave a name. */
  lemma OnlyNameChanges(input: UserInput, cities: seq<City>)
    requires NameMissing(input) ==> ConfStationCode in input
    ensures forall out :: out == NamedForCity(input, cities) || out == NamedManually(input) ==>
      && out.Keys == input.Keys + {ConfName}
      && (forall k :: k in input && k != ConfName ==> out[k] == input[k])
      && Get(out, ConfName) != Null
  {
  }

  /** The configuration entry `async_setup_station` creates. */
  datatype Entry = Entry(title: Value, uniqueId: string, data: UserInput)

  /** `async_setup_station` for a configuration: titled by its name, identified by its station code. */
  function StationEntry(config: UserInput): (e: Entry)
    ensures e.data == config
    ensures e.title == Get(e.data, ConfName)
    ensures e.uniqueId == Weather.UniqueId(Get(e.data, ConfStationCode))
  {
    Entry(Get(config, ConfName), Format(Get(config, ConfStationCode)), config)
  }

  /** The weather entity of an entry has the entry's unique id: both are the station code as text. */
  lemma WeatherIdIsEntryId(config: UserInput)
    ensures Weather.UniqueId(Get(StationEntry(config).data, ConfStationCode)) == StationEntry(config).uniqueId
  {
  }

  /** `NMCWeatherFlowHandler`: the city list of the chosen province and the answers so far. */
  class FlowHandler {
    var cities: seq<City>
    var config: UserInput

    constructor (cities: seq<City>)
      ensures this.cities == cities && config == map[]
    {
      this.cities := cities;
      config := map[];
    }

    /** `async_step_city` with the user's answers: default the name, keep the answers, create the entry. */
    method StepCity(userInput: UserInput) returns (entry: Entry)
      requires NameMissing(userInput) ==> ConfStationCode in userInput
      modifies this`config
      ensures config == NamedForCity(userInput, cities)
      ensures entry == StationEntry(config)
    {
      var input := userInput;
      if Get(input, ConfName) == Null {
        var code := input[ConfStationCode];
        input := input[ConfName := Text(Format(code))];
        var i := 0;
        while i < |cities|
          invariant 0 <= i <= |cities|
          invariant forall j :: 0 <= j < i ==> Text(cities[j].code) != code
          invariant input == userInput[ConfName := Text(Format(code))]
        {
          if Text(cities[i].code) == code {
            input := input[ConfName := Text(cities[i].province + cities[i].city)];
            CityNameFirstMatch(cities, code, i);
            break;
          }
          i := i + 1;
        }
        if i == |cities| {
          CityNameWithoutMatch(cities, code);
        }
      }
      config := input;
      entry := SetupStation();
    }

    /** `async_step_manual` with the user's answers: default the name, keep the answers, create the entry. */
    method StepManual(userInput: UserInput) returns (entry: Entry)
      requires NameMissing(userInput) ==> ConfStationCode in userInput
      modifies this`config
      ensures config == NamedManually(userInput)
      ensures entry == StationEntry(config)
    {
      var input := userInput;
      if Get(input, ConfName) == Null {
        input := input[ConfName := Text(Format(input[ConfStationCode]))];
      }
      config := input;
      entry := SetupStation();
    }

    /** `async_setup_station`. */
    method SetupStation() returns (entry: Entry)
      ensures entry == StationEntry(config)
    {
      var name := Get(config, ConfName);
      var uniqueId := Format(Get(config, ConfStationCode));
      entry := Entry(name, uniqueId, config);
    }
  }
}
