/**
 * The four image feeds that the image and camera platforms both describe in
 * an identical `CAMERA_TYPE` list, the value a configuration entry holds for
 * the selected feeds, and the filter both platforms' setup applies.
 *
 * The configuration keys (`CONF_IMAGE_*`) and snapshot keys (`DATA_*`) are
 * imported from a constants file that does not define them; here each one is
 * a distinct opaque text spelled like its constant's name.
 */
module ImageTypes {

  /** An entity description: its configuration key, its snapshot key and its display name. */
  datatype Description = Description(key: string, dataKey: string, name: string)

  const ConfImagePrecipitation24: string := "CONF_IMAGE_PRECIPITATION24"
  const ConfImageMaxTemperature24: string := "CONF_IMAGE_MAX_TEMPERATURE24"
  const ConfImageRadar: string := "CONF_IMAGE_RADAR"
  const ConfImageTemperatureHourly: string := "CONF_IMAGE_TEMPERATURE_HOURLY"

  const DataPrecipitation24: string := "DATA_PRECIPITATION24"
  const DataMaxTemperature24: string := "DATA_MAX_TEMPERATURE24"
  const DataRadar: string := "DATA_RADAR"
  const DataTemperatureHourly: string := "DATA_TEMPERATURE_HOURLY"

  /** `CAMERA_TYPE`, in its declared order. */
  function CameraTypes(): seq<Description>
  {
    [ Description(ConfImagePrecipitation24, DataPrecipitation24, "24h Precipitation"),
      Description(ConfImageMaxTemperature24, DataMaxTemperature24, "24h Max Temperature"),
      Description(ConfImageRadar, DataRadar, "Radar"),
      Description(ConfImageTemperatureHourly, DataTemperatureHourly, "Temperature Hourly") ]
  }

  /** What the entry data holds under `CONF_IMAGES`: no such key, `None` (`NoneList`), or a list of keys. */
  datatype ConfigImages = Missing | NoneList | Listed(keys: seq<string>)

  /** The exceptions the setup comprehensions can raise. */
  datatype SetupError =
    | KeyError    // `data[CONF_IMAGES]` without the key
    | TypeError   // `key in None`

  /** `[d for d in types if d.key in keys]`. */
  function Selected(types: seq<Description>, keys: seq<string>): (r: seq<Description>)
    ensures |r| <= |types|
    ensures forall d :: d in r <==> d in types && d.key in keys
  {
    if types == [] then []
    else (if types[0].key in keys then [types[0]] else []) + Selected(types[1..], keys)
  }

  /** `r` is `s` with some elements left out, the rest kept in their order. */
  ghost predicate Subsequence<T>(r: seq<T>, s: seq<T>)
    decreases |s|
  {
    if r == [] then true
    else if s == [] then false
    else (r[0] == s[0] && Subsequence(r[1..], s[1..])) || Subsequence(r, s[1..])
  }

  /** The comprehension keeps the descriptions in the order of the list it walks. */
  lemma {:induction false} SelectedInOrder(types: seq<Description>, keys: seq<string>)
    ensures Subsequence(Selected(types, keys), types)
  {
    if types != [] {
      SelectedInOrder(types[1..], keys);
      var rest := Selected(types[1..], keys);
      if types[0].key in keys {
        assert Selected(types, keys) == [types[0]] + rest;
        assert ([types[0]] + rest)[1..] == rest;
      } else {
        assert Selected(types, keys) == rest;
        if rest != [] {
          assert Subsequence(rest, types[1..]);
        }
      }
    }
  }

  /**
   * Setup with a list of keys creates exactly the descriptions of
   * `CAMERA_TYPE` whose key the list holds, in `CAMERA_TYPE` order.
   */
  lemma SelectedCameraTypes(keys: seq<string>)
    ensures var r := Selected(CameraTypes(), keys);
      && Subsequence(r, CameraTypes())
      && forall d :: d in r <==> d in CameraTypes() && d.key in keys
  {
    SelectedInOrder(CameraTypes(), keys);
  }
}
