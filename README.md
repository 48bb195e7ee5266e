# NMC weather integration: a Dafny model of its entity logic

This project models the logic of a home-automation integration for China's
National Meteorological Center (www.nmc.cn). A coordinator polls the service
and keeps one snapshot. The repository holds weather, image and camera
platform modules and a configuration flow. The image and camera modules come
from other versions of the integration; the package itself registers only
the weather platform. The weather entity reads the snapshot. The image and
camera entities follow the map images named in it. The configuration flow
creates one entry per station.

The model covers these parts:

- **Weather** (`weather.dfy`): the table from Chinese condition text to the
  host framework's twelve condition codes, built the way Python builds a
  dictionary display (a later duplicate key wins). Also the exact-match
  `state` lookup, and the `forecast` loop over `predict.detail` and
  `tempchart` together with its two exceptions: `KeyError` for an unlisted
  day condition, checked first, and `IndexError` for a short `tempchart`.
  Also the accessors whose result depends on the layout of the class body:
  `wind_speed` is defined twice and the second definition wins.
- **Image entity** (`image.dfy`): the URL / last-updated / cached-image state
  machine of `_handle_coordinator_update`, as a class whose method is
  specified by the pure `Update`. State writes are counted by a ghost field.
- **Camera** (`camera.dfy`): the one-entry URL cache of
  `async_camera_image`, as a class whose method is specified by `Serve`.
  The download is the `fetch` parameter and a ghost field counts downloads.
- **Setup filters** (`image_types.dfy`): the `CAMERA_TYPE` list that both
  platforms declare, and the comprehension both use to keep the configured
  feeds in list order. The two platforms read the configured list
  differently. The image platform reads it with `.get(..., [])`, so `None`
  raises `TypeError`. The camera platform reads it with `[...] or []`, so a
  missing key raises `KeyError`.
- **Configuration flow** (`config_flow.dfy`): the province and station
  dictionaries built by comprehension (the last record with a code wins), and
  the name given to an unnamed station. The city step searches its city list
  with a `for`/`break` loop. The manual step uses the code. Also the entry's
  unique id, which is the station code.
- `pydict.dfy` holds the Python semantics these parts share: `dict.get`,
  f-string formatting of a value that may be `None` (it gives `"None"`), and
  the dictionary a display or comprehension builds.

The image and camera platforms come from different versions of the
integration. For the image platform, the snapshot maps a data key to a record
with `url` and `update_time`. For the camera platform, it maps a data key to
a URL or `None`. Each module models its own platform's view. The
configuration keys `CONF_IMAGES`, `CONF_IMAGE_*` and `DATA_*` are imported
from a constants file that does not define them. They are opaque here: each
key is a distinct text spelled like the constant's name. The value stored
under `CONF_IMAGES` is one of three cases: missing, `None`, or a list.

The code has no substring fallback and no default to `exceptional`. `state`
returns `None` for unlisted text. `forecast` raises on unlisted text because
it indexes the table with `[]`. The model follows the code.

## Model

| member | source | states |
|---|---|---|
| `PyDict.FromPairs` | custom_components/nmc_weahter/weather.py:34-62 | the keys of a dictionary built from a list of pairs are exactly the listed keys |
| `PyDict.FromPairsLast` | custom_components/nmc_weahter/config_flow.py:64 | a key maps to the value of its last occurrence in the list |
| `Weather.ConditionMap` | custom_components/nmc_weahter/weather.py:34-62 | `CONDITION_MAP`, built from the listed pairs by `PyDict.FromPairs`; specified by `Weather.ConditionEntriesConsistent`, `Weather.ConditionMapHasEveryEntry` and `Weather.StateIsTablePair` |
| `Weather.ConditionEntriesConsistent` | custom_components/nmc_weahter/weather.py:34-62 | the condition table is a function: the text listed twice ('雾') is paired with the same code (fog) both times |
| `Weather.ConditionMapHasEveryEntry` | custom_components/nmc_weahter/weather.py:34-62 | for every listed entry, the repeated one included, the built table gives that entry's code for its text |
| `Weather.EveryConditionListed` | custom_components/nmc_weahter/weather.py:34-62 | each of the twelve condition codes is the value of some listed text |
| `Weather.State` | custom_components/nmc_weahter/weather.py:109-111 | `state`: a code it returns is one the table lists for the current text, and `None` means no entry lists that text |
| `Weather.StateIsTablePair` | custom_components/nmc_weahter/weather.py:109-111 | `state` is `Some(c)` exactly when (current text, c) is an entry of the table |
| `Weather.StateNoneIffUnlisted` | custom_components/nmc_weahter/weather.py:109-111 | `state` is `None` exactly when no entry lists the current text; there is no fallback |
| `Weather.WindSpeed` | custom_components/nmc_weahter/weather.py:125-135 | `wind_speed` returns the wind's `power`, not its `speed`, because the second definition replaces the first in the class namespace |
| `Weather.WindBearing` | custom_components/nmc_weahter/weather.py:129-131 | `wind_bearing` returns the wind's `direct` |
| `Weather.AqiDescription` | custom_components/nmc_weahter/weather.py:147-153 | `aqi_description` returns the same field as `aqi` |
| `Weather.Forecast` | custom_components/nmc_weahter/weather.py:159-174 | the appending loop returns what `ForecastOf` specifies: one entry per `i` in `range(1, len(detail))`, in order, or the first exception raised |
| `Weather.ForecastOkIff` | custom_components/nmc_weahter/weather.py:162-168 | the forecast is produced exactly when every day condition after `detail[0]` is listed and `len(tempchart) >= len(detail) + 7` (no requirement when `len(detail) <= 1`); one unlisted condition makes the whole call raise |
| `Weather.ForecastShape` | custom_components/nmc_weahter/weather.py:161-173 | a produced forecast has `max(0, len(detail) - 1)` entries; entry k takes date, table code of the day condition, wind direction and power from `detail[k+1]`, and high and low from `tempchart[k+8]` |
| `Weather.ForecastFirstError` | custom_components/nmc_weahter/weather.py:162-170 | a raised exception is that of the first failing element; every earlier element succeeds |
| `ConfigFlow.Provinces` | custom_components/nmc_weahter/config_flow.py:31 | every province code is a key and every key is some record's code; a code maps to the name of its last record |
| `ConfigFlow.Stations` | custom_components/nmc_weahter/config_flow.py:64 | every city code is a key and every key is some record's code; a code maps to the city of its last record |
| `ConfigFlow.GivenNameKept` | custom_components/nmc_weahter/config_flow.py:50-56 | a name the user gave is kept unchanged by the city step and by the manual step (line 85) |
| `ConfigFlow.ManualNameIsCode` | custom_components/nmc_weahter/config_flow.py:85-86 | the manual step names an unnamed station by its code |
| `ConfigFlow.CityNameWithoutMatch` | custom_components/nmc_weahter/config_flow.py:50-55 | with no city of the station's code, the city step's name is the code |
| `ConfigFlow.CityNameFirstMatch` | custom_components/nmc_weahter/config_flow.py:52-55 | with a matching city, the name is province followed by city of the first match in list order |
| `ConfigFlow.OnlyNameChanges` | custom_components/nmc_weahter/config_flow.py:50-56 | both steps change only the name field of the answers, add it if absent, and always leave a name |
| `Weather.UniqueId` | custom_components/nmc_weahter/weather.py:99-101 | `unique_id` is `str(station_code)`: the code itself for a text, `"None"` for `None` |
| `ConfigFlow.WeatherIdIsEntryId` | custom_components/nmc_weahter/weather.py:99-101 | the weather entity's `unique_id` (`str` of the station code) equals the unique id of the entry created for that station |
| `ConfigFlow.NamedForCity` | custom_components/nmc_weahter/config_flow.py:50-55 | the city step's answers always hold a name, keep every other answer, and are unchanged when a name was given; the chosen name is given by `ConfigFlow.CityNameFirstMatch` and `ConfigFlow.CityNameWithoutMatch` |
| `ConfigFlow.NamedManually` | custom_components/nmc_weahter/config_flow.py:85-86 | the manual step's answers always hold a name and keep every other answer; an unnamed station with a textual code is named by that code |
| `ConfigFlow.StationEntry` | custom_components/nmc_weahter/config_flow.py:103-109 | the entry carries the answers, is titled by their name, and its unique id is the one the weather entity reports for their station code |
| `ConfigFlow.FlowHandler.StepCity` | custom_components/nmc_weahter/config_flow.py:49-57 | the `for`/`break` search leaves the answers as `NamedForCity` gives them, stores them, and creates the entry from them |
| `ConfigFlow.FlowHandler.StepManual` | custom_components/nmc_weahter/config_flow.py:84-88 | the answers become `NamedManually` of the input, are stored, and the entry is created from them |
| `ConfigFlow.FlowHandler.SetupStation` | custom_components/nmc_weahter/config_flow.py:103-109 | the entry is titled by the stored name, has the station code as text as its unique id, and carries the stored answers |
| `ImageTypes.Selected` | custom_components/nmc_weahter/image.py:63-64 | the comprehension keeps a description exactly when it is in the list and its key is configured, and keeps no more than the list has |
| `ImageTypes.SelectedInOrder` | custom_components/nmc_weahter/image.py:63-64 | the kept descriptions are a subsequence of the list: order is preserved |
| `ImageTypes.SelectedCameraTypes` | custom_components/nmc_weahter/image.py:33-64 | setup with a key list creates exactly the configured feeds of `CAMERA_TYPE`, in `CAMERA_TYPE` order |
| `Image.Setup` | custom_components/nmc_weahter/image.py:63-64 | the image setup fails exactly when the image list is `None`, with `TypeError`; otherwise it creates at most four entities, all from `CAMERA_TYPE` |
| `Image.SetupCreatesListed` | custom_components/nmc_weahter/image.py:63-64 | no image list gives no entities; a `None` list raises `TypeError`; a list gives exactly its feeds in `CAMERA_TYPE` order |
| `Image.ImageUniqueIdInjective` | custom_components/nmc_weahter/image.py:75 | within one entry, different feeds get different image unique ids |
| `Image.UpdateAbsentKey` | custom_components/nmc_weahter/image.py:83-84 | with no record for the data key nothing changes and no state is written |
| `Image.UpdateUnchanged` | custom_components/nmc_weahter/image.py:85 | a record with the stored URL and time changes nothing, the cached image included |
| `Image.UpdateChanged` | custom_components/nmc_weahter/image.py:85-90 | a record whose URL or time differs is copied into the state, clears the cached image and writes state |
| `Image.UpdateIdempotent` | custom_components/nmc_weahter/image.py:85-90 | a second update with the same snapshot changes nothing and writes no state |
| `Image.Update` | custom_components/nmc_weahter/image.py:83-88 | without a record for the data key the state is unchanged; with one, URL and time equal the record's afterwards; the state either stays as it was or its cached image is cleared |
| `Image.ImageEntity.constructor` | custom_components/nmc_weahter/image.py:69-78 | a new entity holds the snapshot's `url` and `update_time` for its data key, no cached image, and the id `nmc-<entry id>-image-<key>` |
| `Image.ImageEntity.HandleCoordinatorUpdate` | custom_components/nmc_weahter/image.py:80-90 | the new fields are `Update` of the old ones, and state is written once exactly when something changed |
| `Camera.Setup` | custom_components/nmc_weahter/camera.py:65-66 | the camera setup fails exactly when the image list is missing, with `KeyError`; otherwise it creates at most four entities, all from `CAMERA_TYPE` |
| `Camera.SetupCreatesListed` | custom_components/nmc_weahter/camera.py:65-66 | a missing image list raises `KeyError`; `None` is treated as the empty list; a list gives exactly its feeds in `CAMERA_TYPE` order |
| `Camera.CameraIdIsNotImageId` | custom_components/nmc_weahter/camera.py:81 | within one entry, a camera's unique id never equals an image entity's |
| `Camera.NullUrlKeepsState` | custom_components/nmc_weahter/camera.py:89-96 | a `None` URL keeps the cached URL and image and does not download |
| `Camera.SameUrlKeepsState` | custom_components/nmc_weahter/camera.py:91-96 | the cached URL again returns the cached image without downloading |
| `Camera.NewUrlFetches` | custom_components/nmc_weahter/camera.py:91-94 | a new non-null URL downloads, then stores that URL and the downloaded bytes |
| `Camera.ServeThenRepeat` | custom_components/nmc_weahter/camera.py:91-96 | after a call with a non-null URL the cached URL is that URL, so an immediate repeat neither downloads nor changes anything |
| `Camera.Serve` | custom_components/nmc_weahter/camera.py:89-96 | after a non-null URL the stored URL is that URL; the state changes only through a download of a non-null URL, whose bytes become the image; an unchanged stored URL means an unchanged state |
| `Camera.NmcCamera.constructor` | custom_components/nmc_weahter/camera.py:71-81 | a new camera has no cached URL, no image, no downloads, and the id `nmc-<entry id>-camera-<key>` |
| `Camera.NmcCamera.CameraImage` | custom_components/nmc_weahter/camera.py:86-96 | a missing data key raises and changes nothing; otherwise the new state is `Serve` of the old, the cached image is returned, and the download count grows by one exactly when `Fetches` holds |

## Left out

- Polling the service (`nmc.py`, `NMCData.fetch_data`) and wiring the platforms (`__init__.py`) are network I/O and framework glue. They are not part of this model. The snapshot is an input.
- `humidity` and `pressure` convert text to floating point (`float`, `round(x / 100, 2)`), so they are not modelled. `temperature`, `alert`, `name`, `attribution` and `temperature_unit` are plain field reads or constants and are not modelled either.
- Forecast dates are parsed with `datetime.strptime`. The model treats a date as opaque text copied from `detail[i]`. A malformed date, which would raise `ValueError`, is not modelled.
- `Weather.WeatherData` always has every field the entity reads. The `KeyError` that a snapshot without `real`, `air`, `predict` or `tempchart` would cause is not modelled.
- The configuration flow's forms and schemas, the fetches of the province and city lists, `async_step_user`, and `_abort_if_unique_id_configured` are UI, network or framework calls.
- `ConfigFlow.FlowHandler.StepCity`: requires the station code whenever the name is missing. The source would raise `KeyError` without it, and the form's schema always supplies it. The same holds for `ConfigFlow.FlowHandler.StepManual`.
- `Image.ImageEntity.constructor`: requires the snapshot to have a record for the data key with both `url` and `update_time`. The source reads them with `[]` and would raise `KeyError` otherwise. The initial empty image cache belongs to the framework's image base class and is stated, not derived.
- `Image.ImageEntity.HandleCoordinatorUpdate`: a snapshot whose value for the data key is `None` is not representable in the image platform's snapshot type. The source returns early on it, as it does for a missing key.
- `Camera.NmcCamera.CameraImage`: the download is an uninterpreted `fetch` function. A network failure during `session.get` or `read` is not modelled. The requested width and height are ignored, as in the source.
- `async_write_ha_state`, reached through `super()._handle_coordinator_update()`, is modelled only as a ghost counter of state writes.
- Device information and entity description names other than the key and data key play no part in the modelled behaviour.
- Asynchronous scheduling is left out. Each modelled operation runs to completion without interleaving.
