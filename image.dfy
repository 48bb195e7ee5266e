/**
 * The image entity: one per selected feed. It remembers the feed's URL and
 * last-update time from the coordinator's snapshot and drops its cached
 * image whenever either changes.
 *
 * In this version the snapshot holds, for each feed's data key, a record
 * with `url` and `update_time` fields.
 */
module Image {
  import opened Wrappers
  import opened PyDict
  import opened ImageTypes

  /** The bytes of a downloaded image. */
  type Bytes = seq<bv8>

  /** One feed's record in the snapshot. */
  type Record = map<string, Value>

  /** The coordinator's snapshot, as this platform reads it. */
  type Snapshot = map<string, Record>

  /** `async_setup_entry`: `.get(CONF_IMAGES, [])`, then `key in` that value for each description. */
  function Setup(images: ConfigImages): (r: Result<seq<Description>, SetupError>)
    ensures r.Err? <==> images.NoneList?
    ensures r.Err? ==> r.error == TypeError
    ensures r.Ok? ==> |r.value| <= |CameraTypes()| && forall d :: d in r.value ==> d in CameraTypes()
  {
    match images
    case Missing => Ok(Selected(CameraTypes(), []))
    case NoneList => Err(TypeError)
    case Listed(keys) => Ok(Selected(CameraTypes(), keys))
  }

  /**
   * Setup creates no entity when the entry has no image list, raises when the
   * list is `None`, and otherwise creates exactly the listed feeds in
   * `CAMERA_TYPE` order.
   */
  lemma SetupCreatesListed(images: ConfigImages)
    ensures images.Missing? ==> Setup(images) == Ok([])
    ensures images.NoneList? ==> Setup(images) == Err(TypeError)
    ensures images.Listed? ==>
      && Setup(images).Ok?
      && Subsequence(Setup(images).value, CameraTypes())
      && forall d :: d in Setup(images).value <==> d in CameraTypes() && d.key in images.keys
  {
    if images.Listed? {
      SelectedCameraTypes(images.keys);
    }
  }

  /** `f"nmc-{entry unique id}-image-{key}"`. */
  function ImageUniqueId(entryUniqueId: Value, key: string): string
  {
    "nmc-" + Format(entryUniqueId) + "-image-" + key
  }

  /** Within one entry, different feeds get different image unique ids. */
  lemma ImageUniqueIdInjective(entryUniqueId: Value, k1: string, k2: string)
    ensures ImageUniqueId(entryUniqueId, k1) == ImageUniqueId(entryUniqueId, k2) ==> k1 == k2
  {
    var p := "nmc-" + Format(entryUniqueId) + "-image-";
    assert ImageUniqueId(entryUniqueId, k1)[|p|..] == k1;
    assert ImageUniqueId(entryUniqueId, k2)[|p|..] == k2;
  }

  /** The three fields the entity keeps: image URL, last-updated time, cached image. */
  datatype ImageState = ImageState(url: Value, lastUpdated: Value, cached: Option<Bytes>)

  /** The snapshot holds a record for `dataKey` whose URL or time differs from the state. */
  predicate Changed(s: ImageState, dataKey: string, snapshot: Snapshot)
  {
    dataKey in snapshot
    && (Get(snapshot[dataKey], "url") != s.url || Get(snapshot[dataKey], "update_time") != s.lastUpdated)
  }

  /** The state after `_handle_coordinator_update`. */
  function Update(s: ImageState, dataKey: string, snapshot: Snapshot): (r: ImageState)
    ensures dataKey !in snapshot ==> r == s
    ensures dataKey in snapshot ==>
      r.url == Get(snapshot[dataKey], "url") && r.lastUpdated == Get(snapshot[dataKey], "update_time")
    ensures r == s || r.cached == None
  {
    if Changed(s, dataKey, snapshot)
    then ImageState(Get(snapshot[dataKey], "url"), Get(snapshot[dataKey], "update_time"), None)
    else s
  }

  /** Without a record for the data key, nothing changes and no state is written. */
  lemma UpdateAbsentKey(s: ImageState, dataKey: string, snapshot: Snapshot)
    requires dataKey !in snapshot
    ensures !Changed(s, dataKey, snapshot) && Update(s, dataKey, snapshot) == s
  {
  }

  /** A record with the stored URL and time changes nothing, the cached image included. */
  lemma UpdateUnchanged(s: ImageState, dataKey: string, snapshot: Snapshot)
    requires dataKey in snapshot
    requires Get(snapshot[dataKey], "url") == s.url && Get(snapshot[dataKey], "update_time") == s.lastUpdated
    ensures !Changed(s, dataKey, snapshot) && Update(s, dataKey, snapshot) == s
  {
  }

  /** A record whose URL or time differs is copied into the state and clears the cached image. */
  lemma UpdateChanged(s: ImageState, dataKey: string, snapshot: Snapshot)
    requires dataKey in snapshot
    requires Get(snapshot[dataKey], "url") != s.url || Get(snapshot[dataKey], "update_time") != s.lastUpdated
    ensures Changed(s, dataKey, snapshot)
    ensures var s' := Update(s, dataKey, snapshot);
      && s'.url == Get(snapshot[dataKey], "url")
      && s'.lastUpdated == Get(snapshot[dataKey], "update_time")
      && s'.cached == None
  {
  }

  /** A second update with the same snapshot changes nothing and writes no state. */
  lemma UpdateIdempotent(s: ImageState, dataKey: string, snapshot: Snapshot)
    ensures var s' := Update(s, dataKey, snapshot);
      !Changed(s', dataKey, snapshot) && Update(s', dataKey, snapshot) == s'
  {
  }

  /** `NMCImageEntity`. */
  class ImageEntity {
    const description: Description
    const uniqueId: string
    var imageUrl: Value
    var imageLastUpdated: Value
    var cachedImage: Option<Bytes>
    /** How many times the entity has written its state to the host. */
    ghost var stateWrites: nat

    function State(): ImageState
      reads this
    {
      ImageState(imageUrl, imageLastUpdated, cachedImage)
    }

    /** Reads the feed's URL and time with `[]`: the record and both fields must be there. */
    constructor (entryUniqueId: Value, description: Description, snapshot: Snapshot)
      requires description.dataKey in snapshot
      requires "url" in snapshot[description.dataKey] && "update_time" in snapshot[description.dataKey]
      ensures this.description == description
      ensures uniqueId == ImageUniqueId(entryUniqueId, description.key)
      ensures imageUrl == snapshot[description.dataKey]["url"]
      ensures imageLastUpdated == snapshot[description.dataKey]["update_time"]
      ensures cachedImage == None && stateWrites == 0
    {
      this.description := description;
      uniqueId := "nmc-" + Format(entryUniqueId) + "-image-" + description.key;
      imageUrl := snapshot[description.dataKey]["url"];
      imageLastUpdated := snapshot[description.dataKey]["update_time"];
      cachedImage := None;
      stateWrites := 0;
    }

    /** `_handle_coordinator_update`. */
    method HandleCoordinatorUpdate(snapshot: Snapshot)
      modifies this
      ensures State() == Update(old(State()), description.dataKey, snapshot)
      ensures stateWrites == old(stateWrites) + (if Changed(old(State()), description.dataKey, snapshot) then 1 else 0)
    {
      if description.dataKey !in snapshot {
        return;
      }
      var data := snapshot[description.dataKey];
      if Get(data, "url") != imageUrl || Get(data, "update_time") != imageLastUpdated {
        imageUrl := Get(data, "url");
        cachedImage := None;
        imageLastUpdated := Get(data, "update_time");
        stateWrites := stateWrites + 1;
      }
    }
  }
}
