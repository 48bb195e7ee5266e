/**
 * The camera entity: one per selected feed. It keeps the last image it
 * downloaded together with the URL it came from, and downloads again only
 * when the snapshot names a different, non-null URL.
 *
 * In this version the snapshot holds, for each feed's data key, the image
 * URL itself (or `None`). The download is the `fetch` parameter.
 */
module Camera {
  import opened Wrappers
  import opened PyDict
  import opened ImageTypes
  import Image

  /** The coordinator's snapshot, as this platform reads it. */
  type Snapshot = map<string, Value>

  /** `async_setup_entry`: `data[CONF_IMAGES] or []`, then `key in` that list for each description. */
  function Setup(images: ConfigImages): (r: Result<seq<Description>, SetupError>)
    ensures r.Err? <==> images.Missing?
    ensures r.Err? ==> r.error == KeyError
    ensures r.Ok? ==> |r.value| <= |CameraTypes()| && forall d :: d in r.value ==> d in CameraTypes()
  {
    match images
    case Missing => Err(KeyError)
    case NoneList => Ok(Selected(CameraTypes(), []))
    case Listed(keys) => Ok(Selected(CameraTypes(), keys))
  }

  /**
   * Setup raises when the entry has no image list, treats `None` as the
   * empty list, and otherwise creates exactly the listed feeds in
   * `CAMERA_TYPE` order.
   */
  lemma SetupCreatesListed(images: ConfigImages)
    ensures images.Missing? ==> Setup(images) == Err(KeyError)
    ensures images.NoneList? ==> Setup(images) == Setup(Listed([])) == Ok([])
    ensures images.Listed? ==>
      && Setup(images).Ok?
      && Subsequence(Setup(images).value, CameraTypes())
      && forall d :: d in Setup(images).value <==> d in CameraTypes() && d.key in images.keys
  {
    if images.Listed? {
      SelectedCameraTypes(images.keys);
    }
  }

  /** `f"nmc-{entry unique id}-camera-{key}"`. */
  function CameraUniqueId(entryUniqueId: Value, key: string): string
  {
    "nmc-" + Format(entryUniqueId) + "-camera-" + key
  }

  /** Within one entry, a camera's unique id never equals an image entity's. */
  lemma CameraIdIsNotImageId(entryUniqueId: Value, k1: string, k2: string)
    ensures CameraUniqueId(entryUniqueId, k1) != Image.ImageUniqueId(entryUniqueId, k2)
  {
    var p := "nmc-" + Format(entryUniqueId);
    assert CameraUniqueId(entryUniqueId, k1)[|p| + 1] == 'c';
    assert Image.ImageUniqueId(entryUniqueId, k2)[|p| + 1] == 'i';
  }

  /** The two fields the camera keeps: the URL of its image and the image. */
  datatype CameraState = CameraState(url: Value, image: Option<Image.Bytes>)

  /** The snapshot's URL is set and differs from the stored one, so the camera downloads. */
  predicate Fetches(s: CameraState, url: Value)
  {
    url.Text? && url != s.url
  }

  /** The state after one `async_camera_image` call that read `url` from the snapshot. */
  function Serve(s: CameraState, url: Value, fetch: string -> Image.Bytes): (r: CameraState)
    ensures url.Text? ==> r.url == url
    ensures r != s ==> url.Text? && r.image == Some(fetch(url.text))
    ensures r.url == s.url ==> r == s
  {
    if Fetches(s, url) then CameraState(url, Some(fetch(url.text))) else s
  }

  /** A `None` URL leaves the state as it is, without downloading. */
  lemma NullUrlKeepsState(s: CameraState, fetch: string -> Image.Bytes)
    ensures !Fetches(s, Null) && Serve(s, Null, fetch) == s
  {
  }

  /** The stored URL again: the cached image, without downloading. */
  lemma SameUrlKeepsState(s: CameraState, fetch: string -> Image.Bytes)
    ensures !Fetches(s, s.url) && Serve(s, s.url, fetch) == s
  {
  }

  /** A new, non-null URL: one download, then the URL and the downloaded bytes are stored. */
  lemma NewUrlFetches(s: CameraState, u: string, fetch: string -> Image.Bytes)
    requires Text(u) != s.url
    ensures Fetches(s, Text(u))
    ensures Serve(s, Text(u), fetch) == CameraState(Text(u), Some(fetch(u)))
  {
  }

  /**
   * After a call with a non-null URL the stored URL is that URL, so an
   * immediate repeat neither downloads nor changes anything.
   */
  lemma ServeThenRepeat(s: CameraState, url: Value, fetch: string -> Image.Bytes)
    requires url.Text?
    ensures Serve(s, url, fetch).url == url
    ensures !Fetches(Serve(s, url, fetch), url)
    ensures Serve(Serve(s, url, fetch), url, fetch) == Serve(s, url, fetch)
  {
  }

  /** The exception `async_camera_image` raises when the snapshot has no entry for the data key. */
  datatype CameraError = MissingDataKey(key: string)

  /** `NMCCamera`. */
  class NmcCamera {
    const description: Description
    const uniqueId: string
    var url: Value
    var image: Option<Image.Bytes>
    /** How many downloads the camera has made. */
    ghost var fetches: nat

    function State(): CameraState
      reads this
    {
      CameraState(url, image)
    }

    constructor (entryUniqueId: Value, description: Description)
      ensures this.description == description
      ensures uniqueId == CameraUniqueId(entryUniqueId, description.key)
      ensures url == Null && image == None && fetches == 0
    {
      this.description := description;
      uniqueId := "nmc-" + Format(entryUniqueId) + "-camera-" + description.key;
      url := Null;
      image := None;
      fetches := 0;
    }

    /** `async_camera_image`: the requested width and height play no part. */
    method CameraImage(snapshot: Snapshot, fetch: string -> Image.Bytes) returns (r: Result<Option<Image.Bytes>, CameraError>)
      modifies this
      ensures description.dataKey !in snapshot ==>
        r == Err(MissingDataKey(description.dataKey)) && State() == old(State()) && fetches == old(fetches)
      ensures description.dataKey in snapshot ==>
        var u := snapshot[description.dataKey];
        && State() == Serve(old(State()), u, fetch)
        && r == Ok(image)
        && fetches == old(fetches) + (if Fetches(old(State()), u) then 1 else 0)
    {
      if description.dataKey !in snapshot {
        return Err(MissingDataKey(description.dataKey));
      }
      var u := snapshot[description.dataKey];
      if u.Text? && u != url {
        image := Some(fetch(u.text));
        fetches := fetches + 1;
        url := u;
      }
      r := Ok(image);
    }
  }
}
