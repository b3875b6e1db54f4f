/** What the station card and the system card share: the constants of src/constants.ts
    and src/types.ts, the background-image rule both `cardImage` methods apply, and the
    service calls both cards issue. */
module CardCommon {
  import opened Base

  /** `IconConfig`. */
  datatype IconConfig = IconConfig(active: string, activeDisabled: string, idle: string, idleDisabled: string)

  const DEFAULT_ICONS := IconConfig("mdi:water", "mdi:water-off", "mdi:water-outline", "mdi:water-off-outline")
  const IMAGE_HEIGHT_DEFAULT := 150
  const DEFAULT_RUNTIME := 60
  const IMAGE_DIR := "/local/images/ospi-card/"
  const DEFAULT_POSITION := "cover"

  /** Image urls that are used as given: absolute http(s) urls and server paths. */
  predicate AbsoluteUrl(url: string) {
    StartsWith(url, "http") || StartsWith(url, "/")
  }

  /** The url rule of `cardImage`: a relative name is looked up in the card's image folder. */
  function ImageUrl(url: string): (r: string)
    ensures AbsoluteUrl(r)
    ensures EndsWith(r, url)
    ensures r == url <==> AbsoluteUrl(url)
    ensures !AbsoluteUrl(url) ==> StartsWith(r, IMAGE_DIR) && r[|IMAGE_DIR|..] == url
  {
    if !StartsWith(url, "http") && !StartsWith(url, "/") then
      assert StartsWith(IMAGE_DIR + url, "/");
      IMAGE_DIR + url
    else url
  }

  /** Normalising a url twice is normalising it once. */
  lemma ImageUrlIdempotent(url: string)
    ensures ImageUrl(ImageUrl(url)) == ImageUrl(url)
  {
  }

  /** The geometry `cardImage` writes into the background style. */
  datatype ImageStyle = ImageStyle(url: string, height: int, position: string)

  /** `cardImage`: no image unless the configured image is truthy; the height falls back to
      150 when `imageHeight` is falsy and the position to "cover" when `imagePosition` is. */
  function CardImage(image: Option<string>, imageHeight: Option<int>, imagePosition: Option<string>): (r: Option<ImageStyle>)
    ensures r.Some? <==> StrTruthy(image)
    ensures r.Some? ==> r.value.url == ImageUrl(image.value)
    ensures r.Some? ==> r.value.height != 0
    ensures r.Some? && IntTruthy(imageHeight) ==> r.value.height == imageHeight.value
    ensures r.Some? && !IntTruthy(imageHeight) ==> r.value.height == IMAGE_HEIGHT_DEFAULT
    ensures r.Some? && StrTruthy(imagePosition) ==> r.value.position == imagePosition.value
    ensures r.Some? && !StrTruthy(imagePosition) ==> r.value.position == DEFAULT_POSITION
  {
    if StrTruthy(image) then
      Some(ImageStyle(
        ImageUrl(image.value),
        if IntTruthy(imageHeight) then imageHeight.value else IMAGE_HEIGHT_DEFAULT,
        StrOr(imagePosition, DEFAULT_POSITION)))
    else None
  }

  /** The integration's service domain. */
  const DOMAIN := "opensprinkler"

  /** The data object of a service call; an absent key is None. */
  datatype ServiceData = ServiceData(
    entityId: Option<string>,
    runSeconds: Option<int>,
    rainDelay: Option<int>,
    pauseDuration: Option<int>)

  /** `hass.callService(domain, service, data)`, recorded rather than sent. */
  datatype ServiceCall = ServiceCall(domain: string, service: string, data: ServiceData)
}
