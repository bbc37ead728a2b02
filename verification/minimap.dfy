/** The request built by `generate_minimap` (main.py:107-113): a list of
    points of interest, the photo's own coordinates first and the home
    location after them when it is configured, comma-joined into the `poi=`
    parameter of a HERE map-image URL. The download itself is not modelled. */
module Minimap {
  import opened Wrappers
  import opened Text
  import opened Records

  /** The fixed parts of the map-image URL (main.py:113). */
  const MapviewEndpoint: string := "https://image.maps.ls.hereapi.com/mia/1.6/mapview?apiKey="
  const MapviewParams: string := "&ml=fre&nocp=1&poithm=0&poifc=FF6655&ppi=320&t=4&w=200&h=200&poi="

  /** `HOME_LATITUDE and HOME_LONGITUDE` is truthy (main.py:110). */
  predicate HomeSet(cfg: Config) {
    TruthyText(cfg.homeLatitude) && TruthyText(cfg.homeLongitude)
  }

  /** The `poi` list (main.py:108-111): latitude then longitude of the photo,
      then the home latitude and longitude when both are set. */
  function PoiList(cfg: Config, latitude: JsonNumber, longitude: JsonNumber): (poi: seq<string>)
    ensures |poi| == if HomeSet(cfg) then 4 else 2
    ensures poi[0] == Render(latitude) && poi[1] == Render(longitude)
    ensures HomeSet(cfg) ==>
      poi[2] == cfg.homeLatitude.value && poi[3] == cfg.homeLongitude.value
  {
    var own := [Render(latitude), Render(longitude)];
    if HomeSet(cfg) then own + [cfg.homeLatitude.value, cfg.homeLongitude.value] else own
  }

  /** `','.join(poi)`. */
  function PoiQuery(cfg: Config, latitude: JsonNumber, longitude: JsonNumber): string {
    Join(",", PoiList(cfg, latitude, longitude))
  }

  /** The `poi=` parameter can be split back into the point list, provided
      the home values (free-form environment strings) hold no comma; the
      rendered coordinates never do. */
  lemma PoiQueryRoundTrip(cfg: Config, latitude: JsonNumber, longitude: JsonNumber)
    requires HomeSet(cfg) ==>
      ',' !in cfg.homeLatitude.value && ',' !in cfg.homeLongitude.value
    ensures Split(',', PoiQuery(cfg, latitude, longitude)) == PoiList(cfg, latitude, longitude)
  {
    var poi := PoiList(cfg, latitude, longitude);
    RenderHasNoComma(latitude);
    RenderHasNoComma(longitude);
    assert forall i :: 0 <= i < |poi| ==> ',' !in poi[i];
    SplitJoin(',', poi);
  }

  /** `{HERE_API_KEY}` in the f-string: the key's text, or `None` when the
      variable is unset. */
  function ApiKeyText(key: Option<string>): string {
    match key
    case None => "None"
    case Some(k) => k
  }

  /** The full map-image URL requested for a photo (main.py:113): the
      endpoint, the configured key right after `apiKey=`, the fixed rendering
      parameters (including the 200x200 size) and, last, the point query. */
  function MinimapRequest(cfg: Config, latitude: JsonNumber, longitude: JsonNumber): (url: string)
    ensures |url| ==
      |MapviewEndpoint| + |ApiKeyText(cfg.hereApiKey)| + |MapviewParams| + |PoiQuery(cfg, latitude, longitude)|
    ensures url[..|MapviewEndpoint|] == MapviewEndpoint
    ensures url[|MapviewEndpoint|..|MapviewEndpoint| + |ApiKeyText(cfg.hereApiKey)|] == ApiKeyText(cfg.hereApiKey)
    ensures url[|MapviewEndpoint| + |ApiKeyText(cfg.hereApiKey)|..|url| - |PoiQuery(cfg, latitude, longitude)|]
      == MapviewParams
    ensures url[|url| - |PoiQuery(cfg, latitude, longitude)|..] == PoiQuery(cfg, latitude, longitude)
  {
    MapviewEndpoint + ApiKeyText(cfg.hereApiKey) + MapviewParams + PoiQuery(cfg, latitude, longitude)
  }
}
