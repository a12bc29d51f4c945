/**
 What the endpoint asks of the remote imagery service, kept abstract: the
 service is a record of functions (is a filtered collection empty, the
 regional mean of an image, the tile descriptor of an image), answered for
 the request's region of interest. Images are descriptions of the query the
 code builds, not pixel data.
 */
module EarthEngine {
  import opened Wrappers

  /** The feature selector after comparison with the three supported names. */
  datatype Feature = NDVI | SM | LST | Unsupported

  const SentinelCollection: string := "COPERNICUS/S2_SR"
  const SmapCollection: string := "NASA/SMAP/SPL3SMP_E/006"
  const ModisLstCollection: string := "MODIS/061/MOD21A1D"

  const SoilMoistureBand: string := "soil_moisture_am"
  const LstBand: string := "LST_1KM"
  /** The band name `normalizedDifference` gives its output. */
  const NormalizedDifferenceBand: string := "nd"

  /** The two arguments of `filterDate`, as the text the code passes. */
  datatype Window = Window(start: string, end: string)

  /** The unit conversion applied after the temporal mean. */
  datatype Conversion =
    | Unconverted
    | KelvinToCelsius        // `.subtract(273.15)`
    | ScaledKelvinToCelsius  // `.multiply(0.02).subtract(273.15)`

  /** The image a query describes. */
  datatype Image =
    | LatestNormalizedDifference(collection: string, window: Window)  // newest scene, NIR B8 against red B4
    | MeanNormalizedDifference(collection: string, window: Window)    // mean over all scenes of B8 against B4
    | BandMean(collection: string, band: string, window: Window, conversion: Conversion)

  /** The descriptor `getMapId` mints for a map layer. */
  datatype Visualization = Visualization(mapid: string, token: string, urlFormat: string)

  datatype Service = Service(
    isEmpty: (string, Window) -> bool,          // `collection.size().getInfo() == 0`
    reduceMean: Image -> map<string, real>,    // `image.reduceRegion(mean, roi, 1000, 1e9).getInfo()`
    mapId: Image -> Visualization)             // `image.getMapId(vis_params)`

  /** Python's `d.get(key, None)` on the reduced dictionary. */
  function Get(m: map<string, real>, key: string): (v: Option<real>)
    ensures v.Some? <==> key in m
    ensures v.Some? ==> v.value == m[key]
  {
    if key in m then Some(m[key]) else None
  }

  /** The dictionary key the monthly loop reads: `nd` for NDVI, `sm` for SM, `LST_1KM` otherwise. */
  function ResultKey(f: Feature): string {
    if f == NDVI then "nd" else if f == SM then "sm" else "LST_1KM"
  }

  /** The band name under which a single-band image's regional mean is reported. */
  function OutputBand(img: Image): string {
    match img
    case LatestNormalizedDifference(_, _) => NormalizedDifferenceBand
    case MeanNormalizedDifference(_, _) => NormalizedDifferenceBand
    case BandMean(_, band, _, _) => band
  }

  /** A service whose reduction reports at most the image's own band. */
  ghost predicate BandKeyed(svc: Service) {
    forall img :: svc.reduceMean(img).Keys <= {OutputBand(img)}
  }

  /** The image whose regional mean is one month's value. */
  function MonthlyImage(f: Feature, w: Window): (img: Image)
    requires f != Unsupported
    ensures img.window == w
  {
    match f
    case NDVI => MeanNormalizedDifference(SentinelCollection, w)
    case SM => BandMean(SmapCollection, SoilMoistureBand, w, Unconverted)
    case LST => BandMean(ModisLstCollection, LstBand, w, KelvinToCelsius)
  }

  /** The band each supported feature's monthly image carries: the key its regional mean is reported under. */
  function IntendedResultKey(f: Feature): (k: string)
    requires f != Unsupported
    ensures forall w :: OutputBand(MonthlyImage(f, w)) == k
  {
    match f
    case NDVI => NormalizedDifferenceBand
    case SM => SoilMoistureBand
    case LST => LstBand
  }

  /** The loop's key agrees with the monthly image's band for NDVI and LST, and not for SM. */
  lemma ResultKeyMatchesBand(f: Feature)
    requires f != Unsupported
    ensures ResultKey(f) == IntendedResultKey(f) <==> f != SM
  {
  }

  /**
   Reading the band key: whenever a band-keyed service reports the monthly
   image's mean, the lookup finds it.
   */
  lemma IntendedKeyFindsValue(f: Feature, w: Window, svc: Service)
    requires f != Unsupported
    requires OutputBand(MonthlyImage(f, w)) in svc.reduceMean(MonthlyImage(f, w))
    ensures Get(svc.reduceMean(MonthlyImage(f, w)), IntendedResultKey(f)) ==
      Some(svc.reduceMean(MonthlyImage(f, w))[OutputBand(MonthlyImage(f, w))])
  {
  }

  /** Reading `sm` as written: a band-keyed service never reports it, so the lookup is always None. */
  lemma SoilMoistureKeyNeverFound(w: Window, svc: Service)
    requires BandKeyed(svc)
    ensures Get(svc.reduceMean(MonthlyImage(SM, w)), ResultKey(SM)) == None
  {
    assert svc.reduceMean(MonthlyImage(SM, w)).Keys <= {SoilMoistureBand};
  }

  /** The image shown as the map layer. */
  function MapImage(f: Feature, w: Window): (img: Image)
    requires f != Unsupported
    ensures img.window == w
  {
    match f
    case NDVI => LatestNormalizedDifference(SentinelCollection, w)
    case SM => BandMean(SmapCollection, SoilMoistureBand, w, Unconverted)
    case LST => BandMean(ModisLstCollection, LstBand, w, ScaledKelvinToCelsius)
  }
}
