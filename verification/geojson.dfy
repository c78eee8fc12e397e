/** The GeoJSON point features exchanged with the stop endpoint. */
module GeoJson {
  import opened Wrappers
  import opened Model

  datatype PointGeometry = PointGeometry(kind: string, coordinates: LngLat)

  /** Feature properties: the factory writes only `id` and `name`; the backend may add
      `code` and `description`. */
  datatype FeatureProperties = FeatureProperties(
    id: string, name: string, code: Option<string>, description: Option<string>)

  datatype Feature = Feature(kind: string, geometry: PointGeometry, properties: FeatureProperties)

  datatype FeatureCollection = FeatureCollection(kind: string, features: seq<Feature>)
}
