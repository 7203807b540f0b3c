/** The records the application passes around: geocoder features and saved locations. */
module Types {
  import opened Wrappers

  /** A point as the application stores it: longitude and latitude in degrees. */
  datatype Coordinates = Coordinates(longitude: real, latitude: real)

  /** A place the user has accepted into the list; the export order is the list order. */
  datatype Location = Location(id: string, name: string, address: string, coordinates: Coordinates)

  /** The `properties` object of a geocoder feature; `relevance` and `category` may be absent. */
  datatype Properties = Properties(
    text: string,
    placeName: string,
    relevance: Option<real>,
    category: Option<string>)

  /**
   * One candidate returned by the geocoder. `geometry` and `center` are pairs ordered
   * longitude first, then latitude; `placeType` lists tags such as "poi", "address", "place".
   */
  datatype Feature = Feature(
    id: string,
    placeType: seq<string>,
    placeName: string,
    properties: Properties,
    geometry: (real, real),
    center: (real, real),
    text: string,
    relevance: Option<real>)

  /** The feature collection one geocoding request answers with. */
  datatype MapboxResponse = MapboxResponse(query: seq<string>, features: seq<Feature>, attribution: string)

  /**
   * The location both the search panel and the bulk importer build from a chosen feature:
   * its short text as name, its full place name as address, its geometry as coordinates.
   */
  function FeatureLocation(f: Feature, id: string): (loc: Location)
    ensures loc.coordinates.longitude == f.geometry.0 && loc.coordinates.latitude == f.geometry.1
    ensures loc.name == f.text && loc.address == f.placeName && loc.id == id
  {
    Location(id, f.text, f.placeName, Coordinates(f.geometry.0, f.geometry.1))
  }
}
