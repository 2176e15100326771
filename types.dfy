/** The records of types.ts, plus the optional value used for JavaScript's
    `undefined` / `null`. */
module Types {

  datatype Option<T> = None | Some(value: T) {
    /** `x || fallback` for a value that is either absent or truthy. */
    function GetOr(fallback: T): T {
      match this
      case Some(v) => v
      case None => fallback
    }
  }

  /** One route ("flight"). */
  datatype Flight = Flight(id: string, from: string, to: string, duration: string, airlines: string)

  /** A geocoded city. Latitude and longitude are only copied, never computed on. */
  datatype Coordinates = Coordinates(lat: real, lng: real, name: string)

  /** One arc handed to the WebGL globe (`labelText` is the source's `label`,
      a reserved word in Dafny). */
  datatype GlobeArc = GlobeArc(
    startLat: real, startLng: real, endLat: real, endLng: real,
    color: string, labelText: string, flightData: Flight)

  /** One labelled point handed to the WebGL globe. */
  datatype GlobePoint = GlobePoint(lat: real, lng: real, size: real, color: string, labelText: string)
}
