/** The seed data of constants.ts (index.tsx carries an identical copy as
    INITIAL_FLIGHTS / INITIAL_COORDS). */
module Constants {
  import opened Types
  import opened Routes
  import opened Cache

  const INITIAL_FLIGHTS: seq<Flight> := [
    Flight("1", "Bratislava", "London", "2h 15m", "Ryanair"),
    Flight("2", "Bratislava", "Istanbul", "2h 30m", "Turkish Airlines"),
    Flight("3", "London", "New York", "7h 50m", "British Airways"),
    Flight("4", "Istanbul", "Dubai", "4h 15m", "Emirates"),
    Flight("5", "Dubai", "Tokyo", "9h 40m", "JAL")
  ]

  const CITY_COORDS_CACHE: CoordCache := map[
    "Bratislava" := Coordinates(48.1486, 17.1077, "Bratislava"),
    "London" := Coordinates(51.5074, -0.1278, "London"),
    "Istanbul" := Coordinates(41.0082, 28.9784, "Istanbul"),
    "New York" := Coordinates(40.7128, -74.0060, "New York"),
    "Dubai" := Coordinates(25.2048, 55.2708, "Dubai"),
    "Tokyo" := Coordinates(35.6762, 139.6503, "Tokyo")
  ]

  /** Every seed route starts and ends at a seeded city, so nothing is
      missing and every seed route is drawn. */
  lemma SeedRoutesResolved()
    ensures MissingSet(INITIAL_FLIGHTS, CITY_COORDS_CACHE) == {}
    ensures Renderable(INITIAL_FLIGHTS, CITY_COORDS_CACHE) == INITIAL_FLIGHTS
  {
    forall c | c in Endpoints(INITIAL_FLIGHTS) ensures c in CITY_COORDS_CACHE {
      EndpointsMembership(INITIAL_FLIGHTS, c);
    }
    NothingMissingAllRender(INITIAL_FLIGHTS, CITY_COORDS_CACHE);
  }

  /** Each seed entry is filed under its own name. */
  lemma SeedWellNamed()
    ensures WellNamed(CITY_COORDS_CACHE)
  {
  }

  /** The seed flight ids are pairwise distinct. */
  lemma SeedIdsDistinct()
    ensures DistinctIds(INITIAL_FLIGHTS)
  {
  }

  /** Seed latitudes lie in [-90, 90] and longitudes in [-180, 180]. */
  lemma SeedInRange()
    ensures forall k :: k in CITY_COORDS_CACHE ==>
      -90.0 <= CITY_COORDS_CACHE[k].lat <= 90.0 && -180.0 <= CITY_COORDS_CACHE[k].lng <= 180.0
  {
  }
}
