/** The coordinate cache shared by both front ends: city name -> coordinate,
    the right-biased merge `{...prev, ...fresh}`, the set of route endpoints
    the cache lacks, and which routes can be drawn. */
module Cache {
  import opened Types
  import opened Seqs

  type CoordCache = map<string, Coordinates>

  /** Every entry is filed under its own name. */
  predicate WellNamed(cache: CoordCache) {
    forall k :: k in cache ==> cache[k].name == k
  }

  /** `{...prev, ...fresh}`: every key of either side, the incoming (`fresh`) value winning
      where both have one (an existing entry IS replaced). */
  function Merge(prev: CoordCache, incoming: CoordCache): (r: CoordCache)
    ensures r.Keys == prev.Keys + incoming.Keys
    ensures forall k :: k in incoming ==> r[k] == incoming[k]
    ensures forall k :: k in prev && k !in incoming ==> r[k] == prev[k]
  {
    prev + incoming
  }

  /** Merging the same result a second time changes nothing. */
  lemma MergeIdempotent(prev: CoordCache, incoming: CoordCache)
    ensures Merge(Merge(prev, incoming), incoming) == Merge(prev, incoming)
  {
  }

  /** Merging well-named entries into a well-named cache keeps it well named. */
  lemma MergeWellNamed(prev: CoordCache, incoming: CoordCache)
    requires WellNamed(prev) && WellNamed(incoming)
    ensures WellNamed(Merge(prev, incoming))
  {
  }

  /** The origin and destination names of the flights. */
  function Endpoints(flights: seq<Flight>): set<string> {
    if flights == [] then {}
    else
      var f := flights[|flights| - 1];
      Endpoints(flights[..|flights| - 1]) + {f.from, f.to}
  }

  /** A name is an endpoint exactly when some flight starts or ends there. */
  lemma {:induction false} EndpointsMembership(flights: seq<Flight>, c: string)
    ensures c in Endpoints(flights) <==>
      exists k :: 0 <= k < |flights| && (flights[k].from == c || flights[k].to == c)
  {
    if flights != [] {
      var init := flights[..|flights| - 1];
      EndpointsMembership(init, c);
      assert forall k :: 0 <= k < |init| ==> init[k] == flights[k];
    }
  }

  /** The endpoints not yet keys of the cache. */
  function MissingSet(flights: seq<Flight>, cache: CoordCache): set<string> {
    Endpoints(flights) - cache.Keys
  }

  /** The `forEach` that fills `missing`: origin then destination of each
      flight, added when absent from the cache. The result lists each missing
      name once; its order is not stated. */
  method MissingCities(flights: seq<Flight>, cache: CoordCache) returns (missing: seq<string>)
    ensures (set c | c in missing) == MissingSet(flights, cache)
    ensures forall i, j :: 0 <= i < j < |missing| ==> missing[i] != missing[j]
  {
    missing := [];
    for i := 0 to |flights|
      invariant (set c | c in missing) == MissingSet(flights[..i], cache)
      invariant forall a, b :: 0 <= a < b < |missing| ==> missing[a] != missing[b]
    {
      var f := flights[i];
      assert flights[..i + 1][..i] == flights[..i];
      assert Endpoints(flights[..i + 1]) == Endpoints(flights[..i]) + {f.from, f.to};
      if f.from !in cache && f.from !in missing {
        missing := missing + [f.from];
      }
      assert (set c | c in missing) == MissingSet(flights[..i], cache) + (if f.from in cache then {} else {f.from});
      if f.to !in cache && f.to !in missing {
        missing := missing + [f.to];
      }
      assert (set c | c in missing) == MissingSet(flights[..i], cache)
        + (if f.from in cache then {} else {f.from}) + (if f.to in cache then {} else {f.to});
    }
    assert flights[..|flights|] == flights;
  }

  /** Both endpoints have coordinates. */
  predicate Resolved(cache: CoordCache, f: Flight) {
    f.from in cache && f.to in cache
  }

  /** The flights that can be drawn as arcs, in flight order. */
  function Renderable(flights: seq<Flight>, cache: CoordCache): seq<Flight> {
    Filter(flights, f => Resolved(cache, f))
  }

  /** A flight is drawn if and only if both of its endpoints are cached. */
  lemma RenderableIff(flights: seq<Flight>, cache: CoordCache, f: Flight)
    ensures f in Renderable(flights, cache) <==> f in flights && f.from in cache && f.to in cache
  {
    FilterMembership(flights, f => Resolved(cache, f), f);
  }

  /** When no endpoint is missing, every flight is drawn. */
  lemma NothingMissingAllRender(flights: seq<Flight>, cache: CoordCache)
    requires MissingSet(flights, cache) == {}
    ensures Renderable(flights, cache) == flights
  {
    forall k | 0 <= k < |flights| ensures Resolved(cache, flights[k]) {
      var f := flights[k];
      EndpointsMembership(flights, f.from);
      EndpointsMembership(flights, f.to);
      assert f.from in Endpoints(flights) && f.to in Endpoints(flights);
      assert f.from !in MissingSet(flights, cache) && f.to !in MissingSet(flights, cache);
    }
    FilterKeepsAll(flights, f => Resolved(cache, f));
  }

  /** Merging a geocoding result removes exactly its keys from the missing set. */
  lemma MergeShrinksMissing(flights: seq<Flight>, cache: CoordCache, incoming: CoordCache)
    ensures MissingSet(flights, Merge(cache, incoming)) == MissingSet(flights, cache) - incoming.Keys
  {
  }
}
