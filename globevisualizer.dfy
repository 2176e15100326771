/** components/GlobeVisualizer.tsx: the `useMemo` that turns routes and the
    coordinate cache into the globe's arc and label layers, and the arc click
    that selects a route. */
module GlobeVisualizer {
  import opened Types
  import opened Seqs
  import opened Routes
  import opened Cache

  const SELECTED_COLOR: string := "#fbbf24"
  const PLAIN_COLOR: string := "#60a5fa"
  const POINT_SIZE: real := 0.1
  const POINT_COLOR: string := "#ffffff"

  /** The arrow of the arc label exactly as the source file spells it: the
      UTF-8 bytes of a right arrow read back as Windows-1252 (three characters). */
  const ARROW: string := "\U{00E2}\U{2020}\U{2019}"

  /** `${flight.from} <arrow> ${flight.to} (${flight.airlines})`. */
  function ArcLabel(f: Flight): string {
    f.from + " " + ARROW + " " + f.to + " (" + f.airlines + ")"
  }

  /** The arc object pushed for a flight whose endpoints are both cached. */
  function ArcOf(f: Flight, cache: CoordCache, selectedId: Option<string>): GlobeArc
    requires Resolved(cache, f)
  {
    GlobeArc(cache[f.from].lat, cache[f.from].lng, cache[f.to].lat, cache[f.to].lng,
      if selectedId == Some(f.id) then SELECTED_COLOR else PLAIN_COLOR,
      ArcLabel(f), f)
  }

  /** `arcsData` after the `forEach` has visited `flights`. */
  function Arcs(flights: seq<Flight>, cache: CoordCache, selectedId: Option<string>): seq<GlobeArc> {
    if flights == [] then []
    else
      var last := flights[|flights| - 1];
      Arcs(flights[..|flights| - 1], cache, selectedId)
        + (if Resolved(cache, last) then [ArcOf(last, cache, selectedId)] else [])
  }

  /** The coordinates `[fromCoord, toCoord].forEach` offers to `pointsData`,
      two per drawable flight, in visiting order. */
  function Visits(flights: seq<Flight>, cache: CoordCache): seq<Coordinates> {
    if flights == [] then []
    else
      var last := flights[|flights| - 1];
      Visits(flights[..|flights| - 1], cache) + FlightVisits(last, cache)
  }

  /** The coordinates one flight offers: its two endpoints if both are cached. */
  function FlightVisits(f: Flight, cache: CoordCache): seq<Coordinates> {
    if Resolved(cache, f) then [cache[f.from], cache[f.to]] else []
  }

  /** The names carried by a list of coordinates. */
  function Names(s: seq<Coordinates>): set<string> {
    set k | 0 <= k < |s| :: s[k].name
  }

  /** The coordinates kept by `if (!pointsData[coord.name])`: the first one
      offered under each name, in the order the names first appear. */
  function FirstByName(s: seq<Coordinates>): seq<Coordinates> {
    if s == [] then []
    else
      var p := FirstByName(s[..|s| - 1]);
      var c := s[|s| - 1];
      if c.name in Names(p) then p else p + [c]
  }

  /** The label object stored for a place. */
  function PointOf(c: Coordinates): GlobePoint {
    GlobePoint(c.lat, c.lng, POINT_SIZE, POINT_COLOR, c.name)
  }

  /** `Object.values(pointsData)` once every flight has been visited. */
  function Points(flights: seq<Flight>, cache: CoordCache): seq<GlobePoint> {
    var kept := FirstByName(Visits(flights, cache));
    seq(|kept|, k requires 0 <= k < |kept| => PointOf(kept[k]))
  }

  /** One arc per drawable flight, in flight order, built from that flight. */
  lemma {:induction false} ArcsSpec(flights: seq<Flight>, cache: CoordCache, selectedId: Option<string>)
    ensures |Arcs(flights, cache, selectedId)| == |Renderable(flights, cache)|
    ensures forall k :: 0 <= k < |Arcs(flights, cache, selectedId)| ==>
      Resolved(cache, Renderable(flights, cache)[k])
      && Arcs(flights, cache, selectedId)[k] == ArcOf(Renderable(flights, cache)[k], cache, selectedId)
  {
    if flights != [] {
      ArcsSpec(flights[..|flights| - 1], cache, selectedId);
    }
  }

  /** A flight has an arc iff both endpoints are cached; every arc runs between
      the cached coordinates of its flight's endpoints, says which flight it
      is, and is highlighted iff that flight is the selected one. */
  lemma ArcIff(flights: seq<Flight>, cache: CoordCache, selectedId: Option<string>, f: Flight)
    ensures (exists a :: a in Arcs(flights, cache, selectedId) && a.flightData == f)
      <==> f in flights && f.from in cache && f.to in cache
    ensures forall a :: a in Arcs(flights, cache, selectedId) ==>
      var g := a.flightData;
      && g in flights && g.from in cache && g.to in cache
      && a.startLat == cache[g.from].lat && a.startLng == cache[g.from].lng
      && a.endLat == cache[g.to].lat && a.endLng == cache[g.to].lng
      && a.labelText == ArcLabel(g)
      && (a.color == SELECTED_COLOR <==> selectedId == Some(g.id))
  {
    var drawn := Renderable(flights, cache);
    var arcs := Arcs(flights, cache, selectedId);
    ArcsSpec(flights, cache, selectedId);
    RenderableIff(flights, cache, f);
    forall a | a in arcs
      ensures a.flightData in flights
      ensures a.color == SELECTED_COLOR <==> selectedId == Some(a.flightData.id)
    {
      var k :| 0 <= k < |arcs| && arcs[k] == a;
      RenderableIff(flights, cache, drawn[k]);
    }
    if f in drawn {
      var k :| 0 <= k < |drawn| && drawn[k] == f;
      assert arcs[k] in arcs;
    }
  }

  /** Appending a coordinate adds exactly its name. */
  lemma NamesSnoc(p: seq<Coordinates>, c: Coordinates)
    ensures Names(p + [c]) == Names(p) + {c.name}
  {
    var q := p + [c];
    forall x | x in Names(q) ensures x in Names(p) + {c.name} {
      var k :| 0 <= k < |q| && q[k].name == x;
      if k < |p| { assert p[k] == q[k]; }
    }
    assert q[|p|] == c;
    forall x | x in Names(p) ensures x in Names(q) {
      var k :| 0 <= k < |p| && p[k].name == x;
      assert q[k] == p[k];
    }
  }

  /** Every name offered is represented among the kept coordinates. */
  lemma {:induction false} FirstByNameNames(s: seq<Coordinates>)
    ensures Names(FirstByName(s)) == Names(s)
  {
    if s != [] {
      var init := s[..|s| - 1];
      var c := s[|s| - 1];
      FirstByNameNames(init);
      assert s == init + [c];
      NamesSnoc(init, c);
      NamesSnoc(FirstByName(init), c);
    }
  }

  /** No two kept coordinates share a name. */
  lemma {:induction false} FirstByNameDistinct(s: seq<Coordinates>)
    ensures forall i, j :: 0 <= i < j < |FirstByName(s)| ==> FirstByName(s)[i].name != FirstByName(s)[j].name
  {
    if s != [] {
      FirstByNameDistinct(s[..|s| - 1]);
    }
  }

  /** `s[j]` is the first coordinate of `s` carrying its name. */
  predicate FirstOfName(s: seq<Coordinates>, j: int) {
    0 <= j < |s| && forall i :: 0 <= i < j ==> s[i].name != s[j].name
  }

  /** `c` is the first coordinate of `s` carrying its name. */
  predicate OfferedFirst(s: seq<Coordinates>, c: Coordinates) {
    exists j :: 0 <= j < |s| && FirstOfName(s, j) && s[j] == c
  }

  /** The `k`-th kept coordinate is the first one offered under its name. */
  lemma {:induction false} FirstByNameFirstAt(s: seq<Coordinates>, k: nat)
    requires k < |FirstByName(s)|
    ensures OfferedFirst(s, FirstByName(s)[k])
  {
    var init := s[..|s| - 1];
    var c := s[|s| - 1];
    var p := FirstByName(init);
    var fb := FirstByName(s);
    assert fb == (if c.name in Names(p) then p else p + [c]);
    if k < |p| {
      FirstByNameFirstAt(init, k);
      assert OfferedFirst(init, p[k]);
      var j :| 0 <= j < |init| && FirstOfName(init, j) && init[j] == p[k];
      assert forall i :: 0 <= i <= j ==> s[i] == init[i];
      assert FirstOfName(s, j) && s[j] == fb[k];
    } else {
      FirstByNameNames(init);
      forall i | 0 <= i < |s| - 1 ensures s[i].name != c.name {
        assert init[i] == s[i];
      }
      assert FirstOfName(s, |s| - 1) && s[|s| - 1] == fb[k];
    }
  }

  /** Every coordinate offered comes from the cache, and under a well-named
      cache the names offered are exactly the endpoints of the drawable flights. */
  lemma {:induction false} VisitsSpec(flights: seq<Flight>, cache: CoordCache)
    ensures forall c :: c in Visits(flights, cache) ==> c in cache.Values
    ensures WellNamed(cache) ==> Names(Visits(flights, cache)) == Endpoints(Renderable(flights, cache))
  {
    if flights != [] {
      var init := flights[..|flights| - 1];
      var last := flights[|flights| - 1];
      VisitsSpec(init, cache);
      var v := Visits(flights, cache);
      var vi := Visits(init, cache);
      var r := Renderable(flights, cache);
      if Resolved(cache, last) {
        assert v == vi + [cache[last.from]] + [cache[last.to]];
        NamesSnoc(vi, cache[last.from]);
        NamesSnoc(vi + [cache[last.from]], cache[last.to]);
        assert r == Renderable(init, cache) + [last];
        assert r[..|r| - 1] == Renderable(init, cache);
      } else {
        assert v == vi;
        assert r == Renderable(init, cache);
      }
    }
  }

  /** The label layer holds one label per place name. */
  lemma PointsDistinct(flights: seq<Flight>, cache: CoordCache)
    ensures forall i, j :: 0 <= i < j < |Points(flights, cache)| ==>
      Points(flights, cache)[i].labelText != Points(flights, cache)[j].labelText
  {
    FirstByNameDistinct(Visits(flights, cache));
  }

  /** `p` is the label of the first coordinate of `s` carrying its name. */
  predicate LabelsFirstOffered(s: seq<Coordinates>, p: GlobePoint) {
    exists j :: 0 <= j < |s| && FirstOfName(s, j) && p == PointOf(s[j])
  }

  /** Every label is white, of the fixed size, and is the label of the first
      coordinate offered under its name, which is a cache entry. */
  lemma PointsPlaced(flights: seq<Flight>, cache: CoordCache)
    ensures forall k :: 0 <= k < |Points(flights, cache)| ==>
      var p := Points(flights, cache)[k];
      && p.size == POINT_SIZE && p.color == POINT_COLOR
      && LabelsFirstOffered(Visits(flights, cache), p)
      && (exists key :: key in cache && cache[key].name == p.labelText
            && cache[key].lat == p.lat && cache[key].lng == p.lng)
  {
    var v := Visits(flights, cache);
    var kept := FirstByName(v);
    var pts := Points(flights, cache);
    VisitsSpec(flights, cache);
    forall k | 0 <= k < |pts|
      ensures pts[k].size == POINT_SIZE && pts[k].color == POINT_COLOR
      ensures LabelsFirstOffered(v, pts[k])
      ensures (exists key :: key in cache && cache[key].name == pts[k].labelText
                 && cache[key].lat == pts[k].lat && cache[key].lng == pts[k].lng)
    {
      FirstByNameFirstAt(v, k);
      var j :| 0 <= j < |v| && FirstOfName(v, j) && v[j] == kept[k];
      assert pts[k] == PointOf(v[j]);
      assert LabelsFirstOffered(v, pts[k]);
      assert v[j] in v;
      var key :| key in cache && cache[key] == v[j];
    }
  }

  /** Under a well-named cache the labels are exactly the endpoints of the
      drawable flights. */
  lemma PointsLabels(flights: seq<Flight>, cache: CoordCache)
    requires WellNamed(cache)
    ensures (set p | p in Points(flights, cache) :: p.labelText) == Endpoints(Renderable(flights, cache))
  {
    var v := Visits(flights, cache);
    var kept := FirstByName(v);
    var pts := Points(flights, cache);
    FirstByNameNames(v);
    VisitsSpec(flights, cache);
    assert (set p | p in pts :: p.labelText) == Names(kept) by {
      forall x | x in Names(kept) ensures x in (set p | p in pts :: p.labelText) {
        var k :| 0 <= k < |kept| && kept[k].name == x;
        assert pts[k] in pts;
      }
    }
  }

  /** `pointsData` and its key insertion order mirror `FirstByName(seen)`. */
  ghost predicate PointsState(order: seq<string>, pointsData: map<string, GlobePoint>, seen: seq<Coordinates>) {
    var kept := FirstByName(seen);
    && |order| == |kept|
    && (forall k :: 0 <= k < |kept| ==>
          order[k] == kept[k].name && order[k] in pointsData && pointsData[order[k]] == PointOf(kept[k]))
    && pointsData.Keys == Names(kept)
  }

  /** One `if (!pointsData[coord.name])` step keeps the mirror. */
  lemma AddPointStep(order: seq<string>, pointsData: map<string, GlobePoint>, seen: seq<Coordinates>, c: Coordinates)
    requires PointsState(order, pointsData, seen)
    ensures c.name in pointsData ==> PointsState(order, pointsData, seen + [c])
    ensures c.name !in pointsData ==>
      PointsState(order + [c.name], pointsData[c.name := PointOf(c)], seen + [c])
  {
    assert (seen + [c])[..|seen|] == seen;
    var kept := FirstByName(seen);
    if c.name !in pointsData {
      NamesSnoc(kept, c);
    }
  }

  /** The `[fromCoord, toCoord].forEach` callback: a place not yet in
      `pointsData` is stored under its name and its key appended to the
      insertion order; a place already there is left alone (first one wins). */
  method AddPoint(order: seq<string>, pointsData: map<string, GlobePoint>, coord: Coordinates)
    returns (order': seq<string>, pointsData': map<string, GlobePoint>)
    ensures coord.name in pointsData ==> order' == order && pointsData' == pointsData
    ensures coord.name !in pointsData ==>
      order' == order + [coord.name] && pointsData' == pointsData[coord.name := PointOf(coord)]
  {
    order', pointsData' := order, pointsData;
    if coord.name !in pointsData {
      pointsData' := pointsData[coord.name := PointOf(coord)];
      order' := order + [coord.name];
    }
  }

  /** The `flights.forEach` callback for one flight: if both endpoints are
      cached, push its arc and offer both endpoints to `pointsData`; otherwise
      do nothing. */
  method VisitFlight(flight: Flight, coordsCache: CoordCache, selectedFlightId: Option<string>,
                     arcsData: seq<GlobeArc>, order: seq<string>, pointsData: map<string, GlobePoint>,
                     ghost seen: seq<Coordinates>)
    returns (arcsData': seq<GlobeArc>, order': seq<string>, pointsData': map<string, GlobePoint>)
    requires PointsState(order, pointsData, seen)
    ensures arcsData' == arcsData
      + (if Resolved(coordsCache, flight) then [ArcOf(flight, coordsCache, selectedFlightId)] else [])
    ensures PointsState(order', pointsData', seen + FlightVisits(flight, coordsCache))
  {
    arcsData', order', pointsData' := arcsData, order, pointsData;
    if flight.from in coordsCache && flight.to in coordsCache {
      var fromCoord := coordsCache[flight.from];
      var toCoord := coordsCache[flight.to];
      arcsData' := arcsData + [ArcOf(flight, coordsCache, selectedFlightId)];
      var pair := [fromCoord, toCoord];
      assert seen + pair[..0] == seen;
      for j := 0 to 2
        invariant PointsState(order', pointsData', seen + pair[..j])
      {
        AddPointStep(order', pointsData', seen + pair[..j], pair[j]);
        assert seen + pair[..j + 1] == seen + pair[..j] + [pair[j]];
        order', pointsData' := AddPoint(order', pointsData', pair[j]);
      }
      assert pair[..2] == pair;
    } else {
      assert seen + [] == seen;
    }
  }

  /** The `useMemo` body. No flight list: both layers empty. Otherwise each
      flight with both endpoints cached pushes its arc and offers its two
      coordinates to `pointsData`, and the labels are `Object.values(pointsData)`
      in insertion order. */
  method BuildGlobeData(flights: Option<seq<Flight>>, coordsCache: CoordCache, selectedFlightId: Option<string>)
    returns (arcs: seq<GlobeArc>, points: seq<GlobePoint>)
    ensures flights.None? ==> arcs == [] && points == []
    ensures flights.Some? ==> arcs == Arcs(flights.value, coordsCache, selectedFlightId)
    ensures flights.Some? ==> points == Points(flights.value, coordsCache)
  {
    if flights.None? {
      return [], [];
    }
    var fs := flights.value;
    var arcsData: seq<GlobeArc> := [];
    var pointsData: map<string, GlobePoint> := map[];
    var order: seq<string> := [];  // the key insertion order of `pointsData`
    for i := 0 to |fs|
      invariant arcsData == Arcs(fs[..i], coordsCache, selectedFlightId)
      invariant PointsState(order, pointsData, Visits(fs[..i], coordsCache))
    {
      assert fs[..i + 1][..i] == fs[..i];
      arcsData, order, pointsData :=
        VisitFlight(fs[i], coordsCache, selectedFlightId, arcsData, order, pointsData, Visits(fs[..i], coordsCache));
    }
    assert fs[..|fs|] == fs;
    points := seq(|order|, k requires 0 <= k < |order| => pointsData[order[k]]);
    arcs := arcsData;
  }

  /** `onArcClick`: clicking an arc selects its flight; anything else leaves
      the selection as it is. */
  function ArcClickSelection(current: Option<string>, clicked: Option<GlobeArc>): (r: Option<string>)
    ensures clicked.Some? ==> r == Some(clicked.value.flightData.id)
    ensures clicked.None? ==> r == current
  {
    match clicked
    case None => current
    case Some(arc) => Some(arc.flightData.id)
  }

  /** Filtering keeps ids distinct. */
  lemma RenderableDistinct(flights: seq<Flight>, cache: CoordCache)
    requires DistinctIds(flights)
    ensures DistinctIds(Renderable(flights, cache))
  {
    var pos := FilterPositions(flights, f => Resolved(cache, f));
  }

  /** With distinct route ids, clicking the `k`-th arc selects exactly its
      flight, and in the next render that arc, and only that one, is
      highlighted. */
  lemma ClickSelectsArcFlight(flights: seq<Flight>, cache: CoordCache, selectedId: Option<string>, k: nat)
    requires DistinctIds(flights)
    requires k < |Arcs(flights, cache, selectedId)|
    ensures
      var sel := ArcClickSelection(selectedId, Some(Arcs(flights, cache, selectedId)[k]));
      && k < |Renderable(flights, cache)|
      && FindById(flights, sel) == Some(Renderable(flights, cache)[k])
      && forall m :: 0 <= m < |Arcs(flights, cache, sel)| ==>
           (Arcs(flights, cache, sel)[m].color == SELECTED_COLOR <==> m == k)
  {
    var drawn := Renderable(flights, cache);
    ArcsSpec(flights, cache, selectedId);
    var f := drawn[k];
    var sel := Some(f.id);
    assert ArcClickSelection(selectedId, Some(Arcs(flights, cache, selectedId)[k])) == sel;
    RenderableIff(flights, cache, f);
    var j :| 0 <= j < |flights| && flights[j] == f;
    FindDistinct(flights, j);
    ArcsSpec(flights, cache, sel);
    RenderableDistinct(flights, cache);
  }
}
