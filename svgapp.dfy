/** index.tsx: the standalone page with the hand-drawn SVG globe. Its upload
    pipeline trims endpoints, accepts six aliases per endpoint, catches
    decode failures, and geocodes BEFORE replacing the flight list. */
module SvgApp {
  import opened Types
  import opened Text
  import opened Seqs
  import opened Sheet
  import opened Routes
  import opened Cache
  import opened Geocoder
  import opened Constants

  const FROM_ALIASES: seq<string> := ["from", "From", "Origin", "origin", "source", "Source"]
  const TO_ALIASES: seq<string> := ["to", "To", "Destination", "destination", "target", "Target"]
  const DURATION_ALIASES: seq<string> := ["duration", "Duration", "time", "Time", "Flight Time"]
  const AIRLINE_ALIASES: seq<string> := ["airlines", "Airlines", "carrier", "Carrier", "airline", "Airline"]

  /** `up-${i}-${Date.now()}`, with `now` the clock reading taken for row `i`. */
  function UploadId(i: nat, now: nat): string {
    "up-" + Decimal(i) + "-" + Decimal(now)
  }

  /** The row index an upload id was built from (the digits after `up-`). */
  function RowIndexOf(id: string): Option<nat> {
    if |id| >= 3 && id[..3] == "up-" then
      var d := LeadingDigits(id[3..]);
      if d == [] then None else Some(DigitsValue(d))
    else None
  }

  /** An upload id gives back its row index, whatever the clock read. */
  lemma RowIndexOfUploadId(i: nat, now: nat)
    ensures RowIndexOf(UploadId(i, now)) == Some(i)
  {
    var id := UploadId(i, now);
    assert id[..3] == "up-";
    assert id[3..] == Decimal(i) + ("-" + Decimal(now));
    LeadingDigitsOf(Decimal(i), "-" + Decimal(now));
    DecimalRoundTrip(i);
  }

  /** The `rawData.map((r, i) => ...)` callback: first truthy alias per field;
      endpoints stringified and trimmed, `"N/A"` / `"Unknown"` defaults for the
      untrimmed duration and airline. */
  function RowFlight(row: Row, i: nat, now: nat): Flight {
    Flight(
      UploadId(i, now),
      Trim(FirstTruthy(row, FROM_ALIASES).GetOr("")),
      Trim(FirstTruthy(row, TO_ALIASES).GetOr("")),
      FirstTruthy(row, DURATION_ALIASES).GetOr("N/A"),
      FirstTruthy(row, AIRLINE_ALIASES).GetOr("Unknown"))
  }

  /** Every row mapped, before filtering; `clock(i)` is `Date.now()` as read for row `i`. */
  function MappedRows(rows: seq<Row>, clock: nat -> nat): seq<Flight> {
    seq(|rows|, i requires 0 <= i < |rows| => RowFlight(rows[i], i, clock(i)))
  }

  /** `rawData.map(...).filter(f => f.from && f.to)`. */
  function Ingest(rows: seq<Row>, clock: nat -> nat): seq<Flight> {
    Filter(MappedRows(rows, clock), HasEndpoints)
  }

  /** Each endpoint is the trimmed cell of its first truthy alias, and duration
      and airline the cell of theirs exactly as written; with no alias of a
      field truthy, it is `""`, `""`, `"N/A"` or `"Unknown"`. */
  lemma RowFields(row: Row, i: nat, now: nat)
    ensures forall k :: FirstTruthyAt(row, FROM_ALIASES, k) ==>
      RowFlight(row, i, now).from == Trim(row[FROM_ALIASES[k]])
    ensures forall k :: FirstTruthyAt(row, TO_ALIASES, k) ==>
      RowFlight(row, i, now).to == Trim(row[TO_ALIASES[k]])
    ensures forall k :: FirstTruthyAt(row, DURATION_ALIASES, k) ==>
      RowFlight(row, i, now).duration == row[DURATION_ALIASES[k]]
    ensures forall k :: FirstTruthyAt(row, AIRLINE_ALIASES, k) ==>
      RowFlight(row, i, now).airlines == row[AIRLINE_ALIASES[k]]
    ensures (forall k :: 0 <= k < |FROM_ALIASES| ==> !Truthy(row, FROM_ALIASES[k])) ==>
      RowFlight(row, i, now).from == ""
    ensures (forall k :: 0 <= k < |TO_ALIASES| ==> !Truthy(row, TO_ALIASES[k])) ==>
      RowFlight(row, i, now).to == ""
    ensures (forall k :: 0 <= k < |DURATION_ALIASES| ==> !Truthy(row, DURATION_ALIASES[k])) ==>
      RowFlight(row, i, now).duration == "N/A"
    ensures (forall k :: 0 <= k < |AIRLINE_ALIASES| ==> !Truthy(row, AIRLINE_ALIASES[k])) ==>
      RowFlight(row, i, now).airlines == "Unknown"
  {
    forall k | FirstTruthyAt(row, FROM_ALIASES, k)
      ensures RowFlight(row, i, now).from == Trim(row[FROM_ALIASES[k]])
    {
      FirstTruthyPicks(row, FROM_ALIASES, k);
    }
    forall k | FirstTruthyAt(row, TO_ALIASES, k)
      ensures RowFlight(row, i, now).to == Trim(row[TO_ALIASES[k]])
    {
      FirstTruthyPicks(row, TO_ALIASES, k);
    }
    forall k | FirstTruthyAt(row, DURATION_ALIASES, k)
      ensures RowFlight(row, i, now).duration == row[DURATION_ALIASES[k]]
    {
      FirstTruthyPicks(row, DURATION_ALIASES, k);
    }
    forall k | FirstTruthyAt(row, AIRLINE_ALIASES, k)
      ensures RowFlight(row, i, now).airlines == row[AIRLINE_ALIASES[k]]
    {
      FirstTruthyPicks(row, AIRLINE_ALIASES, k);
    }
    FirstTruthySpec(row, FROM_ALIASES);
    FirstTruthySpec(row, TO_ALIASES);
    FirstTruthySpec(row, DURATION_ALIASES);
    FirstTruthySpec(row, AIRLINE_ALIASES);
    assert Trim("") == "";
  }

  /** An alias is chosen before trimming: if the first truthy origin cell is
      blank, the origin is empty (a later, non-blank alias is never consulted)
      and the row is dropped. */
  lemma BlankOriginShadows(rows: seq<Row>, clock: nat -> nat, i: nat)
    requires i < |rows|
    requires FirstTruthy(rows[i], FROM_ALIASES).Some?
    requires AllWhitespace(FirstTruthy(rows[i], FROM_ALIASES).value)
    ensures RowFlight(rows[i], i, clock(i)).from == ""
    ensures RowFlight(rows[i], i, clock(i)) !in Ingest(rows, clock)
  {
    TrimEmptyIffBlank(FirstTruthy(rows[i], FROM_ALIASES).value);
  }

  /** What ingestion yields: only rows with both endpoints, each the mapping of
      the row its id names, in strictly increasing row order, and every row
      with both endpoints present. */
  lemma {:induction false} IngestSpec(rows: seq<Row>, clock: nat -> nat)
    ensures forall k :: 0 <= k < |Ingest(rows, clock)| ==> HasEndpoints(Ingest(rows, clock)[k])
    ensures forall k :: 0 <= k < |Ingest(rows, clock)| ==>
      var f := Ingest(rows, clock)[k];
      RowIndexOf(f.id).Some? && RowIndexOf(f.id).value < |rows|
        && f == RowFlight(rows[RowIndexOf(f.id).value], RowIndexOf(f.id).value, clock(RowIndexOf(f.id).value))
    ensures forall k1, k2 :: 0 <= k1 < k2 < |Ingest(rows, clock)| ==>
      RowIndexOf(Ingest(rows, clock)[k1].id).GetOr(0) < RowIndexOf(Ingest(rows, clock)[k2].id).GetOr(0)
    ensures forall i :: 0 <= i < |rows| && HasEndpoints(RowFlight(rows[i], i, clock(i))) ==>
      RowFlight(rows[i], i, clock(i)) in Ingest(rows, clock)
  {
    var mapped := MappedRows(rows, clock);
    var r := Ingest(rows, clock);
    var pos := FilterPositions(mapped, HasEndpoints);
    forall k | 0 <= k < |r| ensures RowIndexOf(r[k].id) == Some(pos[k]) {
      RowIndexOfUploadId(pos[k], clock(pos[k]));
    }
    forall i | 0 <= i < |rows| && HasEndpoints(RowFlight(rows[i], i, clock(i)))
      ensures RowFlight(rows[i], i, clock(i)) in r
    {
      FilterMembership(mapped, HasEndpoints, mapped[i]);
    }
  }

  /** Ids within one upload are pairwise distinct. */
  lemma IngestIdsDistinct(rows: seq<Row>, clock: nat -> nat)
    ensures DistinctIds(Ingest(rows, clock))
  {
    IngestSpec(rows, clock);
  }

  /** When every row has both endpoints, every row is kept, in order. */
  lemma IngestKeepsValidRows(rows: seq<Row>, clock: nat -> nat)
    requires forall i :: 0 <= i < |rows| ==> HasEndpoints(RowFlight(rows[i], i, clock(i)))
    ensures Ingest(rows, clock) == MappedRows(rows, clock)
    ensures |Ingest(rows, clock)| == |rows|
  {
    FilterKeepsAll(MappedRows(rows, clock), HasEndpoints);
  }

  /** One drawn route of the SVG globe. */
  datatype SvgArc = SvgArc(flight: Flight, start: Coordinates, end: Coordinates, stroke: string)

  const SELECTED_STROKE: string := "#fbbf24"
  const PLAIN_STROKE: string := "#3b82f6"

  /** The `flights.map(f => ...)` path layer: `null` (nothing) for a flight with
      an unresolved endpoint, otherwise a path from origin to destination,
      highlighted when selected. */
  function SvgArcs(flights: seq<Flight>, coords: CoordCache, selectedId: Option<string>): seq<SvgArc> {
    var drawn := Renderable(flights, coords);
    seq(|drawn|, k requires 0 <= k < |drawn| =>
      var f := drawn[k];
      assert f in drawn;
      SvgArc(f, coords[f.from], coords[f.to],
        if selectedId == Some(f.id) then SELECTED_STROKE else PLAIN_STROKE))
  }

  /** The SVG draws a path for a flight iff both endpoints are cached; the path
      joins the two cached coordinates and is highlighted iff it is selected. */
  lemma SvgArcIff(flights: seq<Flight>, coords: CoordCache, selectedId: Option<string>, f: Flight)
    ensures (exists k :: 0 <= k < |SvgArcs(flights, coords, selectedId)|
               && SvgArcs(flights, coords, selectedId)[k].flight == f)
      <==> f in flights && f.from in coords && f.to in coords
    ensures forall a :: a in SvgArcs(flights, coords, selectedId) ==>
      a.flight.from in coords && a.flight.to in coords
      && a.start == coords[a.flight.from] && a.end == coords[a.flight.to]
      && (a.stroke == SELECTED_STROKE <==> selectedId == Some(a.flight.id))
  {
    var drawn := Renderable(flights, coords);
    var arcs := SvgArcs(flights, coords, selectedId);
    RenderableIff(flights, coords, f);
    forall a | a in arcs
      ensures a.flight.from in coords && a.flight.to in coords
      ensures a.start == coords[a.flight.from] && a.end == coords[a.flight.to]
      ensures a.stroke == SELECTED_STROKE <==> selectedId == Some(a.flight.id)
    {
      var k :| 0 <= k < |arcs| && arcs[k] == a;
      assert drawn[k] in drawn;
    }
    if f in drawn {
      var k :| 0 <= k < |drawn| && drawn[k] == f;
      assert SvgArcs(flights, coords, selectedId)[k].flight == f;
    }
  }

  /** A sheet headed `Origin` / `Destination` (neither `from`/`From` nor
      `to`/`To` filled) is still read: the endpoints come from those columns. */
  lemma OriginDestinationHeaders(row: Row, i: nat, now: nat)
    requires !Truthy(row, "from") && !Truthy(row, "From") && Truthy(row, "Origin")
    requires !Truthy(row, "to") && !Truthy(row, "To") && Truthy(row, "Destination")
    ensures RowFlight(row, i, now).from == Trim(row["Origin"])
    ensures RowFlight(row, i, now).to == Trim(row["Destination"])
  {
    assert FirstTruthy(row, FROM_ALIASES) == FirstTruthy(row, FROM_ALIASES[1..]);
    assert FirstTruthy(row, FROM_ALIASES[1..]) == FirstTruthy(row, FROM_ALIASES[1..][1..]);
    assert FROM_ALIASES[1..][1..][0] == "Origin";
    assert FirstTruthy(row, TO_ALIASES) == FirstTruthy(row, TO_ALIASES[1..]);
    assert FirstTruthy(row, TO_ALIASES[1..]) == FirstTruthy(row, TO_ALIASES[1..][1..]);
    assert TO_ALIASES[1..][1..][0] == "Destination";
  }

  /** The page's React state: routes, coordinate cache, selection, spinner. */
  class App {
    var flights: seq<Flight>
    var coords: CoordCache
    var selectedId: Option<string>
    var loading: bool

    /** Cache entries are filed under their names and route ids are unique. */
    ghost predicate Valid()
      reads this
    {
      WellNamed(coords) && DistinctIds(flights)
    }

    constructor ()
      ensures Valid()
      ensures flights == INITIAL_FLIGHTS && coords == CITY_COORDS_CACHE
      ensures selectedId == None && !loading
    {
      flights := INITIAL_FLIGHTS;
      coords := CITY_COORDS_CACHE;
      selectedId := None;
      loading := false;
      SeedWellNamed();
      SeedIdsDistinct();
    }

    /** `flights.find(f => f.id === selectedId)`: a flight carrying the
        selected id, the only one while the state is valid. */
    function SelectedFlight(): (r: Option<Flight>)
      reads this
      ensures r.Some? ==> r.value in flights && selectedId == Some(r.value.id)
      ensures r.None? ==> selectedId.None? || forall f :: f in flights ==> f.id != selectedId.value
      ensures Valid() && r.Some? ==>
        forall k :: 0 <= k < |flights| && flights[k].id == r.value.id ==> flights[k] == r.value
    {
      FindById(flights, selectedId)
    }

    /** `setSelectedId(id)`: an arc or list click, or the close button (`None`). */
    method Select(id: Option<string>)
      modifies this
      ensures selectedId == id
      ensures flights == old(flights) && coords == old(coords) && loading == old(loading)
    {
      selectedId := id;
    }

    /** `handleFileUpload` and its `onload` callback as one step. No file: nothing
        happens. Otherwise the spinner is raised and, on every path, lowered
        again. A decode failure or an upload without a usable row leaves routes
        and cache alone. Otherwise the endpoints missing from the cache are sent
        to the geocoder (only if there are any), its answer is merged over the
        cache, and then the routes are replaced wholesale. A client error
        escaping `geocodeCities` lands in the `catch` before either update, so
        routes and cache stay as they were. `requested` is the list passed to
        the geocoder, empty when it was not called. */
    method HandleFileUpload(file: FileRead, clock: nat -> nat, reply: Reply)
      returns (requested: seq<string>)
      requires Valid()
      modifies this
      ensures Valid()
      ensures selectedId == old(selectedId)
      ensures file.NoFile? ==> flights == old(flights) && coords == old(coords) && loading == old(loading)
      ensures !file.NoFile? ==> !loading
      ensures !(file.Rows? && Ingest(file.rows, clock) != []) ==>
        flights == old(flights) && coords == old(coords) && requested == []
      ensures file.Rows? && Ingest(file.rows, clock) != [] ==>
        && (set c | c in requested) == MissingSet(Ingest(file.rows, clock), old(coords))
        && (forall i, j :: 0 <= i < j < |requested| ==> requested[i] != requested[j])
        && if requested != [] && reply.ClientError? then
             flights == old(flights) && coords == old(coords)
           else
             && flights == Ingest(file.rows, clock)
             && coords == (if requested == [] then old(coords) else Merge(old(coords), Outcome(reply).value))
      ensures old(coords).Keys <= coords.Keys
    {
      requested := [];
      if file.NoFile? {
        return;
      }
      loading := true;
      match file {
        case Unreadable =>
          // the `catch` branch: an alert, nothing else
        case Rows(rows) =>
          var newFlights := Ingest(rows, clock);
          if |newFlights| == 0 {
            loading := false;
          } else {
            var missing := MissingCities(newFlights, coords);
            requested := missing;
            var escaped := false;
            if |missing| > 0 {
              var outcome, _ := GeocodeCities(missing, reply);
              if outcome.None? {
                escaped := true;  // the exception reaches the `catch`
              } else {
                MergeWellNamed(coords, outcome.value);
                coords := Merge(coords, outcome.value);
              }
            }
            if !escaped {
              IngestIdsDistinct(rows, clock);
              flights := newFlights;
            }
          }
      }
      loading := false;  // the `finally` branch
    }
  }
}
