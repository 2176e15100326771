/** App.tsx: the React front end over the 3D globe. Its upload pipeline reads
    two header spellings per endpoint and does not trim. It replaces the
    flight list FIRST and only then geocodes the names missing from the cache. */
module GlobeApp {
  import opened Types
  import opened Text
  import opened Seqs
  import opened Sheet
  import opened Routes
  import opened Cache
  import opened Geocoder
  import opened Constants
  import SvgApp

  const FROM_ALIASES: seq<string> := ["from", "From"]
  const TO_ALIASES: seq<string> := ["to", "To"]
  const DURATION_ALIASES: seq<string> := ["duration", "Duration"]
  const AIRLINE_ALIASES: seq<string> := ["airlines", "Airlines", "Airline"]

  /** `upload-${index}`, where `index` is the row's position in the sheet. */
  function UploadId(i: nat): string {
    "upload-" + Decimal(i)
  }

  /** The row index an upload id was built from. */
  function RowIndexOf(id: string): Option<nat> {
    if |id| > 7 && id[..7] == "upload-" && AllDigits(id[7..]) then Some(DigitsValue(id[7..]))
    else None
  }

  /** An upload id gives back its row index. */
  lemma RowIndexOfUploadId(i: nat)
    ensures RowIndexOf(UploadId(i)) == Some(i)
  {
    var id := UploadId(i);
    assert id[..7] == "upload-";
    assert id[7..] == Decimal(i);
    DecimalRoundTrip(i);
  }

  /** The `jsonData.map((row, index) => ...)` callback: the first truthy
      spelling of each field, taken as it is (no trimming), with `''`, `'N/A'`
      and `'Unknown'` as the fallbacks. */
  function RowFlight(row: Row, i: nat): Flight {
    Flight(
      UploadId(i),
      FirstTruthy(row, FROM_ALIASES).GetOr(""),
      FirstTruthy(row, TO_ALIASES).GetOr(""),
      FirstTruthy(row, DURATION_ALIASES).GetOr("N/A"),
      FirstTruthy(row, AIRLINE_ALIASES).GetOr("Unknown"))
  }

  /** Each field is the cell of its first truthy alias, exactly as written,
      or `""`, `""`, `"N/A"` and `"Unknown"` when no alias of it is truthy. */
  lemma RowFields(row: Row, i: nat)
    ensures forall k :: FirstTruthyAt(row, FROM_ALIASES, k) ==> RowFlight(row, i).from == row[FROM_ALIASES[k]]
    ensures forall k :: FirstTruthyAt(row, TO_ALIASES, k) ==> RowFlight(row, i).to == row[TO_ALIASES[k]]
    ensures forall k :: FirstTruthyAt(row, DURATION_ALIASES, k) ==>
      RowFlight(row, i).duration == row[DURATION_ALIASES[k]]
    ensures forall k :: FirstTruthyAt(row, AIRLINE_ALIASES, k) ==>
      RowFlight(row, i).airlines == row[AIRLINE_ALIASES[k]]
    ensures (forall k :: 0 <= k < |FROM_ALIASES| ==> !Truthy(row, FROM_ALIASES[k])) ==>
      RowFlight(row, i).from == ""
    ensures (forall k :: 0 <= k < |TO_ALIASES| ==> !Truthy(row, TO_ALIASES[k])) ==>
      RowFlight(row, i).to == ""
    ensures (forall k :: 0 <= k < |DURATION_ALIASES| ==> !Truthy(row, DURATION_ALIASES[k])) ==>
      RowFlight(row, i).duration == "N/A"
    ensures (forall k :: 0 <= k < |AIRLINE_ALIASES| ==> !Truthy(row, AIRLINE_ALIASES[k])) ==>
      RowFlight(row, i).airlines == "Unknown"
  {
    forall k | FirstTruthyAt(row, FROM_ALIASES, k) ensures RowFlight(row, i).from == row[FROM_ALIASES[k]] {
      FirstTruthyPicks(row, FROM_ALIASES, k);
    }
    forall k | FirstTruthyAt(row, TO_ALIASES, k) ensures RowFlight(row, i).to == row[TO_ALIASES[k]] {
      FirstTruthyPicks(row, TO_ALIASES, k);
    }
    forall k | FirstTruthyAt(row, DURATION_ALIASES, k)
      ensures RowFlight(row, i).duration == row[DURATION_ALIASES[k]]
    {
      FirstTruthyPicks(row, DURATION_ALIASES, k);
    }
    forall k | FirstTruthyAt(row, AIRLINE_ALIASES, k)
      ensures RowFlight(row, i).airlines == row[AIRLINE_ALIASES[k]]
    {
      FirstTruthyPicks(row, AIRLINE_ALIASES, k);
    }
    FirstTruthySpec(row, FROM_ALIASES);
    FirstTruthySpec(row, TO_ALIASES);
    FirstTruthySpec(row, DURATION_ALIASES);
    FirstTruthySpec(row, AIRLINE_ALIASES);
  }

  /** Every row mapped, before filtering. */
  function MappedRows(rows: seq<Row>): seq<Flight> {
    seq(|rows|, i requires 0 <= i < |rows| => RowFlight(rows[i], i))
  }

  /** `jsonData.map(...).filter(f => f.from && f.to)`. */
  function Ingest(rows: seq<Row>): seq<Flight> {
    Filter(MappedRows(rows), HasEndpoints)
  }

  /** What ingestion yields: only rows with both endpoints, each the mapping of
      the row its id names, in strictly increasing row order, and every row
      with both endpoints present. */
  lemma {:induction false} IngestSpec(rows: seq<Row>)
    ensures forall k :: 0 <= k < |Ingest(rows)| ==> HasEndpoints(Ingest(rows)[k])
    ensures forall k :: 0 <= k < |Ingest(rows)| ==>
      var f := Ingest(rows)[k];
      RowIndexOf(f.id).Some? && RowIndexOf(f.id).value < |rows|
        && f == RowFlight(rows[RowIndexOf(f.id).value], RowIndexOf(f.id).value)
    ensures forall k1, k2 :: 0 <= k1 < k2 < |Ingest(rows)| ==>
      RowIndexOf(Ingest(rows)[k1].id).GetOr(0) < RowIndexOf(Ingest(rows)[k2].id).GetOr(0)
    ensures forall i :: 0 <= i < |rows| && HasEndpoints(RowFlight(rows[i], i)) ==>
      RowFlight(rows[i], i) in Ingest(rows)
  {
    var mapped := MappedRows(rows);
    var r := Ingest(rows);
    var pos := FilterPositions(mapped, HasEndpoints);
    forall k | 0 <= k < |r| ensures RowIndexOf(r[k].id) == Some(pos[k]) {
      RowIndexOfUploadId(pos[k]);
    }
    forall i | 0 <= i < |rows| && HasEndpoints(RowFlight(rows[i], i))
      ensures RowFlight(rows[i], i) in r
    {
      FilterMembership(mapped, HasEndpoints, mapped[i]);
    }
  }

  /** Ids within one upload are pairwise distinct. */
  lemma IngestIdsDistinct(rows: seq<Row>)
    ensures DistinctIds(Ingest(rows))
  {
    IngestSpec(rows);
  }

  /** A sheet whose `from` cell holds only blanks keeps the row here, blanks
      and all, while the standalone page trims the cell and drops the row. */
  lemma BlankOriginKeptHereDroppedThere(rows: seq<Row>, clock: nat -> nat, i: nat)
    requires i < |rows|
    requires Truthy(rows[i], "from") && AllWhitespace(rows[i]["from"])
    requires Truthy(rows[i], "to")
    ensures RowFlight(rows[i], i).from == rows[i]["from"]
    ensures RowFlight(rows[i], i) in Ingest(rows)
    ensures SvgApp.RowFlight(rows[i], i, clock(i)) !in SvgApp.Ingest(rows, clock)
  {
    IngestSpec(rows);
    FirstTruthySpec(rows[i], SvgApp.FROM_ALIASES);
    assert SvgApp.FROM_ALIASES[0] == "from";
    SvgApp.BlankOriginShadows(rows, clock, i);
  }

  /** A sheet headed `Origin` (no `from` / `From` cell filled) yields no origin
      here, so the row is dropped, while the standalone page reads the
      `Origin` column. */
  lemma OriginHeaderIgnored(rows: seq<Row>, i: nat)
    requires i < |rows|
    requires !Truthy(rows[i], "from") && !Truthy(rows[i], "From")
    ensures RowFlight(rows[i], i).from == ""
    ensures RowFlight(rows[i], i) !in Ingest(rows)
  {
    FirstTruthySpec(rows[i], FROM_ALIASES);
  }

  /** The component's React state: routes, coordinate cache, selection and
      the geocoding spinner. */
  class App {
    var flights: seq<Flight>
    var coordsCache: CoordCache
    var selectedFlightId: Option<string>
    var isProcessing: bool

    /** Cache entries are filed under their names and route ids are unique. */
    ghost predicate Valid()
      reads this
    {
      WellNamed(coordsCache) && DistinctIds(flights)
    }

    constructor ()
      ensures Valid()
      ensures flights == INITIAL_FLIGHTS && coordsCache == CITY_COORDS_CACHE
      ensures selectedFlightId == None && !isProcessing
    {
      flights := INITIAL_FLIGHTS;
      coordsCache := CITY_COORDS_CACHE;
      selectedFlightId := None;
      isProcessing := false;
      SeedWellNamed();
      SeedIdsDistinct();
    }

    /** `flights.find(f => f.id === selectedFlightId)`: a flight carrying the
        selected id, the only one while the state is valid. */
    function SelectedFlight(): (r: Option<Flight>)
      reads this
      ensures r.Some? ==> r.value in flights && selectedFlightId == Some(r.value.id)
      ensures r.None? ==> selectedFlightId.None? || forall f :: f in flights ==> f.id != selectedFlightId.value
      ensures Valid() && r.Some? ==>
        forall k :: 0 <= k < |flights| && flights[k].id == r.value.id ==> flights[k] == r.value
    {
      FindById(flights, selectedFlightId)
    }

    /** `setSelectedFlightId(id)`: a list click, an arc click, or the close
        button of the detail panel (`None`). */
    method Select(id: Option<string>)
      modifies this
      ensures selectedFlightId == id
      ensures flights == old(flights) && coordsCache == old(coordsCache) && isProcessing == old(isProcessing)
    {
      selectedFlightId := id;
    }

    /** `resolveMissingCoords(currentFlights)`: the endpoints of
        `currentFlights` absent from the cache, each once. With none missing,
        nothing happens. Otherwise the spinner goes up and the geocoder is asked
        for exactly those names. If a client error escapes `geocodeCities`, the
        cache is untouched and the spinner stays up; otherwise its answer is
        spread over the cache and the spinner comes down. `requested` is the
        list passed to the geocoder. */
    method ResolveMissingCoords(currentFlights: seq<Flight>, reply: Reply)
      returns (requested: seq<string>)
      requires WellNamed(coordsCache)
      modifies this
      ensures WellNamed(coordsCache)
      ensures flights == old(flights) && selectedFlightId == old(selectedFlightId)
      ensures (set c | c in requested) == MissingSet(currentFlights, old(coordsCache))
      ensures forall i, j :: 0 <= i < j < |requested| ==> requested[i] != requested[j]
      ensures requested == [] ==> coordsCache == old(coordsCache) && isProcessing == old(isProcessing)
      ensures requested != [] && reply.ClientError? ==> coordsCache == old(coordsCache) && isProcessing
      ensures requested != [] && !reply.ClientError? ==>
        coordsCache == Merge(old(coordsCache), Outcome(reply).value) && !isProcessing
    {
      requested := MissingCities(currentFlights, coordsCache);
      if |requested| > 0 {
        isProcessing := true;
        var outcome, _ := GeocodeCities(requested, reply);
        if outcome.Some? {
          MergeWellNamed(coordsCache, outcome.value);
          coordsCache := Merge(coordsCache, outcome.value);
          isProcessing := false;
        }
      }
    }

    /** `handleFileUpload` and its `onload` callback as one step. No file: nothing
        happens. A sheet that cannot be decoded throws inside `onload`, which
        nothing catches: the state stays as it was. An upload without a usable
        row changes nothing either. Otherwise the routes are replaced first,
        and then `resolveMissingCoords` runs against the cache as it was; a
        client error escaping it leaves the new routes, the old cache and the
        spinner up. */
    method HandleFileUpload(file: FileRead, reply: Reply)
      returns (requested: seq<string>)
      requires Valid()
      modifies this
      ensures Valid()
      ensures selectedFlightId == old(selectedFlightId)
      ensures !(file.Rows? && Ingest(file.rows) != []) ==>
        flights == old(flights) && coordsCache == old(coordsCache)
        && isProcessing == old(isProcessing) && requested == []
      ensures file.Rows? && Ingest(file.rows) != [] ==>
        && flights == Ingest(file.rows)
        && (set c | c in requested) == MissingSet(flights, old(coordsCache))
        && (forall i, j :: 0 <= i < j < |requested| ==> requested[i] != requested[j])
        && coordsCache == (if requested == [] || reply.ClientError? then old(coordsCache)
                           else Merge(old(coordsCache), Outcome(reply).value))
        && isProcessing == (if requested == [] then old(isProcessing) else reply.ClientError?)
      ensures old(coordsCache).Keys <= coordsCache.Keys
    {
      requested := [];
      match file {
        case NoFile =>
        case Unreadable =>
        case Rows(rows) =>
          var newFlights := Ingest(rows);
          if |newFlights| > 0 {
            IngestIdsDistinct(rows);
            flights := newFlights;
            requested := ResolveMissingCoords(newFlights, reply);
          }
      }
    }
  }
}
