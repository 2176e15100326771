/** The route store: the list of flights and the selected-flight lookup
    `flights.find(f => f.id === selectedId)`. */
module Routes {
  import opened Types

  /** The upload filter `f => f.from && f.to`: both endpoints non-empty. */
  predicate HasEndpoints(f: Flight) {
    f.from != "" && f.to != ""
  }

  /** No two flights share an id. */
  predicate DistinctIds(flights: seq<Flight>) {
    forall i, j :: 0 <= i < j < |flights| ==> flights[i].id != flights[j].id
  }

  /** The first flight whose id equals the selected id; `None` when nothing is
      selected or no flight has that id (a dangling selection). */
  function FindById(flights: seq<Flight>, id: Option<string>): (r: Option<Flight>)
    ensures r.Some? ==> id.Some? && r.value.id == id.value
    ensures r.None? <==> id.None? || forall k :: 0 <= k < |flights| ==> flights[k].id != id.value
    ensures r.Some? ==>
      exists k :: 0 <= k < |flights| && flights[k] == r.value
        && forall j :: 0 <= j < k ==> flights[j].id != id.value
  {
    if id.None? || flights == [] then None
    else if flights[0].id == id.value then Some(flights[0])
    else
      var r := FindById(flights[1..], id);
      assert forall k :: 1 <= k < |flights| ==> flights[k] == flights[1..][k - 1];
      r
  }

  /** With distinct ids, selecting a flight's id finds exactly that flight. */
  lemma FindDistinct(flights: seq<Flight>, k: nat)
    requires DistinctIds(flights) && k < |flights|
    ensures FindById(flights, Some(flights[k].id)) == Some(flights[k])
  {
    var r := FindById(flights, Some(flights[k].id));
    var i :| 0 <= i < |flights| && flights[i] == r.value
      && forall j :: 0 <= j < i ==> flights[j].id != flights[k].id;
    assert !(k < i);
  }
}
