/** `geocodeCities` (services/geminiService.ts, duplicated in index.tsx): the
    batched request to the text-generation service, abstracted as the reply it
    produced, and the folding of that reply into a name -> coordinate map. */
module Geocoder {
  import opened Types
  import opened Cache

  /** The mapping the `forEach` builds from a parsed result list: each item
      filed under its own `name`, a later item replacing an earlier one. */
  function ResultMap(items: seq<Coordinates>): (m: CoordCache)
    ensures m.Keys == (set i | 0 <= i < |items| :: items[i].name)
    ensures WellNamed(m)
  {
    if items == [] then map[]
    else
      var last := items[|items| - 1];
      var m := ResultMap(items[..|items| - 1]);
      assert forall i :: 0 <= i < |items| - 1 ==> items[..|items| - 1][i] == items[i];
      m[last.name := last]
  }

  /** Duplicate names resolve to the LAST item carrying that name. */
  lemma {:induction false} ResultMapLastWins(items: seq<Coordinates>, i: nat)
    requires i < |items|
    requires forall j :: i < j < |items| ==> items[j].name != items[i].name
    ensures items[i].name in ResultMap(items) && ResultMap(items)[items[i].name] == items[i]
  {
    var init := items[..|items| - 1];
    if i < |items| - 1 {
      forall j | i < j < |init| ensures init[j].name != init[i].name {
        assert init[j] == items[j];
      }
      ResultMapLastWins(init, i);
    }
  }

  /** How the call to the service ended. */
  datatype Reply =
    | ClientError                       // `new GoogleGenAI(...)` threw, before the `try`
    | ServiceError                      // the request, `JSON.parse` or the fold threw inside the `try`
    | Answer(items: seq<Coordinates>)   // the parsed result list

  /** What `geocodeCities` settles to for a non-empty request: `None` when the
      exception escapes (a client error), the empty map when the `catch` swallows
      it, and the folded answer otherwise. */
  function Outcome(reply: Reply): Option<CoordCache> {
    match reply
    case ClientError => None
    case ServiceError => Some(map[])
    case Answer(items) => Some(ResultMap(items))
  }

  /** Whatever the service answers, the names it contributes are filed under
      themselves. */
  lemma OutcomeWellNamed(reply: Reply)
    ensures Outcome(reply).Some? ==> WellNamed(Outcome(reply).value)
    ensures Outcome(reply).None? <==> reply.ClientError?
  {
  }

  /** The `forEach` over the parsed results, writing into `mapping`. */
  method FoldResults(results: seq<Coordinates>) returns (mapping: CoordCache)
    ensures mapping == ResultMap(results)
  {
    mapping := map[];
    for i := 0 to |results|
      invariant mapping == ResultMap(results[..i])
    {
      assert results[..i + 1][..i] == results[..i];
      mapping := mapping[results[i].name := results[i]];
    }
    assert results[..|results|] == results;
  }

  /** `geocodeCities(cities)` given how the service call ends. An empty list
      returns `{}` before anything else happens. Otherwise a client error
      escapes (`outcome` is `None`), a failure inside the `try` yields `{}`, and
      an answer is folded without checking its names against the cities asked
      for. `called` says whether the request was sent. */
  method GeocodeCities(cities: seq<string>, reply: Reply)
    returns (outcome: Option<CoordCache>, called: bool)
    ensures called <==> cities != [] && !reply.ClientError?
    ensures cities == [] ==> outcome == Some(map[])
    ensures cities != [] && reply.ClientError? ==> outcome.None?
    ensures cities != [] && reply.ServiceError? ==> outcome == Some(map[])
    ensures cities != [] && reply.Answer? ==> outcome == Some(ResultMap(reply.items))
    ensures outcome.Some? ==> WellNamed(outcome.value)
  {
    if |cities| == 0 {
      return Some(map[]), false;
    }
    match reply {
      case ClientError =>
        return None, false;
      case ServiceError =>
        outcome, called := Some(map[]), true;
      case Answer(results) =>
        var mapping := FoldResults(results);
        outcome, called := Some(mapping), true;
    }
  }
}
