/**
 * `GET /api/events` end to end: resolve the query parameters, run the search, project
 * every hit. The search engine is a parameter: a function from the search the handler
 * issues to the hits it returns, or to the exception it throws.
 */
module EventsHandler {
  import opened Wrappers
  import opened EventQuery
  import opened EventProjection

  /** The search engine as the handler sees it (`es.search(...)`, then `resp.hits.hits`). */
  type Search = SearchRequest -> Result<seq<Hit>, string>

  /**
   * The handler's `try` block: `Success(items)` is the body `{ items }`, `Failure(message)`
   * the exception that reaches its `catch`.
   */
  function HandleEvents(query: map<string, string>, search: Search, city: Option<Reader>, asn: Option<Reader>)
    : (r: Result<seq<Item>, string>)
    ensures var found := search(ResolveQuery(query));
      r.Success? <==> found.Success? && ProjectsBefore(found.value, city, asn, |found.value|)
    ensures var found := search(ResolveQuery(query));
      found.Failure? ==> r == Failure(found.error)
    ensures var found := search(ResolveQuery(query));
      r.Success? ==> (
        && |r.value| == |found.value|
        && forall i :: 0 <= i < |found.value| ==> ProjectHit(found.value[i], city, asn) == Success(r.value[i]))
    ensures var found := search(ResolveQuery(query));
      found.Success? && r.Failure? ==> exists i :: (
        && 0 <= i < |found.value|
        && ProjectsBefore(found.value, city, asn, i)
        && ProjectHit(found.value[i], city, asn) == Failure(r.error))
  {
    match search(ResolveQuery(query))
    case Failure(m) => Failure(m)
    case Success(hits) => ProjectAll(hits, city, asn)
  }

  /**
   * Before either MaxMind database has loaded, a request whose search succeeds still
   * succeeds, with one item per hit and neither `geo` nor `asn` on any of them.
   */
  lemma AnswersBeforeReadersLoad(query: map<string, string>, search: Search)
    requires search(ResolveQuery(query)).Success?
    ensures var r := HandleEvents(query, search, None, None);
      && r.Success?
      && |r.value| == |search(ResolveQuery(query)).value|
      && forall i :: 0 <= i < |r.value| ==> r.value[i].geo.None? && r.value[i].asn.None?
  {
    NoReadersProjectAll(search(ResolveQuery(query)).value);
  }

  /**
   * One hit whose lookup throws fails the whole request: no partial `items` is produced,
   * the error of the first failing hit is what reaches the `catch`.
   */
  lemma LookupExceptionFailsRequest(query: map<string, string>, search: Search, city: Option<Reader>, asn: Option<Reader>, i: nat)
    requires search(ResolveQuery(query)).Success?
    requires i < |search(ResolveQuery(query)).value|
    requires ProjectHit(search(ResolveQuery(query)).value[i], city, asn).Failure?
    ensures HandleEvents(query, search, city, asn).Failure?
    ensures exists j :: (
      && 0 <= j <= i
      && ProjectsBefore(search(ResolveQuery(query)).value, city, asn, j)
      && ProjectHit(search(ResolveQuery(query)).value[j], city, asn) == Failure(HandleEvents(query, search, city, asn).error))
  {
    var hits := search(ResolveQuery(query)).value;
    var r := ProjectAll(hits, city, asn);
    var j :| 0 <= j < |hits| && ProjectsBefore(hits, city, asn, j) && ProjectHit(hits[j], city, asn) == Failure(r.error);
  }
}
