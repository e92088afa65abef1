/** The two "latest item" handlers, api/get-latest-item.js and
    api/notion.js. The store query (sorted by creation time, newest first,
    one result per page) is an input: either the list of pages it returned
    or the fact that it threw. */
module Handlers {
  import opened Wrappers
  import opened Notion
  import opened CleanData

  /** What the store query produced. */
  datatype Query = Returned(results: seq<Page>) | QueryThrew

  /** The HTTP status and JSON payload a handler answers with. */
  datatype Reply = Ok(data: CleanData) | NotFound(error: string) | ServerError(error: string) {
    function StatusCode(): int {
      match this
      case Ok(_) => 200
      case NotFound(_) => 404
      case ServerError(_) => 500
    }
  }

  const NoItems := "No items found in the database."
  const LatestItemFailure := "Failed to fetch data from Notion."
  const NotionFailure := "Failed to fetch data from Notion. Check Vercel logs."

  /** api/get-latest-item.js: 404 on no results, otherwise the first result
      normalised, and 500 for anything thrown on the way. */
  function GetLatestItem(query: Query): (reply: Reply)
    ensures reply.NotFound? <==> query == Returned([])
    ensures reply.NotFound? ==> reply.error == NoItems
    ensures reply.Ok? <==> query.Returned? && |query.results| > 0 && WellShaped(query.results[0].properties)
    ensures reply.Ok? ==> Success(reply.data) == Normalize(query.results[0])
    ensures reply.ServerError? ==> reply.error == LatestItemFailure
  {
    match query
    case QueryThrew => ServerError(LatestItemFailure)
    case Returned(results) =>
      if |results| == 0 then NotFound(NoItems)
      else
        match Normalize(results[0])
        case Success(data) => Ok(data)
        case Failure(_) => ServerError(LatestItemFailure)
  }

  /** api/notion.js: the same steps; only the 500 message differs. */
  function NotionLatest(query: Query): (reply: Reply)
    ensures reply.NotFound? <==> query == Returned([])
    ensures reply.NotFound? ==> reply.error == NoItems
    ensures reply.Ok? <==> query.Returned? && |query.results| > 0 && WellShaped(query.results[0].properties)
    ensures reply.Ok? ==> Success(reply.data) == Normalize(query.results[0])
    ensures reply.ServerError? ==> reply.error == NotionFailure
  {
    match query
    case QueryThrew => ServerError(NotionFailure)
    case Returned(results) =>
      if |results| == 0 then NotFound(NoItems)
      else
        match Normalize(results[0])
        case Success(data) => Ok(data)
        case Failure(_) => ServerError(NotionFailure)
  }

  /** Both handlers give the same status and the same record for every
      query; a 500 differs only in its message. */
  lemma HandlersAgree(query: Query)
    ensures GetLatestItem(query).StatusCode() == NotionLatest(query).StatusCode()
    ensures GetLatestItem(query).ServerError? ==> NotionLatest(query) == ServerError(NotionFailure)
    ensures !GetLatestItem(query).ServerError? ==> GetLatestItem(query) == NotionLatest(query)
  {
  }

  /** Only the first result is looked at: later results never change the reply. */
  lemma OnlyFirstResultMatters(first: Page, rest: seq<Page>)
    ensures GetLatestItem(Returned([first] + rest)) == GetLatestItem(Returned([first]))
  {
  }

  /** A first result missing a read property answers 500, never partial data. */
  lemma MissingPropertyIsServerError(results: seq<Page>, key: string)
    requires |results| > 0 && key in ReadProperties && key !in results[0].properties
    ensures GetLatestItem(Returned(results)) == ServerError(LatestItemFailure)
    ensures NotionLatest(Returned(results)) == ServerError(NotionFailure)
  {
  }
}
