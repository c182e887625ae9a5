/**
 * The data the exporter exchanges with Elasticsearch's scroll API
 * (exporter.go): its options, the requests it builds, the responses it
 * reads (already decoded into the four paths it looks at) and the errors
 * it can end a page with.
 */
module Protocol {
  import opened Wrappers

  /** Raw bytes: a document's `_source`, or a response body. */
  type Bytes = seq<bv8>

  /** The caller's query filter (an `interface{}` in the source), held as the
      JSON text it serialises to; the exporter never looks inside it. */
  type QueryJson = string

  /** Every error a page or a whole export can end with. */
  datatype Error =
    | TransportFailed                      // the request could not be built or sent, or its body not read
    | HttpStatus(status: int, body: Bytes) // a status other than 200 OK
    | ScrollIdUnreadable                   // `_scroll_id` absent or not a string
    | ShardsFailedUnreadable               // `_shards.failed` absent or not an integer
    | ShardsFailed                         // `_shards.failed != 0`
    | HitsTotalUnreadable                  // `hits.total` absent or not an integer
    | HitsUnreadable                       // `hits.hits` absent
    | HitsNotArray                         // `hits.hits is not array`
    | SourceUnreadable                     // an element without `_source`
    | SourceNotObject                      // `missing _source in hits.hits`
    | UserCancelled                        // the cancellation sentinel `ErrUserCancelled`
    | EndOfStream                          // `io.EOF`: the page held no element
    | Custom(message: string)              // any other error a handler returns

  /** The errors the exporter itself raises while reading one exchange, as
      opposed to the ones a handler may return. */
  predicate ExporterError(e: Error)
  {
    !(e.UserCancelled? || e.EndOfStream? || e.Custom?)
  }

  /** The caller's document handler: `_source` bytes, session-global index and
      the page's total in; nil (`None`) to go on, an error to stop. */
  type Handler = (Bytes, int, int) -> Option<Error>

  /** The caller-facing options; `docType` is the source's `Type` field. */
  datatype Options = Options(
    host: string,
    index: string,
    docType: string,
    scroll: string,
    query: QueryJson,
    batch: int)

  /** What a jsonparser getter gave for one path: its error, or the value. */
  datatype Lookup<T> = Missing | Found(value: T)

  /** One element of `hits.hits`, seen through its `_source` field. */
  datatype Hit = NoSource | NonObjectSource | Source(doc: Bytes)

  /** The `hits.hits` path of a response. */
  datatype Hits = HitsMissing | HitsNonArray | HitsArray(elems: seq<Hit>)

  /** A 200 OK body, decoded into the four paths the exporter reads. */
  datatype Page = Page(
    scrollId: Lookup<string>,
    shardsFailed: Lookup<int>,
    hitsTotal: Lookup<int>,
    hits: Hits)

  /** One round trip with the cluster: no answer at all, or a status, the raw
      body and that body's decoded paths. */
  datatype Response = Unreachable | Answered(status: int, body: Bytes, page: Page)

  const StatusOK := 200

  datatype Url = Url(scheme: string, host: string, path: string, params: seq<(string, string)>)

  /** The JSON bodies the exporter posts: the first search, and a continuation. */
  datatype Body =
    | SearchBody(size: int, query: QueryJson, sort: seq<string>)
    | ScrollBody(scroll: string, scrollId: string)

  datatype Request = Request(verb: string, url: Url, body: Body)

  /** `/{index}/{type}/_search?scroll={scroll}` on the configured host. */
  function SearchUrl(o: Options): (u: Url)
    ensures u.scheme == "http" && u.host == o.host && u.params == [("scroll", o.scroll)]
    ensures u.path == "/" + o.index + "/" + o.docType + "/_search"
    ensures |u.path| > 8 && u.path[|u.path| - 8..] == "/_search"
  {
    Url("http", o.host, "/" + o.index + "/" + o.docType + "/_search", [("scroll", o.scroll)])
  }

  /** The dedicated continuation endpoint, `/_search/scroll`. The exporter
      builds it but never posts to it. */
  function ScrollUrl(o: Options): (u: Url)
    ensures u.scheme == "http" && u.host == o.host && u.path == "/_search/scroll" && u.params == []
  {
    Url("http", o.host, "/_search/scroll", [])
  }

  /** The first search: page size, query, and the `_doc` sort order. */
  function FirstRequest(o: Options): (r: Request)
    ensures r.verb == "POST" && r.url == SearchUrl(o)
    ensures r.body.SearchBody? && r.body.size == o.batch && r.body.query == o.query
    ensures r.body.sort == ["_doc"]
  {
    Request("POST", SearchUrl(o), SearchBody(o.batch, o.query, ["_doc"]))
  }

  /** A continuation: keep-alive and cursor, posted to the search URL. */
  function NextRequest(o: Options, scrollId: string): (r: Request)
    ensures r.verb == "POST" && r.body.ScrollBody?
    ensures r.body.scrollId == scrollId && r.body.scroll == o.scroll
  {
    Request("POST", SearchUrl(o), ScrollBody(o.scroll, scrollId))
  }

  /** A continuation goes to the same URL as the first search, which is not the
      scroll endpoint, whatever the index and type are. */
  lemma ContinuationTargetsSearchUrl(o: Options, scrollId: string)
    ensures NextRequest(o, scrollId).url == FirstRequest(o).url
    ensures NextRequest(o, scrollId).url != ScrollUrl(o)
  {
  }
}
