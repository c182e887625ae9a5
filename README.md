# esdump exporter: a verified model of the scroll export

This project models the scroll-export engine of `esexporter` (`exporter.go`).
The engine pages through an Elasticsearch index with the scroll API. It first
posts a search to `/{index}/{type}/_search?scroll=…`. Then it posts
continuations carrying the latest `_scroll_id`, until a page returns an error.

For each page it checks four paths in a fixed order: `_scroll_id`,
`_shards.failed`, `hits.total` and `hits.hits`. It then hands every element's
`_source` to the caller's handler, together with a session-global index and
the page's total. `Do` turns the two sentinels, `io.EOF` (an empty page) and
`ErrUserCancelled` (the handler's cancellation), into a clean nil return.

Layout:

- `wrappers.dfy`: `Option`, used for Go's nil-able values.
- `protocol.dfy`: the data model. It holds the options, the errors, the
  handler type, the decoded response and the requests, together with
  `buildFirstURL`, `buildNextURL`, `buildFirstRequest` and `buildNextRequest`
  as functions.
- `config.dfy`: the defaulting done by `New`.
- `paging.dfy`: the export as pure functions, with the lemmas about them.
  - `Visit` is the `ArrayEach` callback and `Dispatch` the whole walk over `hits.hits`.
  - `Exchange` is the body of `doRequest`.
  - `Loop` is the loop of `Do`, and `Surface` its sentinel mapping.
- `exporter.dfy`: the `exporter` struct as a class. It has mutable `scrollID`,
  `count` and `total` fields. Two ghost logs record the requests sent and the
  handler calls. `DoRequest` and `Do` are imperative methods, each proved equal
  to its function in `paging.dfy`.

The following behaviour of the code is modelled as written:

- The handler's result is tested through the wrong variable (line 184). So
  `count` is incremented after every handler call, including one that returned
  an error.
- `scrollID` is written before the later checks, and so is `total` before the
  `hits.hits` check. Both change even on a page that then fails.
- jsonparser's getters return the zero value together with their error. So a
  missing `_scroll_id` leaves `scrollID` empty, and a missing `hits.total`
  leaves `total` at 0.
- `buildNextRequest` posts to `buildFirstURL()`, not to `buildNextURL()`
  (line 103). `buildNextURL` is modelled but never used.

The handler is an oracle `(doc, idx, total) -> Option<Error>`, where `None` is
nil. The transport is a finite sequence of responses. Request `k` gets response
`k`, and a request past the end gets `Unreachable`, so `Do` always ends. A
response is already decoded into the four paths: each path is either `Missing`
(jsonparser returned an error) or `Found`. `hits.hits` is `HitsMissing`,
`HitsNonArray` or `HitsArray(elements)`. Each element is `NoSource`,
`NonObjectSource` or `Source(bytes)`.
`ArrayEach`'s own error is discarded (line 170). So for a malformed array `elements` is the prefix of elements `ArrayEach` yielded before it stopped. If it yielded none, the page gives `io.EOF` and `Do` returns nil.

## Model

| member | source | states |
|---|---|---|
| `Config.WithDefaults` | exporter.go:228-237 | An empty Type becomes `"_doc"`, an empty Scroll `"1m"` and a zero Batch 5000. Any non-empty value is kept unchanged, and so are Host, Index and Query. |
| `Config.WithDefaultsSettles` | exporter.go:228-237 | The effective options have no empty Type or Scroll and no zero Batch. Defaulting them a second time changes nothing. |
| `Config.OrNoop` | exporter.go:241-243 | A nil handler becomes one that answers nil to every call. A non-nil handler is used as given. |
| `Protocol.SearchUrl` | exporter.go:67-77 | The first URL is `http` on the configured host, with path `/{index}/{type}/_search` built from the configured index and type, and the single query parameter `scroll` set to the keep-alive. |
| `Protocol.ScrollUrl` | exporter.go:92-99 | The scroll endpoint is `http` on the configured host, with path `/_search/scroll` and no query parameters. |
| `Protocol.FirstRequest` | exporter.go:79-90 | The first request is a POST to the search URL. Its body carries the page size `Batch`, the query and the sort order `["_doc"]`. |
| `Protocol.NextRequest` | exporter.go:101-110 | A continuation is a POST whose body carries the keep-alive and exactly the given scroll id. |
| `Protocol.ContinuationTargetsSearchUrl` | exporter.go:101-106 | A continuation goes to the same URL as the first search. That URL is never the `/_search/scroll` endpoint, whatever the index and type are. |
| `Paging.DispatchInOrder` | exporter.go:167-188 | The walk calls the handler once per element, in array order, with `idx = c, c+1, …` and the page's total. `count` ends at c plus the number of calls. Only the last call can have been answered with an error. A walk that ends without error made one call per element. |
| `Paging.DispatchStops` | exporter.go:170-192 | A walk that fails stops in one of two ways. It may stop at the first element whose `_source` is missing or not an object: that element and all later ones get no call, and every earlier call was answered nil. Or it may stop after the first call the handler answers with an error, and that error is returned. |
| `Paging.DispatchCompletes` | exporter.go:170-193 | The walk ends without error if and only if every element has an object `_source` and the handler answers nil to each call. |
| `Paging.ExchangeRejects` | exporter.go:134-165 | A page stopped before the walk returns an error of the exporter's own. It makes no handler call and leaves `count` unchanged. A failed transport or a non-200 status changes nothing. On a 200 answer `scrollID` is overwritten first, or cleared when `_scroll_id` is absent. A missing or non-zero `_shards.failed` leaves `total` as it was. Past the shard check, `total` is overwritten (or zeroed) even when `hits.hits` is missing or not an array. |
| `Paging.ExchangeAdmitted` | exporter.go:151-200 | A page that passes the checks stores its scroll id and total, and dispatches a prefix of its elements in order from `count`. It returns nil if and only if it is non-empty, every `_source` is an object and every call is answered nil. An empty array gives `io.EOF` with no call. Otherwise the error is either the first bad `_source` (earlier elements stay dispatched and counted) or the handler's error on the last call. |
| `Paging.ExchangeSummary` | exporter.go:134-200 | Whatever the response, `count` advances by the number of calls, and each call's index is the count at that point. A nil result means a clean page and an updated cursor. Any other result is an exporter error, the last call's answer, or `io.EOF` for an empty page. |
| `Paging.LoopIndices` | exporter.go:184-187 | Across all pages, the handler calls carry consecutive indices from the starting count, and `count` ends past the last of them. Every call but the very last was answered nil. |
| `Paging.LoopRequests` | exporter.go:203-226 | `Do` first sends the search request. It sends a further request only after a page that returned nil: every handler call on that page was answered nil, and the page was well formed, non-empty and had an object `_source` in every element. That continuation carries exactly the `_scroll_id` the page returned. It sends at most one request more than there are responses, and running out of responses ends the loop with a transport error. |
| `Paging.LoopEndsOnPage` | exporter.go:209-224 | The loop's final error is exactly the error returned by its last page's exchange, taken from the state the earlier pages left. That page's new state is the final state. With `LoopRequests`, `Do` continues after a page if and only if that page returned nil. |
| `Paging.LoopCallsByPage` | exporter.go:209-224 | The loop's handler calls are those of its pages, page after page: first the pages that returned nil, then the final page. |
| `Paging.LoopStops` | exporter.go:195-224 | If the handler answered the last call with an error, that error ends the loop. An empty final page ends it with `io.EOF`. Apart from those two cases, the loop ends only on an error of the exporter's own. |
| `Paging.ExportSucceeds` | exporter.go:209-224 | `Do` returns nil if and only if the handler's last answer was `ErrUserCancelled` or `io.EOF`, or the final page was empty. |
| `Paging.FreshExportIndices` | exporter.go:244-253 | From a newly built exporter, the handler sees the indices 0, 1, 2, … with no gap or repeat, and `count` ends at the number of calls. |
| `Paging.ThreePageExport` | exporter.go:203-226 | Pages with two, two and zero documents give four calls with indices 0 to 3, each carrying the reported total. Three requests are sent and `Do` returns nil. |
| `EsExporter.Exporter.constructor` | exporter.go:228-254 | `New` stores the defaulted options and the handler (a no-op one when nil). It starts with an empty cursor, a zero count and a zero total. |
| `EsExporter.Exporter.DoRequest` | exporter.go:112-201 | The new cursor, count and total, the handler calls made and the returned error are exactly those given by `Exchange` on the old state. The request is appended to the log of sent requests. |
| `EsExporter.Exporter.Do` | exporter.go:203-226 | The final state, the requests sent and the handler calls are those given by `Loop`. The returned error is nil for the two sentinels, and otherwise the terminating error unchanged. |

## Left out

- HTTP plumbing is not modelled: `buildRequest` (`json.Marshal`, `http.NewRequestWithContext`, headers), `client.Do`, reading the body, and context cancellation. All of these are I/O or library calls. Their failures, and a failed body copy, are folded into the `Unreachable` response (the ghost log of sent requests still records such a request), which has the same effect in the code: the error is returned and nothing has changed.
- The non-200 error keeps the status and the raw body, but not the formatted message text.
- jsonparser (`GetString`, `GetInt`, `Get`, `ArrayEach`) is a library outside this model. Its results are inputs: the decoded `Page`. The library's different error values are each folded into one error kind per path.
- `ArrayEach` passes its callback a nil `err` argument whenever it calls it. So the `err != nil` test on line 184 never fires, and the model has no input for that argument.
- URL query escaping (`url.Values.Encode`) and URL rendering are left out. A URL is a record of scheme, host, path and parameters.
- `int64` widths and the wrap-around of `atomic.AddInt64` are not modelled. `count` and `total` are unbounded integers, since no export comes near 2^63 documents.
- The atomic increment is a plain field update: the export is single-threaded.
- `sync.Pool` buffer reuse and its aliasing are not modelled. The bytes a handler receives are a slice of the pooled response buffer (lines 126-134, 175), which is reset, returned to the pool and refilled by the next page. So a handler's bytes are valid only during its call. In the model a document is an immutable `Bytes` value, which a later page cannot overwrite.
- `DebugLogger` is left out: it only logs.
- Scroll release and batch-size estimation are not part of this model, because `exporter.go` contains neither.
- `exporter_test.go` is not part of this model. It targets a different version of `Options` and needs a live cluster.
