/**
 * The exporter object of exporter.go: `New` builds it, `doRequest`
 * processes one exchange in place, and `Do` runs the paging loop. Each
 * method is proved against the pure functions of module Paging, whose
 * lemmas carry the properties of the export.
 */
module EsExporter {
  import opened Wrappers
  import opened Protocol
  import Config
  import opened Paging

  /** Requests and calls recorded by earlier turns, followed by the rest of
      the loop, can be regrouped turn by turn. */
  lemma ProgressAssociates(sent: seq<Request>, req: seq<Request>, calls: seq<Invocation>, more: seq<Invocation>, next: Run)
    ensures sent + (req + next.sent) == (sent + req) + next.sent
    ensures calls + (more + next.calls) == (calls + more) + next.calls
  {
  }

  class Exporter {
    /** The effective options, fixed by the constructor. */
    const options: Options
    /** The effective handler, fixed by the constructor. */
    const handler: Handler
    /** The cursor returned by the latest page. */
    var scrollID: string
    /** The session-global index of the next document to dispatch. */
    var count: int
    /** The total the latest page reported. */
    var total: int
    /** Every request the export tried to send so far, in order. A request whose
        construction or transport failed is recorded too. */
    ghost var sent: seq<Request>
    /** Every handler call so far, in order. */
    ghost var calls: seq<Invocation>

    /** The mutable state as a value. */
    function State(): Session
      reads this
    {
      Session(scrollID, count, total)
    }

    /** `New`: default the options and the handler, start with an empty cursor
        and a zero counter and total. */
    constructor (opts: Options, h: Option<Handler>)
      ensures options == Config.WithDefaults(opts)
      ensures h.None? ==> forall doc, idx, t :: handler(doc, idx, t) == None
      ensures h.Some? ==> forall doc, idx, t :: handler(doc, idx, t) == h.value(doc, idx, t)
      ensures State() == Session("", 0, 0) && sent == [] && calls == []
    {
      options := Config.WithDefaults(opts);
      handler := Config.OrNoop(h);
      scrollID, count, total := "", 0, 0;
      sent, calls := [], [];
    }

    /** `doRequest`: send `req`, receive `resp`, check the body's paths in
        order and walk `hits.hits`, calling the handler on each `_source`. */
    method DoRequest(req: Request, resp: Response) returns (err: Option<Error>)
      modifies this
      ensures var r := Exchange(old(State()), resp, handler);
        State() == r.after && err == r.err && calls == old(calls) + r.calls
      ensures sent == old(sent) + [req]
    {
      sent := sent + [req];
      if resp.Unreachable? {
        return Some(TransportFailed);
      }
      if resp.status != StatusOK {
        return Some(HttpStatus(resp.status, resp.body));
      }
      var page := resp.page;

      // the cursor is stored before anything else is checked
      scrollID := if page.scrollId.Found? then page.scrollId.value else "";
      if page.scrollId.Missing? {
        return Some(ScrollIdUnreadable);
      }

      if page.shardsFailed.Missing? {
        return Some(ShardsFailedUnreadable);
      }
      if page.shardsFailed.value != 0 {
        return Some(ShardsFailed);
      }

      total := if page.hitsTotal.Found? then page.hitsTotal.value else 0;
      if page.hitsTotal.Missing? {
        return Some(HitsTotalUnreadable);
      }

      if page.hits.HitsMissing? {
        return Some(HitsUnreadable);
      }
      if page.hits.HitsNonArray? {
        return Some(HitsNotArray);
      }

      var elems := page.hits.elems;
      var itErr: Option<Error> := None;
      var itCount := 0;
      ghost var count0, calls0 := count, calls;
      var i := 0;
      while i < |elems|
        invariant 0 <= i <= |elems| && itCount == i
        invariant State() == Session(page.scrollId.value, count, page.hitsTotal.value)
        invariant sent == old(sent) + [req]
        invariant var s := Dispatch(elems[..i], count0, total, handler);
          count == s.count && itErr == s.err && calls == calls0 + s.calls
      {
        assert elems[..i + 1][..i] == elems[..i];
        itCount := itCount + 1;
        if itErr.None? {
          match elems[i]
          case NoSource =>
            itErr := Some(SourceUnreadable);
          case NonObjectSource =>
            itErr := Some(SourceNotObject);
          case Source(doc) =>
            itErr := handler(doc, count, total);
            calls := calls + [Invocation(doc, count, total)];
            // incremented whatever the handler answered
            count := count + 1;
        }
        i := i + 1;
      }
      assert elems[..i] == elems;

      if itErr.Some? {
        return itErr;
      }
      if itCount == 0 {
        return Some(EndOfStream);
      }
      return None;
    }

    /** `Do`: the first search, then continuations on the latest cursor while
        each page returns nil; the sentinels end the export without error.
        `transport` answers the requests in order and fails once exhausted. */
    method Do(transport: seq<Response>) returns (err: Option<Error>)
      modifies this
      ensures var r := Loop(options, old(State()), handler, transport, true);
        && State() == r.after
        && sent == old(sent) + r.sent
        && calls == old(calls) + r.calls
        && err == Surface(r.last)
    {
      ghost var run := Loop(options, State(), handler, transport, true);
      assert transport[0..] == transport;
      LoopUnfolds(options, State(), handler, transport, 0, true);
      var i := 0;
      var req := FirstRequest(options);
      var resp := if i < |transport| then transport[i] else Unreachable;
      ghost var p := Exchange(State(), resp, handler);
      err := DoRequest(req, resp);
      i := i + 1;
      if err.Some? {
        if err.value == UserCancelled || err.value == EndOfStream {
          err := None;
        }
        return;
      }
      ghost var doneSent, doneCalls := [req], p.calls;
      while true
        invariant 1 <= i <= |transport|
        invariant sent == old(sent) + doneSent && calls == old(calls) + doneCalls
        invariant var rest := Loop(options, State(), handler, transport[i..], false);
          run == Run(rest.after, doneSent + rest.sent, doneCalls + rest.calls, rest.last)
        decreases |transport| - i
      {
        LoopUnfolds(options, State(), handler, transport, i, false);
        req := NextRequest(options, scrollID);
        resp := if i < |transport| then transport[i] else Unreachable;
        p := Exchange(State(), resp, handler);
        err := DoRequest(req, resp);
        if err.None? {
          ProgressAssociates(doneSent, [req], doneCalls, p.calls, Loop(options, State(), handler, transport[i + 1..], false));
        }
        doneSent, doneCalls := doneSent + [req], doneCalls + p.calls;
        i := i + 1;
        if err.Some? {
          if err.value == UserCancelled || err.value == EndOfStream {
            err := None;
          }
          return;
        }
      }
    }
  }
}
