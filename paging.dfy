/**
 * The scroll export as pure functions: what one exchange does to the
 * exporter's state (the part of `doRequest` after the body is read,
 * exporter.go:134-200) and what the paging loop of `Do` does with a
 * sequence of responses (exporter.go:203-226), with the lemmas that say
 * what those functions guarantee.
 */
module Paging {
  import opened Wrappers
  import opened Protocol

  /** The exporter's mutable state: cursor, emission counter, last total. */
  datatype Session = Session(scrollId: string, count: int, total: int)

  /** One call of the handler: the document, its index and the total it saw. */
  datatype Invocation = Invocation(doc: Bytes, idx: int, total: int)

  /** The state of the walk over `hits.hits`: calls so far, the counter, and
      the first error met (the source's `itErr`). */
  datatype Sweep = Sweep(calls: seq<Invocation>, count: int, err: Option<Error>)

  /** The effect of one exchange: new state, handler calls, and the error
      `doRequest` returns (`None` for nil). */
  datatype Step = Step(after: Session, calls: seq<Invocation>, err: Option<Error>)

  /** The effect of a whole paging loop: final state, every request sent,
      every handler call, and the error that ended the loop. */
  datatype Run = Run(after: Session, sent: seq<Request>, calls: seq<Invocation>, last: Error)

  /** What the handler answers to a recorded call. */
  function Answer(h: Handler, c: Invocation): Option<Error>
  {
    h(c.doc, c.idx, c.total)
  }

  /** The error for an element whose `_source` cannot be dispatched. */
  function SourceError(hit: Hit): Error
  {
    if hit.NoSource? then SourceUnreadable else SourceNotObject
  }

  /** The array callback on one element: once an error has been met, later
      elements are skipped; otherwise a bad `_source` is recorded as the error,
      and a good one is handed to the handler, whose answer becomes the error
      and after which the counter is incremented whatever that answer was. */
  function Visit(s: Sweep, hit: Hit, total: int, h: Handler): Sweep
  {
    if s.err.Some? then s
    else match hit
      case NoSource => s.(err := Some(SourceUnreadable))
      case NonObjectSource => s.(err := Some(SourceNotObject))
      case Source(doc) =>
        Sweep(s.calls + [Invocation(doc, s.count, total)], s.count + 1, h(doc, s.count, total))
  }

  /** The whole walk over `hits.hits`, element by element from the first. */
  function Dispatch(hits: seq<Hit>, count: int, total: int, h: Handler): Sweep
    decreases |hits|
  {
    if hits == [] then Sweep([], count, None)
    else Visit(Dispatch(hits[..|hits| - 1], count, total, h), hits[|hits| - 1], total, h)
  }

  /** The calls went to a prefix of the hits, in array order, with consecutive
      indices from `count` and the page's total. */
  predicate Dispatched(hits: seq<Hit>, count: int, total: int, calls: seq<Invocation>)
  {
    |calls| <= |hits| &&
    forall k :: 0 <= k < |calls| ==>
      hits[k] == Source(calls[k].doc) && calls[k].idx == count + k && calls[k].total == total
  }

  /** Every call but possibly the last one was answered nil. */
  predicate ContinuedBeforeLast(calls: seq<Invocation>, h: Handler)
  {
    forall k :: 0 <= k < |calls| - 1 ==> Answer(h, calls[k]).None?
  }

  /** Every call was answered nil. */
  predicate AllContinued(calls: seq<Invocation>, h: Handler)
  {
    forall k :: 0 <= k < |calls| ==> Answer(h, calls[k]).None?
  }

  /** The walk calls the handler on a prefix of the hits, in order, with
      consecutive indices, and counts every call; only its last call may have
      been answered with an error, and a walk without error called the handler
      on every element. */
  lemma {:induction false} DispatchInOrder(hits: seq<Hit>, count: int, total: int, h: Handler)
    ensures var s := Dispatch(hits, count, total, h);
      && Dispatched(hits, count, total, s.calls)
      && s.count == count + |s.calls|
      && ContinuedBeforeLast(s.calls, h)
      && (s.err.None? ==> |s.calls| == |hits| && AllContinued(s.calls, h))
    decreases |hits|
  {
    if hits != [] {
      var n := |hits| - 1;
      var init := hits[..n];
      DispatchInOrder(init, count, total, h);
      var s0 := Dispatch(init, count, total, h);
      var s := Dispatch(hits, count, total, h);
      assert s == Visit(s0, hits[n], total, h);
      assert forall k :: 0 <= k < n ==> init[k] == hits[k];
      if s0.err.None? && hits[n].Source? {
        assert |s0.calls| == n;
        assert s.calls == s0.calls + [Invocation(hits[n].doc, count + n, total)];
      }
    }
  }

  /** The walk stops either at the first element whose `_source` cannot be
      dispatched, which gets no call, after calls all answered nil; or at the
      first call the handler answers with an error, which becomes the walk's
      error. */
  lemma {:induction false} DispatchStops(hits: seq<Hit>, count: int, total: int, h: Handler)
    ensures var s := Dispatch(hits, count, total, h);
      s.err.Some? ==>
        || (&& |s.calls| < |hits|
            && !hits[|s.calls|].Source?
            && s.err == Some(SourceError(hits[|s.calls|]))
            && AllContinued(s.calls, h))
        || (|s.calls| > 0 && s.err == Answer(h, s.calls[|s.calls| - 1]))
    decreases |hits|
  {
    if hits != [] {
      var n := |hits| - 1;
      var init := hits[..n];
      DispatchStops(init, count, total, h);
      DispatchInOrder(init, count, total, h);
      var s0 := Dispatch(init, count, total, h);
      var s := Dispatch(hits, count, total, h);
      assert s == Visit(s0, hits[n], total, h);
      if s0.err.Some? {
        assert s == s0;
        assert |s0.calls| < |init| ==> init[|s0.calls|] == hits[|s0.calls|];
      } else {
        assert |s0.calls| == n;
        match hits[n]
        case NoSource =>
          assert s == s0.(err := Some(SourceUnreadable));
        case NonObjectSource =>
          assert s == s0.(err := Some(SourceNotObject));
        case Source(doc) =>
          assert s.calls == s0.calls + [Invocation(doc, count + n, total)];
          assert s.err == Answer(h, s.calls[n]);
      }
    }
  }

  /** The walk ends without error exactly when every element has an object
      `_source` and the handler answers nil to each of them. */
  lemma DispatchCompletes(hits: seq<Hit>, count: int, total: int, h: Handler)
    ensures Dispatch(hits, count, total, h).err.None? <==>
      forall k :: 0 <= k < |hits| ==> hits[k].Source? && h(hits[k].doc, count + k, total).None?
  {
    var s := Dispatch(hits, count, total, h);
    DispatchInOrder(hits, count, total, h);
    DispatchStops(hits, count, total, h);
    if s.err.None? {
      forall k | 0 <= k < |hits|
        ensures hits[k].Source? && h(hits[k].doc, count + k, total).None?
      {
        assert hits[k] == Source(s.calls[k].doc);
        assert Answer(h, s.calls[k]).None?;
      }
    } else if |s.calls| > 0 && s.err == Answer(h, s.calls[|s.calls| - 1]) {
      var k := |s.calls| - 1;
      assert hits[k] == Source(s.calls[k].doc);
    }
  }

  /** The processing of one exchange (`doRequest`): transport and status
      first, then `_scroll_id` (stored even when later checks fail, and
      cleared when absent), `_shards.failed`, `hits.total` (stored before
      `hits.hits` is checked, and zeroed when absent), `hits.hits`, and the
      walk; an array with no element gives `EndOfStream`. */
  function Exchange(cur: Session, resp: Response, h: Handler): Step
  {
    match resp
    case Unreachable => Step(cur, [], Some(TransportFailed))
    case Answered(status, body, page) =>
      if status != StatusOK then Step(cur, [], Some(HttpStatus(status, body)))
      else match page.scrollId
        case Missing => Step(cur.(scrollId := ""), [], Some(ScrollIdUnreadable))
        case Found(id) =>
          var cur := cur.(scrollId := id);
          match page.shardsFailed
          case Missing => Step(cur, [], Some(ShardsFailedUnreadable))
          case Found(failed) =>
            if failed != 0 then Step(cur, [], Some(ShardsFailed))
            else match page.hitsTotal
              case Missing => Step(cur.(total := 0), [], Some(HitsTotalUnreadable))
              case Found(t) =>
                var cur := cur.(total := t);
                match page.hits
                case HitsMissing => Step(cur, [], Some(HitsUnreadable))
                case HitsNonArray => Step(cur, [], Some(HitsNotArray))
                case HitsArray(elems) =>
                  var s := Dispatch(elems, cur.count, t, h);
                  Step(cur.(count := s.count), s.calls,
                       if s.err.Some? then s.err
                       else if |elems| == 0 then Some(EndOfStream)
                       else None)
  }

  /** The response gets as far as the walk over `hits.hits`. */
  predicate Admitted(resp: Response)
  {
    && resp.Answered?
    && resp.status == StatusOK
    && resp.page.scrollId.Found?
    && resp.page.shardsFailed == Found(0)
    && resp.page.hitsTotal.Found?
    && resp.page.hits.HitsArray?
  }

  /** An admitted response whose `hits.hits` is empty. */
  predicate EmptyPage(resp: Response)
  {
    Admitted(resp) && resp.page.hits.elems == []
  }

  /** An admitted response with at least one element, all with an object
      `_source`. */
  predicate Clean(resp: Response)
  {
    && Admitted(resp)
    && resp.page.hits.elems != []
    && forall k :: 0 <= k < |resp.page.hits.elems| ==> resp.page.hits.elems[k].Source?
  }

  /** A response stopped before the walk is an error of the exporter's own
      with no handler call and an unchanged counter; on a 200 answer the
      cursor is overwritten first, and the total only once the shard check
      has passed. */
  lemma ExchangeRejects(cur: Session, resp: Response, h: Handler)
    requires !Admitted(resp)
    ensures var r := Exchange(cur, resp, h);
      && r.err.Some? && ExporterError(r.err.value)
      && r.calls == []
      && r.after.count == cur.count
      && (!(resp.Answered? && resp.status == StatusOK) ==> r.after == cur)
      && (resp.Answered? && resp.status == StatusOK ==>
            r.after.scrollId == (if resp.page.scrollId.Found? then resp.page.scrollId.value else ""))
      && (resp.Answered? && resp.status == StatusOK && resp.page.scrollId.Found? &&
          resp.page.shardsFailed == Found(0) ==>
            r.after.total == (if resp.page.hitsTotal.Found? then resp.page.hitsTotal.value else 0))
      && (resp.Answered? && resp.status == StatusOK &&
          !(resp.page.scrollId.Found? && resp.page.shardsFailed == Found(0)) ==>
            r.after.total == cur.total)
  {
  }

  /** An admitted response stores its cursor and total, dispatches a prefix
      of its hits in order from the current counter, and returns nil exactly
      when it held elements that were all dispatched and all answered nil. */
  lemma ExchangeAdmitted(cur: Session, resp: Response, h: Handler)
    requires Admitted(resp)
    ensures var r := Exchange(cur, resp, h);
      var elems := resp.page.hits.elems;
      var t := resp.page.hitsTotal.value;
      && r.after.scrollId == resp.page.scrollId.value
      && r.after.total == t
      && Dispatched(elems, cur.count, t, r.calls)
      && r.after.count == cur.count + |r.calls|
      && ContinuedBeforeLast(r.calls, h)
      && (r.err.None? <==>
            elems != [] &&
            forall k :: 0 <= k < |elems| ==> elems[k].Source? && h(elems[k].doc, cur.count + k, t).None?)
      && (r.err.None? ==> |r.calls| == |elems| && AllContinued(r.calls, h))
      && (elems == [] ==> r.err == Some(EndOfStream) && r.calls == [])
      && (r.err.Some? && elems != [] ==>
            || (&& |r.calls| < |elems|
                && !elems[|r.calls|].Source?
                && r.err == Some(SourceError(elems[|r.calls|]))
                && AllContinued(r.calls, h))
            || (|r.calls| > 0 && r.err == Answer(h, r.calls[|r.calls| - 1])))
  {
    var elems := resp.page.hits.elems;
    var t := resp.page.hitsTotal.value;
    var c := cur.count;
    DispatchInOrder(elems, c, t, h);
    DispatchStops(elems, c, t, h);
    DispatchCompletes(elems, c, t, h);
  }

  /** What the paging loop needs of one exchange, whatever the response. */
  lemma ExchangeSummary(cur: Session, resp: Response, h: Handler)
    ensures var r := Exchange(cur, resp, h);
      && r.after.count == cur.count + |r.calls|
      && (forall k :: 0 <= k < |r.calls| ==> r.calls[k].idx == cur.count + k)
      && ContinuedBeforeLast(r.calls, h)
      && (r.err.None? ==>
            Clean(resp) && AllContinued(r.calls, h) && r.after.scrollId == resp.page.scrollId.value)
      && (r.err.Some? ==>
            || ExporterError(r.err.value)
            || (|r.calls| > 0 && r.err == Answer(h, r.calls[|r.calls| - 1]))
            || (r.err == Some(EndOfStream) && EmptyPage(resp) && r.calls == []))
      && (|r.calls| > 0 && Answer(h, r.calls[|r.calls| - 1]).Some? ==>
            r.err == Answer(h, r.calls[|r.calls| - 1]))
      && (EmptyPage(resp) ==> r.err == Some(EndOfStream))
  {
    if Admitted(resp) {
      ExchangeAdmitted(cur, resp, h);
      var r := Exchange(cur, resp, h);
      var elems := resp.page.hits.elems;
      if r.err.None? {
        forall k | 0 <= k < |elems| ensures elems[k].Source? {
          assert elems[k] == Source(r.calls[k].doc);
        }
      }
    } else {
      ExchangeRejects(cur, resp, h);
    }
  }

  /** The paging loop of `Do`: send a request (the first search, then
      continuations carrying the latest cursor), process the answer, and go
      on only while a page returns nil. Running out of responses is a
      transport failure, so the loop always ends. */
  function Loop(o: Options, cur: Session, h: Handler, responses: seq<Response>, first: bool): Run
    decreases |responses|
  {
    var req := if first then FirstRequest(o) else NextRequest(o, cur.scrollId);
    var p := Exchange(cur, if responses == [] then Unreachable else responses[0], h);
    if p.err.Some? then Run(p.after, [req], p.calls, p.err.value)
    else
      var rest := Loop(o, p.after, h, responses[1..], false);
      Run(rest.after, [req] + rest.sent, p.calls + rest.calls, rest.last)
  }

  /** One turn of the loop on the responses from index `i` on: the request
      it sends, then either the page's error ends the loop or the responses
      after `i` carry on from the new state. */
  lemma LoopUnfolds(o: Options, cur: Session, h: Handler, responses: seq<Response>, i: nat, first: bool)
    requires i <= |responses|
    ensures var r := Loop(o, cur, h, responses[i..], first);
      var req := if first then FirstRequest(o) else NextRequest(o, cur.scrollId);
      var p := Exchange(cur, if i < |responses| then responses[i] else Unreachable, h);
      && (p.err.Some? ==> r == Run(p.after, [req], p.calls, p.err.value))
      && (p.err.None? ==>
            && i < |responses|
            && var next := Loop(o, p.after, h, responses[i + 1..], false);
               r == Run(next.after, [req] + next.sent, p.calls + next.calls, next.last))
  {
  }

  /** The error `Do` returns for the error that ended the loop: the two
      sentinels become nil, anything else is returned as it is. */
  function Surface(last: Error): Option<Error>
  {
    if last == UserCancelled || last == EndOfStream then None else Some(last)
  }

  /** Indices are session-global: the loop's calls carry consecutive indices
      from the counter it started with, the counter ends past the last of
      them, and only the very last call may have been answered with an error. */
  lemma {:induction false} LoopIndices(o: Options, cur: Session, h: Handler, responses: seq<Response>, first: bool)
    ensures var r := Loop(o, cur, h, responses, first);
      && r.after.count == cur.count + |r.calls|
      && (forall k :: 0 <= k < |r.calls| ==> r.calls[k].idx == cur.count + k)
      && ContinuedBeforeLast(r.calls, h)
    decreases |responses|
  {
    var resp := if responses == [] then Unreachable else responses[0];
    var p := Exchange(cur, resp, h);
    ExchangeSummary(cur, resp, h);
    if p.err.None? {
      LoopIndices(o, p.after, h, responses[1..], false);
      var rest := Loop(o, p.after, h, responses[1..], false);
      var r := Loop(o, cur, h, responses, first);
      assert r.calls == p.calls + rest.calls;
      forall k | 0 <= k < |r.calls| ensures r.calls[k].idx == cur.count + k {
        if k >= |p.calls| {
          assert r.calls[k] == rest.calls[k - |p.calls|];
        }
      }
      forall k | 0 <= k < |r.calls| - 1 ensures Answer(h, r.calls[k]).None? {
        if k >= |p.calls| {
          assert r.calls[k] == rest.calls[k - |p.calls|];
        }
      }
    }
  }

  /** The state after the first `k` exchanges of the loop, in the loop's order. */
  function Replay(cur: Session, h: Handler, responses: seq<Response>, k: nat): Session
    requires k <= |responses|
    decreases k
  {
    if k == 0 then cur else Replay(Exchange(cur, responses[0], h).after, h, responses[1..], k - 1)
  }

  /** The handler calls of the first `k` exchanges of the loop, page after page. */
  function Played(cur: Session, h: Handler, responses: seq<Response>, k: nat): seq<Invocation>
    requires k <= |responses|
    decreases k
  {
    if k == 0 then []
    else
      var p := Exchange(cur, responses[0], h);
      p.calls + Played(p.after, h, responses[1..], k - 1)
  }

  /** The exchange of the loop's final page, from the state the earlier
      pages left: the `k`th response, or `Unreachable` past the end. */
  function FinalPage(cur: Session, h: Handler, responses: seq<Response>, k: nat): Step
    requires k <= |responses|
  {
    Exchange(Replay(cur, h, responses, k), if k < |responses| then responses[k] else Unreachable, h)
  }

  /** Replaying `m` pages is one exchange on the first response, then `m - 1`
      pages on the rest. */
  lemma ReplayShifts(cur: Session, h: Handler, responses: seq<Response>, m: nat)
    requires 1 <= m <= |responses|
    ensures var next := Exchange(cur, responses[0], h);
      && Replay(cur, h, responses, m) == Replay(next.after, h, responses[1..], m - 1)
      && Played(cur, h, responses, m) == next.calls + Played(next.after, h, responses[1..], m - 1)
      && FinalPage(cur, h, responses, m) == FinalPage(next.after, h, responses[1..], m - 1)
  {
    if m < |responses| {
      assert responses[m] == responses[1..][m - 1];
    }
  }

  /** The loop ends on its final page's own result: the error that exchange
      returned is the loop's error and its new state is the final state.
      Together with LoopRequests, a page that returns nil is never the last one. */
  lemma {:induction false} LoopEndsOnPage(o: Options, cur: Session, h: Handler, responses: seq<Response>, first: bool)
    ensures var r := Loop(o, cur, h, responses, first);
      && 1 <= |r.sent| <= |responses| + 1
      && FinalPage(cur, h, responses, |r.sent| - 1).err == Some(r.last)
      && FinalPage(cur, h, responses, |r.sent| - 1).after == r.after
    decreases |responses|
  {
    var r := Loop(o, cur, h, responses, first);
    var resp := if responses == [] then Unreachable else responses[0];
    var p := Exchange(cur, resp, h);
    if p.err.Some? {
      assert |r.sent| == 1 && r.last == p.err.value && r.after == p.after;
      assert Replay(cur, h, responses, 0) == cur;
    } else {
      assert resp.Answered? && responses != [];
      var tail := responses[1..];
      var rest := Loop(o, p.after, h, tail, false);
      assert r.sent == [r.sent[0]] + rest.sent;
      assert r.last == rest.last && r.after == rest.after;
      LoopEndsOnPage(o, p.after, h, tail, false);
      ReplayShifts(cur, h, responses, |rest.sent|);
    }
  }

  /** The loop's handler calls are those of its pages, page after page: the
      pages that returned nil, then the final one. */
  predicate CallsByPage(o: Options, cur: Session, h: Handler, responses: seq<Response>, first: bool)
  {
    var r := Loop(o, cur, h, responses, first);
    && 1 <= |r.sent| <= |responses| + 1
    && r.calls == Played(cur, h, responses, |r.sent| - 1) + FinalPage(cur, h, responses, |r.sent| - 1).calls
  }

  /** A first page that fails is the final page. */
  lemma CallsByPageStop(o: Options, cur: Session, h: Handler, responses: seq<Response>, first: bool)
    requires Exchange(cur, if 0 < |responses| then responses[0] else Unreachable, h).err.Some?
    ensures CallsByPage(o, cur, h, responses, first)
  {
    assert Replay(cur, h, responses, 0) == cur;
  }

  /** A first page that returns nil puts its calls before those of the rest of the loop. */
  lemma CallsByPageStep(o: Options, cur: Session, h: Handler, responses: seq<Response>, first: bool)
    requires responses != []
    requires Exchange(cur, responses[0], h).err.None?
    requires CallsByPage(o, Exchange(cur, responses[0], h).after, h, responses[1..], false)
    ensures CallsByPage(o, cur, h, responses, first)
  {
    var p := Exchange(cur, responses[0], h);
    var rest := Loop(o, p.after, h, responses[1..], false);
    ReplayShifts(cur, h, responses, |rest.sent|);
  }

  lemma {:induction false} LoopCallsByPage(o: Options, cur: Session, h: Handler, responses: seq<Response>, first: bool)
    ensures var r := Loop(o, cur, h, responses, first);
      && 1 <= |r.sent| <= |responses| + 1
      && r.calls == Played(cur, h, responses, |r.sent| - 1) + FinalPage(cur, h, responses, |r.sent| - 1).calls
    decreases |responses|
  {
    var p := Exchange(cur, if 0 < |responses| then responses[0] else Unreachable, h);
    if p.err.Some? {
      CallsByPageStop(o, cur, h, responses, first);
    } else {
      assert responses != [];
      LoopCallsByPage(o, p.after, h, responses[1..], false);
      CallsByPageStep(o, cur, h, responses, first);
    }
  }



  /** The loop opens with the first search (or a continuation on the current
      cursor), and sends another request only after a clean page, a
      continuation that carries exactly the cursor that page returned. */
  lemma {:induction false} LoopRequests(o: Options, cur: Session, h: Handler, responses: seq<Response>, first: bool)
    ensures var r := Loop(o, cur, h, responses, first);
      && 1 <= |r.sent| <= |responses| + 1
      && r.sent[0] == (if first then FirstRequest(o) else NextRequest(o, cur.scrollId))
      && (forall k :: 0 <= k < |r.sent| - 1 ==>
            && Exchange(Replay(cur, h, responses, k), responses[k], h).err.None?
            && Clean(responses[k])
            && r.sent[k + 1] == NextRequest(o, responses[k].page.scrollId.value))
      && (|r.sent| == |responses| + 1 ==> r.last == TransportFailed)
    decreases |responses|
  {
    var resp := if responses == [] then Unreachable else responses[0];
    var p := Exchange(cur, resp, h);
    ExchangeSummary(cur, resp, h);
    if p.err.None? {
      var tail := responses[1..];
      LoopRequests(o, p.after, h, tail, false);
      var rest := Loop(o, p.after, h, tail, false);
      var r := Loop(o, cur, h, responses, first);
      assert r.sent == [r.sent[0]] + rest.sent;
      forall k | 0 <= k < |r.sent| - 1
        ensures && Exchange(Replay(cur, h, responses, k), responses[k], h).err.None?
                && Clean(responses[k])
                && r.sent[k + 1] == NextRequest(o, responses[k].page.scrollId.value)
      {
        if k > 0 {
          assert responses[k] == tail[k - 1];
          assert Replay(cur, h, responses, k) == Replay(p.after, h, tail, k - 1);
        }
      }
    }
  }

  /** How the loop stops: an error the handler gave on the very last call is
      the error that ends it, an empty final page ends it with `EndOfStream`,
      and apart from those two it only ends on an error of the exporter's own. */
  lemma {:induction false} LoopStops(o: Options, cur: Session, h: Handler, responses: seq<Response>, first: bool)
    ensures var r := Loop(o, cur, h, responses, first);
      var n := |r.sent|;
      && n >= 1
      && (|r.calls| > 0 && Answer(h, r.calls[|r.calls| - 1]).Some? ==>
            Some(r.last) == Answer(h, r.calls[|r.calls| - 1]))
      && (n <= |responses| && EmptyPage(responses[n - 1]) ==> r.last == EndOfStream)
      && (|| ExporterError(r.last)
          || (|r.calls| > 0 && Some(r.last) == Answer(h, r.calls[|r.calls| - 1]))
          || (r.last == EndOfStream && n <= |responses| && EmptyPage(responses[n - 1])))
    decreases |responses|
  {
    var resp := if responses == [] then Unreachable else responses[0];
    var p := Exchange(cur, resp, h);
    ExchangeSummary(cur, resp, h);
    if p.err.None? {
      var tail := responses[1..];
      LoopStops(o, p.after, h, tail, false);
      var rest := Loop(o, p.after, h, tail, false);
      var r := Loop(o, cur, h, responses, first);
      assert r.calls == p.calls + rest.calls;
      assert |r.sent| == 1 + |rest.sent|;
      if |rest.calls| == 0 && |p.calls| > 0 {
        assert r.calls[|r.calls| - 1] == p.calls[|p.calls| - 1];
      } else if |rest.calls| > 0 {
        assert r.calls[|r.calls| - 1] == rest.calls[|rest.calls| - 1];
      }
      if |r.sent| <= |responses| {
        assert responses[|r.sent| - 1] == tail[|rest.sent| - 1];
      }
    }
  }

  /** `Do` returns nil exactly when the handler's last answer was the
      cancellation or the end-of-stream sentinel, or the final page was empty. */
  lemma ExportSucceeds(o: Options, cur: Session, h: Handler, responses: seq<Response>, first: bool)
    ensures var r := Loop(o, cur, h, responses, first);
      var n := |r.sent|;
      Surface(r.last).None? <==>
        || (|r.calls| > 0 && Answer(h, r.calls[|r.calls| - 1]) in {Some(UserCancelled), Some(EndOfStream)})
        || (n <= |responses| && EmptyPage(responses[n - 1]))
  {
    LoopStops(o, cur, h, responses, first);
  }

  /** From a fresh exporter, the handler sees indices 0, 1, 2, ... with no
      gap or repeat, and the counter ends at the number of calls. */
  lemma FreshExportIndices(o: Options, h: Handler, responses: seq<Response>)
    ensures var r := Loop(o, Session("", 0, 0), h, responses, true);
      && r.after.count == |r.calls|
      && forall k :: 0 <= k < |r.calls| ==> r.calls[k].idx == k
  {
    LoopIndices(o, Session("", 0, 0), h, responses, true);
  }

  /** Three pages holding two, two and no documents: four calls with indices
      0 to 3, each with the reported total, three requests, and no error. */
  lemma ThreePageExport(o: Options, a: Bytes, b: Bytes, c: Bytes, d: Bytes)
    ensures var h := (doc: Bytes, idx: int, total: int) => None;
      var page := (docs: seq<Hit>) => Answered(StatusOK, [], Page(Found("cursor"), Found(0), Found(4), HitsArray(docs)));
      var r := Loop(o, Session("", 0, 0), h, [page([Source(a), Source(b)]), page([Source(c), Source(d)]), page([])], true);
      && |r.sent| == 3
      && r.calls == [Invocation(a, 0, 4), Invocation(b, 1, 4), Invocation(c, 2, 4), Invocation(d, 3, 4)]
      && Surface(r.last) == None
  {
    var h := (doc: Bytes, idx: int, total: int) => None;
    var page := (docs: seq<Hit>) => Answered(StatusOK, [], Page(Found("cursor"), Found(0), Found(4), HitsArray(docs)));
    var t := [page([Source(a), Source(b)]), page([Source(c), Source(d)]), page([])];
    var s0 := Session("", 0, 0);
    var p0 := Exchange(s0, t[0], h);
    ExchangeAdmitted(s0, t[0], h);
    assert p0.calls == [Invocation(a, 0, 4), Invocation(b, 1, 4)] && p0.err == None;
    var p1 := Exchange(p0.after, t[1], h);
    ExchangeAdmitted(p0.after, t[1], h);
    assert p1.calls == [Invocation(c, 2, 4), Invocation(d, 3, 4)] && p1.err == None;
    var p2 := Exchange(p1.after, t[2], h);
    assert p2.calls == [] && p2.err == Some(EndOfStream);
    assert t[1..] == [t[1], t[2]] && t[1..][1..] == [t[2]];
    var r2 := Loop(o, p1.after, h, [t[2]], false);
    assert r2.calls == [] && r2.last == EndOfStream && |r2.sent| == 1;
    var r1 := Loop(o, p0.after, h, t[1..], false);
    assert r1.calls == p1.calls && |r1.sent| == 2 && r1.last == EndOfStream;
    var r := Loop(o, s0, h, t, true);
    assert r.calls == p0.calls + r1.calls && |r.sent| == 3 && r.last == EndOfStream;
    assert t[1..][1..] == [t[2]];
  }
}
