/** The server's request queue: `Server.request_queue`, a Python list used as a
    first-in first-out queue by `add_new_request`, `is_request_queue_empty` and
    `get_request_to_process`. */
module RequestQueue {
  import opened Wrappers

  /** A client request; the source's `ServerRequest` carries no data yet. */
  class ServerRequest {
    constructor () {}
  }

  class Server {
    var requestQueue: seq<ServerRequest>
    var supportedAssets: seq<string>
    var port: int

    /** `Server(supported_assets, port)` with an empty queue; the data fetch it
        then starts is not part of this model. */
    constructor (supportedAssets: seq<string>, port: int)
      ensures this.requestQueue == []
      ensures this.supportedAssets == supportedAssets && this.port == port
    {
      this.requestQueue := [];
      this.supportedAssets := supportedAssets;
      this.port := port;
    }

    /** `add_new_request`: appends `req` behind every waiting request. */
    method AddNewRequest(req: ServerRequest)
      modifies this
      ensures requestQueue == old(requestQueue) + [req]
      ensures supportedAssets == old(supportedAssets) && port == old(port)
    {
      requestQueue := requestQueue + [req];
    }

    /** `is_request_queue_empty`. */
    method IsRequestQueueEmpty() returns (empty: bool)
      ensures empty <==> requestQueue == []
    {
      empty := |requestQueue| == 0;
    }

    /** `get_request_to_process`: removes and returns the oldest request. The
        source assumes a non-empty queue (`pop(0)` raises IndexError otherwise). */
    method GetRequestToProcess() returns (req: ServerRequest)
      requires requestQueue != []
      modifies this
      ensures req == old(requestQueue)[0]
      ensures requestQueue == old(requestQueue)[1..]
      ensures supportedAssets == old(supportedAssets) && port == old(port)
    {
      req := requestQueue[0];
      requestQueue := requestQueue[1..];
    }

    /** A caller's sequence of `add_new_request` and `get_request_to_process`
        calls, made through the methods above: the requests taken and the queue
        left are those of `Run`, so `RunIsFifo` holds of this class. */
    method Replay(ops: seq<QueueOp<ServerRequest>>) returns (taken: seq<ServerRequest>)
      requires Run(requestQueue, ops).Some?
      modifies this
      ensures Run(old(requestQueue), ops) == Some((requestQueue, taken))
      ensures supportedAssets == old(supportedAssets) && port == old(port)
    {
      taken := [];
      assert ops[0..] == ops;
      assert [] + Run(requestQueue, ops).value.1 == Run(requestQueue, ops).value.1;
      for i := 0 to |ops|
        invariant Run(requestQueue, ops[i..]).Some?
        invariant Run(old(requestQueue), ops) ==
          Some((Run(requestQueue, ops[i..]).value.0, taken + Run(requestQueue, ops[i..]).value.1))
        invariant supportedAssets == old(supportedAssets) && port == old(port)
      {
        assert ops[i..][1..] == ops[i + 1..];
        var before := requestQueue;
        match ops[i] {
          case Add(req) =>
            AddNewRequest(req);
          case Take =>
            var req := GetRequestToProcess();
            var after := Run(requestQueue, ops[i + 1..]).value;
            assert taken + ([req] + after.1) == (taken + [req]) + after.1;
            taken := taken + [req];
        }
      }
      assert ops[|ops|..] == [];
      assert taken + [] == taken;
    }
  }

  /** A call on the queue: `add_new_request(req)` or `get_request_to_process()`. */
  datatype QueueOp<R> = Add(req: R) | Take

  /** The queue and the requests taken, in order, after running `ops` on a queue
      holding `queue`, with each step as the `Server` methods above state it;
      None when a `Take` meets an empty queue. */
  function Run<R>(queue: seq<R>, ops: seq<QueueOp<R>>): Option<(seq<R>, seq<R>)>
    decreases |ops|
  {
    if ops == [] then Some((queue, []))
    else match ops[0]
      case Add(req) => Run(queue + [req], ops[1..])
      case Take =>
        if queue == [] then None
        else match Run(queue[1..], ops[1..])
          case None => None
          case Some(after) => Some((after.0, [queue[0]] + after.1))
  }

  /** The requests `ops` adds, in order. */
  function Added<R>(ops: seq<QueueOp<R>>): seq<R>
    decreases |ops|
  {
    if ops == [] then []
    else match ops[0]
      case Add(req) => [req] + Added(ops[1..])
      case Take => Added(ops[1..])
  }

  /** The queue is first-in first-out: whatever the interleaving of adds and
      takes, the requests taken followed by those still waiting are exactly the
      requests that were waiting followed by those added, in the same order. */
  lemma {:induction false} RunIsFifo<R>(queue: seq<R>, ops: seq<QueueOp<R>>)
    requires Run(queue, ops).Some?
    ensures Run(queue, ops).value.1 + Run(queue, ops).value.0 == queue + Added(ops)
    decreases |ops|
  {
    if ops != [] {
      match ops[0]
      case Add(req) =>
        RunIsFifo(queue + [req], ops[1..]);
      case Take =>
        RunIsFifo(queue[1..], ops[1..]);
        var after := Run(queue[1..], ops[1..]).value;
        calc {
          Run(queue, ops).value.1 + Run(queue, ops).value.0;
          ([queue[0]] + after.1) + after.0;
          [queue[0]] + (after.1 + after.0);
          [queue[0]] + (queue[1..] + Added(ops[1..]));
          { assert queue == [queue[0]] + queue[1..]; }
          queue + Added(ops);
        }
    }
  }

  /** The number of takes in `ops`. */
  function Takes<R>(ops: seq<QueueOp<R>>): nat
    decreases |ops|
  {
    if ops == [] then 0 else (if ops[0].Take? then 1 else 0) + Takes(ops[1..])
  }

  /** No prefix of `ops` takes more requests than were waiting or added by then. */
  predicate NeverOverdrawn<R>(queue: seq<R>, ops: seq<QueueOp<R>>) {
    forall k :: 0 <= k <= |ops| ==> Takes(ops[..k]) <= |queue| + |Added(ops[..k])|
  }

  lemma PrefixCounts<R>(ops: seq<QueueOp<R>>, k: nat)
    requires 0 < k <= |ops|
    ensures Takes(ops[..k]) == (if ops[0].Take? then 1 else 0) + Takes(ops[1..][..k - 1])
    ensures |Added(ops[..k])| == (if ops[0].Add? then 1 else 0) + |Added(ops[1..][..k - 1])|
  {
    assert ops[..k][1..] == ops[1..][..k - 1];
  }

  /** `get_request_to_process` is only ever called on a non-empty queue exactly
      when no prefix of the calls takes more requests than were supplied. */
  lemma {:induction false} RunDefined<R>(queue: seq<R>, ops: seq<QueueOp<R>>)
    ensures Run(queue, ops).Some? <==> NeverOverdrawn(queue, ops)
    decreases |ops|
  {
    if ops != [] {
      var rest := ops[1..];
      if ops[0].Take? && queue == [] {
        PrefixCounts(ops, 1);
        assert rest[..0] == [];
      } else {
        var next := if ops[0].Add? then queue + [ops[0].req] else queue[1..];
        RunDefined(next, rest);
        assert Run(queue, ops).Some? <==> Run(next, rest).Some?;
        if NeverOverdrawn(queue, ops) {
          forall j | 0 <= j <= |rest|
            ensures Takes(rest[..j]) <= |next| + |Added(rest[..j])|
          {
            PrefixCounts(ops, j + 1);
          }
        }
        if NeverOverdrawn(next, rest) {
          forall k | 0 <= k <= |ops|
            ensures Takes(ops[..k]) <= |queue| + |Added(ops[..k])|
          {
            if k > 0 {
              PrefixCounts(ops, k);
            }
          }
        }
      }
    }
  }
}
