/** The RPC layer of `rpc.py`: the server's table of remotely callable methods,
    its per-connection request loop, and the client's `disconnect`. A socket is
    abstracted as the sequence of frames it delivers, each one decoded (`Some`)
    or undecodable (`None`), and the responses written back as a sequence of
    JSON values. */
module Rpc {
  import opened Wrappers
  import opened PyText

  /** A value as `json.loads` produces it and `json.dumps` writes it, with
      integers as the only numbers (floats are not modelled);
      `Unserialisable` stands for any Python object `json.dumps` rejects. */
  datatype Value =
    | Null
    | Bool(b: bool)
    | Int(i: int)
    | Str(s: string)
    | Array(items: seq<Value>)
    | Object(members: seq<Member>)
    | Unserialisable

  datatype Member = Member(key: string, value: Value)

  /** Whether `json.dumps` accepts the value. */
  predicate Serialisable(v: Value) {
    match v
    case Unserialisable => false
    case Array(items) => forall k :: 0 <= k < |items| ==> Serialisable(items[k])
    case Object(members) => forall k :: 0 <= k < |members| ==> Serialisable(members[k].value)
    case _ => true
  }

  /** A decoded request frame: `(functionName, args, kwargs)`. */
  datatype Request = Request(name: string, args: seq<Value>, kwargs: map<string, Value>)

  /** How a call ends: it returns a value, or raises an exception whose
      `str()` is `message`. */
  datatype Outcome = Returned(value: Value) | Raised(message: string)

  /** A bound method of the registered instance, called as `f(*args, **kwargs)`. */
  type Handler = (seq<Value>, map<string, Value>) -> Outcome

  /** The names `registerInstance` exposes: those starting with "client". */
  predicate IsRemoteName(name: string) {
    "client" <= name
  }

  /** The method table after registering `members`, the `(name, method)` pairs
      `inspect.getmembers` lists, one after the other. */
  function Registered(methods: map<string, Handler>, members: seq<(string, Handler)>): map<string, Handler>
    decreases |members|
  {
    if members == [] then methods
    else
      var table := Registered(methods, members[..|members| - 1]);
      var (name, f) := members[|members| - 1];
      if IsRemoteName(name) then table[name := f] else table
  }

  /** How a request ends: the registered method's outcome, or the KeyError the
      lookup raises for a name that is not registered; `str(KeyError(k))` is
      `repr(k)`. */
  function Call(methods: map<string, Handler>, req: Request): Outcome {
    if req.name in methods then methods[req.name](req.args, req.kwargs)
    else Raised(Repr(req.name))
  }

  /** The value written back for an outcome: the return value, or `str(e)`.
      None when `json.dumps` rejects the return value: that exception is not
      caught and ends the connection's thread. */
  function Reply(outcome: Outcome): Option<Value> {
    match outcome
    case Raised(message) => Some(Str(message))
    case Returned(v) => if Serialisable(v) then Some(v) else None
  }

  /** How a connection's loop ended: an undecodable frame (the socket is then
      closed), an uncaught exception while replying, or still waiting for a frame. */
  datatype Exit = Disconnected | Crashed | Awaiting

  datatype Session = Session(sent: seq<Value>, exit: Exit)

  /** One pass of the loop in `__handle__`: the response to a frame, or how
      the loop ends on it. */
  function Answer(methods: map<string, Handler>, frame: Option<Request>): Result<Value, Exit> {
    match frame
    case None => Err(Disconnected)
    case Some(req) =>
      match Reply(Call(methods, req))
      case None => Err(Crashed)
      case Some(v) => Ok(v)
  }

  /** The worker loop of `__handle__` over the frames one connection delivers:
      one response per frame, in order, until the first frame that ends it. */
  function Serve(methods: map<string, Handler>, frames: seq<Option<Request>>): Session
    decreases |frames|
  {
    if frames == [] then Session([], Awaiting)
    else match Answer(methods, frames[0])
      case Err(exit) => Session([], exit)
      case Ok(v) =>
        var rest := Serve(methods, frames[1..]);
        Session([v] + rest.sent, rest.exit)
  }

  /** What a session consists of: one response per frame, in order, each the
      reply to that frame's request, up to the first frame that is undecodable
      (the connection is closed) or whose reply cannot be serialised (the
      thread dies); with neither, every frame is answered and the loop waits. */
  lemma {:induction false} ServeAnswersInOrder(methods: map<string, Handler>, frames: seq<Option<Request>>)
    ensures var s := Serve(methods, frames);
      && |s.sent| <= |frames|
      && (forall j :: 0 <= j < |s.sent| ==>
            frames[j].Some? && Reply(Call(methods, frames[j].value)) == Some(s.sent[j]))
      && (s.exit == Awaiting <==> |s.sent| == |frames|)
      && (s.exit == Disconnected <==> |s.sent| < |frames| && frames[|s.sent|].None?)
      && (s.exit == Crashed <==>
            |s.sent| < |frames| && frames[|s.sent|].Some? && Reply(Call(methods, frames[|s.sent|].value)).None?)
    decreases |frames|
  {
    if frames != [] && Answer(methods, frames[0]).Ok? {
      ServeAnswersInOrder(methods, frames[1..]);
      ServeStep(methods, frames);
      var s := Serve(methods, frames);
      var rest := Serve(methods, frames[1..]);
      forall j | 1 <= j < |s.sent|
        ensures frames[j].Some? && Reply(Call(methods, frames[j].value)) == Some(s.sent[j])
      {
        ShiftedIndex(frames, j);
        ShiftedIndex(s.sent, j);
      }
      if |s.sent| < |frames| {
        ShiftedIndex(frames, |s.sent|);
      }
    }
  }

  class RpcServer {
    var host: string
    var port: int
    var methods: map<string, Handler>

    constructor (host: string, port: int)
      ensures this.host == host && this.port == port && methods == map[]
    {
      this.host := host;
      this.port := port;
      this.methods := map[];
    }

    /** `registerInstance`: adds every listed method whose name starts with
        "client" to the table. */
    method RegisterInstance(members: seq<(string, Handler)>)
      modifies this
      ensures methods == Registered(old(methods), members)
      ensures host == old(host) && port == old(port)
    {
      for k := 0 to |members|
        invariant methods == Registered(old(methods), members[..k])
        invariant host == old(host) && port == old(port)
      {
        assert members[..k + 1][..k] == members[..k];
        var (name, f) := members[k];
        if IsRemoteName(name) {
          methods := methods[name := f];
        }
      }
      assert members[..|members|] == members;
    }

    /** `__handle__` on one connection: reads frames, answers each, and stops at
        the first undecodable frame or at an exception raised while replying. */
    method Handle(frames: seq<Option<Request>>) returns (sent: seq<Value>, exit: Exit)
      ensures Session(sent, exit) == Serve(methods, frames)
    {
      sent := [];
      var i := 0;
      while i < |frames|
        invariant 0 <= i <= |frames|
        invariant Serve(methods, frames) ==
          Session(sent + Serve(methods, frames[i..]).sent, Serve(methods, frames[i..]).exit)
      {
        assert frames[i..][1..] == frames[i + 1..];
        match frames[i] {
          case None =>
            exit := Disconnected;
            return;
          case Some(req) =>
            var reply := Reply(Call(methods, req));
            if reply.None? {
              exit := Crashed;
              return;
            }
            sent := sent + [reply.value];
        }
        i := i + 1;
      }
      exit := Awaiting;
    }
  }

  /** After registration a name is in the table exactly when it was already
      there or it is a listed method name starting with "client"; nothing is
      removed. */
  lemma {:induction false} RegisteredNames(methods: map<string, Handler>, members: seq<(string, Handler)>, name: string)
    ensures name in Registered(methods, members) <==>
      name in methods || (IsRemoteName(name) && exists k :: 0 <= k < |members| && members[k].0 == name)
    decreases |members|
  {
    if members != [] {
      var init := members[..|members| - 1];
      RegisteredNames(methods, init, name);
      if exists k :: 0 <= k < |members| && members[k].0 == name {
        var k :| 0 <= k < |members| && members[k].0 == name;
        if k < |members| - 1 {
          assert init[k].0 == name;
        }
      }
      if exists k :: 0 <= k < |init| && init[k].0 == name {
        var k :| 0 <= k < |init| && init[k].0 == name;
        assert members[k].0 == name;
      }
    }
  }

  /** A name registration does not list keeps the method it had. */
  lemma {:induction false} RegistrationKeepsOthers(methods: map<string, Handler>, members: seq<(string, Handler)>, name: string)
    requires name in methods
    requires !IsRemoteName(name) || forall k :: 0 <= k < |members| ==> members[k].0 != name
    ensures name in Registered(methods, members) && Registered(methods, members)[name] == methods[name]
    decreases |members|
  {
    if members != [] {
      RegistrationKeepsOthers(methods, members[..|members| - 1], name);
    }
  }

  /** A listed "client" name is bound to the method listed last under it. */
  lemma {:induction false} RegisteredMethod(methods: map<string, Handler>, members: seq<(string, Handler)>, k: nat)
    requires k < |members| && IsRemoteName(members[k].0)
    requires forall j :: k < j < |members| ==> members[j].0 != members[k].0
    ensures members[k].0 in Registered(methods, members)
    ensures Registered(methods, members)[members[k].0] == members[k].1
    decreases |members|
  {
    if k < |members| - 1 {
      RegisteredMethod(methods, members[..|members| - 1], k);
    }
  }

  /** A request for a name that is not registered gets exactly one response,
      the KeyError text, and the loop goes on with the next frame. */
  lemma UnknownNameAnswered(methods: map<string, Handler>, req: Request, rest: seq<Option<Request>>)
    requires req.name !in methods
    ensures Serve(methods, [Some(req)] + rest) ==
      Session([Str(Repr(req.name))] + Serve(methods, rest).sent, Serve(methods, rest).exit)
  {
    assert ([Some(req)] + rest)[1..] == rest;
  }

  /** A method that raises gets exactly one response, the exception text, and
      the loop goes on. */
  lemma RaisingMethodAnswered(methods: map<string, Handler>, req: Request, rest: seq<Option<Request>>, message: string)
    requires req.name in methods && methods[req.name](req.args, req.kwargs) == Raised(message)
    ensures Serve(methods, [Some(req)] + rest) ==
      Session([Str(message)] + Serve(methods, rest).sent, Serve(methods, rest).exit)
  {
    assert ([Some(req)] + rest)[1..] == rest;
  }

  /** A method that returns a JSON value gets exactly one response carrying it,
      and the loop goes on. */
  lemma ReturningMethodAnswered(methods: map<string, Handler>, req: Request, rest: seq<Option<Request>>, v: Value)
    requires req.name in methods && methods[req.name](req.args, req.kwargs) == Returned(v) && Serialisable(v)
    ensures Serve(methods, [Some(req)] + rest) ==
      Session([v] + Serve(methods, rest).sent, Serve(methods, rest).exit)
  {
    assert ([Some(req)] + rest)[1..] == rest;
  }

  /** An undecodable frame ends the loop, and the connection is closed: no
      response for it or for anything after it. */
  lemma UndecodableFrameEnds(methods: map<string, Handler>, frames: seq<Option<Request>>, rest: seq<Option<Request>>)
    requires Serve(methods, frames).exit == Awaiting
    ensures Serve(methods, frames + [None] + rest) == Session(Serve(methods, frames).sent, Disconnected)
  {
    ServeConcat(methods, frames, [None] + rest);
    assert frames + [None] + rest == frames + ([None] + rest);
  }

  /** One step of the loop: a frame that is answered, then the rest. */
  lemma ServeStep(methods: map<string, Handler>, frames: seq<Option<Request>>)
    requires frames != [] && Answer(methods, frames[0]).Ok?
    ensures Serve(methods, frames) == Session(
      [Answer(methods, frames[0]).value] + Serve(methods, frames[1..]).sent,
      Serve(methods, frames[1..]).exit)
  {
  }

  /** A loop still waiting after a non-empty batch answered its first frame. */
  lemma FirstAnswered(methods: map<string, Handler>, frames: seq<Option<Request>>)
    requires frames != [] && Serve(methods, frames).exit == Awaiting
    ensures Answer(methods, frames[0]).Ok?
  {
  }

  /** Serving frames that arrive in two batches is serving the first batch and
      then, if the loop still waits, the second: responses stay in order. */
  lemma {:induction false} ServeConcat(methods: map<string, Handler>, first: seq<Option<Request>>, second: seq<Option<Request>>)
    requires Serve(methods, first).exit == Awaiting
    ensures Serve(methods, first + second) ==
      Session(Serve(methods, first).sent + Serve(methods, second).sent, Serve(methods, second).exit)
    decreases |first|
  {
    if first == [] {
      assert first + second == second;
    } else {
      FirstAnswered(methods, first);
      ServeConcat(methods, first[1..], second);
      ConcatStep(methods, first, second);
    }
  }

  /** The inductive step of `ServeConcat`: an answered first frame is answered
      first in the joined batch too. */
  lemma ConcatStep(methods: map<string, Handler>, first: seq<Option<Request>>, second: seq<Option<Request>>)
    requires first != [] && Answer(methods, first[0]).Ok?
    requires Serve(methods, first[1..] + second) ==
      Session(Serve(methods, first[1..]).sent + Serve(methods, second).sent, Serve(methods, second).exit)
    ensures Serve(methods, first + second) ==
      Session(Serve(methods, first).sent + Serve(methods, second).sent, Serve(methods, second).exit)
  {
    DropFirst(first, second);
    var v := Answer(methods, first[0]).value;
    PrependAssociates(v, Serve(methods, first[1..]).sent, Serve(methods, second).sent);
  }

  lemma ShiftedIndex<T>(a: seq<T>, j: int)
    requires 1 <= j < |a|
    ensures a[j] == a[1..][j - 1]
  {
  }

  lemma DropFirst<T>(a: seq<T>, b: seq<T>)
    requires a != []
    ensures (a + b)[0] == a[0] && (a + b)[1..] == a[1..] + b
  {
  }

  lemma PrependAssociates<T>(x: T, a: seq<T>, b: seq<T>)
    ensures [x] + (a + b) == ([x] + a) + b
  {
  }

  /** An error and a successful call that returns the same text produce the
      same frame: the client cannot tell them apart. */
  lemma ErrorLooksLikeString(message: string)
    ensures Reply(Raised(message)) == Reply(Returned(Str(message)))
  {
  }

  // ---------------------------------------------------------------------------
  // Client

  /** The client's `__sock`: None until `connect`, then a socket that is
      connected, failed to connect, or closed. */
  datatype SocketState = NoSocket | Connected | Unconnected | Closed

  /** How a call ends for its caller: normally or by raising `message`. */
  datatype Completion = Normal | Raises(message: string)

  /** `self.__sock.close()`: AttributeError on None; closing a closed socket
      does nothing. */
  function CloseSocket(sock: SocketState): Result<SocketState, string> {
    if sock == NoSocket then Err("'NoneType' object has no attribute 'close'") else Ok(Closed)
  }

  /** The socket after `disconnect`, which swallows whatever `close()` raises:
      closed, or still None when `connect` never ran. */
  function AfterDisconnect(sock: SocketState): (r: SocketState)
    ensures r != Connected && r != Unconnected
    ensures r == NoSocket <==> sock == NoSocket
  {
    match CloseSocket(sock)
    case Ok(closed) => closed
    case Err(_) => sock
  }

  /** A second `disconnect` changes nothing. */
  lemma DisconnectIdempotent(sock: SocketState)
    ensures AfterDisconnect(AfterDisconnect(sock)) == AfterDisconnect(sock)
  {
  }

  class RpcClient {
    var sock: SocketState
    var host: string
    var port: int

    constructor (host: string, port: int)
      ensures sock == NoSocket && this.host == host && this.port == port
    {
      sock := NoSocket;
      this.host := host;
      this.port := port;
    }

    /** `connect`: creates a socket and connects it; `reachable` stands for
        whether the server accepts. A refused connection raises
        ConnectionRefusedError, which the `except EOFError` does not catch; the
        completion names the exception's class, not its `str()`. Timeouts and
        name lookup failures, which raise other socket errors the same way,
        are not distinguished. */
    method Connect(reachable: bool) returns (c: Completion)
      modifies this
      ensures sock == (if reachable then Connected else Unconnected)
      ensures c == (if reachable then Normal else Raises("ConnectionRefusedError"))
      ensures host == old(host) && port == old(port)
    {
      sock := Unconnected;
      if reachable {
        sock := Connected;
        c := Normal;
      } else {
        c := Raises("ConnectionRefusedError");
      }
    }

    /** `disconnect`: closes the socket and swallows any exception, so it never
        raises, whether or not `connect` ran or succeeded. */
    method Disconnect() returns (c: Completion)
      modifies this
      ensures c == Normal
      ensures sock == AfterDisconnect(old(sock))
      ensures host == old(host) && port == old(port)
    {
      match CloseSocket(sock) {
        case Ok(closed) =>
          sock := closed;
        case Err(_) =>
      }
      c := Normal;
    }
  }
}
