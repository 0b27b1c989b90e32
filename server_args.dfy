/** The server's command-line parser, `_process_args`: `--port N` sets the
    listening port and `--tickers A B ...` takes every remaining argument, upper-cased,
    except a closing `--port N` pair. Python's exceptions become `Err` values. */
module ServerArgs {
  import opened Wrappers
  import opened PyText

  const DEFAULT_PORT: int := 8000

  /** A value `int()` accepts is never the option name `--port`. */
  lemma PortValueIsNotOption(v: string)
    requires ParseInt(v).Some?
    ensures v != "--port"
  {
    if v == "--port" {
      OptionIsNotInt(v);
    }
  }

  /** Why parsing raised. */
  datatype ArgError =
    | MissingPortValue                    // `args[i+1]` past the end: IndexError
    | InvalidPortValue(text: string)      // `int(args[i+1])` failed: ValueError
    | MissingSecondToLast                 // `args[-2]` on a one-element list: IndexError
    | UnrecognisedArgument(token: string) // the explicit ValueError for any other token

  datatype Config = Config(tickers: seq<string>, port: int)

  function UpperAll(ts: seq<string>): (r: seq<string>)
    ensures |r| == |ts|
  {
    seq(|ts|, k requires 0 <= k < |ts| => Upper(ts[k]))
  }

  /** Where the ticker list stops: before a closing `--port X` pair, if
      `args[-2]` is `--port`, else at the end. */
  function TickersEnd(args: seq<string>): nat
    requires |args| >= 2
  {
    if args[|args| - 2] == "--port" then |args| - 2 else |args|
  }

  /** The loop positions from which parsing moves forwards. The one position
      it could jump back from, `--tickers` as the last argument with `--port`
      just before it, is never reached from 0 (see ProcessArgs). */
  predicate Resumable(args: seq<string>, i: int) {
    0 <= i <= |args| && !(|args| >= 2 && i == |args| - 1 && args[|args| - 2] == "--port")
  }

  /** The outcome of the parsing loop started at index `i` with the tickers and
      port gathered so far. */
  function ParseFrom(args: seq<string>, i: nat, tickers: seq<string>, port: int): Result<Config, ArgError>
    requires Resumable(args, i)
    decreases |args| - i
  {
    if i == |args| then Ok(Config(tickers, port))
    else if args[i] == "--port" then
      if i + 1 == |args| then Err(MissingPortValue)
      else match ParseInt(args[i + 1])
        case None => Err(InvalidPortValue(args[i + 1]))
        case Some(n) =>
          PortValueIsNotOption(args[i + 1]);
          ParseFrom(args, i + 2, tickers, n)
    else if args[i] == "--tickers" then
      if |args| < 2 then Err(MissingSecondToLast)
      else
        var end := TickersEnd(args);
        ParseFrom(args, end, tickers + UpperAll(args[i + 1..end]), port)
    else Err(UnrecognisedArgument(args[i]))
  }

  /** What `_process_args(args)` returns or raises. */
  function Parse(args: seq<string>): Result<Config, ArgError> {
    ParseFrom(args, 0, [], DEFAULT_PORT)
  }

  /** `_process_args`: the index-driven loop. Every step that does not raise
      moves `i` strictly forwards (the `decreases` clause), so it terminates. */
  method ProcessArgs(args: seq<string>) returns (r: Result<Config, ArgError>)
    ensures r == Parse(args)
  {
    var supportedTickers: seq<string> := [];
    var port := DEFAULT_PORT;
    var i := 0;
    while i < |args|
      invariant Resumable(args, i)
      invariant ParseFrom(args, i, supportedTickers, port) == Parse(args)
      decreases |args| - i
    {
      if args[i] == "--port" {
        if i + 1 == |args| {
          return Err(MissingPortValue);
        }
        var value := ParseInt(args[i + 1]);
        if value.None? {
          return Err(InvalidPortValue(args[i + 1]));
        }
        PortValueIsNotOption(args[i + 1]);
        port := value.value;
        i := i + 2;
      } else if args[i] == "--tickers" {
        if |args| < 2 {
          return Err(MissingSecondToLast);
        }
        var endIdx := |args|;
        if args[|args| - 2] == "--port" {
          endIdx := endIdx - 2;
        }
        supportedTickers := supportedTickers + UpperAll(args[i + 1..endIdx]);
        i := endIdx;
      } else {
        return Err(UnrecognisedArgument(args[i]));
      }
    }
    return Ok(Config(supportedTickers, port));
  }

  /** The arguments `--port v0 --port v1 ...`. */
  function PortArgs(vs: seq<string>): (r: seq<string>)
    ensures |r| == 2 * |vs|
  {
    if vs == [] then [] else PortArgs(vs[..|vs| - 1]) + ["--port", vs[|vs| - 1]]
  }

  predicate AllPorts(vs: seq<string>) {
    forall k :: 0 <= k < |vs| ==> ParseInt(vs[k]).Some?
  }

  /** The port after `PortArgs(vs)` has been read, starting from `port`. */
  function LastPort(vs: seq<string>, port: int): int
    requires AllPorts(vs)
  {
    if vs == [] then port else ParseInt(vs[|vs| - 1]).value
  }

  lemma {:induction false} PortArgsAt(vs: seq<string>, k: nat)
    requires k < |vs|
    ensures PortArgs(vs)[2 * k] == "--port" && PortArgs(vs)[2 * k + 1] == vs[k]
  {
    if k < |vs| - 1 {
      PortArgsAt(vs[..|vs| - 1], k);
    }
  }

  /** One `--port v` step with an integer `v`. */
  lemma SkipPortPair(args: seq<string>, j: nat, tickers: seq<string>, port: int)
    requires Resumable(args, j) && j + 2 <= |args|
    requires args[j] == "--port" && ParseInt(args[j + 1]).Some?
    ensures Resumable(args, j + 2)
    ensures ParseFrom(args, j, tickers, port) == ParseFrom(args, j + 2, tickers, ParseInt(args[j + 1]).value)
  {
    PortValueIsNotOption(args[j + 1]);
  }

  /** One `--tickers` step: it jumps forwards to `TickersEnd(args)`. */
  lemma TickersStep(args: seq<string>, i: nat, tickers: seq<string>, port: int)
    requires Resumable(args, i) && i < |args| && args[i] == "--tickers" && |args| >= 2
    ensures i < TickersEnd(args) && Resumable(args, TickersEnd(args))
    ensures ParseFrom(args, i, tickers, port) ==
      ParseFrom(args, TickersEnd(args), tickers + UpperAll(args[i + 1..TickersEnd(args)]), port)
  {
  }

  /** `args` holds the pairs `PortArgs(vs)` from index `i` on. */
  predicate PortPairsAt(args: seq<string>, i: nat, vs: seq<string>) {
    && i + 2 * |vs| <= |args|
    && forall k :: 0 <= k < |vs| ==> args[i + 2 * k] == "--port" && args[i + 2 * k + 1] == vs[k]
  }

  lemma PortArgsPrefix(vs: seq<string>, rest: seq<string>)
    ensures PortPairsAt(PortArgs(vs) + rest, 0, vs)
  {
    var args := PortArgs(vs) + rest;
    forall k | 0 <= k < |vs|
      ensures args[2 * k] == "--port" && args[2 * k + 1] == vs[k]
    {
      PortArgsAt(vs, k);
    }
  }

  /** Reading `--port` pairs with integer values from index `i` only moves the
      port to the last value. */
  lemma {:induction false} SkipPortPairs(args: seq<string>, i: nat, vs: seq<string>, tickers: seq<string>, port: int)
    requires Resumable(args, i) && PortPairsAt(args, i, vs) && AllPorts(vs)
    ensures Resumable(args, i + 2 * |vs|)
    ensures ParseFrom(args, i, tickers, port) == ParseFrom(args, i + 2 * |vs|, tickers, LastPort(vs, port))
    decreases |vs|
  {
    if vs != [] {
      var init := vs[..|vs| - 1];
      var j := i + 2 * |init|;
      assert PortPairsAt(args, i, init);
      assert args[j] == "--port" && args[j + 1] == vs[|vs| - 1];
      SkipPortPairs(args, i, init, tickers, port);
      SkipPortPair(args, j, tickers, LastPort(init, port));
      calc {
        ParseFrom(args, i, tickers, port);
        ParseFrom(args, j, tickers, LastPort(init, port));
        ParseFrom(args, j + 2, tickers, ParseInt(args[j + 1]).value);
        { assert j + 2 == i + 2 * |vs|; }
        ParseFrom(args, i + 2 * |vs|, tickers, LastPort(vs, port));
      }
    }
  }

  /** No arguments: no tickers and the default port 8000. */
  lemma NoArguments()
    ensures Parse([]) == Ok(Config([], DEFAULT_PORT))
  {
  }

  /** Parsing `--port` pairs with integer values, then `rest`: the pairs only set the port. */
  lemma AfterPorts(vs: seq<string>, rest: seq<string>)
    requires AllPorts(vs)
    ensures Resumable(PortArgs(vs) + rest, 2 * |vs|)
    ensures Parse(PortArgs(vs) + rest) == ParseFrom(PortArgs(vs) + rest, 2 * |vs|, [], LastPort(vs, DEFAULT_PORT))
  {
    PortArgsPrefix(vs, rest);
    SkipPortPairs(PortArgs(vs) + rest, 0, vs, [], DEFAULT_PORT);
  }

  /** `--port` pairs alone: each value must be an integer, and the last one wins. */
  lemma LaterPortWins(vs: seq<string>)
    requires AllPorts(vs)
    ensures Parse(PortArgs(vs)) == Ok(Config([], LastPort(vs, DEFAULT_PORT)))
  {
    AfterPorts(vs, []);
    assert PortArgs(vs) + [] == PortArgs(vs);
  }

  /** A `--port` whose value is not an integer raises ValueError. */
  lemma InvalidPortRaises(vs: seq<string>, v: string, rest: seq<string>)
    requires AllPorts(vs) && ParseInt(v).None?
    ensures Parse(PortArgs(vs) + ["--port", v] + rest) == Err(InvalidPortValue(v))
  {
    var args := PortArgs(vs) + (["--port", v] + rest);
    assert args == PortArgs(vs) + ["--port", v] + rest;
    AfterPorts(vs, ["--port", v] + rest);
    var i := 2 * |vs|;
    assert args[i] == "--port" && args[i + 1] == v;
    calc {
      Parse(args);
      ParseFrom(args, i, [], LastPort(vs, DEFAULT_PORT));
      Err(InvalidPortValue(v));
    }
  }

  /** A `--port` with nothing after it raises IndexError. */
  lemma MissingPortRaises(vs: seq<string>)
    requires AllPorts(vs)
    ensures Parse(PortArgs(vs) + ["--port"]) == Err(MissingPortValue)
  {
    var args := PortArgs(vs) + ["--port"];
    AfterPorts(vs, ["--port"]);
    var i := 2 * |vs|;
    assert args[i] == "--port" && i + 1 == |args|;
    calc {
      Parse(args);
      ParseFrom(args, i, [], LastPort(vs, DEFAULT_PORT));
      Err(MissingPortValue);
    }
  }

  /** A token other than `--port` and `--tickers` where an option is expected raises ValueError. */
  lemma UnrecognisedRaises(vs: seq<string>, token: string, rest: seq<string>)
    requires AllPorts(vs) && token != "--port" && token != "--tickers"
    ensures Parse(PortArgs(vs) + [token] + rest) == Err(UnrecognisedArgument(token))
  {
    var args := PortArgs(vs) + ([token] + rest);
    assert args == PortArgs(vs) + [token] + rest;
    AfterPorts(vs, [token] + rest);
    var i := 2 * |vs|;
    assert args[i] == token;
    calc {
      Parse(args);
      ParseFrom(args, i, [], LastPort(vs, DEFAULT_PORT));
      Err(UnrecognisedArgument(token));
    }
  }

  /** `--tickers` alone raises IndexError, because `args[-2]` does not exist. */
  lemma TickersAloneRaises()
    ensures Parse(["--tickers"]) == Err(MissingSecondToLast)
  {
  }

  /** `--tickers` takes every later argument, upper-cased, when the arguments do
      not close with a `--port X` pair. */
  lemma TickersTakeTheRest(vs: seq<string>, ts: seq<string>)
    requires AllPorts(vs)
    requires vs != [] || ts != []
    requires !(|ts| >= 2 && ts[|ts| - 2] == "--port")
    ensures Parse(PortArgs(vs) + ["--tickers"] + ts) == Ok(Config(UpperAll(ts), LastPort(vs, DEFAULT_PORT)))
  {
    var args := PortArgs(vs) + (["--tickers"] + ts);
    assert args == PortArgs(vs) + ["--tickers"] + ts;
    AfterPorts(vs, ["--tickers"] + ts);
    var i := 2 * |vs|;
    assert args[i] == "--tickers" && |args| >= 2;
    NoClosingPort(vs, ts);
    TickersStep(args, i, [], LastPort(vs, DEFAULT_PORT));
    assert args[i + 1..|args|] == ts;
    assert [] + UpperAll(ts) == UpperAll(ts);
  }

  lemma NoClosingPort(vs: seq<string>, ts: seq<string>)
    requires AllPorts(vs)
    requires vs != [] || ts != []
    requires !(|ts| >= 2 && ts[|ts| - 2] == "--port")
    ensures var args := PortArgs(vs) + (["--tickers"] + ts); args[|args| - 2] != "--port"
  {
    var args := PortArgs(vs) + (["--tickers"] + ts);
    if ts == [] {
      PortArgsAt(vs, |vs| - 1);
      assert args[|args| - 2] == vs[|vs| - 1];
      PortValueIsNotOption(vs[|vs| - 1]);
    } else if |ts| == 1 {
      assert args[|args| - 2] == "--tickers";
    } else {
      assert args[|args| - 2] == ts[|ts| - 2];
    }
  }

  /** A closing `--port X` pair after `--tickers` is not a ticker: it sets the port. */
  lemma TrailingPortAfterTickers(vs: seq<string>, ts: seq<string>, v: string)
    requires AllPorts(vs)
    ensures Parse(PortArgs(vs) + ["--tickers"] + ts + ["--port", v]) ==
      match ParseInt(v)
      case Some(n) => Ok(Config(UpperAll(ts), n))
      case None => Err(InvalidPortValue(v))
  {
    var args := PortArgs(vs) + (["--tickers"] + ts + ["--port", v]);
    assert args == PortArgs(vs) + ["--tickers"] + ts + ["--port", v];
    AfterPorts(vs, ["--tickers"] + ts + ["--port", v]);
    var i := 2 * |vs|;
    var n := |args|;
    assert args[i] == "--tickers";
    assert args[n - 2] == "--port" && args[n - 1] == v;
    TickersStep(args, i, [], LastPort(vs, DEFAULT_PORT));
    assert args[i + 1..n - 2] == ts;
    assert [] + UpperAll(ts) == UpperAll(ts);
    assert Parse(args) == ParseFrom(args, n - 2, UpperAll(ts), LastPort(vs, DEFAULT_PORT));
    if ParseInt(v).Some? {
      SkipPortPair(args, n - 2, UpperAll(ts), LastPort(vs, DEFAULT_PORT));
    }
  }
}
