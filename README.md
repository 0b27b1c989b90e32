# OTPP project: server core in Dafny

This project models the core of the `project1` market-data server: the
server's command-line parser, its request queue, the mean-reversion signal
and its P&L, and the small JSON-over-TCP RPC layer (method registration, the
per-connection request loop and the client's `disconnect`). Each piece is
stated in Dafny and its behaviour is proved against specification
functions.

Modules:

- `Wrappers`: `Option` and `Result`.
- `PyText`: the pieces of Python's string and integer behaviour the core relies on:
  - `int()` on text: the surrounding white space `int()` skips (which is not all of `str.isspace()`), an optional sign, digits with single underscores between them, and CPython's limit of 4300 digits;
  - `str.upper()` on ASCII letters;
  - `s.split(sep)[0]`;
  - `repr()` of a string, which is also the text of a `KeyError`.
- `ServerArgs`: `_process_args`, as a `while` loop (`ProcessArgs`) proved equal to a recursive specification (`Parse`). Python's exceptions become `Err` values.
- `RequestQueue`: the `Server` class with its `request_queue` list, and a trace semantics of adds and takes proved first-in first-out.
- `Analytics`: `_calc_signal` and `_calc_pnl`:
  - the window length `24 * (60 // n)`;
  - the two `mask` calls and `ffill`, column by column;
  - `signals * prices.diff().shift(-1)`.

  Python's NaN is `None`. The rolling mean and standard deviation are inputs.
- `Rpc`: `RPCServer.registerInstance`, the `__handle__` loop over an abstract sequence of frames, and `RPCClient.connect` / `disconnect`.
  - A frame is `Some(request)` when `json.loads` and the three-way unpacking succeed, and `None` otherwise. `None` covers a closed socket, bad JSON and the wrong shape, which the bare `except` all treat alike.
  - A registered method is a total function from `(args, kwargs)` to an `Outcome`: it returns a value or raises an exception with a message.

Where the code departs from the usual conventions, the model follows the code:

- **P&L timing.** The usual convention books a period's P&L in the row where it is realised, `signal[t-1] * (p[t] - p[t-1])`. The code computes `signal[t] * (p[t+1] - p[t])` (`server.py:49`), one row earlier. `PnlBooksNextRow` proves the exact relation and `TotalPnlAgrees` proves that the totals are equal.
- **Failures and the connection.** The RPC server answers a failed call with the exception text and keeps the connection, but not in every case. A method that returns a value `json.dumps` cannot encode raises inside the `else` branch (`rpc.py:34`). Nothing catches it, so the worker thread ends with no response and without `client.close()`. The model calls this exit `Crashed`.
- **Connection errors.** `connect` only catches `EOFError`, so a refused connection reaches the caller as the socket error itself.

## Model

| member | source | states |
|---|---|---|
| `ServerArgs.ProcessArgs` | project1/server.py:104-128 | The index loop always terminates (every non-raising step moves `i` forwards), and its result or exception is exactly `Parse(args)` |
| `ServerArgs.NoArguments` | project1/server.py:107-108 | An empty argument list gives no tickers and port 8000 |
| `ServerArgs.LaterPortWins` | project1/server.py:113-115 | A run of `--port V` pairs with integer values gives no tickers and the port of the last pair |
| `ServerArgs.AfterPorts` | project1/server.py:112-115 | Leading `--port V` pairs only set the port: parsing continues after them with no tickers and the last value |
| `ServerArgs.InvalidPortRaises` | project1/server.py:113-114 | After leading `--port V` pairs with integer values, a `--port` whose value `int()` rejects raises ValueError, whatever follows |
| `ServerArgs.MissingPortRaises` | project1/server.py:113-114 | After leading `--port V` pairs with integer values, a `--port` that ends the arguments raises IndexError |
| `ServerArgs.UnrecognisedRaises` | project1/server.py:122-123 | After leading `--port V` pairs with integer values, any token other than `--port` or `--tickers` raises ValueError (the source's message is fixed; the token carried by `UnrecognisedArgument` is the model's addition) |
| `ServerArgs.TickersAloneRaises` | project1/server.py:116-118 | `["--tickers"]` alone raises IndexError, because `args[-2]` does not exist |
| `ServerArgs.TickersTakeTheRest` | project1/server.py:116-121 | `--tickers` takes every later argument, upper-cased, when the list does not end in a `--port X` pair; the port is the one set before it |
| `ServerArgs.NoClosingPort` | project1/server.py:118 | With no closing `--port X` pair, `args[-2]` is not `--port`, because a port value never is |
| `ServerArgs.TrailingPortAfterTickers` | project1/server.py:116-121 | A closing `--port X` pair after `--tickers` is not a ticker: it sets the port to `int(X)`, or raises ValueError if X is not an integer |
| `ServerArgs.PortValueIsNotOption` | project1/server.py:114 | A text that `int()` accepts is never the option `--port`, so the loop never steps back |
| `PyText.ParseInt` | project1/server.py:114 | `int(s)`: skips `int()`'s white space, reads an optional sign and a run of ASCII digits with single underscores between them, and refuses more than 4300 digits; None where Python raises ValueError |
| `PyText.ParseDecimalString` | project1/server.py:114 | `int(str(n)) == n` for every integer `n` of at most 4300 digits (beyond that, `str(n)` itself raises) |
| `PyText.SeparatorIsNotIntSpace` | project1/server.py:114 | `int()` refuses a number preceded by one of the separators U+001C to U+001F, although `str.isspace()` counts them as white space |
| `PyText.OptionIsNotInt` | project1/server.py:114 | `int()` rejects any text starting with two hyphens |
| `PyText.StripRightRemovesSpace` | project1/server.py:114 | Stripping the end of a text keeps a prefix and removes only the white space `int()` skips |
| `PyText.DigitsValue` | project1/server.py:114 | The decimal digits of `n` form a digit run whose value is `n`, with no underscore among them |
| `PyText.Upper` | project1/server.py:120 | Upper-casing keeps the length of a ticker |
| `PyText.BeforeFirst` | project1/server.py:36 | `s.split(sep)[0]` is the prefix of `s` up to the first `sep`, and it contains no `sep` |
| `PyText.Repr` | project1/rpc.py:32 | The text of a KeyError starts and ends with the same quote, `'` or `"` |
| `PyText.ReprOfPlain` | project1/rpc.py:32 | For a name of printable ASCII characters (`' '` to `'~'`) other than quotes and backslashes, the KeyError text is the name itself between single quotes, exactly as Python writes it |
| `RequestQueue.Server.constructor` | project1/server.py:19-22 | A new server has an empty queue and the given assets and port |
| `RequestQueue.Server.AddNewRequest` | project1/server.py:81-83 | The request joins the end of the queue; nothing else changes |
| `RequestQueue.Server.IsRequestQueueEmpty` | project1/server.py:85-86 | True exactly when the queue holds no request |
| `RequestQueue.Server.GetRequestToProcess` | project1/server.py:88-90 | On a non-empty queue, returns the oldest request and removes exactly it |
| `RequestQueue.Server.Replay` | project1/server.py:81-90 | Any sequence of add and take calls made through the methods above leaves the queue and returns the requests that `Run` gives |
| `RequestQueue.RunIsFifo` | project1/server.py:81-90 | Over any sequence of adds and takes, the requests taken followed by those waiting are the initial queue followed by the added requests, in order |
| `RequestQueue.RunDefined` | project1/server.py:88-90 | A sequence of adds and takes never pops an empty queue exactly when no prefix takes more than was waiting or added |
| `Analytics.FloorDiv` | project1/server.py:36 | Python's `//`: the quotient rounded towards minus infinity, for either sign of divisor |
| `Analytics.WindowLength` | project1/server.py:36 | The window is defined exactly when the text before the first `m` is a positive integer `n`; it is then a multiple of 24, fits one day (`window * n <= 1440`) and is the largest multiple of 24 that does, so it falls short of a day by less than 24 sampling periods |
| `Analytics.WindowArithmetic` | project1/server.py:36 | `24 * (60 // n)` is non-negative exactly for positive `n`; it then spans at most one day, short of it by exactly `24 * (60 % n)` minutes, which is less than 24 sampling periods and nothing when `n` divides 60 (a `45min` frequency gives 24 rows, six hours short of a day) |
| `Analytics.WindowSpansOneDay` | project1/server.py:36 | When `n` divides 60, the window for `"<n>m..."` is `24 * (60 / n)` rows and covers exactly 1440 minutes |
| `Analytics.FrequencyText` | project1/server.py:36 | The number before the `m` of a frequency written as digits is parsed back to that number |
| `Analytics.DefaultWindow` | project1/server.py:51 | The default frequency `"1min"` gives a window of 1440 rows |
| `Analytics.ForwardFill` | project1/server.py:44 | `ffill` keeps every value, gives a NaN the value of the row above, and leaves a leading NaN as NaN |
| `Analytics.FilledIsLastValue` | project1/server.py:44 | A filled point is defined exactly when some earlier or same point is, and then equals the last defined point at or before it |
| `Analytics.MarkAt` | project1/server.py:42-43 | Before filling, a point below the lower band is -1, else a point above the upper band is +1, else NaN |
| `Analytics.SignalValues` | project1/server.py:40-44 | Every signal is NaN, +1 or -1, never 0 |
| `Analytics.ShortWins` | project1/server.py:42-43 | A point below the lower band is -1 even when it is also above the upper band |
| `Analytics.LongAboveBand` | project1/server.py:42 | A point above the upper band and not below the lower band is +1 |
| `Analytics.QuietPointCarries` | project1/server.py:42-44 | A point that crosses neither band carries the previous row's signal |
| `Analytics.UnsetUntilFirstCrossing` | project1/server.py:40-44 | A signal is NaN exactly when no point up to it has crossed either band |
| `Analytics.UnsetBeforeBands` | project1/server.py:36-44 | Rows where the rolling mean or deviation does not exist yet keep the signal NaN |
| `Analytics.CalcSignal` | project1/server.py:34-46 | The column loop with its two masks and the final `ffill` gives each ticker the signal column of its own prices and bands only |
| `Analytics.PnlAt` | project1/server.py:49 | Row t's P&L is `signal[t] * (price[t+1] - price[t])`; NaN in the last row and where the signal is NaN |
| `Analytics.CalcPnl` | project1/server.py:48-49 | The P&L frame has the shape of the prices, and each ticker's cell in row t is `signal[t] * (price[t+1] - price[t])`, NaN in the last row and where the signal is NaN |
| `Analytics.PnlIsLocal` | project1/server.py:49 | Row t's P&L depends only on `signal[t]`, `price[t]` and `price[t+1]` |
| `Analytics.PnlBooksNextRow` | project1/server.py:49 | The code's P&L column is the textbook per-period P&L moved up one row, with NaN in the last row |
| `Analytics.TotalPnlAgrees` | project1/server.py:49 | The code's P&L column and the textbook column have the same NaN-skipping total |
| `Rpc.RpcServer.constructor` | project1/rpc.py:10-15 | A new server has the given host and port and no registered methods |
| `Rpc.RpcServer.RegisterInstance` | project1/rpc.py:42-49 | The method table becomes `Registered(old table, listed methods)`; host and port are unchanged |
| `Rpc.RegisteredNames` | project1/rpc.py:45-47 | After registration a name is in the table exactly when it was already there or it is a listed method name starting with `client`; nothing is removed |
| `Rpc.RegistrationKeepsOthers` | project1/rpc.py:46-47 | A name not registered again keeps the method it had |
| `Rpc.RegisteredMethod` | project1/rpc.py:46-47 | A listed `client...` name is bound to the last method listed under it |
| `Rpc.RpcServer.Handle` | project1/rpc.py:17-37 | The request loop sends exactly the responses of `Serve` and ends as `Serve` says |
| `Rpc.ServeAnswersInOrder` | project1/rpc.py:19-34 | Responses come one per frame, in order, each the reply to its own request, up to the first undecodable frame (the connection closes) or unencodable return value (the thread dies); without either, every frame is answered |
| `Rpc.ServeStep` | project1/rpc.py:19-34 | An answered frame contributes its response ahead of the responses to the frames after it |
| `Rpc.FirstAnswered` | project1/rpc.py:19-34 | A loop still waiting after a batch of frames answered the first one |
| `Rpc.ServeConcat` | project1/rpc.py:19-34 | Serving two batches of frames one after the other, while the loop still waits, is serving their concatenation |
| `Rpc.ConcatStep` | project1/rpc.py:19-34 | An answered first frame is answered first in the joined batch too |
| `Rpc.UnknownNameAnswered` | project1/rpc.py:28-32 | A request for an unregistered name gets exactly one response, the KeyError text `repr(name)`, and the loop continues |
| `Rpc.RaisingMethodAnswered` | project1/rpc.py:28-32 | A method that raises gets exactly one response, the exception text, and the loop continues |
| `Rpc.ReturningMethodAnswered` | project1/rpc.py:28-34 | A method returning an encodable value gets exactly one response carrying that value, and the loop continues |
| `Rpc.UndecodableFrameEnds` | project1/rpc.py:20-24 | An undecodable frame ends the loop and closes the connection, with no response for it or for any later frame |
| `Rpc.ErrorLooksLikeString` | project1/rpc.py:32-34 | An exception with message m and a method returning the string m produce the same response |
| `Rpc.AfterDisconnect` | project1/rpc.py:81-85 | After `disconnect` the socket is closed, or still absent when `connect` never ran; it is never left open |
| `Rpc.DisconnectIdempotent` | project1/rpc.py:81-85 | A second `disconnect` changes nothing |
| `Rpc.RpcClient.constructor` | project1/rpc.py:69-71 | A new client has no socket yet |
| `Rpc.RpcClient.Connect` | project1/rpc.py:73-79 | Connecting leaves a connected socket, or raises the connection error (named by its class) uncaught and leaves an unconnected socket |
| `Rpc.RpcClient.Disconnect` | project1/rpc.py:81-85 | `disconnect` always completes normally, before `connect`, after a failed one and when already closed; the socket becomes `AfterDisconnect` of what it was |

## Left out

- The network: sockets, `bind`/`listen`/`accept`, the thread per connection, the `KeyboardInterrupt` stop, byte encoding, and `recv` of at most 1024 bytes. A connection is the sequence of frames it delivers. A request that spans two `recv` calls is therefore not modelled.
- `client.sendall` failing, for example when the peer has gone: the thread would end without a response. The model assumes every send succeeds.
- Exceptions outside `Exception`, such as `KeyboardInterrupt` raised inside a method: they would end the thread, and the model has none.
- `Rpc.Serve`: the `print` calls in `__handle__` (`rpc.py:18, 23, 26, 36`) are outside any `try`. A decoded name holding a lone surrogate, such as `"\ud800"`, makes the `print` at line 26 raise UnicodeEncodeError on a UTF-8 standard output, and the thread then ends with no response and without closing the socket. Dafny's `char` cannot hold a lone surrogate, so the model has no such name and always answers a decoded frame or stops at one of its two exits.
- `Rpc.Serve`: registered methods are stateless functions of their arguments, so a method's outcome cannot depend on earlier calls on the same or another connection.
- A request whose `args` is not iterable or whose `kwargs` is not a mapping raises TypeError inside the `try`. That still gets one error response, but the model's `Request` only carries well-formed `args`/`kwargs`, and method names are strings.
- The exact text of exceptions other than KeyError. A method's message is part of its `Outcome`.
- `inspect.getmembers` and the `except` around it in `registerInstance`: the listed `(name, method)` pairs are an input, and the path that turns a reflection failure into an exception is not modelled.
- `RPCClient.__getattr__`, the dynamic proxy that sends a call and reads one reply: it is reflection over the socket.
- `DEFAULT_PORT = port` in `RPCServer.__init__` only binds a local variable and has no effect, so it has no counterpart.
- `RPCServer.run` and `_get_port`: the accept loop is networking, and `_get_port` only reads a field.
- `PyText.ParseInt`: Unicode decimal digits other than ASCII `0`-`9`, which `int()` also accepts, are not modelled.
- `PyText.ParseInt`: the 4300-digit limit is that of Python 3.11 and 3.10.7 on; Python 3.10.0 to 3.10.6 have no limit, and a changed `sys.set_int_max_str_digits` is not modelled.
- `PyText.Upper`: only ASCII letters are mapped, while `str.upper` maps every cased Unicode letter.
- JSON numbers with a fraction or an exponent, and the `NaN` and `Infinity` that `json.dumps` writes by default: `Rpc.Value` has integers only, so a method returning a float, or a request carrying one, is not modelled.
- `PyText.Repr`: non-ASCII characters that Python considers non-printable are not escaped as Python would escape them.
- The rolling mean and sample standard deviation: floating-point numerics with square roots, passed in as inputs. Prices and bands are exact reals, not IEEE doubles.
- `Server.__init__` fetching data, `run_process`, the `melt`/`concat` reshaping and the `print` of the result: pandas glue around a network call.
- `register_client`, `delete_client` and `_help`: stubs that return constants or print.
- `data_grabber.py` and `client.py` are not part of this model. They are vendor HTTP calls and stub methods.
- The commented-out main loop after `Server(...)` is not code and has no counterpart.
