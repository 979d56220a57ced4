# VolumeControl server: connection lifecycle and broadcast

This project models the core of the volume-control server (`VolumeControl/Server.cs`), a TCP server through which remote clients control a desktop's volume. It proves properties of that model. The core covers four things:

- **Connection registry.** A list of the clients whose handler is running.
- **Broadcast (`sendData`).** It normalises the outbound line's terminator, takes a copy of the registry under the lock, and writes the same bytes to every copied client. It tolerates `IOException` and `ObjectDisposedException` on each client.
- **Connection handler (`HandleClientComm`).** It registers its client, passes every line it reads to `onClientMessage`, and always deregisters the client and closes its socket when the read loop ends.
- **Accept loop (`ListenForClients`), with `stop` and `isRunning`.** The running flag, the `onServerStart`/`onServerEnd` callbacks, accept failures swallowed, and `stop` closing every registered client without deregistering any.

How the model works:

- Sockets become client identities (`Environment.ClientId`).
- What the environment decides is supplied as a parameter instead:
  - what each write or close raises (`Outcomes`);
  - what each `ReadLine` returns (a `ReadStep` script);
  - what each blocking accept returns or raises, and when another thread's `stop` runs (an `Interleaving` script).
- The class `VolumeControl.Server` keeps the registry, the running flag and three traces:
  - `spawned`: the handler threads started;
  - `notified`: the callbacks made on the `ClientListener`;
  - `socketOps`: the socket operations attempted, including one whose exception escaped before it took effect.
- Each section the source runs under `lock (this)` is one step of the model.
- Each operation the source runs is a method. Its postcondition ties the new state to the specification functions in `Environment`:
  - `Attempted`: the clients a `foreach` reaches before an uncaught exception;
  - `Delivered`: the lines read before the loop ends;
  - `AcceptedBefore`: the clients accepted before the first turn that leaves the accept loop;
  - `RemoveFirst`: `List.Remove`.
- Lemmas prove what those functions mean.
- The traces are written in a few plain definitions, which state nothing of their own:
  - `Writes(clients, bytes)`: one `Write` of `bytes` per client, in order (`Server.cs:219-222`);
  - `Closes(clients)`: one `Close` per client, in order (`Server.cs:79-95`);
  - `Messages(lines, sender)`: one `ClientMessage(line, sender)` per line, in order (`Server.cs:167`);
  - `Spawns(result)`: the accepted client, or nothing (`Server.cs:111-116`);
  - `Server.IsRunning()`: the running flag (`Server.cs:63-66`).

Behaviour of the code worth knowing:

- `stop` does not take closed clients out of the registry. They stay until their own handler exits (`Server.cs:77-96`).
- A broadcast tolerates only `IOException` and `ObjectDisposedException`. Any other exception from a client ends the broadcast for the clients after it and escapes `sendData` (`Server.cs:224-231`). An example is the `InvalidOperationException` that `GetStream` raises for a client that is no longer connected.
- A null text is not normalised. It then makes the ASCII encoder throw, so `sendData(null)` raises an exception and writes nothing (`Server.cs:200`, `211`).
- The accept loop swallows a `SocketException` silently. Any other exception from the accept leaves the thread before the flag is cleared and before `onServerEnd` (`Server.cs:109-125`).
- The discovery announcement is never retracted on shutdown: the call is commented out (`Server.cs:59`, `74`).
- The constructor starts the accept thread (`Server.cs:28-29`) before it stores the listener (`Server.cs:30`). So `onServerStart` at `Server.cs:104` can dereference a null listener even when one was passed.
- A `stop` that falls between the `while (m_running)` test (`Server.cs:106`) and `AcceptTcpClient` (`Server.cs:111`) makes the accept raise `InvalidOperationException` on the stopped listener. Only `SocketException` is caught, so the thread ends without `onServerEnd`.

Files:

- `outbound.dfy` (module `Outbound`): the nullable outbound text and its newline normalisation.
- `environment.dfy` (module `Environment`): client identities, the outcome and script datatypes, the trace datatypes, and the specification functions with their lemmas.
- `server.dfy` (module `VolumeControl`): the `Server` class.
- `scenarios.dfy` (module `Scenarios`): client code that drives a `Server` through the situations its users care about:
  - two clients and a broadcast;
  - a broken client tolerated;
  - start then stop, then a second stop;
  - an accept exception that ends the accept thread;
  - a silent client leaving;
  - the "ping"/"ping\n" equivalence.

## Model

| member | source | states |
|---|---|---|
| Outbound.Normalise | VolumeControl/Server.cs:199-203 | Null stays null. The only possible change is one appended '\n'. An empty or already terminated text is unchanged. Every non-empty result ends in '\n'. |
| Outbound.NormaliseIdempotent | VolumeControl/Server.cs:199-203 | Normalising an already normalised text changes nothing. |
| Outbound.TerminatorAbsorbed | VolumeControl/Server.cs:199-203 | A non-empty text without a terminator and the same text with '\n' appended normalise to the same characters, that text plus '\n'. So "ping" and "ping\n" go on the wire identically. |
| Outbound.EmptyNotTerminated | VolumeControl/Server.cs:200 | The empty string gets no terminator, so it differs from "\n" after normalisation. |
| Environment.RemoveFirst | VolumeControl/Server.cs:189 | `List.Remove`: a list without `c` is unchanged; otherwise exactly one entry is removed. |
| Environment.RemoveFirstCounts | VolumeControl/Server.cs:189 | Removal takes exactly one `c` out of the registry's multiset of entries. No other client is touched. |
| Environment.FirstIndex | VolumeControl/Server.cs:189 | The position `List.Remove` removes: an occurrence of `c` with no earlier occurrence. |
| Environment.RemoveFirstSplits | VolumeControl/Server.cs:189 | Removal deletes the first occurrence and keeps every other entry, in order. |
| Environment.RemoveOwnEntry | VolumeControl/Server.cs:187-190 | A handler that registered `c` and then removes it leaves the registry exactly as it found it, when `c` was not registered already. |
| Environment.RegisterRemoveKeepsCounts | VolumeControl/Server.cs:187-190 | Registering and then removing `c` never changes how often any client occurs in the registry, even when `c` was already present. |
| Environment.Attempted | VolumeControl/Server.cs:213-232 | The clients a `foreach` whose body catches only `IOException` and `ObjectDisposedException` reaches: a prefix of the targets. No target before the last one raises an uncaught exception, and if the loop stops early, the last one does. |
| Environment.AllAttempted | VolumeControl/Server.cs:213-232 | When no target raises an uncaught exception, every target is attempted. A caught failure never costs another client its attempt. |
| Environment.AttemptedIgnoresCaughtFailures | VolumeControl/Server.cs:224-231 | Which targets are attempted depends only on which outcomes escape. An `IOException` or `ObjectDisposedException` has the same effect as a success. |
| Environment.StopsAtFirstEscape | VolumeControl/Server.cs:213-232 | When some outcome escapes, the last target attempted is one whose outcome escaped. |
| Environment.AttemptedUpTo | VolumeControl/Server.cs:213-232 | A loop that passed targets `0..k-1` and escapes at target `k` has attempted exactly the first `k + 1` targets. |
| Environment.MessagesExtend | VolumeControl/Server.cs:162-168 | Delivering one more line appends exactly one more callback. |
| Environment.Delivered | VolumeControl/Server.cs:146-179 | The lines the read loop delivers are the turns before the first turn that is not a line, in order. The turn after them, if any, is not a line. |
| Environment.EndsIffShort | VolumeControl/Server.cs:146-179 | The read loop ends within the script if and only if fewer lines are delivered than there are turns. |
| Environment.NothingAfterEnd | VolumeControl/Server.cs:158-177 | Nothing read after the turn that ends the loop is delivered. |
| Environment.ExitIndex | VolumeControl/Server.cs:106-122 | The first turn that leaves the accept loop: a `stop`, or an accept exception other than `SocketException`. Every turn before it is an accept that returned a connection or a swallowed `SocketException`. |
| Environment.AcceptedBefore | VolumeControl/Server.cs:106-122 | No more handlers are started than there are turns before the first one that leaves the loop. |
| Environment.SocketErrorSkipped | VolumeControl/Server.cs:118-121 | A swallowed `SocketException` neither ends the loop nor changes which clients are accepted. |
| Environment.NothingAcceptedAfterExit | VolumeControl/Server.cs:106-122 | Nothing after a `stop`, or after an accept exception other than `SocketException`, is accepted. |
| Environment.AcceptedInOrder | VolumeControl/Server.cs:109-117 | Every successful accept before the first turn that leaves the loop starts a handler, in accept order. |
| VolumeControl.Server.constructor | VolumeControl/Server.cs:18-19 | A new server has an empty registry, is not running, and has made no callback and no socket operation. |
| VolumeControl.Server.Snapshot | VolumeControl/Server.cs:205-209 | The copy `sendData` takes equals the registry at that moment. |
| VolumeControl.Server.SendData | VolumeControl/Server.cs:197-233 | Broadcast leaves the registry unchanged. It raises exactly when the text is null or some client's write escapes. A null text writes nothing. Otherwise the normalised text is written once to each client in the snapshot, in order, up to and including the first write that escapes. |
| VolumeControl.Server.WriteAll | VolumeControl/Server.cs:211-232 | The fan-out writes the buffer to the targets `Attempted` names, in order. It raises exactly when some target's write escapes. |
| VolumeControl.Server.Stop | VolumeControl/Server.cs:68-97 | Clears the running flag and leaves the registry unchanged: `stop` closes clients but never deregisters them. It stops listening, then closes the attempted clients in order. It raises exactly when some close escapes. |
| VolumeControl.Server.CloseAll | VolumeControl/Server.cs:77-96 | The close loop closes the clients `Attempted` names, in order. It raises exactly when some close escapes. |
| VolumeControl.Server.BeginListening | VolumeControl/Server.cs:101-104 | On a successful start, the flag is set and then `onServerStart` is called, seeing `isRunning()` true. A failed start changes nothing. |
| VolumeControl.Server.AcceptOnce | VolumeControl/Server.cs:109-121 | An accepted connection gets one handler thread. A `SocketException` is swallowed. Any other accept exception escapes (`threw`), exactly in that case. |
| VolumeControl.Server.AcceptLoop | VolumeControl/Server.cs:106-122 | The loop runs up to the first turn that leaves it (`ExitIndex`). It starts handlers for exactly `AcceptedBefore(script)`, in order. |
| VolumeControl.Server.EndListening | VolumeControl/Server.cs:124-125 | Clears the flag, then calls `onServerEnd` once, seeing `isRunning()` false. |
| VolumeControl.Server.ListenForClients | VolumeControl/Server.cs:99-126 | The thread raises exactly when the start fails or an accept raises something other than `SocketException` before any `stop`. A failed start changes nothing. Otherwise handlers are started for the clients accepted before the loop is left. When a `stop` leaves it, the callbacks are exactly `onServerStart` while running, then `onServerEnd` once while not running, and the sockets see exactly that `stop`'s effect. When an uncaught accept exception leaves it, or the script runs out, the flag stays set and there is no `onServerEnd`. The registry is never touched. |
| VolumeControl.Server.Register | VolumeControl/Server.cs:132-138 | The client is appended to the registry, then `onClientConnect` is called. |
| VolumeControl.Server.Receive | VolumeControl/Server.cs:146-178 | The loop continues exactly when a line was read, and only a line is passed to `onClientMessage`. |
| VolumeControl.Server.Deregister | VolumeControl/Server.cs:185-192 | Removes the first occurrence of the client from the registry, then closes its socket. |
| VolumeControl.Server.HandleClientComm | VolumeControl/Server.cs:128-195 | Calls `onClientConnect`, then passes exactly the delivered lines, in order. When the loop ends (null line, read error, disconnection), one occurrence of the client is removed from the registry and its socket is closed. Otherwise the handler is still registered and reading. |
| Scenarios.SilentClientLeaves | VolumeControl/Server.cs:128-195 | A client that connects and sends nothing leaves a co-registered client alone. It is itself removed and closed, after exactly one `onClientConnect` per client. |

## Left out

- StartMulticastDNS (`Server.cs:43-61`), the discovery announcement loop: it depends on a multicast DNS library and a clock. Its retraction is disabled in the source anyway.
- The constructor's address parsing, listener creation, thread starts and console output (`Server.cs:24-37`) are not modelled. The constructor models only the initial field values. The accept loop is a method the caller runs.
- Threads, `lock` and the races between them:
  - each locked section is one atomic step;
  - `Interleaving` marks where another thread's `stop` falls relative to the accept loop;
  - a `stop` that runs before the accept thread sets the flag is not modelled;
  - the unsynchronised flag reads are not modelled.
- Console output and the `ClientListener` callbacks' own behaviour: callbacks are recorded in `notified`, and an exception raised by a callback is not modelled.
- The null-listener branch (`Server.cs:165-172`): the listener is assumed non-null, since `ListenForClients` calls it before any client can connect (`Server.cs:104`).
- ASCII encoding: characters are written as they are. The replacement of non-ASCII characters by '?' is not modelled.
- Line framing inside `StreamReader.ReadLine`: a `ReadStep` is the value one call returns.
- `GetStream` raising `InvalidOperationException` in the handler (`Server.cs:142`, `181-184`): it ends the handler exactly like a first `NotConnected` turn, so it is not a separate case.
- Exceptions from `TcpListener.Stop`, from `TcpClient.Close`/`Dispose` in the handler's `finally`, and from the encoder on a non-null text.
- A failed `TcpListener.Start` (`bindOk` false) and an uncaught accept exception are modelled as `threw`. Which exception it is, and the thread's death, are not represented otherwise.
- VolumeControl.Server.ListenForClients: when the script runs out without a turn that leaves the loop, the model stops where the source would still be blocked in `AcceptTcpClient`. The same holds for HandleClientComm when the read script runs out.
- VolumeControl.Server.ListenForClients: the handlers it starts do not run within the call. They are only recorded in `spawned`, since no `Interleaving` turn registers one. So its `stop` turn closes only the clients registered before the call, whereas in the source a handler started by this loop has normally registered (`Server.cs:135`) before the `stop` and is closed by it (`Server.cs:79-95`). `Stop` states the close behaviour for any registry.
