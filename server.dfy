/** The connection lifecycle and broadcast engine of the volume-control
    server. Each region the source runs under `lock(this)` is one atomic
    step here; sockets are client identities, the outcomes of reads, writes,
    closes and accepts are supplied by the caller, and the listener callbacks
    and socket operations are appended to two traces. */
module VolumeControl {
  import opened Outbound
  import opened Environment

  class Server {
    /** `m_clients`: the registry of connections whose handler is running. */
    var clients: seq<ClientId>
    /** `m_running`. */
    var running: bool
    /** Clients whose handler thread the accept loop has started. */
    var spawned: seq<ClientId>
    /** The callbacks made on the `ClientListener`, in order. */
    var notified: seq<Event>
    /** The socket operations attempted, in order. */
    var socketOps: seq<SocketOp>

    /** A server before its accept thread has run: no clients, not running. */
    constructor ()
      ensures clients == [] && !running && spawned == []
      ensures notified == [] && socketOps == []
    {
      clients, running, spawned := [], false, [];
      notified, socketOps := [], [];
    }

    /** `isRunning()`: the flag the accept loop and the announcer poll. */
    function IsRunning(): bool
      reads this
    {
      running
    }

    /** The copy of the registry `sendData` takes under the lock. */
    method Snapshot() returns (s: seq<ClientId>)
      ensures s == clients
    {
      s := clients;
    }

    /** `sendData(data)`: normalise the text, snapshot the registry, and try
        one write of the same buffer to each snapshot entry in order. The two
        caught exceptions move on to the next client; any other exception
        ends the broadcast and escapes (`threw`). A null text passes the
        snapshot but is refused by the encoder, so nothing is written. The
        registry is never changed. */
    method SendData(data: Text, outcome: Outcomes) returns (threw: bool)
      modifies this`socketOps
      ensures clients == old(clients)
      ensures threw <==> data.Null? || SomeEscapes(old(clients), outcome)
      ensures data.Null? ==> socketOps == old(socketOps)
      ensures data.Str? ==>
        socketOps == old(socketOps) + Writes(Attempted(old(clients), outcome), Normalise(data).chars)
    {
      var finalData := Normalise(data);
      var snapshot := Snapshot();
      if finalData.Null? {
        // ASCIIEncoding.GetBytes(null) throws ArgumentNullException
        return true;
      }
      threw := WriteAll(snapshot, finalData.chars, outcome);
    }

    /** The fan-out of `sendData`: one write of `buffer` to each of
        `targets` in order; an `IOException` or `ObjectDisposedException`
        moves on to the next target, any other exception ends the loop and
        escapes (`threw`). */
    method WriteAll(targets: seq<ClientId>, buffer: string, outcome: Outcomes) returns (threw: bool)
      modifies this`socketOps
      ensures threw <==> SomeEscapes(targets, outcome)
      ensures socketOps == old(socketOps) + Writes(Attempted(targets, outcome), buffer)
    {
      var i := 0;
      while i < |targets|
        invariant i <= |targets|
        invariant !SomeEscapes(targets[..i], outcome)
        invariant socketOps == old(socketOps) + Writes(targets[..i], buffer)
      {
        socketOps := socketOps + [Write(targets[i], buffer)];
        assert Writes(targets[..i + 1], buffer) == Writes(targets[..i], buffer) + [Write(targets[i], buffer)];
        if Escapes(outcome, targets[i]) {
          AttemptedUpTo(targets, outcome, i);
          return true;
        }
        assert targets[..i + 1] == targets[..i] + [targets[i]];
        i := i + 1;
      }
      assert targets[..i] == targets;
      AllAttempted(targets, outcome);
      return false;
    }

    /** `stop()`: clear the running flag, stop the listening socket, and try
        to close every registered client, skipping the two caught
        exceptions. A client closed here stays registered until its own
        handler exits. */
    method Stop(outcome: Outcomes) returns (threw: bool)
      modifies this`running, this`socketOps
      ensures !running && clients == old(clients)
      ensures threw <==> SomeEscapes(old(clients), outcome)
      ensures socketOps == old(socketOps) + [StopListening] + Closes(Attempted(old(clients), outcome))
    {
      running := false;
      socketOps := socketOps + [StopListening];
      threw := CloseAll(outcome);
    }

    /** The close loop of `stop()`: close each registered client in order;
        an `IOException` or `ObjectDisposedException` moves on to the next
        one, any other exception ends the loop and escapes (`threw`). */
    method CloseAll(outcome: Outcomes) returns (threw: bool)
      modifies this`socketOps
      ensures threw <==> SomeEscapes(clients, outcome)
      ensures socketOps == old(socketOps) + Closes(Attempted(clients, outcome))
    {
      var i := 0;
      while i < |clients|
        invariant i <= |clients|
        invariant !SomeEscapes(clients[..i], outcome)
        invariant socketOps == old(socketOps) + Closes(clients[..i])
      {
        socketOps := socketOps + [Close(clients[i])];
        assert Closes(clients[..i + 1]) == Closes(clients[..i]) + [Close(clients[i])];
        if Escapes(outcome, clients[i]) {
          AttemptedUpTo(clients, outcome, i);
          return true;
        }
        assert clients[..i + 1] == clients[..i] + [clients[i]];
        i := i + 1;
      }
      assert clients[..i] == clients;
      AllAttempted(clients, outcome);
      return false;
    }

    /** The start of `ListenForClients`: start the listening socket, set the
        flag, then call `onServerStart`. When the listening socket cannot be
        started the exception ends the accept thread before anything else
        happens (`started` is false). */
    method BeginListening(bindOk: bool) returns (started: bool)
      modifies this`running, this`notified
      ensures started == bindOk
      ensures bindOk ==> running && notified == old(notified) + [ServerStart(true)]
      ensures !bindOk ==> running == old(running) && notified == old(notified)
    {
      if !bindOk {
        return false;
      }
      running := true;
      notified := notified + [ServerStart(IsRunning())];
      return true;
    }

    /** One turn of the accept loop: a connection accepted gets a handler
        thread of its own; a `SocketException` is swallowed; any other
        exception escapes the loop (`threw`). */
    method AcceptOnce(result: AcceptResult) returns (threw: bool)
      modifies this`spawned
      ensures threw <==> result.AcceptFailed?
      ensures spawned == old(spawned) + Spawns(result)
    {
      if result.Accepted? {
        spawned := spawned + [result.client];
      }
      threw := result.AcceptFailed?;
    }

    /** The end of `ListenForClients`: clear the flag, then call `onServerEnd`. */
    method EndListening()
      modifies this`running, this`notified
      ensures !running && notified == old(notified) + [ServerEnd(false)]
    {
      running := false;
      notified := notified + [ServerEnd(IsRunning())];
    }

    /** The accept loop while no `stop` has run: each turn's accept call
        returns, a connection accepted gets a handler thread of its own and a
        `SocketException` is swallowed, and the flag stays set. The loop is
        left at the first turn that leaves it (`i` is its index): a `stop`,
        or an accept exception the loop does not catch; or when the script
        runs out while the loop is still blocked in its accept
        (`i == |script|`). */
    method AcceptLoop(script: seq<Interleaving>) returns (i: nat)
      modifies this`spawned
      ensures i == ExitIndex(script)
      ensures spawned == old(spawned) + AcceptedBefore(script)
    {
      i := 0;
      while i < |script| && script[i].AcceptReturned?
        invariant i <= |script|
        invariant ExitIndex(script) == i + ExitIndex(script[i..])
        invariant spawned + AcceptedBefore(script[i..]) == old(spawned) + AcceptedBefore(script)
      {
        ghost var rest := script[i..];
        assert rest[0] == script[i] && rest[1..] == script[i + 1..];
        var threw := AcceptOnce(script[i].result);
        if threw {
          break;
        }
        i := i + 1;
      }
      ghost var rest := script[i..];
      if i < |script| {
        assert rest[0] == script[i];
      }
      assert ExitIndex(rest) == 0 && AcceptedBefore(rest) == [];
    }

    /** `ListenForClients` run against `script`, the sequence of what its
        blocking accept produces, with the first concurrent `stop` marked.
        Handlers are only started here; they run on their own threads. The
        `stop` clears the flag, so its turn is the loop's last one, and the
        thread ends with `onServerEnd`. An exception that fails to start the
        listening socket, or an accept exception other than
        `SocketException`, ends the thread at once (`threw`), without
        `onServerEnd`. If the script holds neither, the loop is still running
        when it runs out. */
    method ListenForClients(bindOk: bool, script: seq<Interleaving>) returns (threw: bool)
      modifies this`running, this`notified, this`spawned, this`socketOps
      ensures clients == old(clients)
      ensures threw <==>
        !bindOk || (ExitIndex(script) < |script| && script[ExitIndex(script)].AcceptReturned?)
      ensures !bindOk ==>
        running == old(running) && notified == old(notified) &&
        spawned == old(spawned) && socketOps == old(socketOps)
      ensures bindOk ==> spawned == old(spawned) + AcceptedBefore(script)
      ensures bindOk && ExitIndex(script) < |script| && script[ExitIndex(script)].StopCalled? ==>
        !running && notified == old(notified) + [ServerStart(true), ServerEnd(false)] &&
        socketOps == old(socketOps) + [StopListening] +
                     Closes(Attempted(old(clients), script[ExitIndex(script)].closeOutcome))
      ensures bindOk && (ExitIndex(script) == |script| || script[ExitIndex(script)].AcceptReturned?) ==>
        running && notified == old(notified) + [ServerStart(true)] && socketOps == old(socketOps)
    {
      var started := BeginListening(bindOk);
      if !started {
        return true;
      }
      var i := AcceptLoop(script);
      if i == |script| {
        return false;
      }
      if script[i].AcceptReturned? {
        // the exception leaves the thread before the flag is cleared and
        // before `onServerEnd`
        return true;
      }
      // `stop` ran on another thread; the pending accept fails and its
      // `SocketException` is swallowed; the loop then sees the flag cleared
      var _ := Stop(script[i].closeOutcome);
      EndListening();
      return false;
    }

    /** The start of `HandleClientComm`: register the client under the lock,
        then call `onClientConnect`. */
    method Register(c: ClientId)
      modifies this`clients, this`notified
      ensures clients == old(clients) + [c]
      ensures notified == old(notified) + [ClientConnect]
    {
      clients := clients + [c];
      notified := notified + [ClientConnect];
    }

    /** One turn of the read loop: a line read is passed to `onClientMessage`
        and the loop goes on; a null line, a failed read or a lost connection
        ends it. */
    method Receive(c: ClientId, turn: ReadStep) returns (more: bool)
      modifies this`notified
      ensures more <==> turn.Line?
      ensures notified == old(notified) + (if turn.Line? then [ClientMessage(turn.text, c)] else [])
    {
      if turn.Line? {
        notified := notified + [ClientMessage(turn.text, c)];
        return true;
      }
      return false;
    }

    /** The `finally` of `HandleClientComm`: remove one occurrence of the
        client under the lock, then close and dispose its socket. */
    method Deregister(c: ClientId)
      modifies this`clients, this`socketOps
      ensures clients == RemoveFirst(old(clients), c)
      ensures socketOps == old(socketOps) + [Close(c)]
    {
      clients := RemoveFirst(clients, c);
      socketOps := socketOps + [Close(c)];
    }

    /** `HandleClientComm` for client `c` run against `turns`, the outcomes
        of its read loop. Every line before the first turn that is not a line
        is delivered, in order; that turn ends the loop and the client is
        deregistered and closed. If every turn is a line, the handler is
        still waiting in its read when the script runs out. */
    method HandleClientComm(c: ClientId, turns: seq<ReadStep>)
      modifies this`clients, this`notified, this`socketOps
      ensures notified == old(notified) + [ClientConnect] + Messages(Delivered(turns), c)
      ensures Ends(turns) ==>
        clients == RemoveFirst(old(clients) + [c], c) && socketOps == old(socketOps) + [Close(c)]
      ensures !Ends(turns) ==> clients == old(clients) + [c] && socketOps == old(socketOps)
    {
      Register(c);
      ghost var lines := Delivered(turns);
      ghost var base := notified;
      EndsIffShort(turns);
      var i := 0;
      while i < |turns|
        invariant i <= |lines|
        invariant clients == old(clients) + [c] && socketOps == old(socketOps)
        invariant notified == base + Messages(lines[..i], c)
      {
        var more := Receive(c, turns[i]);
        if !more {
          break;
        }
        MessagesExtend(lines, i, c);
        i := i + 1;
      }
      assert lines[..i] == lines;
      if i == |turns| {
        return;
      }
      Deregister(c);
    }
  }
}
