/** Client code that drives a `Server` through the situations its users care
    about, using nothing but the server's contracts. */
module Scenarios {
  import opened Outbound
  import opened Environment
  import opened VolumeControl

  /** Every socket operation succeeds. */
  const Healthy: Outcomes := map[]

  /** Client 1's socket is broken: operations on it fail with an `IOException`. */
  const FirstBroken: Outcomes := map[1 := IOError]

  /** Two clients connect; the first sends "vol+"; a broadcast of
      "status:50\n" then reaches both, byte for byte. */
  method TwoClientsExchange() {
    var s := new Server();
    var started := s.BeginListening(true);
    var _ := s.AcceptOnce(Accepted(1));
    var _ := s.AcceptOnce(Accepted(2));
    s.Register(1);
    s.Register(2);
    var more := s.Receive(1, Line("vol+"));
    assert more;
    assert s.notified == [ServerStart(true), ClientConnect, ClientConnect, ClientMessage("vol+", 1)];
    var threw := s.SendData(Str("status:50\n"), Healthy);
    AllAttempted([1, 2], Healthy);
    assert !threw;
    assert s.socketOps == [Write(1, "status:50\n"), Write(2, "status:50\n")];
    assert s.clients == [1, 2];
  }

  /** A write that fails with an `IOException` on one client does not keep
      the broadcast from the other, nor take the failing client out of the
      registry. */
  method BrokenClientTolerated() {
    var s := new Server();
    s.Register(1);
    s.Register(2);
    var threw := s.SendData(Str("mute"), FirstBroken);
    AllAttempted([1, 2], FirstBroken);
    TerminatorAbsorbed("mute");
    assert Normalise(Str("mute")).chars == "mute\n";
    assert Attempted([1, 2], FirstBroken) == [1, 2];
    assert Writes([1, 2], "mute\n") == [Write(1, "mute\n"), Write(2, "mute\n")];
    assert !threw;
    assert s.socketOps == [Write(1, "mute\n"), Write(2, "mute\n")];
    assert s.clients == [1, 2];
  }

  /** Starting and at once stopping, with no client: `onServerStart` and
      `onServerEnd` are each called once, and a second `stop` raises nothing. */
  method StartThenStop() {
    var s := new Server();
    assert ExitIndex([StopCalled(Healthy)]) == 0;
    var crashed := s.ListenForClients(true, [StopCalled(Healthy)]);
    assert !crashed;
    assert s.notified == [ServerStart(true), ServerEnd(false)];
    assert s.socketOps == [StopListening];
    var threw := s.Stop(FirstBroken);
    assert !threw;
    assert !s.IsRunning();
  }

  /** An accept that raises something other than a `SocketException` ends
      the accept thread: the client accepted before it still has its handler,
      the flag stays set, and `onServerEnd` is never called. */
  method AcceptCrash() {
    var s := new Server();
    var script := [AcceptReturned(Accepted(5)), AcceptReturned(SocketError),
                   AcceptReturned(AcceptFailed), StopCalled(Healthy)];
    assert script[1..][1..] == script[2..] && script[2..][0] == script[2];
    assert ExitIndex(script[2..]) == 0 && AcceptedBefore(script[2..]) == [];
    assert ExitIndex(script) == 2 && AcceptedBefore(script) == [5];
    var crashed := s.ListenForClients(true, script);
    assert crashed && s.IsRunning();
    assert s.notified == [ServerStart(true)] && s.spawned == [5];
  }

  /** A client that connects and sends nothing, beside one that stays:
      `onClientConnect` fires for both, no message is delivered, and the
      silent client leaves the registry and is closed. */
  method SilentClientLeaves() returns (s: Server)
    ensures fresh(s)
    ensures s.clients == [4] && s.socketOps == [Close(3)]
    ensures s.notified == [ClientConnect, ClientConnect]
  {
    var turns := [EndOfStream];
    assert !turns[0].Line?;
    assert Ends(turns) && Delivered(turns) == [] && Messages([], 3) == [];
    RemoveOwnEntry([4], 3);
    s := new Server();
    s.Register(4);
    s.HandleClientComm(3, turns);
  }

  /** A broadcast after the silent client has left reaches only the client
      still connected. */
  method BroadcastAfterLeave() {
    TerminatorAbsorbed("vol-");
    assert Normalise(Str("vol-")).chars == "vol-\n";
    assert Writes([4], "vol-\n") == [Write(4, "vol-\n")];
    AllAttempted([4], Healthy);
    var s := SilentClientLeaves();
    var threw := s.SendData(Str("vol-"), Healthy);
    assert !threw;
    assert s.socketOps == [Close(3), Write(4, "vol-\n")];
  }

  /** "ping" and "ping\n" put the same bytes on the wire. */
  method PingTwice() {
    var a := new Server();
    var b := new Server();
    a.Register(7);
    b.Register(7);
    var ta := a.SendData(Str("ping"), Healthy);
    var tb := b.SendData(Str("ping\n"), Healthy);
    TerminatorAbsorbed("ping");
    assert Normalise(Str("ping")) == Normalise(Str("ping\n"));
    assert a.socketOps == b.socketOps;
  }
}
