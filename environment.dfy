/** The server's view of its environment: opaque client identities, the
    outcomes of socket operations (supplied as oracles), the listener
    callbacks and socket operations it performs (recorded as traces), and the
    specification functions the server's methods are proved against. */
module Environment {

  /** The identity of one accepted `TcpClient`. */
  type ClientId = nat

  /** The outcome of one write to, or close of, a client socket. `IOError` and
      `Disposed` are the two exceptions the server catches; `OtherError` is any
      other exception, which the server does not catch. */
  datatype IoOutcome = Done | IOError | Disposed | OtherError

  /** The outcome of the operation on each client; a client not listed
      succeeds. */
  type Outcomes = map<ClientId, IoOutcome>

  /** The operation on `c` raises an exception the server does not catch. */
  predicate Escapes(outcome: Outcomes, c: ClientId) {
    c in outcome && outcome[c] == OtherError
  }

  /** One turn of a connection's read loop: the `Connected` test fails before
      the read, `ReadLine` returns a line, returns null, or throws. */
  datatype ReadStep = Line(text: string) | EndOfStream | ReadFailed | NotConnected

  /** What one blocking `AcceptTcpClient` call produced: a connection, a
      `SocketException` (which the loop swallows), or any other exception
      (which the loop does not catch, so it ends the accept thread). */
  datatype AcceptResult = Accepted(client: ClientId) | SocketError | AcceptFailed

  /** What the accept loop observes in one turn: its accept call returned, or
      `stop` ran on another thread (closing the listening socket, so that the
      pending accept fails), with the outcome of closing each client. */
  datatype Interleaving =
    | AcceptReturned(result: AcceptResult)
    | StopCalled(closeOutcome: Outcomes)

  /** A callback made on the `ClientListener`. The lifecycle callbacks carry
      the value `isRunning()` returns while they run. */
  datatype Event =
    | ServerStart(running: bool)
    | ServerEnd(running: bool)
    | ClientConnect
    | ClientMessage(text: string, sender: ClientId)

  /** A socket operation the server performs. */
  datatype SocketOp = StopListening | Write(to: ClientId, bytes: string) | Close(target: ClientId)

  /** `List.Remove`: the list without its first occurrence of `c`, if any. */
  function RemoveFirst(s: seq<ClientId>, c: ClientId): (r: seq<ClientId>)
    ensures c !in s ==> r == s
    ensures c in s ==> |r| == |s| - 1
  {
    if s == [] then []
    else if s[0] == c then s[1..]
    else [s[0]] + RemoveFirst(s[1..], c)
  }

  /** Removal takes exactly one `c` out of the registry's contents. */
  lemma {:induction false} RemoveFirstCounts(s: seq<ClientId>, c: ClientId)
    ensures multiset(RemoveFirst(s, c)) == multiset(s) - multiset{c}
  {
    if s != [] {
      assert s == [s[0]] + s[1..];
      if s[0] != c {
        RemoveFirstCounts(s[1..], c);
      }
    }
  }

  /** The position of the first occurrence of `c` in `s`. */
  function FirstIndex(s: seq<ClientId>, c: ClientId): (k: nat)
    requires c in s
    ensures k < |s| && s[k] == c && c !in s[..k]
  {
    if s[0] == c then 0
    else
      assert s == [s[0]] + s[1..];
      var k := FirstIndex(s[1..], c);
      assert s[..k + 1] == [s[0]] + s[1..][..k];
      k + 1
  }

  /** Removal takes out exactly the first occurrence and keeps the order of
      every other entry. */
  lemma {:induction false} RemoveFirstSplits(s: seq<ClientId>, c: ClientId)
    requires c in s
    ensures RemoveFirst(s, c) == s[..FirstIndex(s, c)] + s[FirstIndex(s, c) + 1..]
  {
    if s[0] != c {
      assert s == [s[0]] + s[1..];
      RemoveFirstSplits(s[1..], c);
      var k := FirstIndex(s[1..], c);
      assert s[..k + 1] == [s[0]] + s[1..][..k];
      assert s[k + 2..] == s[1..][k + 1..];
    }
  }

  /** A handler that registered `c` and then removes `c` leaves the registry
      as it found it, when `c` was not registered already. */
  lemma {:induction false} RemoveOwnEntry(s: seq<ClientId>, c: ClientId)
    requires c !in s
    ensures RemoveFirst(s + [c], c) == s
  {
    if s != [] {
      assert (s + [c])[1..] == s[1..] + [c];
      RemoveOwnEntry(s[1..], c);
    }
  }

  /** Registering then removing `c` never changes how often any client
      occurs in the registry, even when `c` was registered twice. */
  lemma RegisterRemoveKeepsCounts(s: seq<ClientId>, c: ClientId, d: ClientId)
    ensures multiset(RemoveFirst(s + [c], c))[d] == multiset(s)[d]
  {
    RemoveFirstCounts(s + [c], c);
    assert multiset(s + [c]) == multiset(s) + multiset{c};
  }

  /** The prefix of `targets` that a `foreach` over them attempts when only
      `OtherError` escapes the loop body: all of them, or the ones up to and
      including the first whose outcome escapes. */
  function Attempted(targets: seq<ClientId>, outcome: Outcomes): (r: seq<ClientId>)
    ensures r <= targets
    ensures forall i :: 0 <= i < |r| - 1 ==> !Escapes(outcome, r[i])
    ensures |r| < |targets| ==> |r| > 0 && Escapes(outcome, r[|r| - 1])
  {
    if targets == [] then []
    else if Escapes(outcome, targets[0]) then [targets[0]]
    else [targets[0]] + Attempted(targets[1..], outcome)
  }

  /** Some target's outcome escapes the loop. */
  predicate SomeEscapes(targets: seq<ClientId>, outcome: Outcomes) {
    exists i :: 0 <= i < |targets| && Escapes(outcome, targets[i])
  }

  /** When every failure is one the loop catches, every target is attempted:
      caught failures on some targets never cost the others their attempt. */
  lemma AllAttempted(targets: seq<ClientId>, outcome: Outcomes)
    requires !SomeEscapes(targets, outcome)
    ensures Attempted(targets, outcome) == targets
  {
    var r := Attempted(targets, outcome);
    if |r| > 0 {
      assert r[|r| - 1] == targets[|r| - 1];
    }
  }

  /** Which targets are attempted depends only on which outcomes escape: an
      `IOError` or `Disposed` on a target has the same effect as success. */
  lemma {:induction false} AttemptedIgnoresCaughtFailures(targets: seq<ClientId>, o1: Outcomes, o2: Outcomes)
    requires forall i :: 0 <= i < |targets| ==> (Escapes(o1, targets[i]) <==> Escapes(o2, targets[i]))
    ensures Attempted(targets, o1) == Attempted(targets, o2)
  {
    if targets != [] && !Escapes(o1, targets[0]) {
      AttemptedIgnoresCaughtFailures(targets[1..], o1, o2);
    }
  }

  /** When an outcome escapes, the loop is left at the first such target:
      the last target attempted is the one whose outcome escaped. */
  lemma {:induction false} StopsAtFirstEscape(targets: seq<ClientId>, outcome: Outcomes)
    requires SomeEscapes(targets, outcome)
    ensures var r := Attempted(targets, outcome); |r| > 0 && Escapes(outcome, r[|r| - 1])
  {
    if !Escapes(outcome, targets[0]) {
      var i :| 0 <= i < |targets| && Escapes(outcome, targets[i]);
      assert targets[1..][i - 1] == targets[i];
      StopsAtFirstEscape(targets[1..], outcome);
    }
  }

  /** A loop that has passed targets `0..k-1` without an escape and escapes
      at target `k` has attempted exactly `targets[..k + 1]`. */
  lemma {:induction false} AttemptedUpTo(targets: seq<ClientId>, outcome: Outcomes, k: nat)
    requires k < |targets|
    requires !SomeEscapes(targets[..k], outcome) && Escapes(outcome, targets[k])
    ensures SomeEscapes(targets, outcome)
    ensures Attempted(targets, outcome) == targets[..k + 1]
  {
    if k > 0 {
      var passed, rest := targets[..k], targets[1..];
      assert targets[0] == passed[0];
      assert rest[..k - 1] == passed[1..];
      assert !SomeEscapes(passed[1..], outcome) by {
        forall j | 0 <= j < k - 1 ensures !Escapes(outcome, passed[1..][j]) {
          assert passed[1..][j] == passed[j + 1];
        }
      }
      AttemptedUpTo(rest, outcome, k - 1);
      assert targets[..k + 1] == [targets[0]] + targets[1..][..k];
    }
  }

  /** One write of `bytes` to each of `clients`, in order. */
  function Writes(clients: seq<ClientId>, bytes: string): seq<SocketOp>
  {
    seq(|clients|, i requires 0 <= i < |clients| => Write(clients[i], bytes))
  }

  /** One close of each of `clients`, in order. */
  function Closes(clients: seq<ClientId>): seq<SocketOp>
  {
    seq(|clients|, i requires 0 <= i < |clients| => Close(clients[i]))
  }

  /** One `onClientMessage` callback per line, in order, all from `sender`. */
  function Messages(lines: seq<string>, sender: ClientId): seq<Event>
  {
    seq(|lines|, i requires 0 <= i < |lines| => ClientMessage(lines[i], sender))
  }

  /** Delivering one more line appends one more callback. */
  lemma MessagesExtend(lines: seq<string>, i: nat, sender: ClientId)
    requires i < |lines|
    ensures Messages(lines[..i + 1], sender) == Messages(lines[..i], sender) + [ClientMessage(lines[i], sender)]
  {
  }

  /** The lines a read loop delivers: those read before the first turn that
      does not produce a line. */
  function Delivered(turns: seq<ReadStep>): (r: seq<string>)
    ensures |r| <= |turns|
    ensures forall i :: 0 <= i < |r| ==> turns[i] == Line(r[i])
    ensures |r| < |turns| ==> !turns[|r|].Line?
  {
    if turns == [] || !turns[0].Line? then []
    else [turns[0].text] + Delivered(turns[1..])
  }

  /** Some turn of the read loop ends it. */
  predicate Ends(turns: seq<ReadStep>) {
    exists i :: 0 <= i < |turns| && !turns[i].Line?
  }

  /** The loop ends within the script exactly when fewer lines are delivered
      than there are turns. */
  lemma EndsIffShort(turns: seq<ReadStep>)
    ensures Ends(turns) <==> |Delivered(turns)| < |turns|
  {
    var r := Delivered(turns);
    if Ends(turns) {
      var i :| 0 <= i < |turns| && !turns[i].Line?;
      assert forall j :: 0 <= j < |r| ==> turns[j].Line?;
      assert |r| <= i;
    }
  }

  /** Nothing read after the turn that ends the loop is delivered. */
  lemma {:induction false} NothingAfterEnd(turns: seq<ReadStep>, later: seq<ReadStep>)
    requires Ends(turns)
    ensures Delivered(turns + later) == Delivered(turns)
  {
    assert (turns + later)[0] == turns[0];
    if turns[0].Line? {
      var i :| 0 <= i < |turns| && !turns[i].Line?;
      assert i > 0;
      assert !turns[1..][i - 1].Line?;
      assert (turns + later)[1..] == turns[1..] + later;
      NothingAfterEnd(turns[1..], later);
    }
  }

  /** The turn leaves the accept loop: `stop` ran, which clears the flag,
      or the accept raised an exception the loop does not catch. */
  predicate Exits(turn: Interleaving) {
    turn.StopCalled? || turn.result.AcceptFailed?
  }

  /** The index of the first turn that leaves the accept loop, or the
      script's length when none does. */
  function ExitIndex(script: seq<Interleaving>): (k: nat)
    ensures k <= |script|
    ensures forall i :: 0 <= i < k ==> !Exits(script[i])
    ensures k < |script| ==> Exits(script[k])
  {
    if |script| == 0 then 0
    else if Exits(script[0]) then 0
    else 1 + ExitIndex(script[1..])
  }

  /** The client an accept call hands to a new handler thread, if any. */
  function Spawns(result: AcceptResult): seq<ClientId>
  {
    if result.Accepted? then [result.client] else []
  }

  /** The clients the accept loop hands to new handler threads: those accepted
      before the first turn that leaves the loop; a swallowed
      `SocketException` is skipped. */
  function AcceptedBefore(script: seq<Interleaving>): (r: seq<ClientId>)
    ensures |r| <= ExitIndex(script)
  {
    if |script| == 0 || Exits(script[0]) then []
    else Spawns(script[0].result) + AcceptedBefore(script[1..])
  }

  /** An accept failure never ends the loop nor changes what is accepted. */
  lemma {:induction false} SocketErrorSkipped(pre: seq<Interleaving>, post: seq<Interleaving>)
    ensures AcceptedBefore(pre + [AcceptReturned(SocketError)] + post) == AcceptedBefore(pre + post)
  {
    if |pre| == 0 {
      assert pre + [AcceptReturned(SocketError)] + post == [AcceptReturned(SocketError)] + post;
      assert ([AcceptReturned(SocketError)] + post)[1..] == post;
      assert pre + post == post;
    } else {
      assert (pre + [AcceptReturned(SocketError)] + post)[0] == pre[0];
      assert (pre + post)[0] == pre[0];
      assert (pre + [AcceptReturned(SocketError)] + post)[1..] == pre[1..] + [AcceptReturned(SocketError)] + post;
      assert (pre + post)[1..] == pre[1..] + post;
      SocketErrorSkipped(pre[1..], post);
    }
  }

  /** Nothing after the first turn that leaves the loop (a `stop`, or an
      accept exception other than `SocketException`) is accepted. */
  lemma {:induction false} NothingAcceptedAfterExit(pre: seq<Interleaving>, turn: Interleaving, post: seq<Interleaving>)
    requires Exits(turn)
    ensures AcceptedBefore(pre + [turn] + post) == AcceptedBefore(pre)
  {
    if |pre| == 0 {
      assert (pre + [turn] + post)[0] == turn;
    } else {
      assert (pre + [turn] + post)[0] == pre[0];
      assert (pre + [turn] + post)[1..] == pre[1..] + [turn] + post;
      NothingAcceptedAfterExit(pre[1..], turn, post);
    }
  }

  /** Every successful accept before the first turn that leaves the loop
      starts a handler, in accept order. */
  lemma {:induction false} AcceptedInOrder(pre: seq<Interleaving>, c: ClientId, post: seq<Interleaving>)
    requires ExitIndex(pre) == |pre|
    ensures AcceptedBefore(pre + [AcceptReturned(Accepted(c))] + post) ==
            AcceptedBefore(pre) + [c] + AcceptedBefore(post)
  {
    if |pre| == 0 {
      assert pre + [AcceptReturned(Accepted(c))] + post == [AcceptReturned(Accepted(c))] + post;
      assert ([AcceptReturned(Accepted(c))] + post)[1..] == post;
    } else {
      assert (pre + [AcceptReturned(Accepted(c))] + post)[0] == pre[0];
      assert (pre + [AcceptReturned(Accepted(c))] + post)[1..] == pre[1..] + [AcceptReturned(Accepted(c))] + post;
      AcceptedInOrder(pre[1..], c, post);
    }
  }
}
