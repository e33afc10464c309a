/** The two programs of the TCP echo test as they run: the client's callbacks on its fields and
    receive buffer, the global `terminate`, and the host's receive-and-echo loop. */
module TcpEchoCode {
  import Sal
  import opened TcpEcho

  class TcpEchoClient {
    var done: bool
    var disconnected: bool
    var unacked: nat
    var verdicts: seq<bool>
    var mismatches: nat
    var outgoing: string
    const buffer: array<char>

    constructor (unacked: nat)
      ensures Valid() && State() == Start(unacked).client && outgoing == "" && fresh(buffer)
    {
      done, disconnected, this.unacked := false, true, unacked;
      verdicts, mismatches, outgoing := [], 0, "";
      buffer := new char[CLIENT_BUFFER](_ => '\0');
    }

    predicate Valid() {
      buffer.Length == CLIENT_BUFFER
    }

    ghost function State(): Client
      reads this
    {
      Client(done, disconnected, unacked, verdicts, mismatches)
    }

    method HandleConnect()
      modifies this
      ensures State() == OnConnect(old(State())) && outgoing == old(outgoing) + HELLO
    {
      disconnected := false;
      unacked := |HELLO|;
      outgoing := outgoing + HELLO;
    }

    /** The stack's recv: copies the pending bytes to the front of the buffer. */
    method Receive(data: string) returns (n: nat)
      requires Valid() && |data| < CLIENT_BUFFER
      modifies buffer
      ensures n == |data| && buffer[..n] == data
      ensures forall i :: n <= i < CLIENT_BUFFER ==> buffer[i] == old(buffer[i])
    {
      n := 0;
      while n < |data|
        invariant n <= |data|
        invariant buffer[..n] == data[..n]
        invariant forall i :: n <= i < CLIENT_BUFFER ==> buffer[i] == old(buffer[i])
      {
        buffer[n] := data[n];
        n := n + 1;
      }
    }

    /** The readable callback: the bytes are terminated inside the buffer, and the answer goes out
        exactly for the first non-empty read. */
    method HandleRx(data: string)
      requires Valid() && |data| < CLIENT_BUFFER
      modifies this, buffer
      ensures State() == OnRx(old(State()), data)
      ensures outgoing == old(outgoing) + if !old(done) && |data| > 0 then SUCCESS else ""
      ensures buffer[..|data|] == data && buffer[|data|] == '\0'
    {
      var n := Receive(data);
      buffer[n] := '\0';
      if !done && n > 0 {
        if !EqualStringLen(HELLO, buffer[..n], 0, n) {
          mismatches := mismatches + 1;
        }
        unacked := UnsignedAdd(unacked, |SUCCESS|);
        outgoing := outgoing + SUCCESS;
        done := true;
      }
      if !done {
        verdicts := verdicts + [false];
      }
    }

    method HandleSent(n: nat)
      modifies this
      ensures State() == OnSent(old(State()), n) && outgoing == old(outgoing)
    {
      unacked := UnsignedSub(unacked, n);
      if done && unacked == 0 {
        verdicts := verdicts + [true];
      }
    }

    method HandleError()
      modifies this
      ensures State() == OnError(old(State())) && outgoing == old(outgoing)
    {
      done := true;
      verdicts := verdicts + [false];
    }

    method HandleDisconnect()
      modifies this
      ensures State() == OnDisconnect(old(State())) && outgoing == old(outgoing)
    {
      disconnected := true;
    }
  }

  // ------------------------------------------------------------------------ terminate

  /** The global client pointer and the results reported to the test harness. */
  class Harness {
    var clientAlive: bool
    var reported: seq<bool>

    constructor ()
      ensures clientAlive && reported == []
    {
      clientAlive, reported := true, [];
    }

    method Terminate(status: bool)
      modifies this
      ensures (clientAlive, reported) == TerminateAll(old(clientAlive), old(reported), [status])
    {
      if clientAlive {
        clientAlive := false;
        reported := reported + [status];
      }
    }
  }

  /** The effect of running terminate for each posted verdict, in the order the scheduler picks. */
  function TerminateAll(alive: bool, reported: seq<bool>, verdicts: seq<bool>): (bool, seq<bool>)
    decreases |verdicts|
  {
    if verdicts == [] then (alive, reported)
    else if alive then TerminateAll(false, reported + [verdicts[0]], verdicts[1..])
    else TerminateAll(alive, reported, verdicts[1..])
  }

  /** However many verdicts are posted, exactly the one that runs first is reported. */
  lemma {:induction false} OnlyFirstVerdictCounts(verdicts: seq<bool>)
    ensures TerminateAll(true, [], verdicts) == (verdicts == [], if verdicts == [] then [] else [verdicts[0]])
  {
    if verdicts != [] {
      var first: seq<bool> := [verdicts[0]];
      assert [] + first == first;
      DeadStaysDead(first, verdicts[1..]);
    }
  }

  lemma {:induction false} DeadStaysDead(reported: seq<bool>, verdicts: seq<bool>)
    ensures TerminateAll(false, reported, verdicts) == (false, reported)
    decreases |verdicts|
  {
    if verdicts == [] {
    } else {
      DeadStaysDead(reported, verdicts[1..]);
    }
  }

  // --------------------------------------------------------------------- the host's loop

  /** One pass of the host's loop: whether the server still runs, what recv returned (nothing if the peer
      closed, the server stopped or recv raised), and, if its send raises or finds the server stopped,
      how many bytes had gone out by then. */
  datatype Turn = Turn(running: bool, data: string, cut: Sal.Option<nat>)

  /** The piece arrives and the loop goes on after it. A piece with the end marker is not sent at all. */
  predicate Serves(t: Turn) {
    t.running && t.data != "" && (t.cut.None? || Contains(t.data, MARK))
  }

  predicate AllServe(turns: seq<Turn>) {
    forall i :: 0 <= i < |turns| ==> Serves(turns[i])
  }

  /** What one pass sends back. */
  function Reply(t: Turn): string {
    if !t.running || Contains(t.data, MARK) then ""
    else if t.cut.Some? && t.cut.value <= |t.data| then t.data[..t.cut.value]
    else t.data
  }

  /** What the handler sends back in all: the turns count up to the first that ends the loop. */
  function Replies(turns: seq<Turn>): string
    decreases |turns|
  {
    if turns == [] then ""
    else Replies(turns[..|turns| - 1]) + if AllServe(turns[..|turns| - 1]) then Reply(turns[|turns| - 1]) else ""
  }

  function EchoAll(pieces: seq<string>): string
    decreases |pieces|
  {
    if pieces == [] then "" else EchoAll(pieces[..|pieces| - 1]) + EchoOf(pieces[|pieces| - 1])
  }

  function Data(turns: seq<Turn>): seq<string> {
    seq(|turns|, i requires 0 <= i < |turns| => turns[i].data)
  }

  /** The turns up to the first that ends the loop, and that one, decide everything. */
  lemma {:induction false} RepliesEnd(turns: seq<Turn>, n: nat)
    requires n < |turns| && !Serves(turns[n])
    ensures Replies(turns) == Replies(turns[..n + 1])
    decreases |turns|
  {
    if n + 1 == |turns| {
      assert turns[..n + 1] == turns;
    } else {
      var front := turns[..|turns| - 1];
      RepliesEnd(front, n);
      assert front[..n + 1] == turns[..n + 1] && !Serves(front[n]);
    }
  }

  lemma {:induction false} RepliesNext(turns: seq<Turn>, n: nat)
    requires n < |turns| && AllServe(turns[..n])
    ensures Replies(turns[..n + 1]) == Replies(turns[..n]) + Reply(turns[n])
  {
    assert turns[..n + 1][..n] == turns[..n];
  }

  /** While every turn serves, the replies are the pieces without the end marker. */
  lemma {:induction false} RepliesAreEchoes(turns: seq<Turn>)
    requires AllServe(turns)
    ensures Replies(turns) == EchoAll(Data(turns))
    decreases |turns|
  {
    if turns == [] {
    } else {
      var front := turns[..|turns| - 1];
      RepliesAreEchoes(front);
      assert Data(turns)[..|turns| - 1] == Data(front);
      ServedReply(turns[|turns| - 1]);
    }
  }

  lemma {:induction false} ServedReply(t: Turn)
    requires Serves(t)
    ensures Reply(t) == EchoOf(t.data)
  {}

  lemma {:induction false} RepliesInAll(turns: seq<Turn>, n: nat)
    requires n < |turns| && AllServe(turns[..n]) && !Serves(turns[n])
    ensures Replies(turns) == EchoAll(Data(turns[..n])) + Reply(turns[n])
  {
    RepliesEnd(turns, n);
    RepliesNext(turns, n);
    RepliesAreEchoes(turns[..n]);
  }

  /** The handler serves turns until the first one that ends the loop, and sends back exactly the
      pieces without the end marker, and of the piece whose send ends the loop what had gone out. */
  method Handle(turns: seq<Turn>) returns (echoed: string, served: nat)
    ensures served <= |turns| && AllServe(turns[..served])
    ensures served < |turns| ==> !Serves(turns[served])
    ensures echoed == EchoAll(Data(turns[..served])) + if served < |turns| then Reply(turns[served]) else ""
    ensures echoed == Replies(turns)
  {
    echoed, served := "", 0;
    while served < |turns| && turns[served].running
      invariant served <= |turns| && AllServe(turns[..served])
      invariant echoed == EchoAll(Data(turns[..served]))
    {
      var t := turns[served];
      if t.data == "" {
        break;
      }
      if Contains(t.data, MARK) {
        EchoNext(turns, served);
        served := served + 1;
        continue;
      }
      if t.cut.Some? {
        RepliesInAll(turns, served);
        echoed := echoed + if t.cut.value <= |t.data| then t.data[..t.cut.value] else t.data;
        return;
      }
      EchoNext(turns, served);
      echoed := echoed + t.data;
      served := served + 1;
    }
    if served < |turns| {
      RepliesInAll(turns, served);
    } else {
      assert turns[..served] == turns;
      RepliesAreEchoes(turns);
    }
  }

  lemma {:induction false} EchoNext(turns: seq<Turn>, n: nat)
    requires n < |turns| && AllServe(turns[..n]) && Serves(turns[n])
    ensures AllServe(turns[..n + 1]) && EchoAll(Data(turns[..n + 1])) == EchoAll(Data(turns[..n])) + EchoOf(turns[n].data)
  {
    var more := turns[..n + 1];
    assert Data(more)[..n] == Data(turns[..n]);
    forall i | 0 <= i < |more|
      ensures Serves(more[i])
    {
      assert i < n ==> more[i] == turns[..n][i];
    }
  }

  /** The pass of the host's loop a step stands for, if any. */
  function TurnOf(w: Wire, s: Step): seq<Turn>
    requires Enabled(w, s)
  {
    match s
    case HostTurn(k) => [Turn(true, w.sent[w.hostRead..w.hostRead + k], Sal.None)]
    case HostBreaks(k, j) => [Turn(true, w.sent[w.hostRead..w.hostRead + k], Sal.Some(j))]
    case HostStops => [Turn(false, "", Sal.None)]
    case _ => []
  }

  /** The passes of the host's loop in a run, in order. */
  function Turns(u: nat, run: seq<Step>): seq<Turn>
    requires Legal(u, run)
    decreases |run|
  {
    if run == [] then [] else Turns(u, run[..|run| - 1]) + TurnOf(After(u, run[..|run| - 1]), run[|run| - 1])
  }

  function Joined(pieces: seq<string>): string
    decreases |pieces|
  {
    if pieces == [] then "" else Joined(pieces[..|pieces| - 1]) + pieces[|pieces| - 1]
  }

  lemma {:induction false} TurnAppend(turns: seq<Turn>, t: Turn)
    ensures Joined(Data(turns + [t])) == Joined(Data(turns)) + t.data
    ensures Replies(turns + [t]) == Replies(turns) + if AllServe(turns) then Reply(t) else ""
    ensures AllServe(turns + [t]) <==> AllServe(turns) && Serves(t)
  {
    var more := turns + [t];
    assert more[..|turns|] == turns && Data(more)[..|turns|] == Data(turns);
    if AllServe(more) {
      assert Serves(more[|turns|]) && forall i :: 0 <= i < |turns| ==> Serves(more[i]) && turns[i] == more[i];
    }
  }

  /** The wire carries the pieces of these turns and the handler's output for them, and the host's loop
      goes on exactly while all of them serve. */
  predicate Follows(w: Wire, turns: seq<Turn>) {
    && w.hostRead <= |w.sent| && Joined(Data(turns)) == w.sent[..w.hostRead]
    && Replies(turns) == w.echoed && (w.hostUp <==> AllServe(turns))
  }

  lemma {:induction false} TurnFollows(w: Wire, turns: seq<Turn>, s: Step, t: Turn)
    requires Follows(w, turns) && Enabled(w, s) && TurnOf(w, s) == [t] && !s.HostStops?
    ensures Follows(Next(w, s), turns + [t])
  {
    HostAfter(w, s, t);
    PieceFollows(w, turns, Next(w, s), s.k, t);
  }

  lemma {:induction false} PieceFollows(w: Wire, turns: seq<Turn>, q: Wire, k: nat, t: Turn)
    requires Follows(w, turns) && w.hostUp && q.sent == w.sent && q.hostRead == w.hostRead + k <= |w.sent|
    requires t.data == w.sent[w.hostRead..w.hostRead + k] && q.echoed == w.echoed + Reply(t) && (q.hostUp <==> Serves(t))
    ensures Follows(q, turns + [t])
  {
    TurnAppend(turns, t);
    assert w.sent[..w.hostRead] + t.data == w.sent[..w.hostRead + k];
  }

  lemma {:induction false} StopFollows(w: Wire, turns: seq<Turn>, t: Turn)
    requires Follows(w, turns) && t == Turn(false, "", Sal.None)
    ensures Follows(Next(w, HostStops), turns + [t])
  {
    TurnAppend(turns, t);
  }

  /** What a pass over a piece does to the host's side of the wire. */
  lemma {:induction false} HostAfter(w: Wire, s: Step, t: Turn)
    requires Enabled(w, s) && TurnOf(w, s) == [t] && !s.HostStops?
    ensures var q := Next(w, s);
            && w.hostUp && q.sent == w.sent && q.hostRead == w.hostRead + s.k <= |w.sent|
            && t.data == w.sent[w.hostRead..w.hostRead + s.k]
            && q.echoed == w.echoed + Reply(t) && (q.hostUp <==> Serves(t))
  {
    if s.HostBreaks? {
      SliceOfSlice(w.sent, w.hostRead, w.hostRead + s.k, 0, s.j);
      assert t.data[0..s.j] == t.data[..s.j];
    }
  }

  lemma {:induction false} OthersFollow(w: Wire, turns: seq<Turn>, s: Step)
    requires Follows(w, turns) && Enabled(w, s) && TurnOf(w, s) == []
    ensures Follows(Next(w, s), turns)
  {
    HostUntouched(w, s);
    assert Next(w, s).hostUp == w.hostUp;
  }

  /** The wire carries what the handler computes: in every run the pieces received are the bytes
      sent, cut anywhere, and the bytes sent back are the handler's output for its turns, the one whose
      send ends the loop included. */
  lemma {:induction false} WireFollowsHandler(u: nat, run: seq<Step>)
    requires Legal(u, run)
    ensures Follows(After(u, run), Turns(u, run))
    decreases |run|
  {
    if run == [] {
    } else {
      var w, s, turns := After(u, run[..|run| - 1]), run[|run| - 1], Turns(u, run[..|run| - 1]);
      WireFollowsHandler(u, run[..|run| - 1]);
      if TurnOf(w, s) == [] {
        OthersFollow(w, turns, s);
        assert turns + TurnOf(w, s) == turns;
      } else if s.HostStops? {
        StopFollows(w, turns, TurnOf(w, s)[0]);
      } else {
        TurnFollows(w, turns, s, TurnOf(w, s)[0]);
      }
    }
  }

  // ------------------------------------------------------------------ the test as a whole

  /** One pass of the host's loop over a piece it received. */
  method Serve(t: Turn) returns (reply: string)
    requires t.data != ""
    ensures reply == Reply(t)
  {
    var turns := [t];
    var served;
    reply, served := Handle(turns);
    assert turns[..0] == [] && Replies(turns) == Replies([]) + Reply(t);
  }

  /** The client object and the host's side of the connection agree with a wire of the model. */
  ghost predicate Agrees(c: TcpEchoClient, w: Wire, hostRead: nat, echoed: string, clientRead: nat)
    reads c
  {
    && c.Valid() && c.State() == w.client && c.outgoing == w.sent
    && hostRead == w.hostRead && echoed == w.echoed && clientRead == w.clientRead
  }

  /** A step of the client, by its callback. */
  method PerformClient(c: TcpEchoClient, s: Step, data: string, ghost w: Wire)
    requires c.Valid() && c.State() == w.client && c.outgoing == w.sent && Enabled(w, s) && !s.HostTurn? && !s.HostBreaks?
    requires s.Readable? ==> data == w.echoed[w.clientRead..w.clientRead + s.n]
    modifies c, c.buffer
    ensures c.State() == Next(w, s).client && c.outgoing == Next(w, s).sent
  {
    match s {
      case Connected => c.HandleConnect();
      case HostStops =>
      case Readable(n) => c.HandleRx(data);
      case Sent(n) => c.HandleSent(n);
      case Errored => c.HandleError();
      case Disconnected => c.HandleDisconnect();
    }
  }

  /** One step of the test, by the code of the party that takes it. */
  method Perform(c: TcpEchoClient, s: Step, hostRead: nat, echoed: string, clientRead: nat, ghost w: Wire)
    returns (hostRead': nat, echoed': string, clientRead': nat)
    requires Agrees(c, w, hostRead, echoed, clientRead) && Enabled(w, s)
    modifies c, c.buffer
    ensures Agrees(c, Next(w, s), hostRead', echoed', clientRead')
  {
    hostRead', echoed', clientRead' := hostRead, echoed, clientRead;
    if s.HostTurn? || s.HostBreaks? {
      var t := Turn(true, c.outgoing[hostRead..hostRead + s.k], if s.HostBreaks? then Sal.Some(s.j) else Sal.None);
      var reply := Serve(t);
      hostRead', echoed' := hostRead + s.k, echoed + reply;
      HostAfter(w, s, t);
    } else if s.Readable? {
      PerformClient(c, s, echoed[clientRead..clientRead + s.n], w);
      clientRead' := clientRead + s.n;
    } else {
      PerformClient(c, s, "", w);
    }
  }

  /** The code as a whole: the client's callbacks and the host's loop, stepped through any run the
      stack allows, leave the client, its outgoing bytes and the echo exactly as the model has them;
      so no comparison fails and the accounting holds of the code. */
  method Drive(u: nat, run: seq<Step>) returns (c: TcpEchoClient, echoed: string)
    requires Legal(u, run)
    ensures c.Valid() && c.State() == After(u, run).client && c.outgoing == After(u, run).sent
    ensures echoed == After(u, run).echoed == Replies(Turns(u, run))
    ensures c.mismatches == 0 && (After(u, run).up ==> c.unacked + After(u, run).acked == |c.outgoing|)
  {
    c := new TcpEchoClient(u);
    var hostRead, clientRead, i := 0, 0, 0;
    echoed := "";
    while i < |run|
      invariant 0 <= i <= |run| && fresh(c) && fresh(c.buffer)
      invariant Legal(u, run[..i]) && Agrees(c, After(u, run[..i]), hostRead, echoed, clientRead)
    {
      LegalPrefix(u, run, i);
      hostRead, echoed, clientRead := Perform(c, run[i], hostRead, echoed, clientRead, After(u, run[..i]));
      i := i + 1;
      assert run[..i][..i - 1] == run[..i - 1];
    }
    assert run[..i] == run;
    ReachableInv(u, run);
    WireFollowsHandler(u, run);
  }

  /** The verdicts of a run that never fails are all the same. */
  lemma {:induction false} NoFalseVerdict(verdicts: seq<bool>)
    requires Count(verdicts, false) == 0
    ensures false !in verdicts
    ensures Count(verdicts, true) == |verdicts|
    decreases |verdicts|
  {
    if verdicts == [] {
    } else {
      NoFalseVerdict(verdicts[..|verdicts| - 1]);
      assert verdicts == verdicts[..|verdicts| - 1] + [verdicts[|verdicts| - 1]];
    }
  }

  /** End to end: in an error-free run with no empty early read, whatever order the scheduler runs the
      posted verdicts in, the test reports success if all 32 bytes were acknowledged and nothing
      otherwise. */
  lemma {:induction false} ReportsSuccessIffAcknowledged(u: nat, run: seq<Step>, order: seq<bool>)
    requires Legal(u, run) && Failures(run) == 0
    requires multiset(order) == multiset(After(u, run).client.verdicts)
    ensures TerminateAll(true, [], order).1 == if Acked(run) == 32 then [true] else []
  {
    var verdicts := After(u, run).client.verdicts;
    FailureVerdicts(u, run);
    NoFailuresNoErrors(run);
    SuccessAtMostOnceIff(u, run);
    NoFalseVerdict(verdicts);
    OnlyFirstVerdictCounts(order);
    assert |order| == |multiset(order)| == |multiset(verdicts)| == |verdicts|;
    if order != [] {
      assert order[0] in multiset(order);
      assert order[0] in verdicts;
      assert order[0] == true;
    }
  }

  lemma {:induction false} NoFailuresNoErrors(run: seq<Step>)
    requires Failures(run) == 0
    ensures NoErrors(run)
    decreases |run|
  {
    if run == [] {
    } else {
      NoFailuresNoErrors(run[..|run| - 1]);
    }
  }
}
