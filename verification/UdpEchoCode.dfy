/** The UDP echo client as it runs: send_test refills the outgoing buffer in place, the readable
    callback overwrites the front of the receive buffer and compares the two. */
module UdpEchoCode {
  import opened UdpEcho

  class UdpEchoClient {
    const outBuffer: array<char>
    const buffer: array<char>
    var loopCtr: nat
    var verdicts: seq<bool>
    var mismatches: nat
    var sent: seq<string>      // datagrams handed to the stack

    constructor ()
      ensures Valid() && fresh(outBuffer) && fresh(buffer)
      ensures sent == [] && loopCtr == 0 && verdicts == [] && mismatches == 0
    {
      outBuffer := new char[BUFFER_SIZE];
      buffer := new char[BUFFER_SIZE];
      loopCtr, verdicts, mismatches, sent := 0, [], 0, [];
    }

    predicate Valid() {
      outBuffer.Length == BUFFER_SIZE && buffer.Length == BUFFER_SIZE && outBuffer != buffer
    }

    ghost function State(): Client
      reads this, outBuffer, buffer
    {
      Client(loopCtr, outBuffer[..], buffer[..], verdicts, mismatches)
    }

    /** send_test: sizeof(BUFFER_SIZE) is the size of an int, so four bytes go out. */
    method SendTestDatagram(rands: seq<nat>)
      requires Valid() && |rands| == BUFFER_SIZE
      modifies this`sent, outBuffer
      ensures State() == SendTest(old(State()), rands).0
      ensures sent == old(sent) + SendTest(old(State()), rands).1
    {
      var i := 0;
      while i < BUFFER_SIZE
        invariant 0 <= i <= BUFFER_SIZE
        invariant forall j :: 0 <= j < i ==> outBuffer[j] == CharRand(rands[j])
        invariant buffer[..] == old(buffer[..]) && sent == old(sent)
      {
        outBuffer[i] := CharRand(rands[i]);
        i := i + 1;
      }
      assert outBuffer[..] == Filled(rands);
      sent := sent + [outBuffer[..TEST_SIZE]];
    }

    /** onDNS formats the resolved address into the outgoing buffer before the first test refills it:
        none of that text is ever sent. */
    method HandleDns(address: string, rands: seq<nat>)
      requires Valid() && |rands| == BUFFER_SIZE
      modifies this`sent, outBuffer
      ensures State() == SendTest(old(State()), rands).0
      ensures sent == old(sent) + SendTest(old(State()), rands).1
    {
      var i := 0;
      while i < |address| && i < BUFFER_SIZE
        invariant 0 <= i <= BUFFER_SIZE
        invariant buffer[..] == old(buffer[..]) && sent == old(sent)
      {
        outBuffer[i] := address[i];
        i := i + 1;
      }
      SendTestDatagram(rands);
    }

    /** The stack's recv: copies as much of the datagram as fits. */
    method ReceiveInto(d: string) returns (n: nat)
      requires Valid()
      modifies buffer
      ensures n == Min(BUFFER_SIZE, |d|)
      ensures buffer[..] == d[..n] + old(buffer[..])[n..]
      ensures outBuffer[..] == old(outBuffer[..])
    {
      n := 0;
      while n < |d| && n < BUFFER_SIZE
        invariant n <= |d| && n <= BUFFER_SIZE
        invariant forall j :: 0 <= j < n ==> buffer[j] == d[j]
        invariant forall j :: n <= j < BUFFER_SIZE ==> buffer[j] == old(buffer[j])
        invariant outBuffer[..] == old(outBuffer[..])
      {
        buffer[n] := d[n];
        n := n + 1;
      }
    }

    method HandleRx(d: string, rands: seq<nat>, beyond: string)
      requires Valid() && |rands| == BUFFER_SIZE
      modifies this, buffer, outBuffer
      ensures State() == OnRx(old(State()), d, rands, beyond).0
      ensures sent == old(sent) + OnRx(old(State()), d, rands, beyond).1
    {
      var n := ReceiveInto(d);
      assert buffer[..n] == d[..n];
      if buffer[..n] != outBuffer[..n] {
        mismatches := mismatches + 1;
      }
      loopCtr := (loopCtr + 1) % COUNTER_RANGE;
      assert State() == Received(old(State()), d);
      if loopCtr < MAX_ECHO_LOOPS {
        SendTestDatagram(rands);
      }
      if loopCtr >= MAX_ECHO_LOOPS {
        sent := sent + [CString(buffer[..] + beyond)];
        verdicts := verdicts + [true];
      }
    }

    method HandleError()
      modifies this
      ensures State() == OnError(old(State())) && sent == old(sent)
    {
      verdicts := verdicts + [false];
    }
  }

  /** The client object and the datagrams in flight agree with a network of the model. */
  ghost predicate Agrees(c: UdpEchoClient, flight: seq<string>, w: Net)
    reads c, c.outBuffer, c.buffer
  {
    c.Valid() && c.State() == w.client && flight == w.flight
  }

  /** One step of the test. The datagrams the client hands to the stack join those in flight. */
  method Perform(c: UdpEchoClient, flight: seq<string>, s: Step, address: string, ghost w: Net) returns (flight': seq<string>)
    requires Agrees(c, flight, w) && Sized(w) && Enabled(w, s)
    modifies c, c.outBuffer, c.buffer
    ensures Agrees(c, flight', Next(w, s))
  {
    var mark := |c.sent|;
    match s {
      case Dns(rands) =>
        c.HandleDns(address, rands);
        flight' := flight + c.sent[mark..];
      case Receive(i, rands, beyond) =>
        c.HandleRx(flight[i], rands, beyond);
        flight' := Drop(flight, i) + c.sent[mark..];
      case Lose(i) => flight' := Drop(flight, i);
      case Errored =>
        c.HandleError();
        flight' := flight;
    }
  }

  /** The code as a whole: a client just constructed, stepped through any run of the network, has the
      state and the datagrams in flight of the model; so with one DNS callback no comparison of the
      code fails before it posts success. */
  method Drive(c: UdpEchoClient, run: seq<Step>, address: string, ghost w0: Net) returns (flight: seq<string>)
    requires Fresh(w0) && Agrees(c, [], w0) && Legal(w0, run)
    modifies c, c.outBuffer, c.buffer
    ensures Agrees(c, flight, After(w0, run))
    ensures DnsCallbacks(run) <= 1 && true !in c.verdicts ==> c.mismatches == 0 && |flight| <= 1
    ensures Count(c.verdicts, false) == Errors(run)
  {
    flight := [];
    var i := 0;
    while i < |run|
      invariant 0 <= i <= |run|
      invariant Legal(w0, run[..i]) && Agrees(c, flight, After(w0, run[..i]))
    {
      LegalPrefix(w0, run, i);
      flight := Perform(c, flight, run[i], address, After(w0, run[..i]));
      i := i + 1;
      assert run[..i][..i - 1] == run[..i - 1];
    }
    assert run[..i] == run;
    VerdictsCounted(w0, run);
    if DnsCallbacks(run) <= 1 && true !in c.verdicts {
      StopAndWait(w0, run);
    }
  }
}
