/** The UDP echo test: a stop-and-wait client over a network that loses echoes as it likes but
    delivers each at most once and unaltered. */
module UdpEcho {
  const BUFFER_SIZE: nat := 64
  const MAX_ECHO_LOOPS: nat := 100
  const TEST_SIZE: nat := 4            // sizeof(BUFFER_SIZE), the size of an int
  const ASCII_MAX: nat := 94           // '~' - ' '
  const COUNTER_RANGE: nat := 0x1_0000_0000

  function CharRand(r: nat): (c: char)
    ensures ' ' <= c < '~'
  {
    (r % ASCII_MAX + 32) as char
  }

  /** Every character from the space up to the tilde comes up, at its own residue of the random value. */
  lemma CharRandCovers(c: char, k: nat)
    requires ' ' <= c < '~'
    ensures CharRand(94 * k + (c as int - ' ' as int)) == c
  {
    assert (94 * k + (c as int - ' ' as int)) % ASCII_MAX == c as int - ' ' as int;
  }

  /** The contents std::generate gives out_buffer for the values rand returned. */
  function Filled(rands: seq<nat>): (s: string)
    ensures |s| == |rands|
    ensures forall i :: 0 <= i < |s| ==> s[i] == CharRand(rands[i])
  {
    if rands == [] then [] else [CharRand(rands[0])] + Filled(rands[1..])
  }

  function Min(a: nat, b: nat): nat {
    if a < b then a else b
  }

  /** The characters before the first NUL, as strlen sees them. */
  function CString(memory: string): string {
    if memory == "" || memory[0] == '\0' then "" else [memory[0]] + CString(memory[1..])
  }

  /** strlen's string: no NUL in it, and a NUL or the end of the memory right after it. */
  lemma {:induction false} CStringIs(memory: string)
    ensures CString(memory) <= memory && '\0' !in CString(memory)
    ensures |CString(memory)| < |memory| ==> memory[|CString(memory)|] == '\0'
  {
    if memory == "" || memory[0] == '\0' {
    } else {
      CStringIs(memory[1..]);
    }
  }

  // -------------------------------------------------------------------- the client

  datatype Client = Client(loopCtr: nat, out: string, buf: string, verdicts: seq<bool>, mismatches: nat)

  /** send_test: refill the buffer and send its first bytes. */
  function SendTest(c: Client, rands: seq<nat>): (Client, seq<string>)
    requires |rands| == BUFFER_SIZE
  {
    (c.(out := Filled(rands)), [Filled(rands)[..TEST_SIZE]])
  }

  function Received(c: Client, d: string): Client
    requires |c.buf| == BUFFER_SIZE && |c.out| == BUFFER_SIZE
  {
    var n := Min(BUFFER_SIZE, |d|);
    c.(buf := d[..n] + c.buf[n..],
       mismatches := c.mismatches + (if d[..n] == c.out[..n] then 0 else 1),
       loopCtr := (c.loopCtr + 1) % COUNTER_RANGE)
  }

  /** The readable callback: the client's next state and the datagrams it sends. `beyond` is the
      memory after the receive buffer, which the final strlen may run into. */
  function OnRx(c: Client, d: string, rands: seq<nat>, beyond: string): (Client, seq<string>)
    requires |c.buf| == BUFFER_SIZE && |c.out| == BUFFER_SIZE && |rands| == BUFFER_SIZE
  {
    var c1 := Received(c, d);
    if c1.loopCtr < MAX_ECHO_LOOPS then SendTest(c1, rands)
    else (c1.(verdicts := c1.verdicts + [true]), [CString(c1.buf + beyond)])
  }

  function OnError(c: Client): Client {
    c.(verdicts := c.verdicts + [false])
  }

  // ------------------------------------------------------------------- the network

  /** Datagrams on their way to the host or back, and how many test datagrams were sent, readable
      callbacks served and DNS callbacks run. */
  datatype Net = Net(client: Client, flight: seq<string>, tests: nat, received: nat, resolved: nat)

  datatype Step =
    | Dns(rands: seq<nat>)
    | Receive(i: nat, rands: seq<nat>, beyond: string)
    | Lose(i: nat)
    | Errored

  /** Uninitialised buffers hold anything. */
  predicate Fresh(w: Net) {
    && w.client.loopCtr == 0 && |w.client.out| == BUFFER_SIZE && |w.client.buf| == BUFFER_SIZE
    && w.client.verdicts == [] && w.client.mismatches == 0
    && w.flight == [] && w.tests == 0 && w.received == 0 && w.resolved == 0
  }

  predicate Sized(w: Net) {
    |w.client.out| == BUFFER_SIZE && |w.client.buf| == BUFFER_SIZE
  }

  predicate Enabled(w: Net, s: Step) {
    match s
    case Dns(rands) => |rands| == BUFFER_SIZE
    case Receive(i, rands, _) => i < |w.flight| && |rands| == BUFFER_SIZE && w.resolved > 0
    case Lose(i) => i < |w.flight|
    case Errored => true
  }

  function Drop(flight: seq<string>, i: nat): seq<string>
    requires i < |flight|
  {
    flight[..i] + flight[i + 1..]
  }

  function Next(w: Net, s: Step): Net
    requires Sized(w) && Enabled(w, s)
  {
    match s
    case Dns(rands) =>
      var (c, sent) := SendTest(w.client, rands);
      w.(client := c, flight := w.flight + sent, tests := w.tests + 1, resolved := w.resolved + 1)
    case Receive(i, rands, beyond) =>
      var (c, sent) := OnRx(w.client, w.flight[i], rands, beyond);
      w.(client := c, flight := Drop(w.flight, i) + sent, received := w.received + 1,
         tests := w.tests + if c.loopCtr < MAX_ECHO_LOOPS then 1 else 0)
    case Lose(i) => w.(flight := Drop(w.flight, i))
    case Errored => w.(client := OnError(w.client))
  }

  predicate Legal(w0: Net, run: seq<Step>)
    requires Sized(w0)
    decreases |run|, 0
  {
    run == [] || (Legal(w0, run[..|run| - 1]) && Enabled(After(w0, run[..|run| - 1]), run[|run| - 1]))
  }

  function After(w0: Net, run: seq<Step>): (w: Net)
    requires Sized(w0) && Legal(w0, run)
    ensures Sized(w)
    decreases |run|, 1
  {
    if run == [] then w0 else Next(After(w0, run[..|run| - 1]), run[|run| - 1])
  }

  function DnsCallbacks(run: seq<Step>): nat
    decreases |run|
  {
    if run == [] then 0 else DnsCallbacks(run[..|run| - 1]) + if run[|run| - 1].Dns? then 1 else 0
  }

  lemma {:induction false} LegalPrefix(w0: Net, run: seq<Step>, i: nat)
    requires Sized(w0) && Legal(w0, run) && i <= |run|
    ensures Legal(w0, run[..i])
    ensures i < |run| ==> Enabled(After(w0, run[..i]), run[i])
    decreases |run|
  {
    if i == |run| {
      assert run[..i] == run;
    } else {
      var front := run[..|run| - 1];
      assert front[..i] == run[..i];
      if i < |front| {
        LegalPrefix(w0, front, i);
      }
    }
  }

  // ------------------------------------------------------------------ the invariant

  /** While fewer than 100 echoes have come back: one test datagram at most is outstanding, it is
      the sent prefix of the current buffer, and every comparison so far succeeded. */
  predicate Waiting(w: Net)
    requires Sized(w)
  {
    && w.client.mismatches == 0
    && true !in w.client.verdicts
    && w.tests == w.received + w.resolved
    && w.resolved <= 1
    && (w.resolved == 0 ==> w.flight == [] && w.received == 0)
    && (w.flight == [] || w.flight == [w.client.out[..TEST_SIZE]])
  }

  /** After the hundredth: all 100 tests were sent and success has been posted. */
  predicate Finished(w: Net) {
    w.tests == MAX_ECHO_LOOPS && true in w.client.verdicts && w.resolved == 1
  }

  /** Until success is posted the client is waiting, the counter counting its receives; and as long
      as the 32-bit counter has not gone round, success is posted from the hundredth receive on. */
  predicate Inv(w: Net) {
    && Sized(w)
    && (true !in w.client.verdicts ==> w.client.loopCtr == w.received < MAX_ECHO_LOOPS && Waiting(w))
    && (w.received < COUNTER_RANGE ==>
          w.client.loopCtr == w.received && if w.received < MAX_ECHO_LOOPS then true !in w.client.verdicts else Finished(w))
  }

  lemma {:induction false} EchoMatches(c: Client, n: nat)
    requires |c.buf| == BUFFER_SIZE && |c.out| == BUFFER_SIZE && n == TEST_SIZE
    ensures Received(c, c.out[..n]).mismatches == c.mismatches
    ensures Received(c, c.out[..n]).buf[..n] == c.out[..n]
  {
    assert c.out[..n][..n] == c.out[..n];
    assert (c.out[..n] + c.buf[n..])[..n] == c.out[..n];
  }

  lemma {:induction false} ReceiveKeepsInv(w: Net, s: Step)
    requires Inv(w) && s.Receive? && Enabled(w, s)
    ensures Inv(Next(w, s))
  {
    if true !in w.client.verdicts {
      EchoMatches(w.client, TEST_SIZE);
      assert Drop(w.flight, 0) == [];
    }
    var v := w.client.verdicts + [true];
    assert v[|v| - 1];
  }

  lemma {:induction false} StepKeepsInv(w: Net, s: Step)
    requires Inv(w) && Enabled(w, s)
    requires s.Dns? ==> w.resolved == 0
    ensures Inv(Next(w, s))
  {
    match s
    case Dns(rands) =>
    case Receive(_, _, _) => ReceiveKeepsInv(w, s);
    case Lose(i) => assert true !in w.client.verdicts ==> Drop(w.flight, 0) == [];
    case Errored =>
  }

  lemma {:induction false} DnsCounted(w0: Net, run: seq<Step>)
    requires Fresh(w0) && Legal(w0, run)
    ensures After(w0, run).resolved == DnsCallbacks(run)
    decreases |run|
  {
    if run == [] {
    } else {
      DnsCounted(w0, run[..|run| - 1]);
    }
  }

  lemma {:induction false} ReachableInv(w0: Net, run: seq<Step>)
    requires Fresh(w0) && Legal(w0, run) && DnsCallbacks(run) <= 1
    ensures Inv(After(w0, run))
    decreases |run|
  {
    if run == [] {
    } else {
      var front := run[..|run| - 1];
      ReachableInv(w0, front);
      DnsCounted(w0, front);
      StepKeepsInv(After(w0, front), run[|run| - 1]);
    }
  }

  // -------------------------------------------------------------------- the theorems

  /** Stop and wait: up to the first posted success at most one test datagram is outstanding, with
      the sent prefix of the current buffer, and no comparison has failed. */
  lemma {:induction false} StopAndWait(w0: Net, run: seq<Step>)
    requires Fresh(w0) && Legal(w0, run) && DnsCallbacks(run) <= 1
    requires true !in After(w0, run).client.verdicts
    ensures var w := After(w0, run);
            && (w.flight == [] || (w.flight == [w.client.out[..TEST_SIZE]] && |w.flight[0]| == 4))
            && w.client.mismatches == 0
            && w.received < MAX_ECHO_LOOPS && w.tests == w.received + DnsCallbacks(run)
  {
    ReachableInv(w0, run);
    DnsCounted(w0, run);
  }

  /** Success is posted exactly from the hundredth receive on, after exactly 100 test datagrams, and
      no more are sent until the 32-bit counter goes round. 100 minus the receives is the measure. */
  lemma {:induction false} HundredEchoes(w0: Net, run: seq<Step>)
    requires Fresh(w0) && Legal(w0, run) && DnsCallbacks(run) <= 1 && After(w0, run).received < COUNTER_RANGE
    ensures true in After(w0, run).client.verdicts <==> After(w0, run).received >= MAX_ECHO_LOOPS
    ensures After(w0, run).tests == Min(After(w0, run).received + DnsCallbacks(run), MAX_ECHO_LOOPS)
  {
    ReachableInv(w0, run);
    DnsCounted(w0, run);
  }

  function Count(verdicts: seq<bool>, v: bool): nat
    decreases |verdicts|
  {
    if verdicts == [] then 0
    else Count(verdicts[..|verdicts| - 1], v) + if verdicts[|verdicts| - 1] == v then 1 else 0
  }

  lemma {:induction false} CountAppend(verdicts: seq<bool>, x: bool, v: bool)
    ensures Count(verdicts + [x], v) == Count(verdicts, v) + if x == v then 1 else 0
  {
    assert (verdicts + [x])[..|verdicts|] == verdicts;
  }

  function Errors(run: seq<Step>): nat
    decreases |run|
  {
    if run == [] then 0 else Errors(run[..|run| - 1]) + if run[|run| - 1].Errored? then 1 else 0
  }

  function Receives(run: seq<Step>): nat
    decreases |run|
  {
    if run == [] then 0 else Receives(run[..|run| - 1]) + if run[|run| - 1].Receive? then 1 else 0
  }

  lemma {:induction false} VerdictStep(w: Net, s: Step)
    requires Sized(w) && Enabled(w, s)
    ensures Count(Next(w, s).client.verdicts, false) == Count(w.client.verdicts, false) + if s.Errored? then 1 else 0
    ensures Count(Next(w, s).client.verdicts, true) == Count(w.client.verdicts, true)
            + if s.Receive? && Next(w, s).client.loopCtr >= 100 then 1 else 0
  {
    CountAppend(w.client.verdicts, false, false);
    CountAppend(w.client.verdicts, true, false);
    CountAppend(w.client.verdicts, false, true);
    CountAppend(w.client.verdicts, true, true);
  }

  predicate Tallied(w: Net, errors: nat, receives: nat) {
    && Count(w.client.verdicts, false) == errors
    && w.received == receives && w.client.loopCtr == receives % COUNTER_RANGE
    && (receives < COUNTER_RANGE ==> Count(w.client.verdicts, true) == if receives < 100 then 0 else receives - 99)
  }

  lemma {:induction false} StepTallies(w: Net, s: Step, errors: nat, receives: nat)
    requires Sized(w) && Enabled(w, s) && Tallied(w, errors, receives)
    ensures Tallied(Next(w, s), errors + if s.Errored? then 1 else 0, receives + if s.Receive? then 1 else 0)
  {
    VerdictStep(w, s);
    CounterStep(w, s);
    BelowRange(w.received);
    BelowRange(Next(w, s).received);
  }

  lemma BelowRange(n: nat)
    ensures n < COUNTER_RANGE ==> n % COUNTER_RANGE == n
  {}

  /** Every verdict of every run, however often the name was resolved: failure is posted once for each
      error and for nothing else; success once for each receive from the hundredth on, until the 32-bit
      counter goes round. */
  lemma {:induction false} VerdictsCounted(w0: Net, run: seq<Step>)
    requires Fresh(w0) && Legal(w0, run)
    ensures Tallied(After(w0, run), Errors(run), Receives(run))
    decreases |run|
  {
    if run == [] {
    } else {
      var front := run[..|run| - 1];
      VerdictsCounted(w0, front);
      StepTallies(After(w0, front), run[|run| - 1], Errors(front), Receives(front));
    }
  }

  lemma {:induction false} CounterStep(w: Net, s: Step)
    requires Sized(w) && Enabled(w, s) && w.client.loopCtr == w.received % COUNTER_RANGE
    ensures Next(w, s).received == w.received + if s.Receive? then 1 else 0
    ensures Next(w, s).client.loopCtr == Next(w, s).received % COUNTER_RANGE
  {}

  /** The step that first posts success is the hundredth receive, with all comparisons passed. */
  lemma {:induction false} FirstSuccess(w0: Net, run: seq<Step>)
    requires Fresh(w0) && Legal(w0, run) && DnsCallbacks(run) <= 1 && run != []
    requires true !in After(w0, run[..|run| - 1]).client.verdicts && true in After(w0, run).client.verdicts
    ensures run[|run| - 1].Receive?
    ensures After(w0, run).received == 100 && After(w0, run).tests == 100
    ensures After(w0, run).client.mismatches == 0 && |After(w0, run).flight| == 1
  {
    var front := run[..|run| - 1];
    var w, s := After(w0, front), run[|run| - 1];
    ReachableInv(w0, front);
    EchoMatches(w.client, TEST_SIZE);
  }

  /** Once resolved, the outgoing buffer holds printable characters only. */
  predicate Printable(w: Net) {
    w.resolved > 0 ==> forall i :: 0 <= i < |w.client.out| ==> w.client.out[i] != '\0'
  }

  lemma {:induction false} AlwaysPrintable(w0: Net, run: seq<Step>)
    requires Fresh(w0) && Legal(w0, run)
    ensures Printable(After(w0, run))
    decreases |run|
  {
    if run == [] {
    } else {
      AlwaysPrintable(w0, run[..|run| - 1]);
      FillsArePrintable(After(w0, run[..|run| - 1]), run[|run| - 1]);
    }
  }

  lemma FillsArePrintable(w: Net, s: Step)
    requires Sized(w) && Printable(w) && Enabled(w, s)
    ensures Printable(Next(w, s))
  {}

  /** The random values of the last fill: by the last step that called send_test. */
  function LastFill(run: seq<Step>): seq<nat>
    decreases |run|
  {
    if run == [] then []
    else
      match run[|run| - 1]
      case Dns(rands) => rands
      case Receive(_, rands, _) => rands
      case _ => LastFill(run[..|run| - 1])
  }

  /** Before the first success only the four echoed bytes of the receive buffer are ever written, and the
      outgoing buffer is the last fill. */
  predicate Untouched(w0: Net, w: Net, fill: seq<nat>)
    requires Sized(w0) && Sized(w)
  {
    w.client.buf[TEST_SIZE..] == w0.client.buf[TEST_SIZE..] && (w.resolved > 0 ==> w.client.out == Filled(fill))
  }

  lemma {:induction false} ReceiveTouchesFront(w0: Net, w: Net, s: Step, fill: seq<nat>)
    requires Sized(w0) && Inv(w) && Untouched(w0, w, fill) && s.Receive? && Enabled(w, s)
    requires true !in Next(w, s).client.verdicts
    ensures Untouched(w0, Next(w, s), s.rands)
  {
    VerdictsKept(w, s);
    var d := w.flight[s.i];
    assert (d[..TEST_SIZE] + w.client.buf[TEST_SIZE..])[TEST_SIZE..] == w.client.buf[TEST_SIZE..];
    if Received(w.client, d).loopCtr >= MAX_ECHO_LOOPS {
      assert false;
    }
  }

  /** Verdicts are only ever added. */
  lemma {:induction false} VerdictsKept(w: Net, s: Step)
    requires Sized(w) && Enabled(w, s)
    ensures true in w.client.verdicts ==> true in Next(w, s).client.verdicts
  {
    assert w.client.verdicts <= Next(w, s).client.verdicts;
  }

  lemma {:induction false} TailUntouched(w0: Net, run: seq<Step>)
    requires Fresh(w0) && Legal(w0, run) && DnsCallbacks(run) <= 1 && true !in After(w0, run).client.verdicts
    ensures Untouched(w0, After(w0, run), LastFill(run))
    decreases |run|
  {
    if run == [] {
    } else {
      var front, s := run[..|run| - 1], run[|run| - 1];
      VerdictsKept(After(w0, front), s);
      TailUntouched(w0, front);
      ReachableInv(w0, front);
      if s.Receive? {
        ReceiveTouchesFront(w0, After(w0, front), s, LastFill(front));
      }
    }
  }

  lemma {:induction false} CStringSplit(memory: string, n: nat)
    requires n <= |memory| && forall i :: 0 <= i < n ==> memory[i] != '\0'
    ensures CString(memory) == memory[..n] + CString(memory[n..])
    decreases n
  {
    if n == 0 {
      assert memory[0..] == memory;
    } else {
      CStringSplit(memory[1..], n - 1);
      assert memory[1..][n - 1..] == memory[n..] && [memory[0]] + memory[1..][..n - 1] == memory[..n];
    }
  }

  /** The farewell: the four bytes of the last test, then the C string that the uninitialised rest of the
      receive buffer held from the start, running on into the memory beyond it. */
  function Farewell(w0: Net, fill: seq<nat>, beyond: string): string
    requires Sized(w0) && |fill| == BUFFER_SIZE
  {
    Filled(fill)[..TEST_SIZE] + CString(w0.client.buf[TEST_SIZE..] + beyond)
  }

  /** The hundredth receive sends the farewell, alone in flight. */
  lemma {:induction false} FarewellSent(w0: Net, w: Net, s: Step, fill: seq<nat>)
    requires Sized(w0) && Sized(w) && Waiting(w) && w.client.loopCtr == w.received == 99 && |fill| == BUFFER_SIZE
    requires s.Receive? && Enabled(w, s) && Untouched(w0, w, fill)
    ensures var q := Next(w, s);
            q.flight == [Farewell(w0, fill, s.beyond)] && q.client.out == Filled(fill) && q.client.mismatches == 0
  {
    var q := Next(w, s);
    EchoMatches(w.client, TEST_SIZE);
    assert Drop(w.flight, 0) == [];
    FarewellMemory(w0, w, fill, s.beyond);
  }

  lemma {:induction false} FarewellMemory(w0: Net, w: Net, fill: seq<nat>, beyond: string)
    requires Sized(w0) && Sized(w) && |fill| == BUFFER_SIZE && w.resolved > 0 && Untouched(w0, w, fill)
    ensures CString(Received(w.client, w.client.out[..TEST_SIZE]).buf + beyond) == Farewell(w0, fill, beyond)
  {
    var d := w.client.out[..TEST_SIZE];
    assert d[..TEST_SIZE] == d;
    var memory := d + w.client.buf[TEST_SIZE..] + beyond;
    assert memory[TEST_SIZE..] == w0.client.buf[TEST_SIZE..] + beyond && memory[..TEST_SIZE] == d;
    assert forall i :: 0 <= i < TEST_SIZE ==> memory[i] == Filled(fill)[i] == CharRand(fill[i]);
    CStringSplit(memory, TEST_SIZE);
  }

  /** The comparison of a received farewell comes down to the bytes after the first four. */
  lemma {:induction false} FarewellReceived(q: Net, t: Step, out: string, tail: string)
    requires Sized(q) && t.Receive? && t.i == 0 && Enabled(q, t) && q.client.mismatches == 0
    requires q.client.out == out && q.flight == [out[..TEST_SIZE] + tail]
    ensures var n := Min(BUFFER_SIZE - TEST_SIZE, |tail|);
            Next(q, t).client.mismatches == 0 <==> tail[..n] == out[TEST_SIZE..TEST_SIZE + n]
  {
    var n := Min(BUFFER_SIZE - TEST_SIZE, |tail|);
    var d := out[..TEST_SIZE] + tail;
    var m := TEST_SIZE + n;
    assert Min(BUFFER_SIZE, |d|) == m;
    SplitCompare(d[..m], out[..m], TEST_SIZE);
    assert d[..m][..TEST_SIZE] == out[..TEST_SIZE] == out[..m][..TEST_SIZE];
    assert d[..m][TEST_SIZE..] == tail[..n] && out[..m][TEST_SIZE..] == out[TEST_SIZE..m];
  }

  /** In every run the promise ends with the first success: the farewell datagram posted with it is the
      last four test bytes followed by whatever C string the receive buffer held after its fourth byte
      when the client was constructed; its own echo passes the comparison exactly when that string
      agrees with the last fill. */
  lemma {:induction false} FarewellEchoIff(w0: Net, run: seq<Step>, s: Step, t: Step)
    requires Fresh(w0) && Legal(w0, run + [s] + [t]) && DnsCallbacks(run + [s]) <= 1
    requires Legal(w0, run) && Legal(w0, run + [s])
    requires true !in After(w0, run).client.verdicts && true in After(w0, run + [s]).client.verdicts
    requires t.Receive? && t.i == 0
    ensures s.Receive? && |LastFill(run)| == BUFFER_SIZE
    ensures var tail := CString(w0.client.buf[TEST_SIZE..] + s.beyond);
            var n := Min(BUFFER_SIZE - TEST_SIZE, |tail|);
            && After(w0, run + [s]).flight == [Filled(LastFill(run))[..TEST_SIZE] + tail]
            && (After(w0, run + [s] + [t]).client.mismatches == 0
                <==> tail[..n] == Filled(LastFill(run))[TEST_SIZE..TEST_SIZE + n])
  {
    assert (run + [s])[..|run|] == run && (run + [s] + [t])[..|run| + 1] == run + [s];
    FirstSuccess(w0, run + [s]);
    ReachableInv(w0, run);
    TailUntouched(w0, run);
    var w, q := After(w0, run), After(w0, run + [s]);
    assert |w.client.out| == |LastFill(run)|;
    FarewellSent(w0, w, s, LastFill(run));
    FarewellReceived(q, t, Filled(LastFill(run)), CString(w0.client.buf[TEST_SIZE..] + s.beyond));
  }

  lemma {:induction false} OneMore(w0: Net, run: seq<Step>, s: Step)
    requires Sized(w0) && Legal(w0, run) && Enabled(After(w0, run), s)
    ensures Legal(w0, run + [s]) && After(w0, run + [s]) == Next(After(w0, run), s)
  {
    assert (run + [s])[..|run|] == run;
  }

  /** Resolved, then n echoes received one after the other, always with the same fill. */
  function Rounds(rands: seq<nat>, n: nat): seq<Step> {
    if n == 0 then [Dns(rands)] else Rounds(rands, n - 1) + [Receive(0, rands, "")]
  }

  /** Where n rounds lead: the same test outstanding, the tail of the receive buffer untouched. */
  predicate AfterRounds(w0: Net, w: Net, rands: seq<nat>, n: nat)
    requires |rands| == BUFFER_SIZE
  {
    && Sized(w0) && Sized(w) && w.resolved == 1 && w.client.loopCtr == n
    && w.flight == [Filled(rands)[..TEST_SIZE]] && w.client.out == Filled(rands)
    && w.client.buf[TEST_SIZE..] == w0.client.buf[TEST_SIZE..] && w.client.verdicts == []
  }

  lemma {:induction false} RoundsRun(w0: Net, rands: seq<nat>, n: nat)
    requires Fresh(w0) && |rands| == BUFFER_SIZE && n < MAX_ECHO_LOOPS
    ensures Legal(w0, Rounds(rands, n)) && AfterRounds(w0, After(w0, Rounds(rands, n)), rands, n)
  {
    if n == 0 {
      RoundZero(w0, rands);
      assert Rounds(rands, n) == [Dns(rands)];
    } else {
      var run := Rounds(rands, n - 1);
      assert Rounds(rands, n) == run + [Receive(0, rands, "")];
      RoundsRun(w0, rands, n - 1);
      OneRoundMore(w0, rands, run, n - 1);
    }
  }

  lemma {:induction false} OneRoundMore(w0: Net, rands: seq<nat>, run: seq<Step>, n: nat)
    requires Fresh(w0) && |rands| == BUFFER_SIZE && n + 1 < MAX_ECHO_LOOPS
    requires Legal(w0, run) && AfterRounds(w0, After(w0, run), rands, n)
    ensures var more := run + [Receive(0, rands, "")];
            Legal(w0, more) && AfterRounds(w0, After(w0, more), rands, n + 1)
  {
    OneMore(w0, run, Receive(0, rands, ""));
    RoundStep(w0, After(w0, run), rands, n);
  }

  lemma {:induction false} RoundZero(w0: Net, rands: seq<nat>)
    requires Fresh(w0) && |rands| == BUFFER_SIZE
    ensures Legal(w0, [Dns(rands)]) && AfterRounds(w0, After(w0, [Dns(rands)]), rands, 0)
  {
    var r0: seq<Step> := [];
    assert r0 + [Dns(rands)] == [Dns(rands)] && Legal(w0, r0) && After(w0, r0) == w0;
    OneMore(w0, r0, Dns(rands));
    FirstTest(w0, rands);
  }

  lemma {:induction false} FirstTest(w0: Net, rands: seq<nat>)
    requires Fresh(w0) && |rands| == BUFFER_SIZE
    ensures AfterRounds(w0, Next(w0, Dns(rands)), rands, 0)
  {
    var test := [Filled(rands)[..TEST_SIZE]];
    assert w0.flight + test == test;
  }

  lemma {:induction false} RoundStep(w0: Net, w: Net, rands: seq<nat>, n: nat)
    requires |rands| == BUFFER_SIZE && AfterRounds(w0, w, rands, n) && n + 1 < MAX_ECHO_LOOPS
    ensures AfterRounds(w0, Next(w, Receive(0, rands, "")), rands, n + 1)
  {
    assert Drop(w.flight, 0) == [];
    var d := w.flight[0];
    assert (d[..TEST_SIZE] + w.client.buf[TEST_SIZE..])[TEST_SIZE..] == w.client.buf[TEST_SIZE..];
  }

  /** It does fail: if the receive buffer started with neither NUL nor the filled character at index 4,
      the run of 100 echoes posts success and the farewell's echo is then reported as a mismatch. */
  lemma {:induction false} FarewellEchoCanFail(w0: Net, rands: seq<nat>, n: nat, s: Step)
    requires Fresh(w0) && |rands| == BUFFER_SIZE && n == MAX_ECHO_LOOPS - 1 && s == Receive(0, rands, "")
    requires w0.client.buf[TEST_SIZE] != '\0' && w0.client.buf[TEST_SIZE] != CharRand(rands[TEST_SIZE])
    ensures var run := Rounds(rands, n);
            Legal(w0, run) && Legal(w0, run + [s]) && true in After(w0, run + [s]).client.verdicts
            && Legal(w0, run + [s] + [s]) && After(w0, run + [s] + [s]).client.mismatches > 0
  {
    var run := Rounds(rands, n);
    RoundsRun(w0, rands, n);
    RoundsDns(rands, n);
    ReachableInv(w0, run);
    var w := After(w0, run);
    FarewellSent(w0, w, s, rands);
    OneMore(w0, run, s);
    assert After(w0, run + [s]).client.verdicts[|w.client.verdicts|];
    OneMore(w0, run + [s], s);
    var tail := CString(w0.client.buf[TEST_SIZE..] + s.beyond);
    FarewellReceived(After(w0, run + [s]), s, Filled(rands), tail);
    assert tail[0] == w0.client.buf[TEST_SIZE] && tail[..Min(BUFFER_SIZE - TEST_SIZE, |tail|)][0] == tail[0];
  }

  lemma {:induction false} RoundsDns(rands: seq<nat>, n: nat)
    ensures DnsCallbacks(Rounds(rands, n)) == 1
  {
    if n == 0 {
      assert [Dns(rands)][..0] == [];
    } else {
      RoundsDns(rands, n - 1);
      assert Rounds(rands, n)[..|Rounds(rands, n)| - 1] == Rounds(rands, n - 1);
    }
  }

  lemma SplitCompare(a: string, b: string, k: nat)
    requires |a| == |b| && k <= |a|
    ensures a == b <==> a[..k] == b[..k] && a[k..] == b[k..]
  {
    assert a == a[..k] + a[k..] && b == b[..k] + b[k..];
  }

  /** One DNS callback is needed: a second one refills the buffer under an outstanding datagram,
      whose echo then passes the comparison only if the two fills happen to start alike. */
  lemma {:induction false} SecondDnsPassesIff(w0: Net, a: seq<nat>, b: seq<nat>, c: seq<nat>)
    requires Fresh(w0) && |a| == |b| == |c| == BUFFER_SIZE
    ensures var run := [Dns(a), Dns(b), Receive(0, c, "")];
            Legal(w0, run)
            && (After(w0, run).client.mismatches == 0 <==> Filled(a)[..TEST_SIZE] == Filled(b)[..TEST_SIZE])
  {
    var run := [Dns(a), Dns(b), Receive(0, c, "")];
    var r1, r2 := [Dns(a)], [Dns(a), Dns(b)];
    assert r1[..0] == [] && r2[..1] == r1 && run[..2] == r2;
    assert Legal(w0, r1[..0]) && After(w0, r1[..0]) == w0;
    assert Legal(w0, r1) && After(w0, r1) == Next(w0, Dns(a));
    assert Legal(w0, r2) && After(w0, r2) == Next(After(w0, r1), Dns(b));
    var w := After(w0, r2);
    var d := Filled(a)[..TEST_SIZE];
    assert w.flight[0] == d && w.client.out == Filled(b) && w.client.mismatches == 0;
    assert d[..TEST_SIZE] == d;
    assert Legal(w0, run) && After(w0, run) == Next(w, Receive(0, c, ""));
  }
}
