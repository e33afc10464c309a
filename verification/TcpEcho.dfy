/** The TCP echo test: the device client and the host handler as two parties joined by two
    reliable, ordered byte streams (section 2.6 of RFC 793) that may be cut into pieces anywhere.
    Callbacks run to completion, in any order the stack's events allow. */
module TcpEcho {
  import Sal

  const HELLO: string := "Hello World\n"
  const SUCCESS: string := "{{success}}\n{{end}}\n"
  const MARK: string := "{{end}}"
  const MARK_AT: nat := 24                 // where it stands in what the client sends

  const SIZE_RANGE: nat := 0x1_0000_0000   // values of size_t on the target
  const CLIENT_BUFFER: nat := 256
  const HOST_READ: nat := 1024

  function UnsignedAdd(a: nat, b: nat): nat {
    (a + b) % SIZE_RANGE
  }

  function UnsignedSub(a: nat, b: nat): nat {
    (a - b) % SIZE_RANGE
  }

  /** Whether `pattern` occurs in `data`. */
  predicate Contains(data: string, pattern: string) {
    exists i :: 0 <= i <= |data| - |pattern| && OccursAt(data, pattern, i)
  }

  predicate OccursAt(data: string, pattern: string, i: nat)
    requires i + |pattern| <= |data|
  {
    data[i..i + |pattern|] == pattern
  }

  /** What the host sends back for one piece it received. */
  function EchoOf(data: string): string {
    if Contains(data, MARK) then "" else data
  }

  function CharAt(s: string, i: nat): char {
    if i < |s| then s[i] else '\0'
  }

  /** The length-limited C string comparison the test uses: it stops early when both strings end. */
  predicate EqualStringLen(expected: string, actual: string, i: nat, n: nat)
    decreases n - i
  {
    i >= n
    || (CharAt(expected, i) == CharAt(actual, i)
        && (CharAt(expected, i) == '\0' || EqualStringLen(expected, actual, i + 1, n)))
  }

  // ------------------------------------------------------------------- the client

  /** The client's own state, the verdicts it posted (terminate's status) and how many
      round-trip comparisons failed. `unacked` is arbitrary until the connection is up. */
  datatype Client = Client(done: bool, disconnected: bool, unacked: nat, verdicts: seq<bool>, mismatches: nat)

  function OnConnect(c: Client): Client {
    c.(disconnected := false, unacked := |HELLO|)
  }

  /** The bytes read, n of them; the client answers the first non-empty read. */
  function OnRx(c: Client, data: string): Client {
    var c1 :=
      if !c.done && |data| > 0 then
        c.(unacked := UnsignedAdd(c.unacked, |SUCCESS|), done := true,
           mismatches := c.mismatches + if EqualStringLen(HELLO, data, 0, |data|) then 0 else 1)
      else c;
    if !c1.done then c1.(verdicts := c1.verdicts + [false]) else c1
  }

  function OnSent(c: Client, n: nat): Client {
    var c1 := c.(unacked := UnsignedSub(c.unacked, n));
    if c1.done && c1.unacked == 0 then c1.(verdicts := c1.verdicts + [true]) else c1
  }

  function OnError(c: Client): Client {
    c.(done := true, verdicts := c.verdicts + [false])
  }

  function OnDisconnect(c: Client): Client {
    c.(disconnected := true)
  }

  // --------------------------------------------------------------------- the wire

  /** Both parties and both streams: what the client sent, how much of it the host has read, what
      the host sent back, how much of that the client has read, and the bytes acknowledged. */
  datatype Wire = Wire(client: Client, up: bool, sent: string, hostRead: nat, hostUp: bool, echoed: string,
                       clientRead: nat, acked: nat)

  datatype Step =
    | Connected               // the connect callback runs
    | HostTurn(k: nat)        // the host receives k bytes and echoes them, or not
    | HostBreaks(k: nat, j: nat)  // the host receives k bytes and its send ends the loop after j of them
    | HostStops               // the host's loop ends
    | Readable(n: nat)        // the readable callback runs and reads n bytes
    | Sent(n: nat)            // the sent callback runs with n bytes
    | Errored                 // the error callback runs
    | Disconnected            // the disconnect callback runs

  function Start(unacked: nat): Wire {
    Wire(Client(false, true, unacked, [], 0), false, "", 0, true, "", 0, 0)
  }

  /** What the streams and the stack allow: a party reads only bytes that were sent, the client's
      read fits its buffer, and the stack reports only bytes already sent. The host's send can fail, or
      find the server stopped, only for a piece that is to be sent back. */
  predicate Enabled(w: Wire, s: Step) {
    match s
    case Connected => !w.up
    case HostTurn(k) => w.hostUp && 1 <= k <= HOST_READ && w.hostRead + k <= |w.sent|
    case HostBreaks(k, j) =>
      && w.hostUp && 1 <= k <= HOST_READ && w.hostRead + k <= |w.sent| && j <= k
      && !Contains(w.sent[w.hostRead..w.hostRead + k], MARK)
    case HostStops => true
    case Readable(n) => w.up && n < CLIENT_BUFFER && w.clientRead + n <= |w.echoed|
    case Sent(n) => w.up && n < 0x1_0000 && w.acked + n <= |w.sent|
    case Errored => true
    case Disconnected => true
  }

  function Next(w: Wire, s: Step): Wire
    requires Enabled(w, s)
  {
    match s
    case Connected => w.(client := OnConnect(w.client), up := true, sent := w.sent + HELLO)
    case HostTurn(k) =>
      w.(hostRead := w.hostRead + k, echoed := w.echoed + EchoOf(w.sent[w.hostRead..w.hostRead + k]))
    case HostBreaks(k, j) =>
      w.(hostRead := w.hostRead + k, hostUp := false, echoed := w.echoed + w.sent[w.hostRead..w.hostRead + j])
    case HostStops => w.(hostUp := false)
    case Readable(n) =>
      var data := w.echoed[w.clientRead..w.clientRead + n];
      w.(client := OnRx(w.client, data), clientRead := w.clientRead + n,
         sent := if !w.client.done && n > 0 then w.sent + SUCCESS else w.sent)
    case Sent(n) => w.(client := OnSent(w.client, n), acked := w.acked + n)
    case Errored => w.(client := OnError(w.client))
    case Disconnected => w.(client := OnDisconnect(w.client))
  }

  predicate Legal(u: nat, run: seq<Step>)
    decreases |run|, 0
  {
    run == [] || (Legal(u, run[..|run| - 1]) && Enabled(After(u, run[..|run| - 1]), run[|run| - 1]))
  }

  function After(u: nat, run: seq<Step>): Wire
    requires Legal(u, run)
    decreases |run|, 1
  {
    if run == [] then Start(u) else Next(After(u, run[..|run| - 1]), run[|run| - 1])
  }

  lemma {:induction false} LegalPrefix(u: nat, run: seq<Step>, i: nat)
    requires Legal(u, run) && i <= |run|
    ensures Legal(u, run[..i])
    ensures i < |run| ==> Enabled(After(u, run[..i]), run[i])
    decreases |run|
  {
    if i == |run| {
      assert run[..i] == run;
    } else {
      var front := run[..|run| - 1];
      assert front[..i] == run[..i];
      if i < |front| {
        LegalPrefix(u, front, i);
      }
    }
  }

  // -------------------------------------------------------------- text of the messages

  /** The end marker occurs in the two messages at one place only. */
  lemma MarkOccursOnce(i: nat)
    requires i + |MARK| <= |HELLO + SUCCESS| && OccursAt(HELLO + SUCCESS, MARK, i)
    ensures i == MARK_AT
  {
    var s := HELLO + SUCCESS;
    assert s[i] == MARK[0] && s[i + 1] == MARK[1] && s[i + 2] == MARK[2];
  }

  lemma HelloHasNoMark(a: nat, b: nat)
    requires a <= b <= |HELLO|
    ensures !Contains(HELLO[a..b], MARK)
  {
    var data := HELLO[a..b];
    forall i | 0 <= i <= |data| - |MARK|
      ensures !OccursAt(data, MARK, i)
    {
      assert data[i..i + |MARK|][0] == HELLO[a + i];
    }
  }

  lemma {:induction false} PrefixCompares(n: nat, i: nat)
    requires i <= n <= |HELLO|
    ensures EqualStringLen(HELLO, HELLO[..n], i, n)
    decreases n - i
  {
    if i == n {
    } else {
      PrefixCompares(n, i + 1);
    }
  }

  /** The greeting reads like the data from index i on. */
  predicate ReadsLike(data: string, i: nat) {
    forall k :: i <= k < |data| ==> CharAt(HELLO, k) == data[k]
  }

  lemma {:induction false} ComparesFrom(data: string, i: nat)
    requires '\0' !in data && i <= |data|
    ensures EqualStringLen(HELLO, data, i, |data|) <==> ReadsLike(data, i)
    decreases |data| - i
  {
    if i == |data| {
    } else {
      ComparesFrom(data, i + 1);
      assert data[i] in data;
      assert ReadsLike(data, i) <==> CharAt(HELLO, i) == data[i] && ReadsLike(data, i + 1);
    }
  }

  /** The comparison rejects everything else: data without NUL passes iff it is a prefix of the greeting. */
  lemma {:induction false} ComparesIff(data: string)
    requires '\0' !in data
    ensures EqualStringLen(HELLO, data, 0, |data|) <==> data <= HELLO
  {
    ComparesFrom(data, 0);
    assert |data| > |HELLO| ==> data[|HELLO|] in data;
    if ReadsLike(data, 0) {
      assert forall k :: 0 <= k < |data| ==> data[k] == CharAt(HELLO, k) == HELLO[k];
    } else {
      var k :| 0 <= k < |data| && CharAt(HELLO, k) != data[k];
    }
  }

  /** So whatever arrives first, the client counts a mismatch unless it is a prefix of the greeting. */
  lemma {:induction false} ClientRejectsIff(c: Client, data: string)
    requires !c.done && data != "" && '\0' !in data
    ensures OnRx(c, data).mismatches == c.mismatches <==> data <= HELLO
  {
    ComparesIff(data);
  }

  // ------------------------------------------------------------------- the invariant

  /** What the host has echoed: everything it read but the last `lost` bytes, without the bytes from a to
      b, one piece with the marker (if a < b). */
  ghost predicate EchoShape(w: Wire, lost: nat, a: nat, b: nat) {
    && lost <= w.hostRead <= |w.sent| && (w.hostUp ==> lost == 0)
    && a <= b <= w.hostRead - lost && EchoCut(w.sent, w.hostRead - lost, w.echoed, a, b)
  }

  /** `echoed` is the first r bytes of `sent` without those from a to b, which cover the marker if any. */
  ghost predicate EchoCut(sent: string, r: nat, echoed: string, a: nat, b: nat)
    requires a <= b <= r <= |sent|
  {
    echoed == sent[..a] + sent[b..r] && (a < b ==> a <= MARK_AT && MARK_AT + |MARK| <= b)
  }

  predicate SentShape(w: Wire) {
    && (w.sent == if !w.up then "" else if |w.sent| == |HELLO| then HELLO else HELLO + SUCCESS)
    && (!w.client.done ==> |w.sent| <= |HELLO|)
  }

  predicate EchoBeforeAnswer(w: Wire) {
    w.hostRead <= |w.sent| && (|w.sent| <= |HELLO| ==> w.echoed <= w.sent[..w.hostRead] && (w.hostUp ==> |w.echoed| == w.hostRead))
  }

  /** Acknowledgement accounting, in unbounded integers. */
  predicate Balanced(w: Wire) {
    w.acked <= |w.sent| && (w.up ==> w.client.unacked + w.acked == |w.sent|)
  }

  predicate Inv(w: Wire) {
    SentShape(w) && EchoBeforeAnswer(w) && Balanced(w) && w.client.mismatches == 0 && w.clientRead <= |w.echoed|
  }

  lemma {:induction false} HostTurnKeepsInv(w: Wire, k: nat)
    requires Inv(w) && Enabled(w, HostTurn(k))
    ensures Inv(Next(w, HostTurn(k)))
  {
    if |w.sent| == |HELLO| {
      HelloHasNoMark(w.hostRead, w.hostRead + k);
      assert w.sent[..w.hostRead] + w.sent[w.hostRead..w.hostRead + k] == w.sent[..w.hostRead + k];
    }
  }

  lemma {:induction false} HostBreakKeepsInv(w: Wire, k: nat, j: nat)
    requires Inv(w) && Enabled(w, HostBreaks(k, j))
    ensures Inv(Next(w, HostBreaks(k, j)))
  {
    if |w.sent| == |HELLO| {
      assert w.sent[..w.hostRead] + w.sent[w.hostRead..w.hostRead + j] == w.sent[..w.hostRead + j];
      assert w.sent[..w.hostRead + j] <= w.sent[..w.hostRead + k];
    }
  }

  /** Before the client has answered, what it can read is the start of its own greeting. */
  lemma {:induction false} FirstReadIsGreeting(w: Wire, n: nat)
    requires Inv(w) && Enabled(w, Readable(n)) && !w.client.done && w.clientRead == 0
    ensures n <= |HELLO| && w.echoed[w.clientRead..w.clientRead + n] == HELLO[..n]
    ensures EqualStringLen(HELLO, w.echoed[w.clientRead..w.clientRead + n], 0, n)
  {
    assert w.echoed[..n] == HELLO[..n];
    PrefixCompares(n, 0);
  }

  /** Nothing has been consumed from the echo stream before the client's first non-empty read. */
  predicate Unread(w: Wire) {
    !w.client.done ==> w.clientRead == 0
  }

  lemma {:induction false} StepKeepsInv(w: Wire, s: Step)
    requires Inv(w) && Unread(w) && Enabled(w, s)
    ensures Inv(Next(w, s)) && Unread(Next(w, s))
  {
    match s
    case HostTurn(k) => HostTurnKeepsInv(w, k);
    case HostBreaks(k, j) => HostBreakKeepsInv(w, k, j);
    case Readable(n) => ReadKeepsInv(w, n);
    case Sent(n) => AckKeepsInv(w, n);
    case _ =>
  }

  lemma {:induction false} ReadKeepsInv(w: Wire, n: nat)
    requires Inv(w) && Unread(w) && Enabled(w, Readable(n))
    ensures Inv(Next(w, Readable(n))) && Unread(Next(w, Readable(n)))
  {
    if !w.client.done {
      FirstReadIsGreeting(w, n);
    }
  }

  lemma {:induction false} AckKeepsInv(w: Wire, n: nat)
    requires Inv(w) && Unread(w) && Enabled(w, Sent(n))
    ensures Inv(Next(w, Sent(n))) && Unread(Next(w, Sent(n)))
  {}

  lemma {:induction false} ReachableInv(u: nat, run: seq<Step>)
    requires Legal(u, run)
    ensures Inv(After(u, run)) && Unread(After(u, run))
    decreases |run|
  {
    if run == [] {
    } else {
      ReachableInv(u, run[..|run| - 1]);
      StepKeepsInv(After(u, run[..|run| - 1]), run[|run| - 1]);
    }
  }

  // -------------------------------------------------------------- round trip and echo

  /** If the step is the first non-empty read, it reads a prefix of the greeting. */
  predicate ReadsGreeting(w: Wire, s: Step)
    requires Enabled(w, s)
  {
    s.Readable? && s.n > 0 && !w.client.done ==>
      s.n <= |HELLO| && w.echoed[w.clientRead..w.clientRead + s.n] == HELLO[..s.n]
  }

  lemma {:induction false} FirstReadGreets(w: Wire, s: Step)
    requires Inv(w) && Unread(w) && Enabled(w, s)
    ensures ReadsGreeting(w, s)
  {
    if s.Readable? && !w.client.done {
      FirstReadIsGreeting(w, s.n);
    }
  }

  /** For every segmentation, the first non-empty read is a non-empty prefix of the greeting; no
      comparison ever fails, in any run. */
  lemma {:induction false} RoundTripNeverFails(u: nat, run: seq<Step>)
    requires Legal(u, run)
    ensures After(u, run).client.mismatches == 0
    ensures run != [] ==> ReadsGreeting(After(u, run[..|run| - 1]), run[|run| - 1])
  {
    assert After(u, run).client.mismatches == 0 by { ReachableInv(u, run); }
    if run != [] {
      ReachableInv(u, run[..|run| - 1]);
      FirstReadGreets(After(u, run[..|run| - 1]), run[|run| - 1]);
    }
  }

  lemma SliceOfSlice(s: string, a: nat, b: nat, i: nat, j: nat)
    requires a <= b <= |s| && i <= j <= b - a
    ensures s[a..b][i..j] == s[a + i..a + j]
  {
    var x, y := s[a..b][i..j], s[a + i..a + j];
    assert |x| == |y| && forall k :: 0 <= k < |x| ==> x[k] == s[a + i + k] && y[k] == s[a + i + k];
  }

  /** A piece with the marker covers its only occurrence, so no later piece can have it. */
  lemma {:induction false} MarkCovered(sent: string, a: nat, b: nat)
    requires sent == "" || sent == HELLO || sent == HELLO + SUCCESS
    requires a <= b <= |sent| && Contains(sent[a..b], MARK)
    ensures sent == HELLO + SUCCESS && a <= MARK_AT && MARK_AT + |MARK| <= b
  {
    var data := sent[a..b];
    var i :| 0 <= i <= |data| - |MARK| && OccursAt(data, MARK, i);
    if sent == HELLO {
      HelloHasNoMark(a, b);
    } else {
      SliceOfSlice(sent, a, b, i, i + |MARK|);
      MarkOccursOnce(a + i);
    }
  }

  /** Every piece of this text that has the marker covers one place. */
  ghost predicate MarkPlaced(sent: string) {
    forall a, b :: 0 <= a <= b <= |sent| && Contains(sent[a..b], MARK) ==> a <= MARK_AT && MARK_AT + |MARK| <= b
  }

  lemma {:induction false} MarkIsPlaced(u: nat, run: seq<Step>)
    requires Legal(u, run)
    ensures MarkPlaced(After(u, run).sent)
  {
    var sent := After(u, run).sent;
    assert sent == "" || sent == HELLO || sent == HELLO + SUCCESS by { ReachableInv(u, run); }
    forall a, b | 0 <= a <= b <= |sent| && Contains(sent[a..b], MARK)
      ensures a <= MARK_AT && MARK_AT + |MARK| <= b
    {
      MarkCovered(sent, a, b);
    }
  }

  lemma {:induction false} CutGrows(sent: string, r: nat, echoed: string, a: nat, b: nat, k: nat)
    requires a <= b <= r <= r + k <= |sent| && EchoCut(sent, r, echoed, a, b)
    ensures EchoCut(sent, r + k, echoed + sent[r..r + k], a, b)
  {
    assert sent[b..r] + sent[r..r + k] == sent[b..r + k];
  }

  /** Sending back j more of the next k bytes, none of them the marker's. */
  lemma {:induction false} SentPieceKeepsEcho(w: Wire, q: Wire, k: nat, j: nat, a: nat, b: nat)
    requires EchoShape(w, 0, a, b) && j <= k && w.hostRead + k <= |w.sent| && q.sent == w.sent && q.hostRead == w.hostRead + k
    requires q.echoed == w.echoed + w.sent[w.hostRead..w.hostRead + j] && (q.hostUp ==> j == k)
    ensures EchoShape(q, k - j, a, b)
  {
    CutGrows(w.sent, w.hostRead, w.echoed, a, b, j);
  }

  lemma {:induction false} DroppedPieceKeepsEcho(w: Wire, k: nat, a: nat, b: nat)
    requires MarkPlaced(w.sent) && EchoShape(w, 0, a, b) && Enabled(w, HostTurn(k))
    requires Contains(w.sent[w.hostRead..w.hostRead + k], MARK)
    ensures EchoShape(Next(w, HostTurn(k)), 0, w.hostRead, w.hostRead + k)
  {
    NothingDroppedBefore(w, k, a, b);
    var r := w.hostRead + k;
    assert w.sent[r..r] == "" && w.echoed + "" == w.sent[..w.hostRead] + "";
  }

  lemma {:induction false} NothingDroppedBefore(w: Wire, k: nat, a: nat, b: nat)
    requires MarkPlaced(w.sent) && EchoShape(w, 0, a, b) && w.hostRead + k <= |w.sent|
    requires Contains(w.sent[w.hostRead..w.hostRead + k], MARK)
    ensures w.echoed == w.sent[..w.hostRead]
  {
    assert w.hostRead <= MARK_AT;
    assert w.sent[..a] + w.sent[a..w.hostRead] == w.sent[..w.hostRead];
  }

  lemma {:induction false} GrowthKeepsEcho(w: Wire, q: Wire, lost: nat, a: nat, b: nat)
    requires EchoShape(w, lost, a, b) && w.sent <= q.sent && q.hostRead == w.hostRead && q.echoed == w.echoed
    requires q.hostUp ==> w.hostUp
    ensures EchoShape(q, lost, a, b)
  {
    var r := w.hostRead - lost;
    assert q.sent[..a] == w.sent[..a] && q.sent[b..r] == w.sent[b..r];
  }

  /** The bytes read and not sent back because the send failed or the server had stopped. */
  function Lost(run: seq<Step>): nat
    decreases |run|
  {
    if run == [] then 0 else Lost(run[..|run| - 1]) + LostIn(run[|run| - 1])
  }

  function LostIn(s: Step): nat {
    if s.HostBreaks? && s.j <= s.k then s.k - s.j else 0
  }

  /** The host receives a piece that holds the end marker whole. */
  predicate HoldsMark(w: Wire, s: Step)
    requires Enabled(w, s)
  {
    s.HostTurn? && Contains(w.sent[w.hostRead..w.hostRead + s.k], MARK)
  }

  /** Where the piece with the marker was, after a step: (from, to), or an empty range if there was none. */
  function CutBy(w: Wire, s: Step, cut: (nat, nat)): (nat, nat)
    requires Enabled(w, s)
  {
    if HoldsMark(w, s) then (w.hostRead, w.hostRead + s.k) else cut
  }

  function Cut(u: nat, run: seq<Step>): (nat, nat)
    requires Legal(u, run)
    decreases |run|
  {
    if run == [] then (0, 0)
    else CutBy(After(u, run[..|run| - 1]), run[|run| - 1], Cut(u, run[..|run| - 1]))
  }

  lemma {:induction false} TurnKeepsEcho(w: Wire, k: nat, lost: nat, cut: (nat, nat))
    requires MarkPlaced(w.sent) && EchoShape(w, lost, cut.0, cut.1) && Enabled(w, HostTurn(k))
    ensures var cut' := CutBy(w, HostTurn(k), cut);
            EchoShape(Next(w, HostTurn(k)), lost, cut'.0, cut'.1)
  {
    if HoldsMark(w, HostTurn(k)) {
      DroppedPieceKeepsEcho(w, k, cut.0, cut.1);
    } else {
      SentPieceKeepsEcho(w, Next(w, HostTurn(k)), k, k, cut.0, cut.1);
    }
  }

  lemma {:induction false} BreakKeepsEcho(w: Wire, k: nat, j: nat, lost: nat, a: nat, b: nat)
    requires EchoShape(w, lost, a, b) && Enabled(w, HostBreaks(k, j))
    ensures EchoShape(Next(w, HostBreaks(k, j)), lost + LostIn(HostBreaks(k, j)), a, b)
  {
    SentPieceKeepsEcho(w, Next(w, HostBreaks(k, j)), k, j, a, b);
  }

  lemma {:induction false} OtherKeepsEcho(w: Wire, s: Step, lost: nat, a: nat, b: nat)
    requires EchoShape(w, lost, a, b) && Enabled(w, s) && !s.HostTurn? && !s.HostBreaks?
    ensures EchoShape(Next(w, s), lost + LostIn(s), a, b)
  {
    HostUntouched(w, s);
    GrowthKeepsEcho(w, Next(w, s), lost, a, b);
  }

  lemma {:induction false} HostUntouched(w: Wire, s: Step)
    requires Enabled(w, s) && !s.HostTurn? && !s.HostBreaks?
    ensures var q := Next(w, s);
            w.sent <= q.sent && q.hostRead == w.hostRead && q.echoed == w.echoed && (q.hostUp ==> w.hostUp)
  {}

  lemma {:induction false} StepKeepsEcho(w: Wire, s: Step, lost: nat, cut: (nat, nat))
    requires MarkPlaced(w.sent) && EchoShape(w, lost, cut.0, cut.1) && Enabled(w, s)
    ensures var cut' := CutBy(w, s, cut);
            EchoShape(Next(w, s), lost + LostIn(s), cut'.0, cut'.1)
  {
    match s
    case HostTurn(k) => TurnKeepsEcho(w, k, lost, cut);
    case HostBreaks(k, j) => BreakKeepsEcho(w, k, j, lost, cut.0, cut.1);
    case _ => OtherKeepsEcho(w, s, lost, cut.0, cut.1);
  }

  /** Conservation on the wire: in every run the host has sent back everything it read, in order,
      except the piece it received that holds the end marker whole, if there was one, and the end of the
      last piece if its send failed or found the server stopped. */
  lemma {:induction false} EchoIsAllButTheMark(u: nat, run: seq<Step>)
    requires Legal(u, run)
    ensures var w, cut := After(u, run), Cut(u, run);
            && cut.0 <= cut.1 <= w.hostRead - Lost(run) <= w.hostRead <= |w.sent| && (w.hostUp ==> Lost(run) == 0)
            && w.echoed == w.sent[..cut.0] + w.sent[cut.1..w.hostRead - Lost(run)]
            && (cut.0 < cut.1 ==> Contains(w.sent[cut.0..cut.1], MARK))
  {
    var w, cut := After(u, run), Cut(u, run);
    EchoKeepsShape(u, run);
    if cut.0 < cut.1 {
      assert SentShape(w) by { ReachableInv(u, run); }
      MarkInside(w.sent, cut.0, cut.1);
    }
  }

  lemma {:induction false} MarkInside(sent: string, a: nat, b: nat)
    requires sent == "" || sent == HELLO || sent == HELLO + SUCCESS
    requires a <= MARK_AT && MARK_AT + |MARK| <= b <= |sent|
    ensures Contains(sent[a..b], MARK)
  {
    var i := MARK_AT - a;
    SliceOfSlice(sent, a, b, i, i + |MARK|);
    assert OccursAt(sent[a..b], MARK, i);
  }

  lemma {:induction false} EchoKeepsShape(u: nat, run: seq<Step>)
    requires Legal(u, run)
    ensures EchoShape(After(u, run), Lost(run), Cut(u, run).0, Cut(u, run).1)
    decreases |run|
  {
    if run == [] {
    } else {
      var front, s := run[..|run| - 1], run[|run| - 1];
      assert After(u, run) == Next(After(u, front), s) && Lost(run) == Lost(front) + LostIn(s);
      assert Cut(u, run) == CutBy(After(u, front), s, Cut(u, front));
      EchoKeepsShape(u, front);
      MarkIsPlaced(u, front);
      StepReaches(After(u, front), s, After(u, run), Lost(front), Lost(run), Cut(u, front), Cut(u, run));
    }
  }

  lemma {:induction false} StepReaches(w: Wire, s: Step, q: Wire, lost: nat, lost': nat, cut: (nat, nat), cut': (nat, nat))
    requires MarkPlaced(w.sent) && EchoShape(w, lost, cut.0, cut.1) && Enabled(w, s)
    requires q == Next(w, s) && lost' == lost + LostIn(s) && cut' == CutBy(w, s, cut)
    ensures EchoShape(q, lost', cut'.0, cut'.1)
  {
    StepKeepsEcho(w, s, lost, cut);
  }

  // ------------------------------------------------------------------ acknowledgements

  lemma {:induction false} AlwaysBalanced(u: nat, run: seq<Step>)
    requires Legal(u, run)
    ensures Balanced(After(u, run)) && |After(u, run).sent| <= 32
  {
    ReachableInv(u, run);
  }

  /** Once connected, unacknowledged plus reported bytes are the bytes sent, so the unsigned
      subtraction in the sent callback never wraps, however the callbacks are ordered. */
  lemma {:induction false} UnackedNeverWraps(u: nat, run: seq<Step>, n: nat)
    requires Legal(u, run) && After(u, run).up
    ensures After(u, run).client.unacked + After(u, run).acked == |After(u, run).sent|
    ensures Enabled(After(u, run), Sent(n)) ==>
              n <= After(u, run).client.unacked
              && UnsignedSub(After(u, run).client.unacked, n) == After(u, run).client.unacked - n
  {
    AlwaysBalanced(u, run);
  }

  /** Why the connect callback must run once: a second one restarts the count, which then balances iff
      nothing was outstanding. */
  lemma {:induction false} SecondConnectBalancesIff(u: nat, run: seq<Step>)
    requires Legal(u, run) && After(u, run).up
    ensures var w := After(u, run);
            var q := w.(client := OnConnect(w.client), sent := w.sent + HELLO);
            q.client.unacked + q.acked == |q.sent| <==> w.client.unacked == 0
  {
    AlwaysBalanced(u, run);
  }

  /** No connection: none was made yet, or the last news of it was the disconnect callback. */
  predicate LinkDown(run: seq<Step>)
    decreases |run|
  {
    run == [] ||
    match run[|run| - 1]
    case Connected => false
    case Disconnected => true
    case _ => LinkDown(run[..|run| - 1])
  }

  lemma {:induction false} DisconnectedIsLinkDown(u: nat, run: seq<Step>)
    requires Legal(u, run)
    ensures After(u, run).client.disconnected <==> LinkDown(run)
    decreases |run|
  {
    if run == [] {
    } else {
      DisconnectedIsLinkDown(u, run[..|run| - 1]);
      LinkStep(After(u, run[..|run| - 1]), run[|run| - 1]);
    }
  }

  lemma {:induction false} LinkStep(w: Wire, s: Step)
    requires Enabled(w, s)
    ensures Next(w, s).client.disconnected <==> s.Disconnected? || (!s.Connected? && w.client.disconnected)
  {}

  // ------------------------------------------------------------------------ verdicts

  function Count(verdicts: seq<bool>, v: bool): nat
    decreases |verdicts|
  {
    if verdicts == [] then 0
    else Count(verdicts[..|verdicts| - 1], v) + if verdicts[|verdicts| - 1] == v then 1 else 0
  }

  lemma CountAppend(verdicts: seq<bool>, x: bool, v: bool)
    ensures Count(verdicts + [x], v) == Count(verdicts, v) + if x == v then 1 else 0
  {
    assert (verdicts + [x])[..|verdicts|] == verdicts;
  }

  predicate NoErrors(run: seq<Step>) {
    forall i :: 0 <= i < |run| ==> !run[i].Errored?
  }

  /** The steps after which the client no longer cares what it reads: an error, or data. */
  predicate Settles(s: Step) {
    s.Errored? || (s.Readable? && s.n > 0)
  }

  /** The first step of a run that settles it. */
  function FirstSettle(run: seq<Step>): Sal.Option<Step>
    decreases |run|
  {
    if run == [] then Sal.None
    else
      var f, s := FirstSettle(run[..|run| - 1]), run[|run| - 1];
      if f.None? && Settles(s) then Sal.Some(s) else f
  }

  /** Error callbacks, and readable callbacks that found nothing before the first error or data. */
  function Failures(run: seq<Step>): nat
    decreases |run|
  {
    if run == [] then 0
    else
      var front, s := run[..|run| - 1], run[|run| - 1];
      Failures(front) + if s.Errored? || (s == Readable(0) && FirstSettle(front).None?) then 1 else 0
  }

  /** The bytes the sent callbacks reported. */
  function Acked(run: seq<Step>): nat
    decreases |run|
  {
    if run == [] then 0 else Acked(run[..|run| - 1]) + if run[|run| - 1].Sent? then run[|run| - 1].n else 0
  }

  /** Sent callbacks of zero bytes that run when everything was already acknowledged. */
  function IdleAcks(run: seq<Step>): nat
    decreases |run|
  {
    if run == [] then 0
    else IdleAcks(run[..|run| - 1]) + if run[|run| - 1] == Sent(0) && Acked(run[..|run| - 1]) == 32 then 1 else 0
  }

  function PositiveAcks(run: seq<Step>): nat
    decreases |run|
  {
    if run == [] then 0
    else PositiveAcks(run[..|run| - 1]) + if run[|run| - 1].Sent? && run[|run| - 1].n > 0 then 1 else 0
  }

  lemma {:induction false} VerdictStep(w: Wire, s: Step)
    requires Enabled(w, s)
    ensures Count(Next(w, s).client.verdicts, false) == Count(w.client.verdicts, false)
            + if s.Errored? || (s.Readable? && s.n == 0 && !w.client.done) then 1 else 0
    ensures Count(Next(w, s).client.verdicts, true) == Count(w.client.verdicts, true)
            + if s.Sent? && w.client.done && UnsignedSub(w.client.unacked, s.n) == 0 then 1 else 0
  {
    CountAppend(w.client.verdicts, false, false);
    CountAppend(w.client.verdicts, true, false);
    CountAppend(w.client.verdicts, false, true);
    CountAppend(w.client.verdicts, true, true);
  }

  /** The client's answer and its done flag, told by the first settling step. */
  predicate Reflects(w: Wire, f: Sal.Option<Step>) {
    (w.client.done <==> f.Some?) && (|w.sent| == 32 <==> f.Some? && f.value.Readable?)
  }

  lemma {:induction false} StepReflects(w: Wire, s: Step, f: Sal.Option<Step>)
    requires SentShape(w) && Enabled(w, s) && Reflects(w, f) && (f.Some? ==> Settles(f.value))
    ensures Reflects(Next(w, s), if f.None? && Settles(s) then Sal.Some(s) else f)
  {}

  /** The done flag records exactly that an error or data has come, and the answer has gone out exactly
      when data came first. */
  lemma {:induction false} DoneIsSettled(u: nat, run: seq<Step>)
    requires Legal(u, run)
    ensures Reflects(After(u, run), FirstSettle(run)) && After(u, run).acked == Acked(run)
    ensures FirstSettle(run).Some? ==> Settles(FirstSettle(run).value)
    decreases |run|
  {
    if run == [] {
    } else {
      var front := run[..|run| - 1];
      DoneIsSettled(u, front);
      ReachableInv(u, front);
      StepReflects(After(u, front), run[|run| - 1], FirstSettle(front));
      AckedStep(After(u, front), run[|run| - 1]);
    }
  }

  lemma {:induction false} AckedStep(w: Wire, s: Step)
    requires Enabled(w, s)
    ensures Next(w, s).acked == w.acked + if s.Sent? then s.n else 0
  {}

  /** In every run, failure is posted once for each error, and once for each readable callback that
      finds nothing before the first error or data; and for nothing else. */
  lemma {:induction false} FailureVerdicts(u: nat, run: seq<Step>)
    requires Legal(u, run)
    ensures Count(After(u, run).client.verdicts, false) == Failures(run)
    decreases |run|
  {
    if run == [] {
    } else {
      FailureVerdicts(u, run[..|run| - 1]);
      DoneIsSettled(u, run[..|run| - 1]);
      VerdictStep(After(u, run[..|run| - 1]), run[|run| - 1]);
    }
  }

  lemma {:induction false} NoErrorSettles(run: seq<Step>)
    requires NoErrors(run)
    ensures FirstSettle(run).Some? ==> FirstSettle(run).value.Readable?
    decreases |run|
  {
    if run == [] {
    } else {
      NoErrorSettles(run[..|run| - 1]);
    }
  }

  /** Without errors the client is done exactly when it has answered. */
  lemma {:induction false} DoneMeansAnswered(u: nat, run: seq<Step>)
    requires Legal(u, run) && NoErrors(run)
    ensures After(u, run).client.done <==> |After(u, run).sent| == 32
  {
    NoErrorSettles(run);
    DoneIsSettled(u, run);
  }

  /** When a step posts success, told by the bytes acknowledged before and after it. */
  lemma {:induction false} SuccessStep(w: Wire, s: Step)
    requires Inv(w) && Enabled(w, s) && (w.client.done <==> |w.sent| == 32)
    ensures (if s.Sent? && w.client.done && UnsignedSub(w.client.unacked, s.n) == 0 then 1 else 0)
            + (if w.acked == 32 then 1 else 0)
            == (if s == Sent(0) && w.acked == 32 then 1 else 0) + (if Next(w, s).acked == 32 then 1 else 0)
  {
    if s.Sent? && w.client.done {
      assert UnsignedSub(w.client.unacked, s.n) == 32 - w.acked - s.n;
    }
  }

  /** In every error-free run, success is posted when the last of the 12 + 20 bytes is acknowledged,
      and again for each idle acknowledgement after that. */
  lemma {:induction false} SuccessVerdicts(u: nat, run: seq<Step>)
    requires Legal(u, run) && NoErrors(run)
    ensures Count(After(u, run).client.verdicts, true)
            == IdleAcks(run) + if Acked(run) == 32 then 1 else 0
    decreases |run|
  {
    if run == [] {
    } else {
      var front := run[..|run| - 1];
      SuccessVerdicts(u, front);
      ReachableInv(u, front);
      DoneMeansAnswered(u, front);
      DoneIsSettled(u, front);
      AckedStep(After(u, front), run[|run| - 1]);
      VerdictStep(After(u, front), run[|run| - 1]);
      SuccessStep(After(u, front), run[|run| - 1]);
    }
  }

  /** So an error-free run posts success at most once exactly when it has no idle acknowledgement;
      with positive acknowledgements it posts success iff all 32 bytes are acknowledged, which
      needs the greeting echoed and matched and the answer sent. */
  lemma {:induction false} SuccessAtMostOnceIff(u: nat, run: seq<Step>)
    requires Legal(u, run) && NoErrors(run)
    ensures Count(After(u, run).client.verdicts, true) <= 1 <==> IdleAcks(run) == 0
    ensures Count(After(u, run).client.verdicts, true) > 0 <==> Acked(run) == 32
    ensures Count(After(u, run).client.verdicts, true) > 0 ==>
              var w := After(u, run);
              w.client.done && w.sent == HELLO + SUCCESS && w.client.mismatches == 0 && w.clientRead > 0
  {
    SuccessVerdicts(u, run);
    IdleNeedsAll(u, run);
    DoneIsSettled(u, run);
    ReachableInv(u, run);
    DoneMeansAnswered(u, run);
    AnsweredMeansRead(u, run);
  }

  lemma {:induction false} IdleNeedsAll(u: nat, run: seq<Step>)
    requires Legal(u, run)
    ensures IdleAcks(run) > 0 ==> Acked(run) == 32
    decreases |run|
  {
    if run == [] {
    } else {
      IdleNeedsAll(u, run[..|run| - 1]);
      AckedAtMost32(u, run);
    }
  }

  lemma {:induction false} AckedAtMost32(u: nat, run: seq<Step>)
    requires Legal(u, run)
    ensures Acked(run) <= 32
  {
    AlwaysBalanced(u, run);
    DoneIsSettled(u, run);
  }

  predicate AnsweredAfterRead(w: Wire) {
    |w.sent| == 32 ==> w.clientRead > 0
  }

  lemma {:induction false} StepKeepsAnswered(w: Wire, s: Step)
    requires SentShape(w) && AnsweredAfterRead(w) && Enabled(w, s)
    ensures AnsweredAfterRead(Next(w, s))
  {}

  lemma {:induction false} AnsweredMeansRead(u: nat, run: seq<Step>)
    requires Legal(u, run)
    ensures AnsweredAfterRead(After(u, run))
    decreases |run|
  {
    if run == [] {
    } else {
      AnsweredMeansRead(u, run[..|run| - 1]);
      ReachableInv(u, run[..|run| - 1]);
      StepKeepsAnswered(After(u, run[..|run| - 1]), run[|run| - 1]);
    }
  }

  /** The unacknowledged bytes are the measure: a run has at most 32 acknowledgements of one byte or more. */
  lemma {:induction false} AcksAreBounded(u: nat, run: seq<Step>)
    requires Legal(u, run)
    ensures PositiveAcks(run) <= After(u, run).acked <= 32
    decreases |run|
  {
    AlwaysBalanced(u, run);
    if run == [] {
    } else {
      AcksAreBounded(u, run[..|run| - 1]);
    }
  }

  /** Sent callbacks that bring the acknowledged bytes to the whole greeting when an error, not data, was
      what came first. */
  function EarlyFinishes(run: seq<Step>): nat
    decreases |run|
  {
    if run == [] then 0
    else EarlyFinishes(run[..|run| - 1]) + if FinishesEarly(run[..|run| - 1], run[|run| - 1]) then 1 else 0
  }

  predicate FinishesEarly(front: seq<Step>, s: Step) {
    s.Sent? && FirstSettle(front) == Sal.Some(Errored) && Acked(front) + s.n == |HELLO|
  }

  lemma {:induction false} EarlyFinishIsFinal(run: seq<Step>)
    ensures EarlyFinishes(run) > 0 ==> FirstSettle(run) == Sal.Some(Errored)
    decreases |run|
  {
    if run == [] {
    } else {
      EarlyFinishIsFinal(run[..|run| - 1]);
    }
  }

  /** The client never takes back what it sent. */
  lemma {:induction false} SentGrows(w: Wire, s: Step)
    requires Enabled(w, s)
    ensures |w.sent| <= |Next(w, s).sent|
  {}

  /** While the answer has not gone out, success is posted for early finishes and nothing else. */
  lemma {:induction false} UnansweredSuccesses(u: nat, run: seq<Step>)
    requires Legal(u, run) && |After(u, run).sent| < 32
    ensures Count(After(u, run).client.verdicts, true) == EarlyFinishes(run)
    decreases |run|
  {
    if run == [] {
    } else {
      var front, s := run[..|run| - 1], run[|run| - 1];
      SentGrows(After(u, front), s);
      UnansweredSuccesses(u, front);
      ReachableInv(u, front);
      DoneIsSettled(u, front);
      VerdictStep(After(u, front), s);
      UnansweredStep(After(u, front), front, s);
    }
  }

  lemma {:induction false} UnansweredStep(w: Wire, front: seq<Step>, s: Step)
    requires Inv(w) && Enabled(w, s) && |w.sent| < 32
    requires Reflects(w, FirstSettle(front)) && w.acked == Acked(front)
    requires FirstSettle(front).Some? ==> Settles(FirstSettle(front).value)
    ensures s.Sent? && w.client.done && UnsignedSub(w.client.unacked, s.n) == 0 <==> FinishesEarly(front, s)
  {
    if s.Sent? {
      assert UnsignedSub(w.client.unacked, s.n) == |w.sent| - w.acked - s.n;
    }
  }

  /** Over every run, errors included: success is posted only for an answered echo iff no sent
      callback finishes early. */
  lemma {:induction false} SuccessNeedsEchoIff(u: nat, run: seq<Step>)
    requires Legal(u, run)
    ensures (Count(After(u, run).client.verdicts, true) > 0 ==> After(u, run).sent == HELLO + SUCCESS)
            <==> EarlyFinishes(run) == 0
  {
    ReachableInv(u, run);
    DoneIsSettled(u, run);
    EarlyFinishIsFinal(run);
    if |After(u, run).sent| < 32 {
      UnansweredSuccesses(u, run);
    }
  }

  lemma {:induction false} OneMore(u: nat, run: seq<Step>, s: Step)
    requires Legal(u, run) && Enabled(After(u, run), s)
    ensures Legal(u, run + [s]) && After(u, run + [s]) == Next(After(u, run), s)
  {
    assert (run + [s])[..|run|] == run;
  }

  /** Greeting sent, echoed whole, read and answered. */
  predicate Answered(w: Wire) {
    && w.up && w.client.done && w.sent == HELLO + SUCCESS && w.acked == 0 && w.client.verdicts == []
    && w.hostUp && w.hostRead == 12 && w.echoed == HELLO && w.client.unacked == 32
  }

  lemma {:induction false} AnsweredRun(u: nat) returns (run: seq<Step>)
    ensures Legal(u, run) && NoErrors(run) && Lost(run) == 0 && Answered(After(u, run))
  {
    var greeted := GreetedRun(u);
    AnsweredNext(u, greeted);
    AnsweredQuietly(greeted);
    run := greeted + [HostTurn(12)] + [Readable(12)];
  }

  lemma {:induction false} AnsweredQuietly(greeted: seq<Step>)
    requires forall i :: 0 <= i < |greeted| ==> greeted[i] == Connected
    ensures var run := greeted + [HostTurn(12)] + [Readable(12)];
            NoErrors(run) && Lost(run) == 0
  {
    NoneLost(greeted + [HostTurn(12)] + [Readable(12)]);
  }

  lemma {:induction false} AnsweredNext(u: nat, greeted: seq<Step>)
    requires Legal(u, greeted) && Greeted(After(u, greeted))
    ensures var run := greeted + [HostTurn(12)] + [Readable(12)];
            Legal(u, run) && Answered(After(u, run))
  {
    Echoing(After(u, greeted));
    TwoMore(u, greeted, HostTurn(12), Readable(12));
  }

  predicate Greeted(w: Wire) {
    && w.up && w.sent == HELLO && w.hostUp && w.hostRead == 0 && w.echoed == "" && w.clientRead == 0 && w.acked == 0
    && !w.client.done && w.client.unacked == 12 && w.client.verdicts == []
  }

  lemma {:induction false} GreetedRun(u: nat) returns (run: seq<Step>)
    ensures Legal(u, run) && Greeted(After(u, run)) && forall i :: 0 <= i < |run| ==> run[i] == Connected
  {
    run := [];
    OneMore(u, run, Connected);
    run := run + [Connected];
  }

  lemma {:induction false} TwoMore(u: nat, run: seq<Step>, s: Step, t: Step)
    requires Legal(u, run) && Enabled(After(u, run), s) && Enabled(Next(After(u, run), s), t)
    ensures Legal(u, run + [s] + [t]) && After(u, run + [s] + [t]) == Next(Next(After(u, run), s), t)
  {
    OneMore(u, run, s);
    OneMore(u, run + [s], t);
  }

  lemma {:induction false} Echoing(w: Wire)
    requires Greeted(w)
    ensures Enabled(w, HostTurn(12)) && Enabled(Next(w, HostTurn(12)), Readable(12))
    ensures Answered(Next(Next(w, HostTurn(12)), Readable(12)))
  {
    HelloHasNoMark(0, 12);
    assert HELLO[0..12] == HELLO;
  }

  /** Bytes can be lost: the marker is cut across two pieces, and the send of the second fails. */
  lemma {:induction false} EchoCanBeCutShort(u: nat) returns (run: seq<Step>)
    ensures Legal(u, run) && Lost(run) == 7
    ensures var w := After(u, run); w.hostRead == |w.sent| == 32 && w.echoed == w.sent[..25]
  {
    var front := AnsweredRun(u);
    SecondPieceLost(After(u, front));
    TwoMore(u, front, HostTurn(13), HostBreaks(7, 0));
    run := front + [HostTurn(13)] + [HostBreaks(7, 0)];
    LostOneMore(front, HostTurn(13));
    LostOneMore(front + [HostTurn(13)], HostBreaks(7, 0));
  }

  lemma {:induction false} LostOneMore(run: seq<Step>, s: Step)
    ensures Lost(run + [s]) == Lost(run) + LostIn(s)
  {
    assert (run + [s])[..|run|] == run;
  }

  lemma {:induction false} NoneLost(run: seq<Step>)
    requires forall i :: 0 <= i < |run| ==> !run[i].HostBreaks?
    ensures Lost(run) == 0
    decreases |run|
  {
    if run == [] {
    } else {
      NoneLost(run[..|run| - 1]);
    }
  }

  lemma {:induction false} SecondPieceLost(w: Wire)
    requires Answered(w)
    ensures Enabled(w, HostTurn(13)) && Enabled(Next(w, HostTurn(13)), HostBreaks(7, 0))
    ensures var q := Next(Next(w, HostTurn(13)), HostBreaks(7, 0));
            q.hostRead == |q.sent| == 32 && q.echoed == q.sent[..25]
  {
    if Contains(w.sent[12..25], MARK) {
      MarkCovered(w.sent, 12, 25);
    }
    if Contains(w.sent[25..32], MARK) {
      MarkCovered(w.sent, 25, 32);
    }
    assert w.sent[..12] == HELLO && w.sent[..12] + w.sent[12..25] == w.sent[..25];
    assert w.sent[25..25] == "";
  }

  /** An idle acknowledgement does post success again: an error-free run with two successes. */
  lemma {:induction false} IdleAckRepeatsSuccess(u: nat) returns (run: seq<Step>)
    ensures Legal(u, run) && NoErrors(run) && After(u, run).client.verdicts == [true, true]
  {
    var front := AnsweredRun(u);
    AckAllThenNone(After(u, front));
    TwoMore(u, front, Sent(32), Sent(0));
    run := front + [Sent(32)] + [Sent(0)];
  }

  lemma {:induction false} AckAllThenNone(w: Wire)
    requires Answered(w)
    ensures Enabled(w, Sent(32)) && Enabled(Next(w, Sent(32)), Sent(0))
    ensures Next(Next(w, Sent(32)), Sent(0)).client.verdicts == [true, true]
  {
    assert Next(w, Sent(32)).client.verdicts == [] + [true] == [true];
  }

  /** After an error the promise is gone: success can be posted although no echo was ever read. */
  lemma {:induction false} ErrorCanStillSucceed(u: nat) returns (run: seq<Step>)
    ensures Legal(u, run) && After(u, run).client.verdicts == [false, true] && After(u, run).clientRead == 0
  {
    var greeted := GreetedRun(u);
    TwoMore(u, greeted, Errored, Sent(12));
    run := greeted + [Errored] + [Sent(12)];
  }
}
