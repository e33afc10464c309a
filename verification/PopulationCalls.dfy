/** What each operation asks of the stack, call by call, and what becomes of every impl the stack
    hands out. All of it holds after any run. */
module PopulationCalls {
  import opened Sal
  import opened Population
  import opened PopulationProofs
  import opened PopulationRuns

  // ------------------------------------------------------------------ construction

  /** A new socket has no impl, the API of its stack and its own entry; UDP sockets are datagram
      sockets and TCP sockets stream sockets. Nothing else changes hands. */
  lemma {:induction false} NewSocketIs(env: Env, ops: seq<Op>, at: Addr, kind: Kind, stack: Stack, size: nat, h: Handle)
    requires Legal(env, ops) && Enabled(env, After(env, ops), New(at, kind, stack, size, h))
    ensures Legal(env, ops + [New(at, kind, stack, size, h)])
    ensures var p, q := After(env, ops), After(env, ops + [New(at, kind, stack, size, h)]);
            var family := if kind == Udp then DatagramFamily else StreamFamily;
            && q.live == p.live[at := Sock(kind, stack, stack in env.stacks, family, None, at, size)]
            && q.waiting == p.waiting
            && q.calls == p.calls + if kind != Udp && TcpAddrs(p.live) == {} && stack in env.stacks then [StartTick(h)] else []
  {
    ReachableInv(env, ops);
    OneMore(env, ops, New(at, kind, stack, size, h));
  }

  /** Streams and listeners are stream sockets, the rest datagram sockets. */
  predicate Familiar(live: map<Addr, Sock>) {
    forall a :: a in live ==> live[a].family == if live[a].kind == Udp then DatagramFamily else StreamFamily
  }

  lemma {:induction false} StepKeepsFamilies(env: Env, p: Pop, op: Op)
    requires Enabled(env, p, op) && Familiar(p.live)
    ensures Familiar(Step(env, p, op).live)
  {
    match op
    case Accept(at, streamAt, x, size, h, err, left, derr) =>
      StreamKeepsFamilies(env, p, at, streamAt, x, size, h, left);
    case Adopt(at, streamAt, x, size, h, err, left) =>
      StreamKeepsFamilies(env, p, at, streamAt, x, size, h, left);
    case _ =>
  }

  lemma {:induction false} StreamKeepsFamilies(env: Env, p: Pop, at: Addr, streamAt: Addr, x: Impl, size: nat, h: Handle, left: Option<Impl>)
    requires Familiar(p.live) && at in p.live && p.live[at].kind == Listener
    ensures Familiar(StreamFrom(env, p, at, streamAt, x, size, h, left).live)
  {}

  /** In every run the family of every live socket is that of its class, accepted streams included. */
  lemma {:induction false} FamiliesFollowKinds(env: Env, ops: seq<Op>)
    requires Legal(env, ops)
    ensures Familiar(After(env, ops).live)
    decreases |ops|
  {
    if ops == [] {
    } else {
      FamiliesFollowKinds(env, ops[..|ops| - 1]);
      StepKeepsFamilies(env, After(env, ops[..|ops| - 1]), ops[|ops| - 1]);
    }
  }

  // -------------------------------------------------------------------- destruction

  /** Everything a delete asks of stack and scheduler, in order: a listener on a stack with an API stops
      listening, the last TCP socket cancels the tick, and a stack with a destroy entry gets back the
      stack socket, once, its error posted if there is one. Connections to other listeners keep waiting. */
  lemma {:induction false} DeleteGivesBack(env: Env, ops: seq<Op>, at: Addr, e: Error)
    requires Legal(env, ops) && at in After(env, ops).live
    ensures Legal(env, ops + [Delete(at, e)])
    ensures var p, q := After(env, ops), After(env, ops + [Delete(at, e)]);
            var s := p.live[at];
            && q.live == p.live - {at}
            && (forall x :: x in q.waiting <==> x in p.waiting && p.waiting[x] != at)
            && q.calls == p.calls
                          + (if s.kind == Listener && s.stack in env.stacks then [StopListen(at)] else [])
                          + (if s.kind != Udp && TcpAddrs(p.live) == {at} && p.tick.Some? then [CancelTick(p.tick.value)] else [])
                          + (if s.stack in env.stacks && s.stack in env.destroyers then [Destroyed(at, s.impl)] else [])
                          + (if s.stack in env.stacks && s.stack in env.destroyers && e != NoError then [ErrorPosted(at, e)] else [])
                          + [Freed(at)]
  {
    var p := After(env, ops);
    ReachableInv(env, ops);
    OneMore(env, ops, Delete(at, e));
    DeadCalls(env, p, at, e);
  }

  lemma {:induction false} DeadCalls(env: Env, p: Pop, at: Addr, e: Error)
    requires at in p.live && Counted(p) && p.live[at].hasApi == (p.live[at].stack in env.stacks)
    ensures var s := p.live[at];
            Dead(env, p, at, e).calls == p.calls
                          + (if s.kind == Listener && s.stack in env.stacks then [StopListen(at)] else [])
                          + (if s.kind != Udp && TcpAddrs(p.live) == {at} && p.tick.Some? then [CancelTick(p.tick.value)] else [])
                          + (if s.stack in env.stacks && s.stack in env.destroyers then [Destroyed(at, s.impl)] else [])
                          + (if s.stack in env.stacks && s.stack in env.destroyers && e != NoError then [ErrorPosted(at, e)] else [])
                          + [Freed(at)]
  {
    var s := p.live[at];
    if IsTcp(s) {
      LastTcp(p.live, at);
    }
    assert DestroyCalls(env, s, at, e)
           == (if s.stack in env.stacks && s.stack in env.destroyers then [Destroyed(at, s.impl)] else [])
              + (if s.stack in env.stacks && s.stack in env.destroyers && e != NoError then [ErrorPosted(at, e)] else []);
  }

  lemma {:induction false} LastTcp(live: map<Addr, Sock>, at: Addr)
    requires at in live && IsTcp(live[at])
    ensures |TcpAddrs(live)| >= 1 && (|TcpAddrs(live)| == 1 <==> TcpAddrs(live) == {at})
  {
    assert at in TcpAddrs(live);
    if |TcpAddrs(live)| == 1 {
      assert |TcpAddrs(live) - {at}| == 0;
      assert TcpAddrs(live) == {at} + (TcpAddrs(live) - {at});
    }
  }

  // ------------------------------------------------------------ open, bind and close

  /** open installs what the stack created, on a stack with an API and nowhere else; close takes the impl
      away exactly when there is one and the stack clears it. Neither touches any other socket. */
  lemma {:induction false} OpenAndClose(env: Env, ops: seq<Op>, at: Addr, x: Impl, cleared: bool)
    requires Legal(env, ops) && at in After(env, ops).live
    ensures Enabled(env, After(env, ops), Open(at, Some(x))) ==>
              && Legal(env, ops + [Open(at, Some(x))])
              && var p, q := After(env, ops), After(env, ops + [Open(at, Some(x))]);
                 if p.live[at].stack in env.stacks
                 then q == p.(live := p.live[at := p.live[at].(impl := Some(x))], calls := p.calls + [Created(at, x)])
                 else q == p
    ensures Legal(env, ops + [Open(at, None)]) && After(env, ops + [Open(at, None)]) == After(env, ops)
    ensures Legal(env, ops + [Close(at, cleared)])
            && var p, q := After(env, ops), After(env, ops + [Close(at, cleared)]);
               q == if p.live[at].impl != None && cleared then p.(live := p.live[at := p.live[at].(impl := None)]) else p
  {
    ReachableInv(env, ops);
    if Enabled(env, After(env, ops), Open(at, Some(x))) {
      OneMore(env, ops, Open(at, Some(x)));
    }
    OneMore(env, ops, Open(at, None));
    OneMore(env, ops, Close(at, cleared));
  }

  /** On a socket that has an impl both forms of bind reach the stack exactly once, with that impl, and
      report its answer; a null address or a text that does not parse is reported without any call. */
  lemma {:induction false} BindReachesStack(env: Env, ops: seq<Op>, at: Addr, parse: Error, e: Error)
    requires Legal(env, ops) && at in After(env, ops).live && After(env, ops).live[at].impl != None
    ensures var p := After(env, ops);
            var bound := p.(calls := p.calls + [StackBind(at, p.live[at].impl)]);
            && BoundAddr(p, at, false, e) == (bound, e) && BoundAddr(p, at, true, e) == (p, NullPtr)
            && BoundText(p, at, parse, e) == (if parse == NoError then (bound, e) else (p, parse))
            && Legal(env, ops + [BindAddr(at, false, e)]) && After(env, ops + [BindAddr(at, false, e)]) == bound
            && Legal(env, ops + [BindText(at, NoError, e)]) && After(env, ops + [BindText(at, NoError, e)]) == bound
  {
    OneMore(env, ops, BindAddr(at, false, e));
    OneMore(env, ops, BindText(at, NoError, e));
  }

  // -------------------------------------------------------------------------- accept

  /** What accept amounts to, read off its two halves. */
  lemma {:induction false} AcceptOutcome(env: Env, p: Pop, op: Op)
    requires Steady(env, p) && CanAccept(env, p, op)
    requires p.live[op.at].hasApi == (p.live[op.at].stack in env.stacks)
    ensures var q, l := AcceptedBy(env, p, op), p.live[op.at];
            && q.tick == p.tick && q.tasks == p.tasks && TickCalls(q.calls) == TickCalls(p.calls)
            && (op.err == NoError ==>
                  && q.count == p.count + 1
                  && q.live == p.live[op.streamAt := Sock(Stream, l.stack, l.hasApi, l.family, op.left, op.streamAt, op.size)]
                  && q.calls == p.calls + if op.left == None then [] else [Attached(op.streamAt, op.left.value)])
            && (op.err != NoError ==>
                  && q.count == p.count && q.live == p.live
                  && q.calls == p.calls + (if op.left == None then [] else [Attached(op.streamAt, op.left.value)])
                                + (if l.hasApi && l.stack in env.destroyers then [Destroyed(op.streamAt, op.left)] else [])
                                + (if l.hasApi && l.stack in env.destroyers && op.destroyErr != NoError
                                   then [ErrorPosted(op.streamAt, op.destroyErr)] else [])
                                + [Freed(op.streamAt)])
  {
    AcceptLeavesTickAlone(env, p, op);
    AcceptedTick(env, p, op);
    BuiltStream(env, p, op);
    if op.err != NoError {
      var q, l := StreamFrom(env, p, op.at, op.streamAt, op.x, op.size, op.h, op.left), p.live[op.at];
      FailedAccept(env, p, q, op.streamAt, Sock(Stream, l.stack, l.hasApi, l.family, op.left, op.streamAt, op.size), op.destroyErr);
      assert AcceptedBy(env, p, op) == Dead(env, q, op.streamAt, op.destroyErr);
    }
  }

  /** The first half of accept: the stream is in place and counted. */
  lemma {:induction false} BuiltStream(env: Env, p: Pop, op: Op)
    requires Steady(env, p) && CanAccept(env, p, op)
    requires p.live[op.at].hasApi == (p.live[op.at].stack in env.stacks)
    ensures var q, l := StreamFrom(env, p, op.at, op.streamAt, op.x, op.size, op.h, op.left), p.live[op.at];
            && op.streamAt !in p.live && p.count > 0 && q.count == p.count + 1
            && q.live == p.live[op.streamAt := Sock(Stream, l.stack, l.hasApi, l.family, op.left, op.streamAt, op.size)]
            && q.calls == p.calls + if op.left == None then [] else [Attached(op.streamAt, op.left.value)]
  {
    FreshAddress(env, p, op.streamAt, op.size);
    assert op.at in TcpAddrs(p.live);
    BornCounts(env, p, op.streamAt, Stream, p.live[op.at].stack, op.size, op.h);
  }

  /** Deleting the stream just built undoes the construction, apart from the stack's destroy. */
  lemma {:induction false} FailedAccept(env: Env, p: Pop, q: Pop, at: Addr, s: Sock, err: Error)
    requires at !in p.live && q.live == p.live[at := s] && s.kind.Stream? && q.count == p.count + 1 && p.count > 0
    ensures var r := Dead(env, q, at, err);
            && r.live == p.live && r.count == p.count
            && r.calls == q.calls + (if s.hasApi && s.stack in env.destroyers then [Destroyed(at, s.impl)] else [])
                          + (if s.hasApi && s.stack in env.destroyers && err != NoError then [ErrorPosted(at, err)] else [])
                          + [Freed(at)]
  {
    assert q.live - {at} == p.live;
    assert q.calls + [] + [] == q.calls;
  }

  /** A connection that arrived can be taken up on its listener, and then a stream holds it. */
  lemma {:induction false} ArrivalCanBeAccepted(env: Env, ops: seq<Op>, at: Addr, streamAt: Addr, x: Impl, size: nat, h: Handle)
    requires Legal(env, ops) && Enabled(env, After(env, ops), Arrive(at, x)) && Allocates(env, After(env, ops), streamAt, size)
    ensures var more := ops + [Arrive(at, x)];
            var accept := Accept(at, streamAt, x, size, h, NoError, Some(x), NoError);
            && Legal(env, more) && Legal(env, more + [accept])
            && streamAt in After(env, more + [accept]).live && After(env, more + [accept]).live[streamAt].impl == Some(x)
            && x !in After(env, more + [accept]).waiting
  {
    OneMore(env, ops, Arrive(at, x));
    OneMore(env, ops + [Arrive(at, x)], Accept(at, streamAt, x, size, h, NoError, Some(x), NoError));
  }

  /** What accept does in any run. Success adds a stream on the listener's stack with the impl the stack
      left and an entry of its own. After a refusal the population is as it was, and what the stack had
      left in place was handed to its destroy, once, if it has that entry. */
  lemma {:induction false} AcceptGivesBack(env: Env, ops: seq<Op>, op: Op)
    requires Legal(env, ops) && op.Accept? && Enabled(env, After(env, ops), op)
    ensures Legal(env, ops + [op])
    ensures var p, q := After(env, ops), After(env, ops + [op]);
            var stack := p.live[op.at].stack;
            var attached := if op.left == None then [] else [Attached(op.streamAt, op.left.value)];
            && op.x !in q.waiting && (forall y :: y in p.waiting && y != op.x ==> y in q.waiting)
            && (op.err == NoError ==>
                  && q.live == p.live[op.streamAt := Sock(Stream, stack, true, StreamFamily, op.left, op.streamAt, op.size)]
                  && q.calls == p.calls + attached)
            && (op.err != NoError ==>
                  && q.live == p.live
                  && q.calls == p.calls + attached
                                + (if stack in env.destroyers then [Destroyed(op.streamAt, op.left)] else [])
                                + (if stack in env.destroyers && op.destroyErr != NoError then [ErrorPosted(op.streamAt, op.destroyErr)] else [])
                                + [Freed(op.streamAt)])
  {
    var p := After(env, ops);
    OneMore(env, ops, op);
    ListenerFacts(env, ops, op.at, op.x);
    AcceptOutcome(env, p, op);
    BuiltStream(env, p, op);
    AcceptTakesUp(env, p, op);
  }

  /** What a run says about the listener a connection waits for. */
  lemma {:induction false} ListenerFacts(env: Env, ops: seq<Op>, at: Addr, x: Impl)
    requires Legal(env, ops) && at in After(env, ops).live && x in After(env, ops).waiting && After(env, ops).waiting[x] == at
    ensures var p := After(env, ops);
            && Steady(env, p) && p.live[at].hasApi && p.live[at].stack in env.stacks && p.live[at].family == StreamFamily
            && forall y :: y in p.waiting ==> p.waiting[y] in p.live
  {
    ReachableInv(env, ops);
    FamiliesFollowKinds(env, ops);
  }

  lemma {:induction false} AcceptTakesUp(env: Env, p: Pop, op: Op)
    requires op.Accept? && Enabled(env, p, op) && op.streamAt !in p.live
    requires forall y :: y in p.waiting ==> p.waiting[y] in p.live
    ensures op.x !in AcceptedBy(env, p, op).waiting
    ensures forall y :: y in p.waiting && y != op.x ==> y in AcceptedBy(env, p, op).waiting
  {}

  /** The deprecated constructor: the stream stays whatever the stack answers, and a refusal is posted. */
  lemma {:induction false} AdoptKeepsStream(env: Env, ops: seq<Op>, op: Op)
    requires Legal(env, ops) && op.Adopt? && Enabled(env, After(env, ops), op)
    ensures Legal(env, ops + [op])
    ensures var p, q := After(env, ops), After(env, ops + [op]);
            && q.live == p.live[op.streamAt := Sock(Stream, p.live[op.at].stack, true, StreamFamily, op.left, op.streamAt, op.size)]
            && q.calls == p.calls + (if op.left == None then [] else [Attached(op.streamAt, op.left.value)])
                          + (if op.err == NoError then [] else [ErrorPosted(op.streamAt, op.err)])
  {
    ReachableInv(env, ops);
    FamiliesFollowKinds(env, ops);
    OneMore(env, ops, op);
    BuiltStream(env, After(env, ops), AsAccept(op));
  }

  // ------------------------------------------------------------- what becomes of an impl

  /** Calls by which the stack handed out this impl, or got it back. */
  predicate Counts(c: Call, x: Impl, back: bool) {
    if back then c.Destroyed? && c.held == Some(x) else (c.Created? || c.Attached?) && c.impl == x
  }

  function Tally(calls: seq<Call>, x: Impl, back: bool): nat
    decreases |calls|
  {
    if calls == [] then 0
    else Tally(calls[..|calls| - 1], x, back) + if Counts(calls[|calls| - 1], x, back) then 1 else 0
  }

  lemma {:induction false} TallyAppend(calls: seq<Call>, more: seq<Call>, x: Impl, back: bool)
    ensures Tally(calls + more, x, back) == Tally(calls, x, back) + Tally(more, x, back)
    decreases |more|
  {
    if more == [] {
      assert calls + more == calls;
    } else {
      assert (calls + more)[..|calls + more| - 1] == calls + more[..|more| - 1];
      TallyAppend(calls, more[..|more| - 1], x, back);
    }
  }

  lemma {:induction false} TallyNext(calls: seq<Call>, c: Call, x: Impl, back: bool)
    ensures Tally(calls + [c], x, back) == Tally(calls, x, back) + if Counts(c, x, back) then 1 else 0
  {
    assert (calls + [c])[..|calls|] == calls;
  }

  function Holders(live: map<Addr, Sock>, x: Impl): set<Addr> {
    set a | a in live && live[a].impl == Some(x)
  }

  lemma {:induction false} HoldersAfterPut(live: map<Addr, Sock>, at: Addr, s: Sock, x: Impl)
    ensures |Holders(live[at := s], x)| == |Holders(live, x) - {at}| + if s.impl == Some(x) then 1 else 0
  {
    var rest := Holders(live, x) - {at};
    assert Holders(live[at := s], x) == if s.impl == Some(x) then rest + {at} else rest;
  }

  lemma {:induction false} HoldersBefore(live: map<Addr, Sock>, at: Addr, x: Impl)
    ensures |Holders(live, x)| == |Holders(live, x) - {at}| + if at in live && live[at].impl == Some(x) then 1 else 0
    ensures Holders(live - {at}, x) == Holders(live, x) - {at}
  {
    if at in live && live[at].impl == Some(x) {
      assert Holders(live, x) == (Holders(live, x) - {at}) + {at};
    } else {
      assert Holders(live, x) == Holders(live, x) - {at};
    }
  }

  /** The operation parts with x without the stack's destroy: by reopening or closing the socket that
      holds it, or by destroying it on a stack that has no destroy entry. */
  predicate LetsGo(env: Env, p: Pop, op: Op, x: Impl)
    requires Enabled(env, p, op)
  {
    match op
    case Delete(at, _) => p.live[at].impl == Some(x) && p.live[at].stack !in env.destroyers
    case Open(at, made) => p.live[at].impl == Some(x) && p.live[at].stack in env.stacks && made != None
    case Close(at, cleared) => p.live[at].impl == Some(x) && cleared
    case Accept(at, _, _, _, _, err, left, _) => err != NoError && left == Some(x) && p.live[at].stack !in env.destroyers
    case _ => false
  }

  function LetGo(env: Env, ops: seq<Op>, x: Impl): nat
    requires Legal(env, ops)
    decreases |ops|
  {
    if ops == [] then 0
    else LetGo(env, ops[..|ops| - 1], x) + if LetsGo(env, After(env, ops[..|ops| - 1]), ops[|ops| - 1], x) then 1 else 0
  }

  /** How one operation moves the account of x. */
  predicate Balances(p: Pop, q: Pop, x: Impl, dropped: bool) {
    Tally(q.calls, x, false) - Tally(p.calls, x, false)
    == |Holders(q.live, x)| - |Holders(p.live, x)| + Tally(q.calls, x, true) - Tally(p.calls, x, true) + if dropped then 1 else 0
  }

  lemma {:induction false} SilentBalances(p: Pop, q: Pop, c: Call, x: Impl)
    requires q.live == p.live && (q.calls == p.calls || q.calls == p.calls + [c]) && !Counts(c, x, true) && !Counts(c, x, false)
    ensures Balances(p, q, x, false)
  {
    TallyNext(p.calls, c, x, true);
    TallyNext(p.calls, c, x, false);
  }

  lemma {:induction false} PutBalances(p: Pop, q: Pop, at: Addr, s: Sock, x: Impl)
    requires q.live == p.live[at := s] && q.calls == p.calls
    requires s.impl == if at in p.live then p.live[at].impl else None
    ensures Balances(p, q, x, false)
  {
    HoldersAfterPut(p.live, at, s, x);
    HoldersBefore(p.live, at, x);
  }

  /** A socket is given an impl; what it held before is let go. */
  lemma {:induction false} GrantBalances(p: Pop, q: Pop, at: Addr, s: Sock, c: Call, x: Impl)
    requires q.live == p.live[at := s] && q.calls == p.calls + [c] && s.impl != None
    requires c == Created(at, s.impl.value) || c == Attached(at, s.impl.value)
    ensures Balances(p, q, x, at in p.live && p.live[at].impl == Some(x))
  {
    HoldersAfterPut(p.live, at, s, x);
    HoldersBefore(p.live, at, x);
    TallyNext(p.calls, c, x, true);
    TallyNext(p.calls, c, x, false);
  }

  lemma {:induction false} BornBalances(env: Env, p: Pop, at: Addr, kind: Kind, stack: Stack, size: nat, h: Handle, x: Impl)
    requires at !in p.live
    ensures Balances(p, Born(env, p, at, kind, stack, size, h), x, false)
  {
    var q := Born(env, p, at, kind, stack, size, h);
    PutBalances(p, p.(live := q.live), at, q.live[at], x);
    SilentBalances(p.(live := q.live), q, StartTick(h), x);
  }

  lemma {:induction false} StreamBalances(env: Env, p: Pop, at: Addr, streamAt: Addr, y: Impl, size: nat, h: Handle, left: Option<Impl>, x: Impl)
    requires at in p.live && streamAt !in p.live
    ensures Balances(p, StreamFrom(env, p, at, streamAt, y, size, h, left), x, false)
  {
    var q := Born(env, p, streamAt, Stream, p.live[at].stack, size, h);
    var r := StreamFrom(env, p, at, streamAt, y, size, h, left);
    BornBalances(env, p, streamAt, Stream, p.live[at].stack, size, h, x);
    if left.Some? {
      GrantBalances(q, r, streamAt, r.live[streamAt], Attached(streamAt, left.value), x);
    } else {
      PutBalances(q, r, streamAt, r.live[streamAt], x);
    }
  }

  lemma {:induction false} TallyOne(c: Call, x: Impl, back: bool)
    ensures Tally([c], x, back) == if Counts(c, x, back) then 1 else 0
  {
    assert [c][..0] == [];
  }

  /** At most one call, and none that concerns x. */
  predicate Silent(more: seq<Call>, x: Impl, back: bool) {
    |more| <= 1 && (more != [] ==> !Counts(more[0], x, back))
  }

  lemma {:induction false} TallySilent(calls: seq<Call>, more: seq<Call>, x: Impl, back: bool)
    requires Silent(more, x, back)
    ensures Tally(calls + more, x, back) == Tally(calls, x, back)
  {
    TallyAppend(calls, more, x, back);
    if more != [] {
      assert more[..0] == [];
    }
  }

  /** In the calls of a destructor only the destroy counts. */
  lemma {:induction false} TallyAround(calls: seq<Call>, stop: seq<Call>, cancel: seq<Call>, destroy: seq<Call>, free: seq<Call>, x: Impl, back: bool)
    requires Silent(stop, x, back) && Silent(cancel, x, back) && Silent(free, x, back)
    ensures Tally(calls + stop + cancel + destroy + free, x, back) == Tally(calls, x, back) + Tally(destroy, x, back)
  {
    TallySilent(calls, stop, x, back);
    TallySilent(calls + stop, cancel, x, back);
    TallyAppend(calls + stop + cancel, destroy, x, back);
    TallySilent(calls + stop + cancel + destroy, free, x, back);
  }

  lemma {:induction false} TallyDestroy(env: Env, s: Sock, at: Addr, e: Error, x: Impl, back: bool)
    ensures Tally(DestroyCalls(env, s, at, e), x, back)
            == if back && s.hasApi && s.stack in env.destroyers && s.impl == Some(x) then 1 else 0
  {
    if s.hasApi && s.stack in env.destroyers {
      var destroy, rest := [Destroyed(at, s.impl)], if e == NoError then [] else [ErrorPosted(at, e)];
      TallyOne(destroy[0], x, back);
      TallySilent(destroy, rest, x, back);
      assert DestroyCalls(env, s, at, e) == destroy + rest;
    }
  }

  lemma {:induction false} DeadTally(env: Env, p: Pop, at: Addr, e: Error, x: Impl, back: bool)
    requires at in p.live
    ensures var s := p.live[at];
            Tally(Dead(env, p, at, e).calls, x, back) == Tally(p.calls, x, back)
            + if back && s.hasApi && s.stack in env.destroyers && s.impl == Some(x) then 1 else 0
  {
    var s := p.live[at];
    var c := if IsTcp(s) then Dec(env.top, p.count) else p.count;
    var cancel := if IsTcp(s) && c == 0 && p.tick.Some? then [CancelTick(p.tick.value)] else [];
    TallyAround(p.calls, StopCalls(s, at), cancel, DestroyCalls(env, s, at, e), [Freed(at)], x, back);
    TallyDestroy(env, s, at, e, x, back);
  }

  lemma {:induction false} DeadBalances(env: Env, p: Pop, at: Addr, e: Error, x: Impl)
    requires at in p.live && (p.live[at].impl != None ==> p.live[at].hasApi)
    ensures Balances(p, Dead(env, p, at, e), x, p.live[at].impl == Some(x) && p.live[at].stack !in env.destroyers)
  {
    DeadTally(env, p, at, e, x, true);
    DeadTally(env, p, at, e, x, false);
    HoldersBefore(p.live, at, x);
  }

  lemma {:induction false} AcceptBalances(env: Env, p: Pop, op: Op, x: Impl)
    requires Inv(env, p) && op.Accept? && Enabled(env, p, op)
    ensures Balances(p, Step(env, p, op), x, LetsGo(env, p, op, x))
  {
    var q := StreamFrom(env, p, op.at, op.streamAt, op.x, op.size, op.h, op.left);
    FreshAddress(env, p, op.streamAt, op.size);
    StreamBalances(env, p, op.at, op.streamAt, op.x, op.size, op.h, op.left, x);
    if op.err != NoError {
      BuiltStream(env, p, op);
      DeadBalances(env, q, op.streamAt, op.destroyErr, x);
    }
  }

  lemma {:induction false} ThenSilent(p: Pop, r: Pop, q: Pop, c: Call, x: Impl)
    requires Balances(p, r, x, false) && (q == r || q == r.(calls := r.calls + [c]))
    requires !Counts(c, x, true) && !Counts(c, x, false)
    ensures Balances(p, q, x, false)
  {
    SilentBalances(r, q, c, x);
  }

  /** What is allocated was not live. */
  lemma {:induction false} FreshAddress(env: Env, p: Pop, at: Addr, size: nat)
    requires Placed(env.top, p.live) && Allocates(env, p, at, size)
    ensures at !in p.live
  {
    assert at in p.live ==> Apart(at, size, at, p.live[at].size);
  }

  lemma {:induction false} AdoptBalances(env: Env, p: Pop, op: Op, x: Impl)
    requires Inv(env, p) && op.Adopt? && Enabled(env, p, op)
    ensures Balances(p, Step(env, p, op), x, false)
  {
    FreshAddress(env, p, op.streamAt, op.size);
    AdoptedBalances(env, p, op.at, op.streamAt, op.x, op.size, op.h, op.err, op.left, x);
  }

  lemma {:induction false} AdoptedBalances(env: Env, p: Pop, at: Addr, streamAt: Addr, y: Impl, size: nat, h: Handle,
                                           err: Error, left: Option<Impl>, x: Impl)
    requires at in p.live && streamAt !in p.live
    ensures Balances(p, Adopted(env, p, at, streamAt, y, size, h, err, left), x, false)
  {
    var r, q := StreamFrom(env, p, at, streamAt, y, size, h, left), Adopted(env, p, at, streamAt, y, size, h, err, left);
    var c := ErrorPosted(streamAt, err);
    assert q == r || q == r.(calls := r.calls + [c]);
    StreamBalances(env, p, at, streamAt, y, size, h, left, x);
    ThenSilent(p, r, q, c, x);
  }

  lemma {:induction false} OpenBalances(env: Env, p: Pop, op: Op, x: Impl)
    requires Inv(env, p) && op.Open? && Enabled(env, p, op)
    ensures Balances(p, Step(env, p, op), x, LetsGo(env, p, op, x))
  {
    var q := Step(env, p, op);
    if p.live[op.at].hasApi && op.made != None {
      GrantBalances(p, q, op.at, q.live[op.at], Created(op.at, op.made.value), x);
    }
  }

  lemma {:induction false} CloseBalances(env: Env, p: Pop, op: Op, x: Impl)
    requires op.Close? && Enabled(env, p, op)
    ensures Balances(p, Step(env, p, op), x, LetsGo(env, p, op, x))
  {
    HoldersAfterPut(p.live, op.at, p.live[op.at].(impl := None), x);
    HoldersBefore(p.live, op.at, x);
  }

  lemma {:induction false} BindBalances(env: Env, p: Pop, op: Op, x: Impl)
    requires (op.BindAddr? || op.BindText?) && Enabled(env, p, op)
    ensures Balances(p, Step(env, p, op), x, false)
  {
    SilentBalances(p, Step(env, p, op), StackBind(op.at, p.live[op.at].impl), x);
  }

  lemma {:induction false} StepBalances(env: Env, p: Pop, op: Op, x: Impl)
    requires Inv(env, p) && Enabled(env, p, op)
    ensures Balances(p, Step(env, p, op), x, LetsGo(env, p, op, x))
  {
    match op
    case New(at, kind, stack, size, h) => BornBalances(env, p, at, kind, stack, size, h, x);
    case Delete(at, e) => DeadBalances(env, p, at, e, x);
    case Open(_, _) => OpenBalances(env, p, op, x);
    case BindAddr(_, _, _) => BindBalances(env, p, op, x);
    case BindText(_, _, _) => BindBalances(env, p, op, x);
    case Close(_, _) => CloseBalances(env, p, op, x);
    case Arrive(_, _) =>
    case Accept(_, _, _, _, _, _, _, _) => AcceptBalances(env, p, op, x);
    case Adopt(_, _, _, _, _, _, _) => AdoptBalances(env, p, op, x);
  }

  /** Conservation: in every run, every time the stack handed out x, x was given back to its destroy, is
      still held by a live socket, or was let go by a reopen, a close or a stack without a destroy entry.
      So what was handed out and is no longer held went back, each time, iff nothing was let go. */
  lemma {:induction false} ImplsConserved(env: Env, ops: seq<Op>, x: Impl)
    requires Legal(env, ops)
    ensures var q := After(env, ops);
            && Tally(q.calls, x, false) == |Holders(q.live, x)| + Tally(q.calls, x, true) + LetGo(env, ops, x)
            && (q.live == map[] ==> (Tally(q.calls, x, false) == Tally(q.calls, x, true) <==> LetGo(env, ops, x) == 0))
    decreases |ops|
  {
    if ops == [] {
    } else {
      var front, op := ops[..|ops| - 1], ops[|ops| - 1];
      ImplsConserved(env, front, x);
      ReachableInv(env, front);
      StepBalances(env, After(env, front), op, x);
    }
  }
}
