/** Theorems about whole runs of the socket population. */
module PopulationRuns {
  import opened Sal
  import opened Population
  import opened PopulationProofs

  // ---------------------------------------------------------------- the TCP counter

  /** In every reachable state the counter is the number of live TCP sockets, and sockets of at
      least `size` bytes keep `count * size` inside the address space: it cannot overflow. */
  lemma {:induction false} CounterIsPopulation(env: Env, ops: seq<Op>, size: nat)
    requires Legal(env, ops) && 1 <= env.top
    requires forall a :: a in After(env, ops).live ==> size <= After(env, ops).live[a].size
    ensures After(env, ops).count == |TcpAddrs(After(env, ops).live)|
    ensures After(env, ops).count * size < env.top
  {
    ReachableInv(env, ops);
    var live := After(env, ops).live;
    SpaceBoundsPopulation(env.top, live, size);
    Subset(TcpAddrs(live), live.Keys);
    MulMono(|TcpAddrs(live)|, |live|, size);
  }

  lemma MulMono(a: nat, b: nat, c: nat)
    requires a <= b
    ensures a * c <= b * c
  {}

  /** No step of a run ever wraps the counter: it moves by the change in live TCP sockets. */
  lemma {:induction false} CounterNeverWraps(env: Env, ops: seq<Op>)
    requires Legal(env, ops) && ops != []
    ensures var p, q := After(env, ops[..|ops| - 1]), After(env, ops);
            q.count - p.count == |TcpAddrs(q.live)| - |TcpAddrs(p.live)|
            && (ops[|ops| - 1].New? && !ops[|ops| - 1].kind.Udp? ==> q.count == p.count + 1)
            && (ops[|ops| - 1].Delete? && IsTcp(p.live[ops[|ops| - 1].at]) ==> q.count == p.count - 1)
  {
    ReachableInv(env, ops[..|ops| - 1]);
    ReachableInv(env, ops);
    var p, op := After(env, ops[..|ops| - 1]), ops[|ops| - 1];
    match op
    case New(at, kind, stack, size, h) => BornCounts(env, p, at, kind, stack, size, h);
    case Delete(at, _) => TcpAddrsRemove(p.live, at);
    case _ =>
  }

  // ------------------------------------------------------------------- the shared tick

  /** The live TCP sockets after the first k operations. */
  function TcpAfter(env: Env, ops: seq<Op>, k: nat): set<Addr>
    requires k <= |ops|
  {
    if Legal(env, ops[..k]) then TcpAddrs(After(env, ops[..k]).live) else {}
  }

  /** Operation i made the TCP population non-empty, and it has stayed so until now. */
  predicate RaisedAt(env: Env, ops: seq<Op>, i: nat)
    requires i < |ops|
  {
    TcpAfter(env, ops, i) == {} && forall k :: i < k <= |ops| ==> TcpAfter(env, ops, k) != {}
  }

  /** Within a non-empty TCP population the tick is never touched; the first TCP socket of a
      population is constructed, not accepted, and starts the tick if its stack has an API. */
  lemma {:induction false} TickStep(env: Env, p: Pop, op: Op)
    requires Inv(env, p) && Enabled(env, p, op)
    ensures var q := Step(env, p, op);
            && (p.count > 0 && q.count > 0 ==> q.tick == p.tick)
            && (p.count == 0 && q.count > 0 ==>
                  op.New? && !op.kind.Udp? && (q.tick.Some? <==> op.stack in env.stacks))
  {
    match op
    case New(at, kind, stack, size, h) => BornCounts(env, p, at, kind, stack, size, h);
    case Accept(_, _, _, _, _, _, _, _) => AcceptedTick(env, p, op);
    case Adopt(_, _, _, _, _, _, _) => AcceptedTick(env, p, AsAccept(op));
    case Delete(at, _) => assert IsTcp(p.live[at]) ==> at in TcpAddrs(p.live);
    case _ =>
  }

  /** What accept itself needs: a live listener, and memory for the stream. */
  predicate CanAccept(env: Env, p: Pop, op: Op) {
    op.Accept? && op.at in p.live && p.live[op.at].kind.Listener? && Allocates(env, p, op.streamAt, op.size)
  }

  /** The accept that builds the same stream as the deprecated constructor. */
  function AsAccept(op: Op): (a: Op)
    requires op.Adopt?
    ensures a.Accept? && a.err == NoError
  {
    Accept(op.at, op.streamAt, op.x, op.size, op.h, NoError, op.left, NoError)
  }

  function AcceptedBy(env: Env, p: Pop, op: Op): Pop
    requires CanAccept(env, p, op)
  {
    Accepted(env, p, op.at, op.streamAt, op.x, op.size, op.h, op.err, op.left, op.destroyErr)
  }

  lemma {:induction false} AcceptedTick(env: Env, p: Pop, op: Op)
    requires Steady(env, p) && CanAccept(env, p, op)
    ensures var q := AcceptedBy(env, p, op);
            p.count > 0 && q.tick == p.tick && q.tasks == p.tasks
            && q.count == if op.err == NoError then p.count + 1 else p.count
  {
    assert op.at in TcpAddrs(p.live);
    BornCounts(env, p, op.streamAt, Stream, p.live[op.at].stack, op.size, op.h);
  }

  lemma {:induction false} RaisedExtends(env: Env, ops: seq<Op>, i: nat)
    requires ops != [] && i < |ops| - 1 && RaisedAt(env, ops[..|ops| - 1], i)
    requires TcpAfter(env, ops, |ops|) != {}
    ensures RaisedAt(env, ops, i)
  {
    var front := ops[..|ops| - 1];
    assert forall k :: 0 <= k <= |front| ==> front[..k] == ops[..k];
    forall k | i < k <= |ops|
      ensures TcpAfter(env, ops, k) != {}
    {
      if k < |ops| {
        assert TcpAfter(env, front, k) != {};
      }
    }
    assert TcpAfter(env, front, i) == {};
  }

  /** `TickStep`, for the last operation of a run and in terms of the live sockets. */
  lemma {:induction false} LastStepTick(env: Env, ops: seq<Op>)
    requires Legal(env, ops) && ops != [] && TcpAddrs(After(env, ops).live) != {}
    ensures TcpAddrs(After(env, ops[..|ops| - 1]).live) != {} ==> After(env, ops).tick == After(env, ops[..|ops| - 1]).tick
    ensures TcpAddrs(After(env, ops[..|ops| - 1]).live) == {} ==>
              ops[|ops| - 1].New? && (After(env, ops).tick.Some? <==> ops[|ops| - 1].stack in env.stacks)
  {
    ReachableInv(env, ops[..|ops| - 1]);
    ReachableInv(env, ops);
    TickStep(env, After(env, ops[..|ops| - 1]), ops[|ops| - 1]);
  }

  /** A non-empty TCP population was raised by the construction of one socket, and whether the tick
      runs was settled by that socket's stack. */
  lemma {:induction false} SomebodyRaised(env: Env, ops: seq<Op>) returns (i: nat)
    requires Legal(env, ops) && TcpAddrs(After(env, ops).live) != {}
    ensures i < |ops| && RaisedAt(env, ops, i) && ops[i].New?
    ensures After(env, ops).tick.Some? <==> ops[i].stack in env.stacks
    decreases |ops|
  {
    assert ops != [] && ops[..|ops|] == ops;
    LastStepTick(env, ops);
    if TcpAddrs(After(env, ops[..|ops| - 1]).live) == {} {
      i := |ops| - 1;
    } else {
      i := SomebodyRaised(env, ops[..|ops| - 1]);
      RaisedExtends(env, ops, i);
    }
  }

  lemma RaisedOnce(env: Env, ops: seq<Op>, i: nat, j: nat)
    requires i < |ops| && j < |ops| && RaisedAt(env, ops, i) && RaisedAt(env, ops, j)
    ensures i == j
  {}

  /** The tick is registered exactly when some TCP socket is live and the socket that last raised
      the population from zero had a stack with an API. */
  lemma {:induction false} TickRunsIff(env: Env, ops: seq<Op>)
    requires Legal(env, ops)
    ensures After(env, ops).tick.Some?
            <==> exists i :: 0 <= i < |ops| && RaisedAt(env, ops, i) && ops[i].New? && ops[i].stack in env.stacks
    ensures After(env, ops).tasks == if After(env, ops).tick.Some? then {After(env, ops).tick.value} else {}
  {
    ReachableInv(env, ops);
    assert ops[..|ops|] == ops;
    if TcpAddrs(After(env, ops).live) == {} {
      assert TcpAfter(env, ops, |ops|) == {};
    } else {
      var i := SomebodyRaised(env, ops);
      forall j | 0 <= j < |ops| && RaisedAt(env, ops, j)
        ensures j == i
      {
        RaisedOnce(env, ops, i, j);
      }
    }
  }

  /** If every TCP socket is constructed on a stack with an API, the tick runs exactly while a TCP
      socket is live. */
  lemma {:induction false} TickRunsWhileSocketsLive(env: Env, ops: seq<Op>)
    requires Legal(env, ops)
    requires forall i :: 0 <= i < |ops| && ops[i].New? && !ops[i].kind.Udp? ==> ops[i].stack in env.stacks
    ensures After(env, ops).tick.Some? <==> TcpAddrs(After(env, ops).live) != {}
    decreases |ops|
  {
    ReachableInv(env, ops);
    if ops == [] {
    } else {
      var front := ops[..|ops| - 1];
      ReachableInv(env, front);
      TickRunsWhileSocketsLive(env, front);
      TickStep(env, After(env, front), ops[|ops| - 1]);
    }
  }

  /** With mixed stacks it can stop short: a stream on a working stack gets no tick when a stream on
      a stack without an API was there first. */
  lemma {:induction false} MixedStacksLoseTheTick()
    ensures var env := Env(0x1_0000_0000, {1}, {1});
            var ops := [New(100, Stream, 0, 64, 7), New(200, Stream, 1, 64, 8)];
            Legal(env, ops) && After(env, ops).tick.None? && 200 in After(env, ops).live && After(env, ops).live[200].hasApi
  {
    var env := Env(0x1_0000_0000, {1}, {1});
    var ops := [New(100, Stream, 0, 64, 7), New(200, Stream, 1, 64, 8)];
    assert ops[..1] == [New(100, Stream, 0, 64, 7)] && ops[..1][..0] == [];
    assert Legal(env, []) && Legal(env, ops[..1]);
  }

  // ---------------------------------------------------------- no task lost uncancelled

  function TickCalls(calls: seq<Call>): seq<Call>
    decreases |calls|
  {
    if calls == [] then []
    else
      var n := |calls| - 1;
      TickCalls(calls[..n]) + if calls[n].StartTick? || calls[n].CancelTick? then [calls[n]] else []
  }

  /** Starts and cancels alternate, each cancel naming the handle just started; the last start is
      uncancelled exactly when a tick is registered. */
  predicate Alternates(calls: seq<Call>, tick: Option<Handle>)
    decreases |calls|
  {
    match tick
    case Some(h) => calls != [] && calls[|calls| - 1] == StartTick(h) && Alternates(calls[..|calls| - 1], None)
    case None => calls == [] || (calls[|calls| - 1].CancelTick?
                                 && Alternates(calls[..|calls| - 1], Some(calls[|calls| - 1].h)))
  }

  lemma {:induction false} TickCallsAppend(calls: seq<Call>, more: seq<Call>)
    ensures TickCalls(calls + more) == TickCalls(calls) + TickCalls(more)
    decreases |more|
  {
    if more == [] {
      assert calls + more == calls;
    } else {
      var k := |more| - 1;
      assert (calls + more)[..|calls + more| - 1] == calls + more[..k];
      TickCallsAppend(calls, more[..k]);
    }
  }

  lemma TickCallsOne(c: Call)
    ensures TickCalls([c]) == if c.StartTick? || c.CancelTick? then [c] else []
  {
    assert [c][..0] == [];
  }

  lemma SilentCall(calls: seq<Call>, c: Call)
    requires !c.StartTick? && !c.CancelTick?
    ensures TickCalls(calls + [c]) == TickCalls(calls)
  {
    TickCallsAppend(calls, [c]);
    TickCallsOne(c);
  }

  lemma {:induction false} StopAndDestroyAreSilent(env: Env, s: Sock, at: Addr, err: Error)
    ensures TickCalls(StopCalls(s, at)) == [] && TickCalls(DestroyCalls(env, s, at, err)) == []
  {
    TickCallsOne(StopListen(at));
    TickCallsOne(Destroyed(at, s.impl));
    TickCallsOne(ErrorPosted(at, err));
    TickCallsAppend([Destroyed(at, s.impl)], [ErrorPosted(at, err)]);
    assert [Destroyed(at, s.impl)] + [] == [Destroyed(at, s.impl)];
  }

  lemma {:induction false} DeadTickCalls(env: Env, p: Pop, at: Addr, err: Error)
    requires at in p.live
    ensures var q := Dead(env, p, at, err);
            if q.tick == p.tick then TickCalls(q.calls) == TickCalls(p.calls)
            else p.tick.Some? && q.tick.None? && TickCalls(q.calls) == TickCalls(p.calls) + [CancelTick(p.tick.value)]
  {
    var s := p.live[at];
    var q := Dead(env, p, at, err);
    var stop, destroy := StopCalls(s, at), DestroyCalls(env, s, at, err);
    var mid := if q.tick != p.tick then [CancelTick(p.tick.value)] else [];
    assert q.calls == p.calls + stop + mid + destroy + [Freed(at)];
    StopAndDestroyAreSilent(env, s, at, err);
    SilentCall(p.calls + stop + mid + destroy, Freed(at));
    TickCallsAppend(p.calls + stop + mid, destroy);
    TickCallsAppend(p.calls + stop, mid);
    TickCallsAppend(p.calls, stop);
    if mid != [] { TickCallsOne(mid[0]); }
  }

  lemma {:induction false} BornTickCalls(env: Env, p: Pop, at: Addr, kind: Kind, stack: Stack, size: nat, h: Handle)
    requires Ticking(p)
    ensures var q := Born(env, p, at, kind, stack, size, h);
            if q.tick == p.tick then TickCalls(q.calls) == TickCalls(p.calls)
            else p.tick.None? && q.tick.Some? && TickCalls(q.calls) == TickCalls(p.calls) + [StartTick(q.tick.value)]
  {
    TickCallsAppend(p.calls, [StartTick(h)]);
    TickCallsOne(StartTick(h));
  }

  lemma {:induction false} StreamFromTickCalls(env: Env, p: Pop, op: Op)
    requires Steady(env, p) && CanAccept(env, p, op)
    ensures var q := StreamFrom(env, p, op.at, op.streamAt, op.x, op.size, op.h, op.left);
            TickCalls(q.calls) == TickCalls(p.calls) && q.tick == p.tick && q.count == p.count + 1 && p.count > 0
  {
    assert op.at in TcpAddrs(p.live);
    BornCounts(env, p, op.streamAt, Stream, p.live[op.at].stack, op.size, op.h);
    BornTickCalls(env, p, op.streamAt, Stream, p.live[op.at].stack, op.size, op.h);
    if op.left.Some? {
      SilentCall(p.calls, Attached(op.streamAt, op.left.value));
    }
  }

  /** accept on a live listener, succeeding or failing, on whatever impl, neither starts nor cancels
      a tick on the way. */
  lemma {:induction false} AcceptLeavesTickAlone(env: Env, p: Pop, op: Op)
    requires Steady(env, p) && CanAccept(env, p, op)
    ensures TickCalls(AcceptedBy(env, p, op).calls) == TickCalls(p.calls)
    ensures AcceptedBy(env, p, op).tick == p.tick && AcceptedBy(env, p, op).tasks == p.tasks
  {
    AcceptedTick(env, p, op);
    StreamFromTickCalls(env, p, op);
    if op.err != NoError {
      var q := StreamFrom(env, p, op.at, op.streamAt, op.x, op.size, op.h, op.left);
      DeadTickCalls(env, q, op.streamAt, op.destroyErr);
      assert AcceptedBy(env, p, op) == Dead(env, q, op.streamAt, op.destroyErr);
    }
  }

  /** How one step may move the tick: not at all, by one start, or by one cancel of the task running. */
  predicate TickMoves(p: Pop, q: Pop) {
    || (q.tick == p.tick && TickCalls(q.calls) == TickCalls(p.calls))
    || (p.tick.None? && q.tick.Some? && TickCalls(q.calls) == TickCalls(p.calls) + [StartTick(q.tick.value)])
    || (p.tick.Some? && q.tick.None? && TickCalls(q.calls) == TickCalls(p.calls) + [CancelTick(p.tick.value)])
  }

  lemma {:induction false} MoveKeepsAlternation(p: Pop, q: Pop)
    requires Alternates(TickCalls(p.calls), p.tick) && TickMoves(p, q)
    ensures Alternates(TickCalls(q.calls), q.tick)
  {
    var before, after := TickCalls(p.calls), TickCalls(q.calls);
    if q.tick != p.tick {
      assert after[..|after| - 1] == before;
    }
  }

  lemma {:induction false} AdoptLeavesTickAlone(env: Env, p: Pop, op: Op)
    requires Inv(env, p) && Enabled(env, p, op) && op.Adopt?
    ensures TickCalls(Step(env, p, op).calls) == TickCalls(p.calls) && Step(env, p, op).tick == p.tick
  {
    StreamFromTickCalls(env, p, AsAccept(op));
    SilentCall(StreamFrom(env, p, op.at, op.streamAt, op.x, op.size, op.h, op.left).calls, ErrorPosted(op.streamAt, op.err));
  }

  lemma {:induction false} StepMovesTick(env: Env, p: Pop, op: Op)
    requires Inv(env, p) && Enabled(env, p, op)
    ensures TickMoves(p, Step(env, p, op))
  {
    match op
    case New(at, kind, stack, size, h) => BornTickCalls(env, p, at, kind, stack, size, h);
    case Delete(at, err) => DeadTickCalls(env, p, at, err);
    case Open(at, made) => if made.Some? { SilentCall(p.calls, Created(at, made.value)); }
    case BindAddr(at, _, _) => SilentCall(p.calls, StackBind(at, p.live[at].impl));
    case BindText(at, _, _) => SilentCall(p.calls, StackBind(at, p.live[at].impl));
    case Close(_, _) =>
    case Arrive(_, _) =>
    case Accept(_, _, _, _, _, _, _, _) => AcceptLeavesTickAlone(env, p, op);
    case Adopt(_, _, _, _, _, _, _) => AdoptLeavesTickAlone(env, p, op);
  }

  /** Over every run each periodic task started is cancelled before the next is started; the only
      one outstanding is the one the tick handle names. */
  lemma {:induction false} NoTaskLost(env: Env, ops: seq<Op>)
    requires Legal(env, ops)
    ensures Alternates(TickCalls(After(env, ops).calls), After(env, ops).tick)
    decreases |ops|
  {
    if ops == [] {
    } else {
      NoTaskLost(env, ops[..|ops| - 1]);
      ReachableInv(env, ops[..|ops| - 1]);
      StepMovesTick(env, After(env, ops[..|ops| - 1]), ops[|ops| - 1]);
      MoveKeepsAlternation(After(env, ops[..|ops| - 1]), After(env, ops));
    }
  }

  // ---------------------------------------------------------- ownership of stack sockets

  /** In every run no two live sockets hold the same impl, and an impl always comes with an API. */
  lemma {:induction false} ImplsNeverShared(env: Env, ops: seq<Op>, a: Addr, b: Addr)
    requires Legal(env, ops)
    requires a in After(env, ops).live && b in After(env, ops).live && a != b
    ensures var live := After(env, ops).live;
            live[a].impl.Some? ==> live[a].impl != live[b].impl && live[a].hasApi && live[a].entry == a
  {
    ReachableInv(env, ops);
  }

  /** What accept does with an arbitrary impl, wherever the caller got it: sharing appears exactly
      when the accept succeeds on an impl some live socket already holds, and a socket with an impl
      but no API appears exactly when it succeeds on a listener without one. */
  lemma {:induction false} AcceptSharesIff(env: Env, p: Pop, at: Addr, streamAt: Addr, x: Impl, size: nat, h: Handle,
                                           err: Error, left: Option<Impl>, derr: Error)
    requires Distinct(p.live) && Backed(env, p.live) && at in p.live && streamAt !in p.live
    ensures Distinct(Accepted(env, p, at, streamAt, x, size, h, err, left, derr).live)
            <==> (err == NoError && left.Some? ==> forall a :: a in p.live ==> p.live[a].impl != left)
    ensures Backed(env, Accepted(env, p, at, streamAt, x, size, h, err, left, derr).live)
            <==> (err == NoError && left.Some? ==> p.live[at].hasApi)
  {
    if err == NoError {
      var s := StreamJoins(env, p, at, streamAt, x, size, h, left);
      JoinSharesIff(p.live, streamAt, s);
      JoinBackedIff(env, p.live, streamAt, s);
    } else {
      RefusalLeavesLive(env, p, at, streamAt, x, size, h, err, left, derr);
    }
  }

  /** What a caller can check: whatever the stack answers, accepting x keeps impls distinct iff no live
      socket holds x, and keeps every impl backed by an API iff the listener has one. */
  lemma {:induction false} AcceptIsSafeIff(env: Env, p: Pop, at: Addr, streamAt: Addr, x: Impl, size: nat, h: Handle)
    requires Distinct(p.live) && Backed(env, p.live) && at in p.live && streamAt !in p.live
    ensures (forall err: Error, left: Option<Impl>, derr: Error :: left == None || left == Some(x) ==>
               Distinct(Accepted(env, p, at, streamAt, x, size, h, err, left, derr).live))
            <==> Unheld(p.live, x)
    ensures (forall err: Error, left: Option<Impl>, derr: Error :: left == None || left == Some(x) ==>
               Backed(env, Accepted(env, p, at, streamAt, x, size, h, err, left, derr).live))
            <==> p.live[at].hasApi
  {
    AcceptSharesIff(env, p, at, streamAt, x, size, h, NoError, Some(x), NoError);
    forall err: Error, left: Option<Impl>, derr: Error | left == None || left == Some(x)
      ensures Unheld(p.live, x) ==> Distinct(Accepted(env, p, at, streamAt, x, size, h, err, left, derr).live)
      ensures p.live[at].hasApi ==> Backed(env, Accepted(env, p, at, streamAt, x, size, h, err, left, derr).live)
    {
      AcceptSharesIff(env, p, at, streamAt, x, size, h, err, left, derr);
    }
  }

  lemma {:induction false} StreamJoins(env: Env, p: Pop, at: Addr, streamAt: Addr, x: Impl, size: nat, h: Handle,
                                       left: Option<Impl>) returns (s: Sock)
    requires Backed(env, p.live) && at in p.live && streamAt !in p.live
    ensures StreamFrom(env, p, at, streamAt, x, size, h, left).live == p.live[streamAt := s]
    ensures s.impl == left && s.entry == streamAt && s.stack == p.live[at].stack
    ensures s.hasApi == (s.stack in env.stacks) == p.live[at].hasApi
  {
    s := StreamFrom(env, p, at, streamAt, x, size, h, left).live[streamAt];
  }

  lemma {:induction false} RefusalLeavesLive(env: Env, p: Pop, at: Addr, streamAt: Addr, x: Impl, size: nat, h: Handle,
                                             err: Error, left: Option<Impl>, derr: Error)
    requires at in p.live && streamAt !in p.live && err != NoError
    ensures Accepted(env, p, at, streamAt, x, size, h, err, left, derr).live == p.live
  {
    var q := StreamFrom(env, p, at, streamAt, x, size, h, left);
    assert q.live.Keys == p.live.Keys + {streamAt};
  }

  lemma {:induction false} JoinSharesIff(live: map<Addr, Sock>, at: Addr, s: Sock)
    requires Distinct(live) && at !in live
    ensures Distinct(live[at := s]) <==> (s.impl.Some? ==> forall a :: a in live ==> live[a].impl != s.impl)
  {
    var more := live[at := s];
    assert forall a :: a in live ==> more[a] == live[a];
    if Distinct(more) && s.impl.Some? {
      forall a | a in live
        ensures live[a].impl != s.impl
      {
        assert more[at].impl != more[a].impl;
      }
    }
  }

  lemma {:induction false} JoinBackedIff(env: Env, live: map<Addr, Sock>, at: Addr, s: Sock)
    requires Backed(env, live) && at !in live && s.hasApi == (s.stack in env.stacks) && s.entry == at
    ensures Backed(env, live[at := s]) <==> (s.impl.Some? ==> s.hasApi)
  {
    var more := live[at := s];
    assert at in more && more[at] == s;
    assert forall a :: a in live ==> more[a] == live[a];
  }

  const ONE_STACK: Env := Env(0x1_0000_0000, {1}, {1})

  lemma {:induction false} OneMore(env: Env, ops: seq<Op>, op: Op)
    requires Legal(env, ops) && Enabled(env, After(env, ops), op)
    ensures Legal(env, ops + [op]) && After(env, ops + [op]) == Step(env, After(env, ops), op)
  {
    assert (ops + [op])[..|ops|] == ops;
  }

  /** The stack may hand out again what it got back: in every run, once a socket is deleted, its impl can
      be installed in any other live socket that has an API. */
  lemma {:induction false} ReissueIsLegal(env: Env, ops: seq<Op>, at: Addr, other: Addr, err: Error)
    requires Legal(env, ops) && at in After(env, ops).live && other in After(env, ops).live && at != other
    requires After(env, ops).live[at].impl.Some? && After(env, ops).live[other].hasApi
    ensures var x := After(env, ops).live[at].impl;
            var more := ops + [Delete(at, err)] + [Open(other, x)];
            Legal(env, more) && After(env, more).live[other].impl == x
  {
    var x := After(env, ops).live[at].impl;
    ReachableInv(env, ops);
    OneMore(env, ops, Delete(at, err));
    var q := After(env, ops + [Delete(at, err)]);
    assert forall a :: a in q.live ==> a != at && a in After(env, ops).live && q.live[a] == After(env, ops).live[a];
    OneMore(env, ops + [Delete(at, err)], Open(other, x));
  }

  /** Sharing does appear: in every run, accepting an impl that is in use, such as the listener's own,
      makes two live sockets hold it; and accepting on a listener whose stack has no API makes a stream
      with an impl and no API. */
  lemma {:induction false} AcceptCanShare(env: Env, ops: seq<Op>, at: Addr, streamAt: Addr, x: Impl, size: nat, h: Handle)
    requires Legal(env, ops) && at in After(env, ops).live && streamAt !in After(env, ops).live
    ensures After(env, ops).live[at].impl == Some(x) ==>
              !Distinct(Accepted(env, After(env, ops), at, streamAt, x, size, h, NoError, Some(x), NoError).live)
    ensures !After(env, ops).live[at].hasApi ==>
              !Backed(env, Accepted(env, After(env, ops), at, streamAt, x, size, h, NoError, Some(x), NoError).live)
  {
    ReachableInv(env, ops);
    AcceptSharesIff(env, After(env, ops), at, streamAt, x, size, h, NoError, Some(x), NoError);
  }

  /** Both situations are reachable: a listener with an impl of its own, and one without an API. */
  lemma {:induction false} ListenersAreReachable(x: Impl)
    ensures var ops := [New(100, Listener, 1, 64, 7), Open(100, Some(x))];
            Legal(ONE_STACK, ops) && After(ONE_STACK, ops).live == map[100 := Sock(Listener, 1, true, StreamFamily, Some(x), 100, 64)]
    ensures var ops := [New(100, Listener, 0, 64, 7)];
            Legal(ONE_STACK, ops) && After(ONE_STACK, ops).live == map[100 := Sock(Listener, 0, false, StreamFamily, None, 100, 64)]
  {
    FirstListener(1);
    FirstListener(0);
    var o1 := [New(100, Listener, 1, 64, 7)];
    assert o1 + [Open(100, Some(x))] == [New(100, Listener, 1, 64, 7), Open(100, Some(x))];
    assert (After(ONE_STACK, o1).live - {100}).Keys == {};
    OneMore(ONE_STACK, o1, Open(100, Some(x)));
  }

  lemma {:induction false} FirstListener(stack: Stack)
    ensures var ops := [New(100, Listener, stack, 64, 7)];
            Legal(ONE_STACK, ops) && After(ONE_STACK, ops).waiting == map[]
            && After(ONE_STACK, ops).live == map[100 := Sock(Listener, stack, stack == 1, StreamFamily, None, 100, 64)]
  {
    var o0: seq<Op> := [];
    assert o0 + [New(100, Listener, stack, 64, 7)] == [New(100, Listener, stack, 64, 7)] && Legal(ONE_STACK, o0);
    OneMore(ONE_STACK, o0, New(100, Listener, stack, 64, 7));
  }

  // -------------------------------------------------------------------- API uses

  datatype Use =
    | UseResolve | UseBindText | UseBindAddr | UseClose | UseRecv | UseRecvFrom | UseSend | UseSendTo | UseIsConnected
    | UseLocalAddr | UseLocalPort | UseRemoteAddr | UseRemotePort
    | UseOpen | UseConnect | UseUdpConnect | UseStartListen | UseStopListen | UseDestroy
    | UsePeriodicInterval | UsePeriodicTask | UseSetNagle | UseReject | UseAdoptedAccept

  /** Whether the code goes on to dereference the API pointer, given its own guards. */
  predicate Dereferences(u: Use, s: Sock) {
    match u
    case UseOpen => s.hasApi
    case UseConnect => s.hasApi
    case UseUdpConnect => s.hasApi
    case UseStartListen => s.hasApi
    case UseStopListen => s.hasApi
    case UseDestroy => s.hasApi
    case UsePeriodicInterval => s.hasApi
    case UsePeriodicTask => s.hasApi
    case UseSetNagle => true
    case UseReject => true
    case UseAdoptedAccept => true
    case _ => s.impl.Some?
  }

  /** setNagle, reject and the accept call of the deprecated constructor have no guard. */
  predicate Unguarded(u: Use) {
    u.UseSetNagle? || u.UseReject? || u.UseAdoptedAccept?
  }

  /** In every run each guarded use of the API is well defined, and each unguarded one is so exactly on
      sockets whose stack has an API. */
  lemma {:induction false} ApiUseDefinedIff(env: Env, ops: seq<Op>, at: Addr, u: Use)
    requires Legal(env, ops) && at in After(env, ops).live
    ensures var s := After(env, ops).live[at];
            (Dereferences(u, s) ==> s.hasApi) <==> (Unguarded(u) ==> s.stack in env.stacks)
  {
    assert Backed(env, After(env, ops).live) by { ReachableInv(env, ops); }
  }

  /** In every run a socket that holds an impl passes every guard; a socket without one still passes those
      that ask only for the API, if its stack has one, and no other. */
  lemma {:induction false} GuardsLetThrough(env: Env, ops: seq<Op>, at: Addr, u: Use)
    requires Legal(env, ops) && at in After(env, ops).live
    ensures var s := After(env, ops).live[at];
            && (s.impl != None ==> Dereferences(u, s) && s.stack in env.stacks)
            && (s.impl == None && !Unguarded(u) && Dereferences(u, s) ==>
                  s.stack in env.stacks
                  && u in {UseOpen, UseConnect, UseUdpConnect, UseStartListen, UseStopListen, UseDestroy, UsePeriodicInterval, UsePeriodicTask})
            && (s.stack in env.stacks
                && u in {UseOpen, UseConnect, UseUdpConnect, UseStartListen, UseStopListen, UseDestroy, UsePeriodicInterval, UsePeriodicTask}
                ==> Dereferences(u, s))
  {
    assert Backed(env, After(env, ops).live) by { ReachableInv(env, ops); }
  }

  /** setNagle on a stream whose stack has no API dereferences a null API pointer. */
  lemma {:induction false} NagleCanBeUndefined()
    ensures var ops := [New(100, Stream, 0, 64, 7)];
            Legal(ONE_STACK, ops)
            && var s := After(ONE_STACK, ops).live[100];
               Dereferences(UseSetNagle, s) && !s.hasApi
  {
    var o0: seq<Op> := [];
    assert o0 + [New(100, Stream, 0, 64, 7)] == [New(100, Stream, 0, 64, 7)] && Legal(ONE_STACK, o0);
    OneMore(ONE_STACK, o0, New(100, Stream, 0, 64, 7));
  }

  // --------------------------------------------------------------------------- bind

  predicate Grants(c: Call, at: Addr, x: Impl) {
    c == Created(at, x) || c == Attached(at, x)
  }

  predicate NotFreed(calls: seq<Call>, from: nat, to: nat, at: Addr)
    requires to <= |calls|
  {
    forall m :: from <= m < to ==> calls[m] != Freed(at)
  }

  /** Before call k, the object now at this address was given this impl, by create or by accept: the
      address has not been freed since. */
  predicate Given(calls: seq<Call>, k: nat, at: Addr, x: Impl)
    requires k <= |calls|
  {
    exists j :: 0 <= j < k && Grants(calls[j], at, x) && NotFreed(calls, j + 1, k, at)
  }

  predicate BindsOwned(calls: seq<Call>) {
    forall k :: 0 <= k < |calls| && calls[k].StackBind? ==>
      calls[k].held.Some? && Given(calls, k, calls[k].at, calls[k].held.value)
  }

  predicate HoldingsGiven(p: Pop) {
    forall a :: a in p.live && p.live[a].impl.Some? ==> Given(p.calls, |p.calls|, a, p.live[a].impl.value)
  }

  lemma {:induction false} GivenExtends(calls: seq<Call>, more: seq<Call>, k: nat, to: nat, at: Addr, x: Impl)
    requires k <= |calls| && calls <= more && k <= to <= |more| && Given(calls, k, at, x) && NotFreed(more, k, to, at)
    ensures Given(more, to, at, x)
  {
    var j :| 0 <= j < k && Grants(calls[j], at, x) && NotFreed(calls, j + 1, k, at);
    assert forall m :: 0 <= m < k ==> more[m] == calls[m];
    assert Grants(more[j], at, x) && NotFreed(more, j + 1, to, at);
  }

  lemma {:induction false} OwnedExtends(calls: seq<Call>, more: seq<Call>)
    requires BindsOwned(calls) && calls <= more
    requires forall k :: |calls| <= k < |more| ==> !more[k].StackBind?
    ensures BindsOwned(more)
  {
    forall k | 0 <= k < |more| && more[k].StackBind?
      ensures more[k].held.Some? && Given(more, k, more[k].at, more[k].held.value)
    {
      assert calls[k] == more[k];
      GivenExtends(calls, more, k, k, calls[k].at, calls[k].held.value);
    }
  }

  lemma {:induction false} BindKeepsOwned(p: Pop, at: Addr)
    requires at in p.live && BindsOwned(p.calls) && HoldingsGiven(p) && p.live[at].impl.Some?
    ensures BindsOwned(p.calls + [StackBind(at, p.live[at].impl)])
  {
    var calls := p.calls + [StackBind(at, p.live[at].impl)];
    forall k | 0 <= k < |calls| && calls[k].StackBind?
      ensures calls[k].held.Some? && Given(calls, k, calls[k].at, calls[k].held.value)
    {
      if k < |p.calls| {
        assert p.calls[k] == calls[k];
        GivenExtends(p.calls, calls, k, k, calls[k].at, calls[k].held.value);
      } else {
        GivenExtends(p.calls, calls, k, k, at, p.live[at].impl.value);
      }
    }
  }

  /** Calls only ever accumulate, live memory is not freed, and sockets keep the impl they were given
      unless one is given anew. */
  lemma {:induction false} HoldingsExtend(p: Pop, q: Pop)
    requires HoldingsGiven(p) && p.calls <= q.calls
    requires forall a :: a in q.live ==> NotFreed(q.calls, |p.calls|, |q.calls|, a)
    requires forall a :: a in q.live && q.live[a].impl.Some? ==>
               (a in p.live && q.live[a].impl == p.live[a].impl) || Given(q.calls, |q.calls|, a, q.live[a].impl.value)
    ensures HoldingsGiven(q)
  {
    forall a | a in q.live && q.live[a].impl.Some?
      ensures Given(q.calls, |q.calls|, a, q.live[a].impl.value)
    {
      if a in p.live && q.live[a].impl == p.live[a].impl {
        GivenExtends(p.calls, q.calls, |p.calls|, |q.calls|, a, q.live[a].impl.value);
      }
    }
  }

  lemma {:induction false} BornKeepsOwnership(env: Env, p: Pop, at: Addr, kind: Kind, stack: Stack, size: nat, h: Handle)
    requires BindsOwned(p.calls) && HoldingsGiven(p)
    ensures BindsOwned(Born(env, p, at, kind, stack, size, h).calls) && HoldingsGiven(Born(env, p, at, kind, stack, size, h))
  {
    var q := Born(env, p, at, kind, stack, size, h);
    OwnedExtends(p.calls, q.calls);
    HoldingsExtend(p, q);
  }

  lemma {:induction false} GrantKeepsOwnership(p: Pop, q: Pop, at: Addr, s: Sock, c: Call)
    requires BindsOwned(p.calls) && HoldingsGiven(p)
    requires q.live == p.live[at := s] && q.calls == p.calls + [c]
    requires s.impl.Some? && (c == Created(at, s.impl.value) || c == Attached(at, s.impl.value))
    ensures BindsOwned(q.calls) && HoldingsGiven(q)
  {
    OwnedExtends(p.calls, q.calls);
    assert Grants(q.calls[|q.calls| - 1], at, s.impl.value) && NotFreed(q.calls, |q.calls|, |q.calls|, at);
    HoldingsExtend(p, q);
  }

  lemma {:induction false} StreamFromKeepsOwnership(env: Env, p: Pop, op: Op)
    requires Enabled(env, p, op) && op.Accept? && BindsOwned(p.calls) && HoldingsGiven(p)
    ensures var q := StreamFrom(env, p, op.at, op.streamAt, op.x, op.size, op.h, op.left);
            BindsOwned(q.calls) && HoldingsGiven(q)
  {
    var q := Born(env, p, op.streamAt, Stream, p.live[op.at].stack, op.size, op.h);
    BornKeepsOwnership(env, p, op.streamAt, Stream, p.live[op.at].stack, op.size, op.h);
    var r := StreamFrom(env, p, op.at, op.streamAt, op.x, op.size, op.h, op.left);
    if op.left.Some? {
      GrantKeepsOwnership(q, r, op.streamAt, r.live[op.streamAt], Attached(op.streamAt, op.left.value));
    } else {
      HoldingsExtend(q, r);
    }
  }

  lemma {:induction false} DeadKeepsOwnership(env: Env, p: Pop, at: Addr, err: Error)
    requires at in p.live && BindsOwned(p.calls) && HoldingsGiven(p)
    ensures BindsOwned(Dead(env, p, at, err).calls) && HoldingsGiven(Dead(env, p, at, err))
  {
    var q := Dead(env, p, at, err);
    OwnedExtends(p.calls, q.calls);
    HoldingsExtend(p, q);
  }

  lemma {:induction false} BindKeepsOwnership(p: Pop, q: Pop, at: Addr)
    requires at in p.live && BindsOwned(p.calls) && HoldingsGiven(p)
    requires q == p || (p.live[at].impl.Some? && q == p.(calls := p.calls + [StackBind(at, p.live[at].impl)]))
    ensures BindsOwned(q.calls) && HoldingsGiven(q)
  {
    if q != p {
      BindKeepsOwned(p, at);
      HoldingsExtend(p, q);
    }
  }

  lemma {:induction false} StepKeepsOwnership(env: Env, p: Pop, op: Op)
    requires Enabled(env, p, op) && BindsOwned(p.calls) && HoldingsGiven(p)
    ensures BindsOwned(Step(env, p, op).calls) && HoldingsGiven(Step(env, p, op))
  {
    var q := Step(env, p, op);
    match op
    case New(at, kind, stack, size, h) =>
      BornKeepsOwnership(env, p, at, kind, stack, size, h);
    case Delete(at, err) => DeadKeepsOwnership(env, p, at, err);
    case Open(at, made) =>
      if q != p {
        GrantKeepsOwnership(p, q, at, q.live[at], Created(at, made.value));
      }
    case BindAddr(at, _, _) => BindKeepsOwnership(p, q, at);
    case BindText(at, _, _) => BindKeepsOwnership(p, q, at);
    case Close(_, _) => HoldingsExtend(p, q);
    case Arrive(_, _) =>
    case Accept(at, streamAt, x, size, h, err, left, derr) =>
      StreamFromKeepsOwnership(env, p, op);
      if err != NoError {
        DeadKeepsOwnership(env, StreamFrom(env, p, at, streamAt, x, size, h, left), streamAt, derr);
      }
    case Adopt(at, streamAt, x, size, h, err, left) =>
      var r := StreamFrom(env, p, at, streamAt, x, size, h, left);
      StreamFromKeepsOwnership(env, p, AsAccept(op));
      OwnedExtends(r.calls, q.calls);
      HoldingsExtend(r, q);
  }

  lemma {:induction false} ReachableOwnership(env: Env, ops: seq<Op>)
    requires Legal(env, ops)
    ensures BindsOwned(After(env, ops).calls) && HoldingsGiven(After(env, ops))
    decreases |ops|
  {
    if ops == [] {
    } else {
      ReachableOwnership(env, ops[..|ops| - 1]);
      StepKeepsOwnership(env, After(env, ops[..|ops| - 1]), ops[|ops| - 1]);
    }
  }

  /** Binding never opens a socket, by either form and for every kind of socket: over every run the
      stack's bind is reached only with an impl the same socket was given earlier, and a bind on a
      socket without one changes nothing and reports an error. */
  lemma {:induction false} BindNeverOpens(env: Env, ops: seq<Op>, at: Addr, e: Error)
    requires Legal(env, ops) && at in After(env, ops).live
    ensures BindsOwned(After(env, ops).calls)
    ensures var p := After(env, ops);
            p.live[at].impl.None? ==>
              && BoundAddr(p, at, false, e) == (p, Unimplemented)
              && BoundText(p, at, NoError, e) == (p, NullPtr)
  {
    ReachableOwnership(env, ops);
  }
}
