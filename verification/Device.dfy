/** The constructors, destructors and calls of the socket classes as they run, statement by
    statement, on the device's heap of live sockets and the two static TCP fields. Each is proved
    to have the effect its function in `Population` gives it. */
module DeviceCode {
  import opened Sal
  import opened Population
  import opened PopulationProofs
  import opened PopulationRuns
  import opened PopulationCalls

  class Device {
    const env: Env

    var live: map<Addr, Sock>
    var tcpSockets: nat            // TCPAsynch::_TCPSockets
    var tickHandle: Option<Handle> // TCPAsynch::_tick_handle
    var tasks: set<Handle>
    var calls: seq<Call>

    // connections the stack has announced and nobody has taken up yet
    ghost var waiting: map<Impl, Addr>

    constructor (env: Env)
      ensures this.env == env && State() == START && Inv(env, State())
    {
      this.env := env;
      live, tcpSockets, tickHandle, tasks, calls := map[], 0, None, {}, [];
      waiting := map[];
      new;
      ReachableInv(env, []);
    }

    ghost function State(): Pop
      reads this
    {
      Pop(live, tcpSockets, tickHandle, tasks, waiting, calls)
    }

    /** Socket::Socket: no impl, the API the stack has, the object's own event entry. */
    method ConstructSocket(at: Addr, kind: Kind, stack: Stack, size: nat)
      modifies this`live
      ensures live == old(live)[at := Sock(kind, stack, stack in env.stacks, Unset, None, at, size)]
    {
      live := live[at := Sock(kind, stack, stack in env.stacks, Unset, None, at, size)];
    }

    method ConstructUdp(at: Addr, stack: Stack, size: nat)
      modifies this`live
      ensures State() == Born(env, old(State()), at, Udp, stack, size, 0)
      ensures live == old(live)[at := Sock(Udp, stack, stack in env.stacks, DatagramFamily, None, at, size)]
    {
      ConstructSocket(at, Udp, stack, size);
      live := live[at := live[at].(family := DatagramFamily)];
      assert live == old(live)[at := NewSock(env, Udp, stack, at, size)];
    }

    /** TCPAsynch::TCPAsynch: the first TCP socket starts the shared tick, if its stack has an API. */
    method ConstructAsynch(at: Addr, kind: Kind, stack: Stack, size: nat, h: Handle)
      requires !kind.Udp?
      modifies this
      ensures State() == Born(env, old(State()), at, kind, stack, size, h)
      ensures live == old(live)[at := Sock(kind, stack, stack in env.stacks, StreamFamily, None, at, size)]
    {
      ConstructSocket(at, kind, stack, size);
      live := live[at := live[at].(family := StreamFamily)];
      assert live == old(live)[at := NewSock(env, kind, stack, at, size)];
      if tcpSockets == 0 {
        if live[at].hasApi {
          tickHandle := Some(h);
          tasks := tasks + {h};
          calls := calls + [StartTick(h)];
        }
      }
      tcpSockets := Inc(env.top, tcpSockets);
    }

    method StopListening(at: Addr, stackErr: Error) returns (err: Error)
      requires at in live && live[at].kind.Listener?
      modifies this`calls
      ensures calls == old(calls) + StopCalls(live[at], at)
      ensures if live[at].hasApi then calls == old(calls) + [StopListen(at)] && err == stackErr
              else calls == old(calls) && err == BadStack
    {
      if !live[at].hasApi {
        return BadStack;
      }
      calls := calls + [StopListen(at)];
      err := stackErr;
    }

    /** TCPAsynch::~TCPAsynch: the last TCP socket cancels the tick and forgets its handle. */
    method DestroyAsynch(at: Addr)
      modifies this`tcpSockets, this`tickHandle, this`tasks, this`calls
      ensures tcpSockets == Dec(env.top, old(tcpSockets))
      ensures if tcpSockets == 0 && old(tickHandle).Some?
              then tickHandle == None && tasks == old(tasks) - {old(tickHandle).value}
                   && calls == old(calls) + [CancelTick(old(tickHandle).value)]
              else tickHandle == old(tickHandle) && tasks == old(tasks) && calls == old(calls)
    {
      tcpSockets := Dec(env.top, tcpSockets);
      if tcpSockets == 0 && tickHandle != None {
        calls := calls + [CancelTick(tickHandle.value)];
        tasks := tasks - {tickHandle.value};
        tickHandle := None;
      }
    }

    /** Socket::~Socket, after which the object is gone and nothing waits for it. */
    method DestroySocket(at: Addr, err: Error)
      requires at in live
      modifies this`live, this`calls, this`waiting
      ensures live == old(live) - {at}
      ensures calls == old(calls) + DestroyCalls(env, old(live)[at], at, err) + [Freed(at)]
      ensures var s := old(live)[at];
              if s.hasApi && s.stack in env.destroyers
              then calls == old(calls) + [Destroyed(at, s.impl)] + (if err == NoError then [] else [ErrorPosted(at, err)]) + [Freed(at)]
              else calls == old(calls) + [Freed(at)]
      ensures waiting == WaitingElsewhere(old(waiting), at)
    {
      if live[at].hasApi && live[at].stack in env.destroyers {
        calls := calls + [Destroyed(at, live[at].impl)];
        if err != NoError {
          calls := calls + [ErrorPosted(at, err)];
        }
      }
      live := live - {at};
      calls := calls + [Freed(at)];
      waiting := WaitingElsewhere(waiting, at);
    }

    /** The destructors run from the most derived class down. */
    method Destruct(at: Addr, stopErr: Error, err: Error)
      requires at in live
      modifies this
      ensures State() == Dead(env, old(State()), at, err)
    {
      ghost var p := State();
      if live[at].kind.Listener? {
        var _ := StopListening(at, stopErr);
      }
      assert calls == p.calls + StopCalls(p.live[at], at);
      if !live[at].kind.Udp? {
        DestroyAsynch(at);
      }
      ghost var q := Dead(env, p, at, err);
      assert tcpSockets == q.count && tickHandle == q.tick && tasks == q.tasks;
      DestroySocket(at, err);
      assert calls == q.calls && live == q.live;
    }

    /** delete: the counter goes down by one for a TCP socket, without wrapping. */
    method DeleteSocket(at: Addr, stopErr: Error, err: Error)
      requires at in live
      modifies this
      ensures State() == Dead(env, old(State()), at, err)
      ensures old(Inv(env, State())) ==>
                Inv(env, State()) && tcpSockets == old(tcpSockets) - if IsTcp(old(live)[at]) then 1 else 0
      ensures old(Inv(env, State())) ==>
                var s, tick := old(live)[at], old(tickHandle);
                calls == old(calls)
                         + (if s.kind == Listener && s.hasApi then [StopListen(at)] else [])
                         + (if s.kind != Udp && TcpAddrs(old(live)) == {at} && tick.Some? then [CancelTick(tick.value)] else [])
                         + (if s.hasApi && s.stack in env.destroyers then [Destroyed(at, s.impl)] else [])
                         + (if s.hasApi && s.stack in env.destroyers && err != NoError then [ErrorPosted(at, err)] else [])
                         + [Freed(at)]
    {
      ghost var p := State();
      Destruct(at, stopErr, err);
      if Inv(env, p) {
        DeadKeepsInv(env, p, at, err);
        DeadCalls(env, p, at, err);
        TcpAddrsRemove(p.live, at);
      }
    }

    method OpenSocket(at: Addr, made: Option<Impl>, createErr: Error) returns (err: Error)
      requires at in live
      modifies this
      ensures State() == Opened(old(State()), at, made)
      ensures err == if old(live)[at].hasApi then createErr else BadStack
      ensures old(Inv(env, State())) && (made.Some? ==> Spare(old(State()), at, made.value)) ==> Inv(env, State())
    {
      ghost var p := State();
      if !live[at].hasApi {
        return BadStack;
      }
      if made.Some? {
        live := live[at := live[at].(impl := made)];
        calls := calls + [Created(at, made.value)];
      }
      err := createErr;
      if Inv(env, p) && (made.Some? ==> Spare(p, at, made.value)) {
        OpenedKeepsInv(env, p, at, made);
      }
    }

    method BindAddress(at: Addr, addrNull: bool, stackErr: Error) returns (err: Error)
      requires at in live
      modifies this`calls
      ensures (State(), err) == BoundAddr(old(State()), at, addrNull, stackErr)
      ensures if live[at].impl.Some? && !addrNull then calls == old(calls) + [StackBind(at, live[at].impl)] && err == stackErr
              else calls == old(calls) && err == if addrNull then NullPtr else Unimplemented
    {
      if addrNull {
        return NullPtr;
      }
      if live[at].impl.None? {
        err := OpenOverride(live[at].kind);
        if err != NoError {
          return;
        }
      }
      calls := calls + [StackBind(at, live[at].impl)];
      err := stackErr;
    }

    method BindTextual(at: Addr, parse: Error, stackErr: Error) returns (err: Error)
      requires at in live
      modifies this`calls
      ensures (State(), err) == BoundText(old(State()), at, parse, stackErr)
      ensures if live[at].impl.Some? && parse == NoError then calls == old(calls) + [StackBind(at, live[at].impl)] && err == stackErr
              else calls == old(calls) && err == if live[at].impl.None? then NullPtr else parse
    {
      if live[at].impl.None? {
        return NullPtr;
      }
      if parse != NoError {
        return parse;
      }
      err := BindAddress(at, false, stackErr);
    }

    /** close: refused without an impl; the stack may clear the impl. */
    method CloseSocket(at: Addr, cleared: bool, stackErr: Error) returns (err: Error)
      requires at in live
      modifies this`live
      ensures State() == ClosedBy(old(State()), at, cleared)
      ensures live == if cleared then old(live)[at := old(live)[at].(impl := None)] else old(live)
      ensures err == if old(live)[at].impl.None? then NullPtr else stackErr
    {
      if live[at].impl.None? {
        return NullPtr;
      }
      if cleared {
        live := live[at := live[at].(impl := None)];
      }
      err := stackErr;
    }

    /** The stack announces a connection to a listener. */
    ghost method Announce(at: Addr, x: Impl)
      modifies this`waiting
      ensures State() == Arrived(old(State()), at, x)
    {
      waiting := waiting[x := at];
    }

    /** The accepting TCPStream constructor, given the struct socket that accept filled in. */
    method ConstructAccepted(at: Addr, streamAt: Addr, x: Impl, size: nat, h: Handle, left: Option<Impl>)
      requires at in live
      modifies this
      ensures State() == StreamFrom(env, old(State()), at, streamAt, x, size, h, left)
    {
      var newSocket := live[at].(impl := Some(x));
      ConstructAsynch(streamAt, Stream, newSocket.stack, size, h);
      ghost var q := State();
      live := live[streamAt := live[streamAt].(family := newSocket.family)];
      live := live[streamAt := live[streamAt].(impl := newSocket.impl)];
      live := live[streamAt := live[streamAt].(impl := left)];
      assert live == q.live[streamAt := q.live[streamAt].(family := newSocket.family, impl := left)];
      waiting := waiting - {x};
      if left.Some? {
        calls := calls + [Attached(streamAt, left.value)];
      }
    }

    /** The deprecated TCPStream constructor, on the struct socket of a listener: an accept that
        fails is reported through error_check and the stream lives on. It calls through the API
        pointer without a guard. */
    method ConstructAdopted(at: Addr, streamAt: Addr, x: Impl, size: nat, h: Handle, err: Error, left: Option<Impl>)
      requires at in live && live[at].hasApi
      modifies this
      ensures State() == Adopted(env, old(State()), at, streamAt, x, size, h, err, left)
      ensures streamAt in live && live[streamAt].impl == left
      ensures err != NoError ==> calls != [] && calls[|calls| - 1] == ErrorPosted(streamAt, err)
    {
      ConstructAccepted(at, streamAt, x, size, h, left);
      if err != NoError {
        calls := calls + [ErrorPosted(streamAt, err)];
      }
    }

    /** TCPListener::accept. Whatever the stack answers, the tick is neither started nor cancelled
        on the way. Success adds one stream with the listener's stack, API and family, the impl the
        stack left in place and an event entry of its own; failure leaves the population as it was
        and hands what the stack left in place to its destroy, once. */
    method AcceptConnection(at: Addr, streamAt: Addr, x: Impl, size: nat, h: Handle,
                            acceptErr: Error, left: Option<Impl>, destroyErr: Error) returns (stream: Option<Addr>)
      requires Steady(env, State())
      requires at in live && live[at].kind.Listener? && live[at].hasApi == (live[at].stack in env.stacks)
      requires Allocates(env, State(), streamAt, size)
      modifies this
      ensures State() == Accepted(env, old(State()), at, streamAt, x, size, h, acceptErr, left, destroyErr)
      ensures stream == if acceptErr == NoError then Some(streamAt) else None
      ensures tickHandle == old(tickHandle) && tasks == old(tasks) && TickCalls(calls) == TickCalls(old(calls))
      ensures acceptErr == NoError ==>
                && tcpSockets == old(tcpSockets) + 1
                && live == old(live)[streamAt := Sock(Stream, old(live)[at].stack, old(live)[at].hasApi, old(live)[at].family, left, streamAt, size)]
                && calls == old(calls) + if left == None then [] else [Attached(streamAt, left.value)]
      ensures acceptErr != NoError ==>
                var given := old(live)[at].hasApi && old(live)[at].stack in env.destroyers;
                && tcpSockets == old(tcpSockets)
                && live == old(live)
                && calls == old(calls) + (if left == None then [] else [Attached(streamAt, left.value)])
                            + (if given then [Destroyed(streamAt, left)] else [])
                            + (if given && destroyErr != NoError then [ErrorPosted(streamAt, destroyErr)] else [])
                            + [Freed(streamAt)]
    {
      ghost var p := State();
      ghost var op := Accept(at, streamAt, x, size, h, acceptErr, left, destroyErr);
      AcceptOutcome(env, p, op);
      ConstructAccepted(at, streamAt, x, size, h, left);
      if acceptErr != NoError {
        Destruct(streamAt, NoError, destroyErr);
        return None;
      }
      return Some(streamAt);
    }

    /** One operation, by the code that carries it out. */
    method Perform(op: Op)
      requires Inv(env, State()) && Enabled(env, State(), op)
      modifies this
      ensures State() == Step(env, old(State()), op) && Inv(env, State())
    {
      StepKeepsInv(env, State(), op);
      match op {
        case New(at, kind, stack, size, h) =>
          if kind.Udp? {
            ConstructUdp(at, stack, size);
          } else {
            ConstructAsynch(at, kind, stack, size, h);
          }
        case Delete(at, err) => DeleteSocket(at, NoError, err);
        case Open(at, made) => var _ := OpenSocket(at, made, NoError);
        case BindAddr(at, addrNull, e) => var _ := BindAddress(at, addrNull, e);
        case BindText(at, parse, e) => var _ := BindTextual(at, parse, e);
        case Close(at, cleared) => var _ := CloseSocket(at, cleared, NoError);
        case Arrive(at, x) => Announce(at, x);
        case Accept(at, streamAt, x, size, h, err, left, derr) =>
          var _ := AcceptConnection(at, streamAt, x, size, h, err, left, derr);
        case Adopt(at, streamAt, x, size, h, err, left) => ConstructAdopted(at, streamAt, x, size, h, err, left);
      }
    }
  }

  /** The code as a whole: from a device just started, any run the environment allows leaves exactly
      the state the model gives, so every theorem about runs is about these methods. */
  method RunOps(env: Env, ops: seq<Op>) returns (d: Device)
    requires Legal(env, ops)
    ensures d.env == env && d.State() == After(env, ops)
    ensures d.tcpSockets == |TcpAddrs(d.live)| && d.tasks == (if d.tickHandle.Some? then {d.tickHandle.value} else {})
    ensures Distinct(d.live) && BindsOwned(d.calls) && Alternates(TickCalls(d.calls), d.tickHandle) && Familiar(d.live)
    ensures forall x :: Tally(d.calls, x, false) == |Holders(d.live, x)| + Tally(d.calls, x, true) + LetGo(env, ops, x)
  {
    d := new Device(env);
    var i := 0;
    while i < |ops|
      invariant 0 <= i <= |ops| && d.env == env && fresh(d)
      invariant Legal(env, ops[..i]) && d.State() == After(env, ops[..i]) && Inv(env, d.State())
    {
      LegalPrefix(env, ops, i);
      d.Perform(ops[i]);
      i := i + 1;
      assert ops[..i][..i - 1] == ops[..i - 1];
    }
    assert ops[..i] == ops;
    ReachableOwnership(env, ops);
    NoTaskLost(env, ops);
    FamiliesFollowKinds(env, ops);
    forall x
      ensures Tally(d.calls, x, false) == |Holders(d.live, x)| + Tally(d.calls, x, true) + LetGo(env, ops, x)
    {
      ImplsConserved(env, ops, x);
    }
  }
}
