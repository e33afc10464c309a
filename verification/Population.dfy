/** The population of live sockets: the shared TCP counter and periodic tick, which stack socket
    (`impl`) each object holds, and the calls made to the stack and the scheduler on the way.
    Every operation is a function on the state of the whole device; what the environment
    decides (allocated addresses, handles, impls, stack results) arrives in the operation. */
module Population {
  import opened Sal

  type Addr = nat
  type Handle = nat
  type Stack = nat

  datatype Family = Unset | StreamFamily | DatagramFamily

  /** A live object: its class, the fields of its struct socket, and its size in bytes. */
  datatype Sock = Sock(kind: Kind, stack: Stack, hasApi: bool, family: Family, impl: Option<Impl>, entry: Addr, size: nat)

  /** The pointer range `top` (2^w), the stacks for which socket_get_api finds an API, and the
      stacks whose API has a destroy entry. */
  datatype Env = Env(top: nat, stacks: set<Stack>, destroyers: set<Stack>)

  /** What the sockets ask of the stack and the scheduler, in order, and when their memory is freed. */
  datatype Call =
    | StartTick(h: Handle)
    | CancelTick(h: Handle)
    | Created(at: Addr, impl: Impl)
    | Attached(at: Addr, impl: Impl)
    | StackBind(at: Addr, held: Option<Impl>)
    | StopListen(at: Addr)
    | Destroyed(at: Addr, held: Option<Impl>)
    | ErrorPosted(at: Addr, err: Error)
    | Freed(at: Addr)

  datatype Pop = Pop(
    live: map<Addr, Sock>,
    count: nat,
    tick: Option<Handle>,
    tasks: set<Handle>,          // periodic tasks the scheduler is running
    waiting: map<Impl, Addr>,    // incoming impls not yet accepted, with the listener they came to
    calls: seq<Call>)

  const START := Pop(map[], 0, None, {}, map[], [])

  predicate IsTcp(s: Sock) {
    !s.kind.Udp?
  }

  function TcpAddrs(live: map<Addr, Sock>): set<Addr> {
    set a | a in live && IsTcp(live[a])
  }

  // ------------------------------------------------------- construction, destruction

  /** Unsigned increment and decrement of the pointer-sized counter. */
  function Inc(top: nat, c: nat): nat {
    if c + 1 >= top then 0 else c + 1
  }

  function Dec(top: nat, c: nat): nat {
    if c == 0 then if top == 0 then 0 else top - 1 else c - 1
  }

  /** The Socket constructor followed by the family assignment of the derived class. */
  function NewSock(env: Env, kind: Kind, stack: Stack, at: Addr, size: nat): Sock {
    Sock(kind, stack, stack in env.stacks, if kind.Udp? then DatagramFamily else StreamFamily, None, at, size)
  }

  function Born(env: Env, p: Pop, at: Addr, kind: Kind, stack: Stack, size: nat, h: Handle): Pop {
    var q := p.(live := p.live[at := NewSock(env, kind, stack, at, size)]);
    if kind.Udp? then q
    else if p.count == 0 && stack in env.stacks then
      q.(count := Inc(env.top, p.count), tick := Some(h), tasks := p.tasks + {h},
         calls := p.calls + [StartTick(h)])
    else q.(count := Inc(env.top, p.count))
  }

  /** What the destructors of a socket do: the listener stops listening, the TCP layer drops the
      counter and perhaps the tick, the base class frees the stack socket. */
  function StopCalls(s: Sock, at: Addr): seq<Call> {
    if s.kind.Listener? && s.hasApi then [StopListen(at)] else []
  }

  function DestroyCalls(env: Env, s: Sock, at: Addr, err: Error): seq<Call> {
    if s.hasApi && s.stack in env.destroyers
    then [Destroyed(at, s.impl)] + if err == NoError then [] else [ErrorPosted(at, err)]
    else []
  }

  /** The connections that wait for other listeners. */
  function WaitingElsewhere(waiting: map<Impl, Addr>, at: Addr): map<Impl, Addr> {
    map x | x in waiting && waiting[x] != at :: waiting[x]
  }

  function Dead(env: Env, p: Pop, at: Addr, err: Error): Pop
    requires at in p.live
  {
    var s := p.live[at];
    var c := if IsTcp(s) then Dec(env.top, p.count) else p.count;
    var cancels := IsTcp(s) && c == 0 && p.tick.Some?;
    Pop(p.live - {at}, c,
        if cancels then None else p.tick,
        if cancels then p.tasks - {p.tick.value} else p.tasks,
        WaitingElsewhere(p.waiting, at),
        p.calls + StopCalls(s, at) + (if cancels then [CancelTick(p.tick.value)] else []) + DestroyCalls(env, s, at, err)
        + [Freed(at)])
  }

  // ------------------------------------------------------------ operations on a socket

  /** open: without an API it is refused; otherwise the stack's create may install a new impl. */
  function Opened(p: Pop, at: Addr, made: Option<Impl>): Pop
    requires at in p.live
  {
    if !p.live[at].hasApi || made.None? then p
    else p.(live := p.live[at := p.live[at].(impl := made)],
            calls := p.calls + [Created(at, made.value)])
  }

  /** The two-argument open that bind dispatches to: every concrete class overrides it. */
  function OpenOverride(kind: Kind): (err: Error)
    ensures err != NoError
  {
    match kind
    case Udp => Unimplemented
    case Stream => Unimplemented
    case Listener => Unimplemented
  }

  /** bind with an address object. */
  function BoundAddr(p: Pop, at: Addr, addrNull: bool, stackErr: Error): (Pop, Error)
    requires at in p.live
  {
    var s := p.live[at];
    if addrNull then (p, NullPtr)
    else if s.impl.None? && OpenOverride(s.kind) != NoError then (p, OpenOverride(s.kind))
    else (p.(calls := p.calls + [StackBind(at, s.impl)]), stackErr)
  }

  /** bind with a text address: str2addr may refuse it first. */
  function BoundText(p: Pop, at: Addr, parse: Error, stackErr: Error): (Pop, Error)
    requires at in p.live
  {
    if p.live[at].impl.None? then (p, NullPtr)
    else if parse != NoError then (p, parse)
    else BoundAddr(p, at, false, stackErr)
  }

  /** close may make the stack clear the impl; without an impl it is refused. */
  function ClosedBy(p: Pop, at: Addr, cleared: bool): Pop
    requires at in p.live
  {
    if p.live[at].impl.None? || !cleared then p
    else p.(live := p.live[at := p.live[at].(impl := None)])
  }

  /** A connection arrives at a listener: the stack hands out an impl for it. */
  function Arrived(p: Pop, at: Addr, x: Impl): Pop {
    p.(waiting := p.waiting[x := at])
  }

  /** The accepting stream constructor: a stream on the listener's stack, given the incoming impl,
      on which the stack's accept then leaves `left`. */
  function StreamFrom(env: Env, p: Pop, at: Addr, streamAt: Addr, x: Impl, size: nat, h: Handle, left: Option<Impl>): Pop
    requires at in p.live
  {
    var q := Born(env, p, streamAt, Stream, p.live[at].stack, size, h);
    var r := q.(live := q.live[streamAt := q.live[streamAt].(family := p.live[at].family, impl := left)],
                waiting := q.waiting - {x});
    if left.Some? then r.(calls := r.calls + [Attached(streamAt, left.value)]) else r
  }

  /** TCPListener::accept: build the stream, and delete it again if the stack refuses. */
  function Accepted(env: Env, p: Pop, at: Addr, streamAt: Addr, x: Impl, size: nat, h: Handle,
                    err: Error, left: Option<Impl>, destroyErr: Error): Pop
    requires at in p.live
  {
    var q := StreamFrom(env, p, at, streamAt, x, size, h, left);
    if err == NoError then q else Dead(env, q, streamAt, destroyErr)
  }

  /** The deprecated accepting constructor: a refusal is only reported, the stream stays. */
  function Adopted(env: Env, p: Pop, at: Addr, streamAt: Addr, x: Impl, size: nat, h: Handle, err: Error, left: Option<Impl>): Pop
    requires at in p.live
  {
    var q := StreamFrom(env, p, at, streamAt, x, size, h, left);
    if err == NoError then q else q.(calls := q.calls + [ErrorPosted(streamAt, err)])
  }

  // -------------------------------------------------------------------------- runs

  datatype Op =
    | New(at: Addr, kind: Kind, stack: Stack, size: nat, h: Handle)
    | Delete(at: Addr, err: Error)
    | Open(at: Addr, made: Option<Impl>)
    | BindAddr(at: Addr, addrNull: bool, stackErr: Error)
    | BindText(at: Addr, parse: Error, stackErr: Error)
    | Close(at: Addr, cleared: bool)
    | Arrive(at: Addr, x: Impl)
    | Accept(at: Addr, streamAt: Addr, x: Impl, size: nat, h: Handle, err: Error, left: Option<Impl>, destroyErr: Error)
    | Adopt(at: Addr, streamAt: Addr, x: Impl, size: nat, h: Handle, err: Error, left: Option<Impl>)

  /** The bytes an object occupies. */
  predicate Apart(a: Addr, s: nat, b: Addr, t: nat) {
    a + s <= b || b + t <= a
  }

  /** The allocator returns a non-empty range inside the address space, clear of null and of
      every live object. */
  predicate Allocates(env: Env, p: Pop, at: Addr, size: nat) {
    && 1 <= at && 1 <= size && at + size <= env.top
    && forall a :: a in p.live ==> Apart(at, size, a, p.live[a].size)
  }

  /** No socket in `live` holds this impl. The stack may hand out again an impl it got back. */
  predicate Unheld(live: map<Addr, Sock>, x: Impl) {
    forall a :: a in live ==> live[a].impl != Some(x)
  }

  /** The premises on callers and environment, operation by operation. */
  predicate Enabled(env: Env, p: Pop, op: Op) {
    match op
    case New(at, _, _, size, _) => Allocates(env, p, at, size)
    case Delete(at, _) => at in p.live
    case Open(at, made) => at in p.live && (made.Some? ==> Spare(p, at, made.value))
    case BindAddr(at, _, _) => at in p.live
    case BindText(at, _, _) => at in p.live
    case Close(at, _) => at in p.live
    case Arrive(at, x) =>
      && at in p.live && p.live[at].kind.Listener? && p.live[at].impl.Some?
      && x !in p.waiting && Unheld(p.live, x)
    case Accept(at, streamAt, x, size, _, _, left, _) => Takes(env, p, at, streamAt, x, size, left)
    case Adopt(at, streamAt, x, size, _, _, left) => Takes(env, p, at, streamAt, x, size, left)
  }

  /** What create may install in the socket at `at`: an impl that no other socket holds and that does
      not belong to a connection still waiting. */
  predicate Spare(p: Pop, at: Addr, x: Impl) {
    x !in p.waiting && Unheld(p.live - {at}, x)
  }

  /** A connection that arrived at this listener is taken up for the first time, and the stack leaves
      its impl in place or clears it. */
  predicate Takes(env: Env, p: Pop, at: Addr, streamAt: Addr, x: Impl, size: nat, left: Option<Impl>) {
    && at in p.live && p.live[at].kind.Listener?
    && x in p.waiting && p.waiting[x] == at
    && (left == None || left == Some(x))
    && Allocates(env, p, streamAt, size)
  }

  function Step(env: Env, p: Pop, op: Op): Pop
    requires Enabled(env, p, op)
  {
    match op
    case New(at, kind, stack, size, h) => Born(env, p, at, kind, stack, size, h)
    case Delete(at, err) => Dead(env, p, at, err)
    case Open(at, made) => Opened(p, at, made)
    case BindAddr(at, addrNull, e) => BoundAddr(p, at, addrNull, e).0
    case BindText(at, parse, e) => BoundText(p, at, parse, e).0
    case Close(at, cleared) => ClosedBy(p, at, cleared)
    case Arrive(at, x) => Arrived(p, at, x)
    case Accept(at, streamAt, x, size, h, err, left, derr) => Accepted(env, p, at, streamAt, x, size, h, err, left, derr)
    case Adopt(at, streamAt, x, size, h, err, left) => Adopted(env, p, at, streamAt, x, size, h, err, left)
  }

  predicate Legal(env: Env, ops: seq<Op>)
    decreases |ops|, 0
  {
    ops == [] ||
    (Legal(env, ops[..|ops| - 1]) && Enabled(env, After(env, ops[..|ops| - 1]), ops[|ops| - 1]))
  }

  function After(env: Env, ops: seq<Op>): Pop
    requires Legal(env, ops)
    decreases |ops|, 1
  {
    if ops == [] then START
    else Step(env, After(env, ops[..|ops| - 1]), ops[|ops| - 1])
  }

  lemma {:induction false} LegalPrefix(env: Env, ops: seq<Op>, i: nat)
    requires Legal(env, ops) && i <= |ops|
    ensures Legal(env, ops[..i])
    ensures i < |ops| ==> Enabled(env, After(env, ops[..i]), ops[i])
    decreases |ops|
  {
    if i == |ops| {
      assert ops[..i] == ops;
    } else {
      var front := ops[..|ops| - 1];
      assert front[..i] == ops[..i];
      if i < |front| {
        LegalPrefix(env, front, i);
      }
    }
  }
}
