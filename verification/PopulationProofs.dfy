/** What every operation of `Population` keeps, and what follows for every run. */
module PopulationProofs {
  import opened Sal
  import opened Population

  // ------------------------------------------------------------------- invariants

  /** Live objects occupy disjoint non-empty ranges of the address space, and null is not among them. */
  predicate Placed(top: nat, live: map<Addr, Sock>) {
    && (forall a :: a in live ==> 1 <= a && 1 <= live[a].size && a + live[a].size <= top)
    && (forall a, b :: a in live && b in live && a != b ==> Apart(a, live[a].size, b, live[b].size))
  }

  /** The counter is the number of live TCP sockets. */
  predicate Counted(p: Pop) {
    p.count == |TcpAddrs(p.live)|
  }

  /** The scheduler runs exactly the task named by the tick handle, and none without TCP sockets. */
  predicate Ticking(p: Pop) {
    && p.tasks == (if p.tick.Some? then {p.tick.value} else {})
    && (p.count == 0 ==> p.tick.None?)
  }

  /** No two live sockets hold the same impl. */
  predicate Distinct(live: map<Addr, Sock>) {
    forall a, b :: a in live && b in live && a != b && live[a].impl.Some? ==> live[a].impl != live[b].impl
  }

  /** An impl that a socket holds is not waiting to be accepted. */
  predicate TakenUp(p: Pop) {
    forall a :: a in p.live && p.live[a].impl.Some? ==> p.live[a].impl.value !in p.waiting
  }

  /** The API is a function of the stack; an impl implies an API; the event entry is the object's own. */
  predicate Backed(env: Env, live: map<Addr, Sock>) {
    forall a :: a in live ==>
      && live[a].hasApi == (live[a].stack in env.stacks)
      && (live[a].impl.Some? ==> live[a].hasApi)
      && live[a].entry == a
  }

  /** Connections wait only for live listeners that have an API. */
  predicate Awaited(p: Pop) {
    forall x :: x in p.waiting ==>
      p.waiting[x] in p.live && p.live[p.waiting[x]].kind.Listener? && p.live[p.waiting[x]].hasApi
  }

  /** The part of the invariant that speaks of the counter and the tick. */
  predicate Steady(env: Env, p: Pop) {
    Placed(env.top, p.live) && Counted(p) && Ticking(p)
  }

  predicate Inv(env: Env, p: Pop) {
    Steady(env, p) && Distinct(p.live) && TakenUp(p) && Backed(env, p.live) && Awaited(p)
  }

  // ------------------------------------------------------- counting live TCP sockets

  lemma TcpAddrsAdd(live: map<Addr, Sock>, at: Addr, s: Sock)
    requires at !in live
    ensures |TcpAddrs(live[at := s])| == |TcpAddrs(live)| + if IsTcp(s) then 1 else 0
  {
    var more := live[at := s];
    if IsTcp(s) {
      assert TcpAddrs(more) == TcpAddrs(live) + {at};
    } else {
      assert TcpAddrs(more) == TcpAddrs(live);
    }
  }

  lemma TcpAddrsKeep(live: map<Addr, Sock>, at: Addr, s: Sock)
    requires at in live && IsTcp(live[at]) == IsTcp(s)
    ensures TcpAddrs(live[at := s]) == TcpAddrs(live)
  {}

  lemma TcpAddrsRemove(live: map<Addr, Sock>, at: Addr)
    requires at in live
    ensures TcpAddrs(live - {at}) == TcpAddrs(live) - {at}
    ensures |TcpAddrs(live - {at})| == |TcpAddrs(live)| - if IsTcp(live[at]) then 1 else 0
  {
    assert TcpAddrs(live - {at}) == TcpAddrs(live) - {at};
    if IsTcp(live[at]) {
      assert at in TcpAddrs(live);
    } else {
      assert TcpAddrs(live) - {at} == TcpAddrs(live);
    }
  }

  lemma {:induction false} HighestAddr(addrs: set<Addr>) returns (m: Addr)
    requires addrs != {}
    ensures m in addrs && forall a :: a in addrs ==> a <= m
    decreases |addrs|
  {
    m :| m in addrs;
    var rest := addrs - {m};
    assert forall a :: a in addrs ==> a == m || a in rest;
    if rest == {} {
    } else {
      var k := HighestAddr(rest);
      if m < k { m := k; }
    }
  }

  /** Everything below the highest object lies wholly below it. */
  lemma PlacedBelow(top: nat, live: map<Addr, Sock>, m: Addr)
    requires Placed(top, live) && m in live && forall a :: a in live ==> a <= m
    ensures Placed(m, live - {m})
  {
    var rest := live - {m};
    forall a | a in rest
      ensures a + rest[a].size <= m
    {
      assert Apart(a, live[a].size, m, live[m].size);
    }
  }

  /** Pigeonhole: objects of at least `size` bytes each cannot fill more than the address space. */
  lemma {:induction false} SpaceBoundsPopulation(top: nat, live: map<Addr, Sock>, size: nat)
    requires Placed(top, live) && 1 <= top
    requires forall a :: a in live ==> size <= live[a].size
    ensures |live| * size <= top - 1
    decreases |live|
  {
    if |live| == 0 {
    } else {
      assert live.Keys != {};
      var m := HighestAddr(live.Keys);
      PlacedBelow(top, live, m);
      assert (live - {m}).Keys == live.Keys - {m};
      SpaceBoundsPopulation(m, live - {m}, size);
      assert |live| * size == (|live| - 1) * size + size;
    }
  }

  lemma {:induction false} CounterFits(top: nat, live: map<Addr, Sock>)
    requires Placed(top, live) && 1 <= top
    ensures |TcpAddrs(live)| < top
  {
    SpaceBoundsPopulation(top, live, 1);
    Subset(TcpAddrs(live), live.Keys);
  }

  lemma {:induction false} Subset(a: set<Addr>, b: set<Addr>)
    requires a <= b
    ensures |a| <= |b|
    decreases a
  {
    if a == {} {
    } else {
      var x :| x in a;
      Subset(a - {x}, b - {x});
    }
  }

  // ------------------------------------------------------ preservation, step by step

  lemma {:induction false} BornKeepsPlaced(env: Env, p: Pop, at: Addr, size: nat, s: Sock)
    requires Placed(env.top, p.live) && Allocates(env, p, at, size) && s.size == size
    ensures at !in p.live && Placed(env.top, p.live[at := s])
  {
    assert at in p.live ==> Apart(at, size, at, p.live[at].size);
  }

  /** The counter steps without wrapping: there is room for one more socket. */
  lemma {:induction false} BornCounts(env: Env, p: Pop, at: Addr, kind: Kind, stack: Stack, size: nat, h: Handle)
    requires Placed(env.top, p.live) && Counted(p) && Allocates(env, p, at, size)
    ensures Counted(Born(env, p, at, kind, stack, size, h))
    ensures !kind.Udp? ==> Inc(env.top, p.count) == p.count + 1 < env.top
  {
    var s := NewSock(env, kind, stack, at, size);
    BornKeepsPlaced(env, p, at, size, s);
    TcpAddrsAdd(p.live, at, s);
    CounterFits(env.top, p.live[at := s]);
  }

  lemma {:induction false} BornKeepsInv(env: Env, p: Pop, at: Addr, kind: Kind, stack: Stack, size: nat, h: Handle)
    requires Inv(env, p) && Allocates(env, p, at, size)
    ensures at !in p.live && Inv(env, Born(env, p, at, kind, stack, size, h))
  {
    var q := Born(env, p, at, kind, stack, size, h);
    BornKeepsPlaced(env, p, at, size, NewSock(env, kind, stack, at, size));
    BornCounts(env, p, at, kind, stack, size, h);
    assert Ticking(q);
    BornKeepsHoldings(env, p, q, at, NewSock(env, kind, stack, at, size));
  }

  /** A new socket without an impl disturbs nobody's. */
  lemma {:induction false} BornKeepsHoldings(env: Env, p: Pop, q: Pop, at: Addr, s: Sock)
    requires Distinct(p.live) && TakenUp(p) && Backed(env, p.live) && Awaited(p)
    requires at !in p.live && q.live == p.live[at := s] && q.waiting == p.waiting
    requires s.impl.None? && s.hasApi == (s.stack in env.stacks) && s.entry == at
    ensures Distinct(q.live) && TakenUp(q) && Backed(env, q.live) && Awaited(q)
  {}

  lemma {:induction false} DeadKeepsHoldings(env: Env, p: Pop, q: Pop, at: Addr)
    requires Placed(env.top, p.live) && Distinct(p.live) && TakenUp(p) && Backed(env, p.live) && Awaited(p)
    requires q.live == p.live - {at} && q.waiting == WaitingElsewhere(p.waiting, at)
    ensures Placed(env.top, q.live) && Distinct(q.live) && TakenUp(q) && Backed(env, q.live) && Awaited(q)
  {
    assert forall a :: a in q.live ==> a in p.live && q.live[a] == p.live[a];
  }

  lemma {:induction false} DeadKeepsInv(env: Env, p: Pop, at: Addr, err: Error)
    requires Inv(env, p) && at in p.live
    ensures Inv(env, Dead(env, p, at, err))
  {
    TcpAddrsRemove(p.live, at);
    assert IsTcp(p.live[at]) ==> at in TcpAddrs(p.live);
    DeadKeepsHoldings(env, p, Dead(env, p, at, err), at);
  }

  /** Replacing an impl, family or nothing else of a live socket leaves the count alone. */
  lemma {:induction false} RewriteKeepsPlaces(env: Env, p: Pop, at: Addr, s: Sock)
    requires Placed(env.top, p.live) && Counted(p) && at in p.live
    requires s.kind == p.live[at].kind && s.size == p.live[at].size
    ensures Placed(env.top, p.live[at := s]) && |TcpAddrs(p.live[at := s])| == p.count
  {
    TcpAddrsKeep(p.live, at, s);
  }

  /** Giving a live socket no impl, or one nobody else has a claim to, leaves all impls distinct and backed. */
  lemma {:induction false} RefillKeepsHoldings(env: Env, p: Pop, q: Pop, at: Addr, s: Sock)
    requires Distinct(p.live) && TakenUp(p) && Backed(env, p.live) && Awaited(p)
    requires at in p.live && s == p.live[at].(impl := s.impl)
    requires s.impl.Some? ==> s.hasApi && Spare(p, at, s.impl.value)
    requires q.live == p.live[at := s] && q.waiting == p.waiting
    ensures Distinct(q.live) && TakenUp(q) && Backed(env, q.live) && Awaited(q)
  {
    assert s.impl.Some? ==> forall a :: a in p.live && a != at ==> a in p.live - {at} && p.live[a].impl != s.impl;
  }

  lemma {:induction false} OpenedKeepsInv(env: Env, p: Pop, at: Addr, made: Option<Impl>)
    requires Inv(env, p) && at in p.live && (made.Some? ==> Spare(p, at, made.value))
    ensures Inv(env, Opened(p, at, made))
  {
    if p.live[at].hasApi && made.Some? {
      var s := p.live[at].(impl := made);
      RewriteKeepsPlaces(env, p, at, s);
      RefillKeepsHoldings(env, p, Opened(p, at, made), at, s);
    }
  }

  lemma {:induction false} ClosedKeepsInv(env: Env, p: Pop, at: Addr, cleared: bool)
    requires Inv(env, p) && at in p.live
    ensures Inv(env, ClosedBy(p, at, cleared))
  {
    if p.live[at].impl.Some? && cleared {
      var s := p.live[at].(impl := None);
      RewriteKeepsPlaces(env, p, at, s);
      RefillKeepsHoldings(env, p, ClosedBy(p, at, cleared), at, s);
    }
  }

  /** An impl that was waiting moves into one live socket: still nobody shares it. */
  lemma {:induction false} HandOverKeepsHoldings(env: Env, p: Pop, q: Pop, at: Addr, x: Impl, s: Sock)
    requires Distinct(p.live) && TakenUp(p) && Backed(env, p.live) && Awaited(p)
    requires at in p.live && p.live[at].hasApi && x in p.waiting && p.waiting[x] != at
    requires q.live == p.live[at := s] && q.waiting == p.waiting - {x}
    requires s.kind == p.live[at].kind && s.stack == p.live[at].stack && s.hasApi == p.live[at].hasApi && s.entry == at
    requires s.impl == None || s.impl == Some(x)
    ensures Distinct(q.live) && TakenUp(q) && Backed(env, q.live) && Awaited(q)
  {}

  lemma {:induction false} StreamFromKeepsInv(env: Env, p: Pop, at: Addr, streamAt: Addr, x: Impl, size: nat, h: Handle, left: Option<Impl>)
    requires Inv(env, p) && at in p.live && p.live[at].kind.Listener?
    requires x in p.waiting && p.waiting[x] == at && (left == None || left == Some(x))
    requires Allocates(env, p, streamAt, size)
    ensures streamAt !in p.live && Inv(env, StreamFrom(env, p, at, streamAt, x, size, h, left))
  {
    BornKeepsInv(env, p, streamAt, Stream, p.live[at].stack, size, h);
    var q := Born(env, p, streamAt, Stream, p.live[at].stack, size, h);
    var s := q.live[streamAt].(family := p.live[at].family, impl := left);
    var r := StreamFrom(env, p, at, streamAt, x, size, h, left);
    RewriteKeepsPlaces(env, q, streamAt, s);
    HandOverKeepsHoldings(env, q, r, streamAt, x, s);
  }

  lemma {:induction false} StepKeepsInv(env: Env, p: Pop, op: Op)
    requires Inv(env, p) && Enabled(env, p, op)
    ensures Inv(env, Step(env, p, op))
  {
    match op
    case New(at, kind, stack, size, h) => BornKeepsInv(env, p, at, kind, stack, size, h);
    case Delete(at, err) => DeadKeepsInv(env, p, at, err);
    case Open(at, made) => OpenedKeepsInv(env, p, at, made);
    case BindAddr(_, _, _) =>
    case BindText(_, _, _) =>
    case Close(at, cleared) => ClosedKeepsInv(env, p, at, cleared);
    case Arrive(_, _) =>
    case Accept(at, streamAt, x, size, h, err, left, derr) =>
      StreamFromKeepsInv(env, p, at, streamAt, x, size, h, left);
      if err != NoError {
        DeadKeepsInv(env, StreamFrom(env, p, at, streamAt, x, size, h, left), streamAt, derr);
      }
    case Adopt(at, streamAt, x, size, h, err, left) =>
      StreamFromKeepsInv(env, p, at, streamAt, x, size, h, left);
  }

  /** Every reachable state: the counter is the number of live TCP sockets, one task at most runs
      and it is the named one, no impl is shared, and an impl is always backed by an API. */
  lemma {:induction false} ReachableInv(env: Env, ops: seq<Op>)
    requires Legal(env, ops)
    ensures Inv(env, After(env, ops))
    decreases |ops|
  {
    if ops == [] {
      assert TcpAddrs(START.live) == {};
    } else {
      ReachableInv(env, ops[..|ops| - 1]);
      StepKeepsInv(env, After(env, ops[..|ops| - 1]), ops[|ops| - 1]);
    }
  }
}
