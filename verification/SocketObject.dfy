/** The socket object itself: stored handlers, the masked and unmasked setters, the event
    handlers of the three socket classes and the interrupt entry point. Every method is
    specified by the functions of `Dispatch`, over which whole runs are reasoned about. */
module SocketObject {
  import opened Sal
  import opened Dispatch

  /** The scheduler, seen as the list of callbacks posted to it so far. */
  class Scheduler {
    var posted: seq<Callback>

    constructor ()
      ensures posted == []
    {
      posted := [];
    }

    method PostCallback(cb: Callback)
      modifies this
      ensures posted == old(posted) + [cb]
    {
      posted := posted + [cb];
    }
  }

  /** The processor's interrupt mask, as __disable_irq and __enable_irq set it. */
  class Cpu {
    var irqEnabled: bool

    constructor ()
      ensures irqEnabled
    {
      irqEnabled := true;
    }
  }

  /** Two tables of stored handlers that no event can tell apart. */
  ghost predicate SameHandlers(zero: Handler, a: Slots, b: Slots) {
    forall slot :: Lookup(zero, a, slot) == Lookup(zero, b, slot)
  }

  lemma SameAfterStore(zero: Handler, a: Slots, b: Slots, slot: Slot, h: Handler)
    requires SameHandlers(zero, a, b)
    ensures SameHandlers(zero, a[slot := h], b[slot := h])
  {
    var a', b' := a[slot := h], b[slot := h];
    forall s
      ensures Lookup(zero, a', s) == Lookup(zero, b', s)
    {
      assert Lookup(zero, a, s) == Lookup(zero, b, s);
    }
  }

  /** The fields the guards of the API test, as the stack leaves them. */
  datatype Fields = Fields(impl: Option<Impl>, hasApi: bool, entry: Option<nat>)

  /** open and close: past the guard, the stack may leave any impl and any event entry behind. */
  function Reopened(f: Fields, impl: Option<Impl>, entry: Option<nat>): Fields {
    if f.hasApi then f.(impl := impl, entry := entry) else f
  }

  function Released(f: Fields, impl: Option<Impl>, entry: Option<nat>): Fields {
    if f.impl.Some? then f.(impl := impl, entry := entry) else f
  }

  /** The same call, with the guard flags these fields give it. */
  function Flagged(f: Fields, a: Action): Action {
    match a
    case Resolve(id, h, _, _) => Resolve(id, h, f.impl == None, f.entry == None)
    case Connect(id, h, _) => Connect(id, h, !f.hasApi)
    case StartListening(id, h, _) => StartListening(id, h, !f.hasApi)
    case _ => a
  }

  class Socket {
    const id: SockId
    const kind: Kind
    const isSet: Handler -> bool
    const zero: Handler
    const sched: Scheduler
    const cpu: Cpu

    var onDns: Handler
    var onError: Handler
    var onReadable: Handler
    var onSent: Handler
    var onConnect: Handler
    var onDisconnect: Handler
    var onIncoming: Handler
    var impl: Option<Impl>
    var hasApi: bool
    var entry: Option<nat>
    var pendingEvent: Option<Event>

    /** A new socket stores no handler, has no stack socket, and points its event entry at itself. */
    constructor (id: SockId, kind: Kind, hasApi: bool, isSet: Handler -> bool, zero: Handler, sched: Scheduler, cpu: Cpu)
      ensures this.id == id && this.kind == kind && this.isSet == isSet && this.zero == zero
      ensures this.sched == sched && this.cpu == cpu
      ensures SameHandlers(zero, Handlers(), map[])
      ensures impl == None && this.hasApi == hasApi && entry == Some(id) && pendingEvent == None
    {
      this.id, this.kind, this.isSet, this.zero, this.sched, this.cpu := id, kind, isSet, zero, sched, cpu;
      onDns, onError, onReadable, onSent := zero, zero, zero, zero;
      onConnect, onDisconnect, onIncoming := zero, zero, zero;
      this.hasApi := hasApi;
      impl, entry, pendingEvent := None, Some(id), None;
    }

    ghost function Handlers(): Slots
      reads this
    {
      map[OnDns := onDns, OnError := onError, OnReadable := onReadable, OnSent := onSent,
          OnConnect := onConnect, OnDisconnect := onDisconnect, OnIncoming := onIncoming]
    }

    /** The configuration describes this socket, among any others that share its scheduler. */
    ghost predicate Describes(cfg: Config) {
      && cfg.zero == zero
      && (forall h: Handler :: h in cfg.truthy <==> isSet(h))
      && id in cfg.kinds && cfg.kinds[id] == kind
    }

    /** A world of `Dispatch` in which this socket and its scheduler are faithfully recorded. */
    ghost predicate Represents(cfg: Config, w: World)
      reads this, sched
    {
      Describes(cfg) && SameHandlers(zero, SlotsOf(w, id), Handlers()) && sched.posted == w.log
    }

    /** error_check: posts the error handler without testing whether one is set. */
    method ErrorCheckNow(err: Error, ghost cfg: Config, ghost w: World) returns (failed: bool)
      requires Represents(cfg, w)
      modifies sched
      ensures failed <==> err != NoError
      ensures sched.posted == old(sched.posted) + CheckPosts(cfg, id, Handlers(), err)
      ensures Represents(cfg, Apply(cfg, w, ErrorCheck(id, err)))
    {
      if err == NoError {
        return false;
      }
      sched.PostCallback(Callback(id, onError, ErrorArgs(err)));
      return true;
    }

    method BaseEventHandler(ev: Event, ghost cfg: Config)
      requires Describes(cfg)
      modifies sched
      ensures sched.posted == old(sched.posted) + Posts(cfg, Udp, id, Handlers(), ev)
    {
      match ev {
        case RxError(e) => PostIfSet(onError, ErrorArgs(e));
        case TxError(e) => PostIfSet(onError, ErrorArgs(e));
        case GeneralError(e) => PostIfSet(onError, ErrorArgs(e));
        case RxDone => PostIfSet(onReadable, ReadableArgs);
        case TxDone(n) => PostIfSet(onSent, SentArgs(n));
        case DnsAnswer(a, d) => PostIfSet(onDns, DnsArgs(a, d));
        case _ =>
      }
    }

    method StreamEventHandler(ev: Event, ghost cfg: Config)
      requires Describes(cfg)
      modifies sched
      ensures sched.posted == old(sched.posted) + Posts(cfg, Stream, id, Handlers(), ev)
    {
      match ev {
        case Connected => PostIfSet(onConnect, ConnectArgs);
        case Disconnected => PostIfSet(onDisconnect, DisconnectArgs);
        case _ => BaseEventHandler(ev, cfg);
      }
    }

    method ListenerEventHandler(ev: Event, ghost cfg: Config)
      requires Describes(cfg)
      modifies sched
      ensures sched.posted == old(sched.posted) + Posts(cfg, Listener, id, Handlers(), ev)
    {
      match ev {
        case RxError(e) => PostIfSet(onError, ErrorArgs(e));
        case TxError(e) => PostIfSet(onError, ErrorArgs(e));
        case GeneralError(e) => PostIfSet(onError, ErrorArgs(e));
        case RxDone => PostIfSet(onError, ErrorArgs(Unimplemented));
        case TxDone(_) => PostIfSet(onError, ErrorArgs(Unimplemented));
        case Connected => PostIfSet(onError, ErrorArgs(Unimplemented));
        case Disconnected => PostIfSet(onError, ErrorArgs(Unimplemented));
        case DnsAnswer(a, d) => PostIfSet(onDns, DnsArgs(a, d));
        case Incoming(x) => PostIfSet(onIncoming, IncomingArgs(x));
        case NoEvent =>
        case UnknownEvent =>
      }
    }

    method PostIfSet(h: Handler, args: Args)
      modifies sched
      ensures sched.posted == old(sched.posted) + if isSet(h) then [Callback(id, h, args)] else []
    {
      if isSet(h) {
        sched.PostCallback(Callback(id, h, args));
      }
    }

    /** The interrupt entry: the overridden event handler of the concrete class runs, and the
        event reference does not outlive it. */
    method OnInterrupt(ev: Event, ghost cfg: Config, ghost w: World)
      requires Represents(cfg, w)
      modifies this`pendingEvent, sched
      ensures pendingEvent == None
      ensures sched.posted == old(sched.posted) + Posts(cfg, kind, id, Handlers(), ev)
      ensures Represents(cfg, Apply(cfg, w, Deliver(id, ev)))
    {
      pendingEvent := Some(ev);
      match kind {
        case Udp => BaseEventHandler(ev, cfg);
        case Stream => StreamEventHandler(ev, cfg);
        case Listener => ListenerEventHandler(ev, cfg);
      }
      pendingEvent := None;
    }

    /** The masked setters leave interrupts enabled, whatever the mask was before. */
    method SetOnErrorTo(h: Handler, ghost cfg: Config, ghost w: World)
      requires Represents(cfg, w)
      modifies this`onError, cpu
      ensures Handlers() == old(Handlers())[OnError := h] && cpu.irqEnabled
      ensures Represents(cfg, Apply(cfg, w, SetOnError(id, h)))
    {
      cpu.irqEnabled := false;
      SameAfterStore(zero, SlotsOf(w, id), Handlers(), OnError, h);
      ghost var before := Handlers();
      onError := h;
      assert Handlers() == before[OnError := h];
      cpu.irqEnabled := true;
    }

    method SetOnReadableTo(h: Handler, ghost cfg: Config, ghost w: World)
      requires Represents(cfg, w)
      modifies this`onReadable, cpu
      ensures Handlers() == old(Handlers())[OnReadable := h] && cpu.irqEnabled
      ensures Represents(cfg, Apply(cfg, w, SetOnReadable(id, h)))
    {
      cpu.irqEnabled := false;
      SameAfterStore(zero, SlotsOf(w, id), Handlers(), OnReadable, h);
      ghost var before := Handlers();
      onReadable := h;
      assert Handlers() == before[OnReadable := h];
      cpu.irqEnabled := true;
    }

    method SetOnSentTo(h: Handler, ghost cfg: Config, ghost w: World)
      requires Represents(cfg, w)
      modifies this`onSent, cpu
      ensures Handlers() == old(Handlers())[OnSent := h] && cpu.irqEnabled
      ensures Represents(cfg, Apply(cfg, w, SetOnSent(id, h)))
    {
      cpu.irqEnabled := false;
      SameAfterStore(zero, SlotsOf(w, id), Handlers(), OnSent, h);
      ghost var before := Handlers();
      onSent := h;
      assert Handlers() == before[OnSent := h];
      cpu.irqEnabled := true;
    }

    method SetOnDisconnectTo(h: Handler, ghost cfg: Config, ghost w: World)
      requires Represents(cfg, w)
      modifies this`onDisconnect
      ensures Handlers() == old(Handlers())[OnDisconnect := h]
      ensures Represents(cfg, Apply(cfg, w, SetOnDisconnect(id, h)))
    {
      SameAfterStore(zero, SlotsOf(w, id), Handlers(), OnDisconnect, h);
      ghost var before := Handlers();
      onDisconnect := h;
      assert Handlers() == before[OnDisconnect := h];
    }

    /** resolve: refused, and nothing stored, without a stack socket or an event entry. */
    method ResolveName(h: Handler, stackResult: Error, ghost cfg: Config, ghost w: World) returns (err: Error)
      requires Represents(cfg, w)
      modifies this`onDns
      ensures err == if impl == None then NullPtr else if entry == None then Closed else stackResult
      ensures Represents(cfg, Apply(cfg, w, Resolve(id, h, impl == None, entry == None)))
    {
      if impl == None {
        return NullPtr;
      }
      if entry == None {
        return Closed;
      }
      SameAfterStore(zero, SlotsOf(w, id), Handlers(), OnDns, h);
      ghost var before := Handlers();
      onDns := h;
      assert Handlers() == before[OnDns := h];
      err := stackResult;
    }

    method ConnectTo(h: Handler, stackResult: Error, ghost cfg: Config, ghost w: World) returns (err: Error)
      requires Represents(cfg, w)
      modifies this`onConnect
      ensures err == if hasApi then stackResult else BadStack
      ensures Represents(cfg, Apply(cfg, w, Connect(id, h, !hasApi)))
    {
      if !hasApi {
        return BadStack;
      }
      SameAfterStore(zero, SlotsOf(w, id), Handlers(), OnConnect, h);
      ghost var before := Handlers();
      onConnect := h;
      assert Handlers() == before[OnConnect := h];
      err := stackResult;
    }

    method Listen(h: Handler, stackResult: Error, ghost cfg: Config, ghost w: World) returns (err: Error)
      requires Represents(cfg, w)
      modifies this`onIncoming
      ensures err == if hasApi then stackResult else BadStack
      ensures Represents(cfg, Apply(cfg, w, StartListening(id, h, !hasApi)))
    {
      if !hasApi {
        return BadStack;
      }
      SameAfterStore(zero, SlotsOf(w, id), Handlers(), OnIncoming, h);
      ghost var before := Handlers();
      onIncoming := h;
      assert Handlers() == before[OnIncoming := h];
      err := stackResult;
    }

    ghost function Guards(): Fields
      reads this
    {
      Fields(impl, hasApi, entry)
    }

    /** open: refused without an API; otherwise the stack's create fills in the socket. */
    method Open(made: Option<Impl>, entered: Option<nat>, stackResult: Error) returns (err: Error)
      modifies this`impl, this`entry
      ensures err == if hasApi then stackResult else BadStack
      ensures Guards() == Reopened(old(Guards()), made, entered)
    {
      if !hasApi {
        return BadStack;
      }
      impl, entry := made, entered;
      err := stackResult;
    }

    /** close: refused without an impl; otherwise the stack may clear the socket. */
    method Close(left: Option<Impl>, entered: Option<nat>, stackResult: Error) returns (err: Error)
      modifies this`impl, this`entry
      ensures err == if old(impl) == None then NullPtr else stackResult
      ensures Guards() == Released(old(Guards()), left, entered)
    {
      if impl == None {
        return NullPtr;
      }
      impl, entry := left, entered;
      err := stackResult;
    }

    method Switch(m: Move, ghost cfg: Config, ghost w: World)
      requires Represents(cfg, w) && !m.Act?
      modifies this`impl, this`entry
      ensures Represents(cfg, w) && Guards() == Change(old(Guards()), m)
    {
      match m {
        case DoOpen(_, made, entered) => var _ := Open(made, entered, NoError);
        case DoClose(_, left, entered) => var _ := Close(left, entered, NoError);
      }
      assert Handlers() == old(Handlers());
    }

    /** One call or event, by the method that carries it out: the object's own fields decide whether
        the guards let it through. */
    method Perform(a: Action, ghost cfg: Config, ghost w: World)
      requires Represents(cfg, w) && a.id == id
      modifies this, sched, cpu
      ensures Represents(cfg, Apply(cfg, w, Flagged(old(Guards()), a))) && Guards() == old(Guards())
    {
      match a {
        case SetOnError(_, h) => SetOnErrorTo(h, cfg, w);
        case SetOnReadable(_, h) => SetOnReadableTo(h, cfg, w);
        case SetOnSent(_, h) => SetOnSentTo(h, cfg, w);
        case SetOnDisconnect(_, h) => SetOnDisconnectTo(h, cfg, w);
        case Resolve(_, h, _, _) => var _ := ResolveName(h, NoError, cfg, w);
        case Connect(_, h, _) => var _ := ConnectTo(h, NoError, cfg, w);
        case StartListening(_, h, _) => var _ := Listen(h, NoError, cfg, w);
        case Deliver(_, ev) => OnInterrupt(ev, cfg, w);
        case ErrorCheck(_, err) => var _ := ErrorCheckNow(err, cfg, w);
      }
    }
  }

  /** The deprecated accepting constructor of a stream: no error handler can be set yet, so every
      accept that fails there posts a NULL handler. */
  method AdoptStream(id: SockId, hasApi: bool, isSet: Handler -> bool, zero: Handler, sched: Scheduler, cpu: Cpu,
                     x: Impl, acceptErr: Error, ghost cfg: Config, ghost w: World) returns (s: Socket)
    requires cfg.zero == zero && (forall h: Handler :: h in cfg.truthy <==> isSet(h))
    requires id in cfg.kinds && cfg.kinds[id] == Stream && id !in w.slots && sched.posted == w.log
    modifies sched
    ensures fresh(s) && s.id == id && s.sched == sched && s.impl == Some(x)
    ensures s.Represents(cfg, Apply(cfg, w, ErrorCheck(id, acceptErr)))
    ensures sched.posted == old(sched.posted)
                            + if acceptErr == NoError then [] else [Callback(id, zero, ErrorArgs(acceptErr))]
  {
    s := new Socket(id, Stream, hasApi, isSet, zero, sched, cpu);
    s.impl := Some(x);
    var _ := s.ErrorCheckNow(acceptErr, cfg, w);
  }

  // ----------------------------------------------------------------- whole histories

  /** What happens to the sockets of a device, one thing at a time. The guard flags written in an
      action are ignored: the fields at that moment give them. */
  datatype Move =
    | Act(a: Action)
    | DoOpen(id: SockId, made: Option<Impl>, entered: Option<nat>)
    | DoClose(id: SockId, left: Option<Impl>, entered: Option<nat>)

  function Subject(m: Move): SockId {
    match m
    case Act(a) => a.id
    case DoOpen(id, _, _) => id
    case DoClose(id, _, _) => id
  }

  type Table = map<SockId, Fields>

  function Change(f: Fields, m: Move): Fields {
    match m
    case Act(_) => f
    case DoOpen(_, made, entered) => Reopened(f, made, entered)
    case DoClose(_, left, entered) => Released(f, left, entered)
  }

  predicate Known(t0: Table, moves: seq<Move>) {
    forall k :: 0 <= k < |moves| ==> Subject(moves[k]) in t0
  }

  /** The guarded fields of every socket after some moves. */
  function FieldsAfter(t0: Table, moves: seq<Move>): (t: Table)
    requires Known(t0, moves)
    ensures t.Keys == t0.Keys
    decreases |moves|
  {
    if moves == [] then t0
    else
      var t, m := FieldsAfter(t0, moves[..|moves| - 1]), moves[|moves| - 1];
      t[Subject(m) := Change(t[Subject(m)], m)]
  }

  /** What a move contributes to the history. */
  function Taken(f: Fields, m: Move): seq<Action> {
    if m.Act? then [Flagged(f, m.a)] else []
  }

  /** The history the moves amount to, every guard flag taken from the fields at that moment. */
  function History(t0: Table, moves: seq<Move>): seq<Action>
    requires Known(t0, moves)
    decreases |moves|
  {
    if moves == [] then []
    else
      var front, m := moves[..|moves| - 1], moves[|moves| - 1];
      History(t0, front) + Taken(FieldsAfter(t0, front)[Subject(m)], m)
  }

  /** Sockets on one device: each under its own number, all with the same scheduler and processor. */
  ghost predicate OneDevice(socks: map<SockId, Socket>, sched: Scheduler, cpu: Cpu) {
    forall i :: i in socks ==> socks[i].id == i && socks[i].sched == sched && socks[i].cpu == cpu
  }

  /** Every object records this world, and its guarded fields are those of the table. */
  ghost predicate AllStand(socks: map<SockId, Socket>, sched: Scheduler, cfg: Config, w: World, t: Table)
    reads socks.Values, sched
  {
    && socks.Keys == t.Keys && sched.posted == w.log
    && forall i :: i in socks ==> socks[i].sched == sched && socks[i].Represents(cfg, w) && socks[i].Guards() == t[i]
  }

  /** An action leaves the stored handlers of other sockets alone. */
  lemma OthersKeepTheirSlots(cfg: Config, w: World, a: Action, id: SockId)
    requires a.id != id
    ensures SlotsOf(Apply(cfg, w, a), id) == SlotsOf(w, id)
  {}

  /** One action, carried out by the socket it names; the others are as they were. */
  method PerformOn(socks: map<SockId, Socket>, sched: Scheduler, cpu: Cpu, a: Action, ghost cfg: Config, ghost w: World, ghost t: Table)
    requires OneDevice(socks, sched, cpu) && a.id in socks && AllStand(socks, sched, cfg, w, t)
    modifies socks.Values, sched, cpu
    ensures AllStand(socks, sched, cfg, Apply(cfg, w, Flagged(t[a.id], a)), t)
  {
    ghost var a' := Flagged(t[a.id], a);
    socks[a.id].Perform(a, cfg, w);
    assert sched.posted == Apply(cfg, w, a').log;
    forall i | i in socks
      ensures socks[i].Represents(cfg, Apply(cfg, w, a')) && socks[i].Guards() == t[i]
    {
      if i != a.id {
        OthersKeepTheirSlots(cfg, w, a', i);
        assert old(socks[i].Represents(cfg, w)) && socks[i].Handlers() == old(socks[i].Handlers());
      }
    }
  }

  /** One open or close, by the socket it names. */
  method SwitchOn(socks: map<SockId, Socket>, sched: Scheduler, cpu: Cpu, m: Move, ghost cfg: Config, ghost w: World, ghost t: Table)
    requires OneDevice(socks, sched, cpu) && !m.Act? && Subject(m) in socks && AllStand(socks, sched, cfg, w, t)
    modifies socks.Values
    ensures AllStand(socks, sched, cfg, w, t[Subject(m) := Change(t[Subject(m)], m)])
  {
    ghost var t' := t[Subject(m) := Change(t[Subject(m)], m)];
    socks[Subject(m)].Switch(m, cfg, w);
    forall i | i in socks
      ensures socks[i].Represents(cfg, w) && socks[i].Guards() == t'[i]
    {
      if i != Subject(m) {
        assert old(socks[i].Represents(cfg, w)) && socks[i].Handlers() == old(socks[i].Handlers());
      }
    }
  }

  ghost function Advance(cfg: Config, w: World, f: Fields, m: Move): World {
    if m.Act? then Apply(cfg, w, Flagged(f, m.a)) else w
  }

  lemma {:induction false} OneMoreMove(t0: Table, moves: seq<Move>, cfg: Config)
    requires moves != [] && Known(t0, moves)
    ensures var front, m := moves[..|moves| - 1], moves[|moves| - 1];
            Run(cfg, History(t0, moves)) == Advance(cfg, Run(cfg, History(t0, front)), FieldsAfter(t0, front)[Subject(m)], m)
  {
    var front, m := moves[..|moves| - 1], moves[|moves| - 1];
    var before, more := History(t0, front), Taken(FieldsAfter(t0, front)[Subject(m)], m);
    if m.Act? {
      assert (before + more)[..|before|] == before;
    } else {
      assert before + more == before;
    }
  }

  /** The next move of a sequence. */
  method PerformNext(socks: map<SockId, Socket>, sched: Scheduler, cpu: Cpu, m: Move, ghost cfg: Config, ghost w: World, ghost t: Table)
    requires OneDevice(socks, sched, cpu) && Subject(m) in socks && AllStand(socks, sched, cfg, w, t)
    modifies socks.Values, sched, cpu
    ensures AllStand(socks, sched, cfg, Advance(cfg, w, t[Subject(m)], m), t[Subject(m) := Change(t[Subject(m)], m)])
  {
    if m.Act? {
      PerformOn(socks, sched, cpu, m.a, cfg, w, t);
      assert t[m.a.id := t[m.a.id]] == t;
    } else {
      SwitchOn(socks, sched, cpu, m, cfg, w, t);
    }
  }

  method Replay(socks: map<SockId, Socket>, sched: Scheduler, cpu: Cpu, moves: seq<Move>, ghost cfg: Config, ghost t0: Table)
    requires OneDevice(socks, sched, cpu) && forall k :: 0 <= k < |moves| ==> Subject(moves[k]) in socks
    requires AllStand(socks, sched, cfg, Run(cfg, []), t0)
    modifies socks.Values, sched, cpu
    ensures AllStand(socks, sched, cfg, Run(cfg, History(t0, moves)), FieldsAfter(t0, moves))
    decreases |moves|
  {
    if moves != [] {
      var n := |moves| - 1;
      Replay(socks, sched, cpu, moves[..n], cfg, t0);
      OneMoreMove(t0, moves, cfg);
      PerformNext(socks, sched, cpu, moves[n], cfg, Run(cfg, History(t0, moves[..n])), FieldsAfter(t0, moves[..n]));
    }
  }

  /** Past which fields a storing call goes. */
  predicate Admits(f: Fields, a: Action) {
    match a
    case Resolve(_, _, _, _) => f.impl != None && f.entry != None
    case Connect(_, _, _) => f.hasApi
    case StartListening(_, _, _) => f.hasApi
    case _ => true
  }

  /** The guards decide at the moment of the call: after any moves, resolve, connect and start_listening
      store their handler exactly when the fields their socket then has admit them; otherwise every slot
      of every socket is as before. */
  lemma {:induction false} GuardDecides(t0: Table, moves: seq<Move>, zero: Handler, a: Action, i: SockId, slot: Slot)
    requires a.id in t0 && Known(t0, moves) && (a.Resolve? || a.Connect? || a.StartListening?)
    ensures var more := moves + [Act(a)];
            var own := if a.Resolve? then OnDns else if a.Connect? then OnConnect else OnIncoming;
            Known(t0, more)
            && Latest(zero, History(t0, more), i, slot) ==
               if Admits(FieldsAfter(t0, moves)[a.id], a) && i == a.id && slot == own then a.h
               else Latest(zero, History(t0, moves), i, slot)
  {
    var more := moves + [Act(a)];
    assert more[..|moves|] == moves;
    var before, taken := History(t0, moves), Taken(FieldsAfter(t0, moves)[a.id], Act(a));
    assert (before + taken)[..|before|] == before;
  }

  /** What open and close do to the guards: open takes over what the stack leaves, if there is an API;
      close does, if there is an impl; other sockets, and the history, are left alone. */
  lemma {:induction false} GuardsFollowOpenClose(t0: Table, moves: seq<Move>, id: SockId, impl: Option<Impl>, entry: Option<nat>, i: SockId)
    requires id in t0 && i in t0 && Known(t0, moves)
    ensures var reopened, closed := moves + [DoOpen(id, impl, entry)], moves + [DoClose(id, impl, entry)];
            var f := FieldsAfter(t0, moves);
            && Known(t0, reopened) && Known(t0, closed)
            && History(t0, reopened) == History(t0, closed) == History(t0, moves)
            && FieldsAfter(t0, reopened)[i] == (if i == id && f[i].hasApi then Fields(impl, true, entry) else f[i])
            && FieldsAfter(t0, closed)[i] == (if i == id && f[i].impl != None then Fields(impl, f[i].hasApi, entry) else f[i])
  {
    var reopened, closed := moves + [DoOpen(id, impl, entry)], moves + [DoClose(id, impl, entry)];
    assert reopened[..|moves|] == moves && closed[..|moves|] == moves;
  }

  /** What a represented history means for one socket's stored handlers. */
  lemma {:induction false} StoredAreLatest(s: Socket, cfg: Config, hist: seq<Action>, slot: Slot)
    requires s.Represents(cfg, Run(cfg, hist))
    ensures Lookup(cfg.zero, s.Handlers(), slot) == Latest(cfg.zero, hist, s.id, slot)
  {
    SlotsHoldLatest(cfg, hist, s.id, slot);
  }

  /** The code as a whole: sockets of any kinds, taken through any calls and events, reopened and closed
      anywhere between them, have posted exactly the filter-map of the history in which each guard flag
      is what the fields were at that moment, and store in every slot its most recent handler. */
  method Drive(socks: map<SockId, Socket>, sched: Scheduler, cpu: Cpu, moves: seq<Move>, ghost cfg: Config, ghost t0: Table)
    requires OneDevice(socks, sched, cpu) && forall k :: 0 <= k < |moves| ==> Subject(moves[k]) in socks
    requires sched.posted == [] && AllStand(socks, sched, cfg, Run(cfg, []), t0)
    modifies socks.Values, sched, cpu
    ensures AllStand(socks, sched, cfg, Run(cfg, History(t0, moves)), FieldsAfter(t0, moves))
    ensures sched.posted == FilterMap(cfg, History(t0, moves))
    ensures forall i, slot :: i in socks ==>
              Lookup(cfg.zero, socks[i].Handlers(), slot) == Latest(cfg.zero, History(t0, moves), i, slot)
  {
    ghost var hist := History(t0, moves);
    Replay(socks, sched, cpu, moves, cfg, t0);
    LogIsFilterMap(cfg, hist);
    forall i, slot | i in socks
      ensures Lookup(cfg.zero, socks[i].Handlers(), slot) == Latest(cfg.zero, hist, i, slot)
    {
      StoredAreLatest(socks[i], cfg, hist, slot);
    }
  }
}
