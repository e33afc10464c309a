/** Event dispatch: which callbacks a history of API calls and stack events posts.
    `Run` executes the history on stored handlers, as the classes do; `FilterMap`
    reads the same log off the history without any stored state. */
module Dispatch {
  import opened Sal

  datatype Slot = OnDns | OnError | OnReadable | OnSent | OnConnect | OnDisconnect | OnIncoming

  datatype Args =
    | ErrorArgs(e: Error)
    | ReadableArgs
    | SentArgs(n: nat)
    | DnsArgs(addr: nat, domain: string)
    | ConnectArgs
    | DisconnectArgs
    | IncomingArgs(impl: Impl)

  /** A deferred call handed to the scheduler: the handler as it was bound, and its arguments. */
  datatype Callback = Callback(sock: SockId, handler: Handler, args: Args)

  function SlotOf(args: Args): Slot {
    match args
    case ErrorArgs(_) => OnError
    case ReadableArgs => OnReadable
    case SentArgs(_) => OnSent
    case DnsArgs(_, _) => OnDns
    case ConnectArgs => OnConnect
    case DisconnectArgs => OnDisconnect
    case IncomingArgs(_) => OnIncoming
  }

  /** The dispatch table: what an event turns into on each kind of socket, if anything. */
  function Target(kind: Kind, ev: Event): Option<Args> {
    match (kind, ev)
    case (_, RxError(e)) => Some(ErrorArgs(e))
    case (_, TxError(e)) => Some(ErrorArgs(e))
    case (_, GeneralError(e)) => Some(ErrorArgs(e))
    case (_, DnsAnswer(a, d)) => Some(DnsArgs(a, d))
    case (_, NoEvent) => None
    case (_, UnknownEvent) => None
    case (Listener, Incoming(x)) => Some(IncomingArgs(x))
    case (Listener, _) => Some(ErrorArgs(Unimplemented))
    case (_, RxDone) => Some(ReadableArgs)
    case (_, TxDone(n)) => Some(SentArgs(n))
    case (Stream, Connected) => Some(ConnectArgs)
    case (Stream, Disconnected) => Some(DisconnectArgs)
    case (_, _) => None
  }

  type Slots = map<Slot, Handler>

  function Lookup(zero: Handler, slots: Slots, slot: Slot): Handler {
    if slot in slots then slots[slot] else zero
  }

  /** The handler words of a NULL handler, which handlers test true, and the kind of every socket. */
  datatype Config = Config(zero: Handler, truthy: iset<Handler>, kinds: map<SockId, Kind>)

  /** What one event posts on a socket that currently stores `slots`. */
  ghost function Posts(cfg: Config, kind: Kind, id: SockId, slots: Slots, ev: Event): seq<Callback> {
    match Target(kind, ev)
    case None => []
    case Some(args) =>
      var h := Lookup(cfg.zero, slots, SlotOf(args));
      if h in cfg.truthy then [Callback(id, h, args)] else []
  }

  /** What error_check posts: it does not test the handler first. */
  ghost function CheckPosts(cfg: Config, id: SockId, slots: Slots, err: Error): seq<Callback> {
    if err == NoError then [] else [Callback(id, Lookup(cfg.zero, slots, OnError), ErrorArgs(err))]
  }

  // ---------------------------------------------------------------- histories

  datatype Action =
    | SetOnError(id: SockId, h: Handler)
    | SetOnReadable(id: SockId, h: Handler)
    | SetOnSent(id: SockId, h: Handler)
    | SetOnDisconnect(id: SockId, h: Handler)
    | Resolve(id: SockId, h: Handler, implNull: bool, entryNull: bool)
    | Connect(id: SockId, h: Handler, apiNull: bool)
    | StartListening(id: SockId, h: Handler, apiNull: bool)
    | Deliver(id: SockId, ev: Event)
    | ErrorCheck(id: SockId, err: Error)

  datatype Store = Store(id: SockId, slot: Slot, h: Handler)

  /** The store a call performs; the guarded calls return early without storing. */
  function Stored(a: Action): Option<Store> {
    match a
    case SetOnError(id, h) => Some(Store(id, OnError, h))
    case SetOnReadable(id, h) => Some(Store(id, OnReadable, h))
    case SetOnSent(id, h) => Some(Store(id, OnSent, h))
    case SetOnDisconnect(id, h) => Some(Store(id, OnDisconnect, h))
    case Resolve(id, h, implNull, entryNull) => if implNull || entryNull then None else Some(Store(id, OnDns, h))
    case Connect(id, h, apiNull) => if apiNull then None else Some(Store(id, OnConnect, h))
    case StartListening(id, h, apiNull) => if apiNull then None else Some(Store(id, OnIncoming, h))
    case Deliver(_, _) => None
    case ErrorCheck(_, _) => None
  }

  /** The call that stores `h` in `slot`, with every guard passed. */
  function StoreAction(id: SockId, slot: Slot, h: Handler): (a: Action)
    ensures Stored(a) == Some(Store(id, slot, h))
  {
    match slot
    case OnDns => Resolve(id, h, false, false)
    case OnError => SetOnError(id, h)
    case OnReadable => SetOnReadable(id, h)
    case OnSent => SetOnSent(id, h)
    case OnConnect => Connect(id, h, false)
    case OnDisconnect => SetOnDisconnect(id, h)
    case OnIncoming => StartListening(id, h, false)
  }

  // ---------------------------------------------------- execution on stored state

  datatype World = World(slots: map<SockId, Slots>, log: seq<Callback>)

  function SlotsOf(w: World, id: SockId): Slots {
    if id in w.slots then w.slots[id] else map[]
  }

  ghost function Apply(cfg: Config, w: World, a: Action): World {
    match a
    case Deliver(id, ev) =>
      if id in cfg.kinds then w.(log := w.log + Posts(cfg, cfg.kinds[id], id, SlotsOf(w, id), ev)) else w
    case ErrorCheck(id, err) => w.(log := w.log + CheckPosts(cfg, id, SlotsOf(w, id), err))
    case _ =>
      match Stored(a)
      case None => w
      case Some(st) => w.(slots := w.slots[st.id := SlotsOf(w, st.id)[st.slot := st.h]])
  }

  ghost function Run(cfg: Config, hist: seq<Action>): World
    decreases |hist|
  {
    if hist == [] then World(map[], [])
    else Apply(cfg, Run(cfg, hist[..|hist| - 1]), hist[|hist| - 1])
  }

  // --------------------------------------------- reading the log off the history

  /** The handler most recently stored in a slot, found by scanning the history backwards. */
  function Latest(zero: Handler, hist: seq<Action>, id: SockId, slot: Slot): Handler
    decreases |hist|
  {
    if hist == [] then zero
    else
      var n := |hist| - 1;
      match Stored(hist[n])
      case Some(st) => if st.id == id && st.slot == slot then st.h else Latest(zero, hist[..n], id, slot)
      case None => Latest(zero, hist[..n], id, slot)
  }

  /** The callback the i-th action contributes, judged from the actions before it alone. */
  ghost function Emission(cfg: Config, hist: seq<Action>, i: nat): Option<Callback>
    requires i < |hist|
  {
    match hist[i]
    case Deliver(id, ev) =>
      if id !in cfg.kinds then None
      else (
        match Target(cfg.kinds[id], ev)
        case None => None
        case Some(args) =>
          var h := Latest(cfg.zero, hist[..i], id, SlotOf(args));
          if h in cfg.truthy then Some(Callback(id, h, args)) else None
      )
    case ErrorCheck(id, err) =>
      if err == NoError then None
      else Some(Callback(id, Latest(cfg.zero, hist[..i], id, OnError), ErrorArgs(err)))
    case _ => None
  }

  function AsSeq<T>(o: Option<T>): seq<T> {
    match o case None => [] case Some(x) => [x]
  }

  ghost function FilterMap(cfg: Config, hist: seq<Action>): seq<Callback>
    decreases |hist|
  {
    if hist == [] then []
    else FilterMap(cfg, hist[..|hist| - 1]) + AsSeq(Emission(cfg, hist, |hist| - 1))
  }

  /** The indices of the actions that contribute a callback, in order. */
  ghost function Origins(cfg: Config, hist: seq<Action>): seq<nat>
    decreases |hist|
  {
    if hist == [] then []
    else
      var n := |hist| - 1;
      Origins(cfg, hist[..n]) + (if Emission(cfg, hist, n).Some? then [n] else [])
  }

  // -------------------------------------------------------------------- theorems

  /** The executed slots hold exactly what a backward scan of the history finds. */
  lemma {:induction false} SlotsHoldLatest(cfg: Config, hist: seq<Action>, id: SockId, slot: Slot)
    ensures Lookup(cfg.zero, SlotsOf(Run(cfg, hist), id), slot) == Latest(cfg.zero, hist, id, slot)
    decreases |hist|
  {
    if hist == [] {
    } else {
      SlotsHoldLatest(cfg, hist[..|hist| - 1], id, slot);
    }
  }

  /** The posted log is a filter-map of the history, for any mix of socket kinds. */
  lemma {:induction false} LogIsFilterMap(cfg: Config, hist: seq<Action>)
    ensures Run(cfg, hist).log == FilterMap(cfg, hist)
    decreases |hist|
  {
    if hist == [] {
    } else {
      var n := |hist| - 1;
      LogIsFilterMap(cfg, hist[..n]);
      match hist[n] {
        case Deliver(id, ev) =>
          if id in cfg.kinds && Target(cfg.kinds[id], ev).Some? {
            SlotsHoldLatest(cfg, hist[..n], id, SlotOf(Target(cfg.kinds[id], ev).value));
          }
        case ErrorCheck(id, err) =>
          SlotsHoldLatest(cfg, hist[..n], id, OnError);
        case _ =>
      }
    }
  }

  lemma {:induction false} EmissionIgnoresFuture(cfg: Config, hist: seq<Action>, more: seq<Action>, i: nat)
    requires i < |hist|
    ensures Emission(cfg, hist + more, i) == Emission(cfg, hist, i)
  {
    assert (hist + more)[..i] == hist[..i];
  }

  /** Whatever happens later, callbacks already posted stay as they were bound. */
  lemma {:induction false} PostedNeverChanges(cfg: Config, hist: seq<Action>, more: seq<Action>)
    ensures Run(cfg, hist).log <= Run(cfg, hist + more).log
    decreases |more|
  {
    if more == [] {
      assert hist + more == hist;
    } else {
      var k := |more| - 1;
      PostedNeverChanges(cfg, hist, more[..k]);
      assert (hist + more)[..|hist + more| - 1] == hist + more[..k];
    }
  }

  lemma {:induction false} OriginsIncrease(cfg: Config, hist: seq<Action>)
    ensures forall k :: 0 <= k < |Origins(cfg, hist)| ==> Origins(cfg, hist)[k] < |hist|
    ensures forall j, k :: 0 <= j < k < |Origins(cfg, hist)| ==> Origins(cfg, hist)[j] < Origins(cfg, hist)[k]
    decreases |hist|
  {
    if hist == [] {
    } else {
      OriginsIncrease(cfg, hist[..|hist| - 1]);
    }
  }

  lemma {:induction false} OriginsComplete(cfg: Config, hist: seq<Action>, i: nat)
    requires i < |hist| && Emission(cfg, hist, i).Some?
    ensures i in Origins(cfg, hist)
    decreases |hist|
  {
    var n := |hist| - 1;
    var o := Origins(cfg, hist);
    if i == n {
      assert o[|o| - 1] == n;
    } else {
      assert hist == hist[..n] + [hist[n]];
      EmissionIgnoresFuture(cfg, hist[..n], [hist[n]], i);
      OriginsComplete(cfg, hist[..n], i);
    }
  }

  lemma {:induction false} OriginsEmit(cfg: Config, hist: seq<Action>, k: nat)
    requires k < |Origins(cfg, hist)|
    ensures |Origins(cfg, hist)| == |FilterMap(cfg, hist)|
    ensures Origins(cfg, hist)[k] < |hist|
    ensures Emission(cfg, hist, Origins(cfg, hist)[k]) == Some(FilterMap(cfg, hist)[k])
    decreases |hist|
  {
    var n := |hist| - 1;
    var front := hist[..n];
    OriginsCount(cfg, front);
    if k < |Origins(cfg, front)| {
      OriginsEmit(cfg, front, k);
      assert hist == front + [hist[n]];
      EmissionIgnoresFuture(cfg, front, [hist[n]], Origins(cfg, front)[k]);
    }
  }

  lemma {:induction false} OriginsCount(cfg: Config, hist: seq<Action>)
    ensures |Origins(cfg, hist)| == |FilterMap(cfg, hist)|
    decreases |hist|
  {
    if hist == [] {
    } else {
      OriginsCount(cfg, hist[..|hist| - 1]);
    }
  }

  /** Each posted callback comes from one action of its own, in history order, and no
      contributing action is missed. */
  lemma {:induction false} OneCallbackPerOrigin(cfg: Config, hist: seq<Action>)
    ensures |Origins(cfg, hist)| == |Run(cfg, hist).log|
    ensures forall k :: 0 <= k < |Origins(cfg, hist)| ==>
              && Origins(cfg, hist)[k] < |hist|
              && Emission(cfg, hist, Origins(cfg, hist)[k]) == Some(Run(cfg, hist).log[k])
    ensures forall j, k :: 0 <= j < k < |Origins(cfg, hist)| ==> Origins(cfg, hist)[j] < Origins(cfg, hist)[k]
    ensures forall i :: 0 <= i < |hist| && Emission(cfg, hist, i).Some? ==> i in Origins(cfg, hist)
  {
    LogIsFilterMap(cfg, hist);
    OriginsCount(cfg, hist);
    OriginsIncrease(cfg, hist);
    var o := Origins(cfg, hist);
    forall k | 0 <= k < |o|
      ensures o[k] < |hist| && Emission(cfg, hist, o[k]) == Some(Run(cfg, hist).log[k])
    {
      OriginsEmit(cfg, hist, k);
    }
    forall i | 0 <= i < |hist| && Emission(cfg, hist, i).Some?
      ensures i in o
    {
      OriginsComplete(cfg, hist, i);
    }
  }

  /** `Latest` means what it says: some store wrote that handler and none followed it (then j is
      its index), or the slot was never stored to (then j is -1). */
  lemma {:induction false} LatestIsMostRecentStore(zero: Handler, hist: seq<Action>, id: SockId, slot: Slot) returns (j: int)
    ensures -1 <= j < |hist|
    ensures if j >= 0 then StoreAt(zero, hist, j, id, slot)
            else Latest(zero, hist, id, slot) == zero && NoStoreAfter(hist, 0, id, slot)
    decreases |hist|
  {
    j := -1;
    if hist == [] {
    } else {
      var n := |hist| - 1;
      if StoresTo(hist[n], id, slot) {
        j := n;
      } else {
        j := LatestIsMostRecentStore(zero, hist[..n], id, slot);
        NoStoreExtends(hist, j + 1, id, slot);
      }
    }
  }

  predicate StoresTo(a: Action, id: SockId, slot: Slot) {
    Stored(a).Some? && Stored(a).value.id == id && Stored(a).value.slot == slot
  }

  lemma NoStoreExtends(hist: seq<Action>, from: nat, id: SockId, slot: Slot)
    requires hist != [] && NoStoreAfter(hist[..|hist| - 1], from, id, slot) && !StoresTo(hist[|hist| - 1], id, slot)
    ensures NoStoreAfter(hist, from, id, slot)
  {
    forall k | from <= k < |hist|
      ensures !StoresTo(hist[k], id, slot)
    {
      assert k < |hist| - 1 ==> hist[k] == hist[..|hist| - 1][k];
    }
  }

  /** The j-th action stored the latest handler of this slot, and no action after it stored another. */
  predicate StoreAt(zero: Handler, hist: seq<Action>, j: nat, id: SockId, slot: Slot)
    requires j < |hist|
  {
    Stored(hist[j]) == Some(Store(id, slot, Latest(zero, hist, id, slot))) && NoStoreAfter(hist, j + 1, id, slot)
  }

  predicate NoStoreAfter(hist: seq<Action>, from: nat, id: SockId, slot: Slot) {
    forall k :: from <= k < |hist| ==> !StoresTo(hist[k], id, slot)
  }

  // ------------------------------------------------------------------- alphabets

  /** The arguments a socket of each kind may post. */
  predicate InAlphabet(kind: Kind, args: Args) {
    match args
    case ErrorArgs(_) => true
    case DnsArgs(_, _) => true
    case ReadableArgs => !kind.Listener?
    case SentArgs(_) => !kind.Listener?
    case ConnectArgs => kind.Stream?
    case DisconnectArgs => kind.Stream?
    case IncomingArgs(_) => kind.Listener?
  }

  /** In every run each socket kind posts only its own kinds of callback. */
  lemma {:induction false} RunStaysInAlphabet(cfg: Config, hist: seq<Action>)
    ensures forall k :: 0 <= k < |Run(cfg, hist).log| ==>
              var cb := Run(cfg, hist).log[k];
              cb.sock in cfg.kinds ==> InAlphabet(cfg.kinds[cb.sock], cb.args)
    decreases |hist|
  {
    if hist == [] {
    } else {
      var n := |hist| - 1;
      RunStaysInAlphabet(cfg, hist[..n]);
      match hist[n] {
        case Deliver(id, ev) =>
          if id in cfg.kinds && Target(cfg.kinds[id], ev).Some? {
            TargetInAlphabet(cfg.kinds[id], ev);
          }
        case _ =>
      }
    }
  }

  lemma TargetInAlphabet(kind: Kind, ev: Event)
    requires Target(kind, ev).Some?
    ensures InAlphabet(kind, Target(kind, ev).value)
  {}

  /** A listener reports the events a stream would post as unimplemented errors; a stream differs
      from a base socket on connect and disconnect only. */
  lemma {:induction false} KindsCompared(cfg: Config, hist: seq<Action>, id: SockId, ev: Event)
    requires id in cfg.kinds
    ensures cfg.kinds[id].Listener? && (ev.RxDone? || ev.TxDone? || ev.Connected? || ev.Disconnected?) ==>
              Run(cfg, hist + [Deliver(id, ev)]).log == Run(cfg, hist + [Deliver(id, GeneralError(Unimplemented))]).log
    ensures cfg.kinds[id].Stream? && !ev.Connected? && !ev.Disconnected? ==>
              Run(cfg, hist + [Deliver(id, ev)]).log
              == Run(cfg, hist).log + Posts(cfg, Udp, id, SlotsOf(Run(cfg, hist), id), ev)
  {
    assert (hist + [Deliver(id, ev)])[..|hist|] == hist;
    assert (hist + [Deliver(id, GeneralError(Unimplemented))])[..|hist|] == hist;
  }

  // --------------------------------------------- errors with no handler registered

  /** The i-th action reports an error through error_check while no error handler is set. */
  ghost predicate UnheardCheck(cfg: Config, hist: seq<Action>, i: nat)
    requires i < |hist|
  {
    && hist[i].ErrorCheck?
    && hist[i].err != NoError
    && Latest(cfg.zero, hist[..i], hist[i].id, OnError) !in cfg.truthy
  }

  /** As long as a socket has stored no error handler, every error it reports through error_check posts
      a NULL handler. This is the position of every object under construction. */
  lemma {:induction false} UnheardCheckPostsNull(cfg: Config, hist: seq<Action>, id: SockId, e: Error)
    requires NoStoreAfter(hist, 0, id, OnError) && e != NoError
    ensures Run(cfg, hist + [ErrorCheck(id, e)]).log == Run(cfg, hist).log + [Callback(id, cfg.zero, ErrorArgs(e))]
  {
    assert (hist + [ErrorCheck(id, e)])[..|hist|] == hist;
    SlotsHoldLatest(cfg, hist, id, OnError);
    var j := LatestIsMostRecentStore(cfg.zero, hist, id, OnError);
    if j >= 0 {
      assert StoresTo(hist[j], id, OnError);
    }
  }

  /** The documented promise that errors are ignored when no handler is set fails in exactly
      the runs that hit error_check with an error and no handler: then a NULL handler is bound
      and posted. Every other run posts only set handlers. */
  lemma {:induction false} OnlySetHandlersPostedIff(cfg: Config, hist: seq<Action>)
    ensures (forall k :: 0 <= k < |Run(cfg, hist).log| ==> Run(cfg, hist).log[k].handler in cfg.truthy)
            <==> (forall i :: 0 <= i < |hist| ==> !UnheardCheck(cfg, hist, i))
  {
    OneCallbackPerOrigin(cfg, hist);
    var log := Run(cfg, hist).log;
    var o := Origins(cfg, hist);
    if i :| 0 <= i < |hist| && UnheardCheck(cfg, hist, i) {
      assert Emission(cfg, hist, i).Some?;
      var k :| 0 <= k < |o| && o[k] == i;
      assert log[k].handler !in cfg.truthy;
    } else {
      forall k | 0 <= k < |log|
        ensures log[k].handler in cfg.truthy
      {
        assert Emission(cfg, hist, o[k]) == Some(log[k]);
        assert !UnheardCheck(cfg, hist, o[k]);
      }
    }
  }

  // ------------------------------------------------- which handler each event runs

  /** A later call of the same kind on the same socket, not refused, replaces the handler of an earlier one. */
  predicate Replaces(later: Action, earlier: Action) {
    later.id == earlier.id &&
    match earlier
    case SetOnError(_, _) => later.SetOnError?
    case SetOnReadable(_, _) => later.SetOnReadable?
    case SetOnSent(_, _) => later.SetOnSent?
    case SetOnDisconnect(_, _) => later.SetOnDisconnect?
    case Resolve(_, _, _, _) => later.Resolve? && !later.implNull && !later.entryNull
    case Connect(_, _, _) => later.Connect? && !later.apiNull
    case StartListening(_, _, _) => later.StartListening? && !later.apiNull
    case _ => false
  }

  /** The history has this call, and nothing since replaces its handler. */
  predicate Stands(hist: seq<Action>, call: Action) {
    exists j :: 0 <= j < |hist| && StandsFrom(hist, call, j)
  }

  predicate StandsFrom(hist: seq<Action>, call: Action, j: nat)
    requires j < |hist|
  {
    hist[j] == call && forall k :: j < k < |hist| ==> !Replaces(hist[k], call)
  }

  lemma {:induction false} ReplacesIff(a: Action, call: Action, slot: Slot, h: Handler)
    requires Stored(call) == Some(Store(call.id, slot, h))
    ensures StoresTo(a, call.id, slot) <==> Replaces(a, call)
  {}

  lemma {:induction false} StandingIsLatest(zero: Handler, hist: seq<Action>, call: Action, slot: Slot, h: Handler, j: nat)
    requires j < |hist| && StandsFrom(hist, call, j) && Stored(call) == Some(Store(call.id, slot, h))
    ensures Latest(zero, hist, call.id, slot) == h
    decreases |hist|
  {
    var n := |hist| - 1;
    if j < n {
      ReplacesIff(hist[n], call, slot, h);
      StandingIsLatest(zero, hist[..n], call, slot, h, j);
    }
  }

  lemma {:induction false} StandingIsStored(cfg: Config, hist: seq<Action>, call: Action, slot: Slot, h: Handler)
    requires Stands(hist, call) && Stored(call) == Some(Store(call.id, slot, h))
    ensures Lookup(cfg.zero, SlotsOf(Run(cfg, hist), call.id), slot) == h
  {
    var j :| 0 <= j < |hist| && StandsFrom(hist, call, j);
    StandingIsLatest(cfg.zero, hist, call, slot, h, j);
    SlotsHoldLatest(cfg, hist, call.id, slot);
  }

  /** After this history the action posts exactly these callbacks. */
  ghost predicate Adds(cfg: Config, hist: seq<Action>, a: Action, posted: seq<Callback>) {
    Run(cfg, hist + [a]).log == Run(cfg, hist).log + posted
  }

  ghost function IfSet(cfg: Config, id: SockId, h: Handler, args: Args): seq<Callback> {
    if h in cfg.truthy then [Callback(id, h, args)] else []
  }

  lemma {:induction false} AddsWhatItPosts(cfg: Config, hist: seq<Action>, id: SockId, ev: Event)
    requires id in cfg.kinds
    ensures Adds(cfg, hist, Deliver(id, ev), Posts(cfg, cfg.kinds[id], id, SlotsOf(Run(cfg, hist), id), ev))
  {
    assert (hist + [Deliver(id, ev)])[..|hist|] == hist;
  }

  /** The three error events run the error handler with their error, on every kind of socket; error_check
      does the same but does not ask whether a handler is set. */
  lemma {:induction false} ErrorsRunOnError(cfg: Config, hist: seq<Action>, id: SockId, h: Handler, e: Error)
    requires id in cfg.kinds && Stands(hist, SetOnError(id, h))
    ensures Adds(cfg, hist, Deliver(id, RxError(e)), IfSet(cfg, id, h, ErrorArgs(e)))
    ensures Adds(cfg, hist, Deliver(id, TxError(e)), IfSet(cfg, id, h, ErrorArgs(e)))
    ensures Adds(cfg, hist, Deliver(id, GeneralError(e)), IfSet(cfg, id, h, ErrorArgs(e)))
    ensures e != NoError ==> Adds(cfg, hist, ErrorCheck(id, e), [Callback(id, h, ErrorArgs(e))])
    ensures Adds(cfg, hist, ErrorCheck(id, NoError), [])
  {
    StandingIsStored(cfg, hist, SetOnError(id, h), OnError, h);
    AddsWhatItPosts(cfg, hist, id, RxError(e));
    AddsWhatItPosts(cfg, hist, id, TxError(e));
    AddsWhatItPosts(cfg, hist, id, GeneralError(e));
    assert (hist + [ErrorCheck(id, e)])[..|hist|] == hist;
    assert (hist + [ErrorCheck(id, NoError)])[..|hist|] == hist;
  }

  /** On a listener the events of a stream run the error handler too, with `unimplemented`. */
  lemma {:induction false} ListenersRunOnError(cfg: Config, hist: seq<Action>, id: SockId, h: Handler, n: nat)
    requires id in cfg.kinds && cfg.kinds[id] == Listener && Stands(hist, SetOnError(id, h))
    ensures Adds(cfg, hist, Deliver(id, RxDone), IfSet(cfg, id, h, ErrorArgs(Unimplemented)))
    ensures Adds(cfg, hist, Deliver(id, TxDone(n)), IfSet(cfg, id, h, ErrorArgs(Unimplemented)))
    ensures Adds(cfg, hist, Deliver(id, Connected), IfSet(cfg, id, h, ErrorArgs(Unimplemented)))
    ensures Adds(cfg, hist, Deliver(id, Disconnected), IfSet(cfg, id, h, ErrorArgs(Unimplemented)))
  {
    StandingIsStored(cfg, hist, SetOnError(id, h), OnError, h);
    AddsWhatItPosts(cfg, hist, id, RxDone);
    AddsWhatItPosts(cfg, hist, id, TxDone(n));
    AddsWhatItPosts(cfg, hist, id, Connected);
    AddsWhatItPosts(cfg, hist, id, Disconnected);
  }

  /** Received data runs the readable handler of a UDP socket or stream. */
  lemma {:induction false} DataRunsOnReadable(cfg: Config, hist: seq<Action>, id: SockId, h: Handler)
    requires id in cfg.kinds && cfg.kinds[id] != Listener && Stands(hist, SetOnReadable(id, h))
    ensures Adds(cfg, hist, Deliver(id, RxDone), IfSet(cfg, id, h, ReadableArgs))
  {
    StandingIsStored(cfg, hist, SetOnReadable(id, h), OnReadable, h);
    AddsWhatItPosts(cfg, hist, id, RxDone);
  }

  /** A finished transmission runs their sent handler, with the number of bytes. */
  lemma {:induction false} SentRunsOnSent(cfg: Config, hist: seq<Action>, id: SockId, h: Handler, n: nat)
    requires id in cfg.kinds && cfg.kinds[id] != Listener && Stands(hist, SetOnSent(id, h))
    ensures Adds(cfg, hist, Deliver(id, TxDone(n)), IfSet(cfg, id, h, SentArgs(n)))
  {
    StandingIsStored(cfg, hist, SetOnSent(id, h), OnSent, h);
    AddsWhatItPosts(cfg, hist, id, TxDone(n));
  }

  /** A DNS answer runs the handler of the last resolve that was not refused, with the address and the
      name, on every kind of socket. */
  lemma {:induction false} DnsRunsResolver(cfg: Config, hist: seq<Action>, id: SockId, h: Handler, addr: nat, domain: string)
    requires id in cfg.kinds && Stands(hist, Resolve(id, h, false, false))
    ensures Adds(cfg, hist, Deliver(id, DnsAnswer(addr, domain)), IfSet(cfg, id, h, DnsArgs(addr, domain)))
  {
    StandingIsStored(cfg, hist, Resolve(id, h, false, false), OnDns, h);
    AddsWhatItPosts(cfg, hist, id, DnsAnswer(addr, domain));
  }

  /** The connection of a stream runs the handler of its last connect that was not refused. */
  lemma {:induction false} ConnectedRunsConnector(cfg: Config, hist: seq<Action>, id: SockId, h: Handler)
    requires id in cfg.kinds && cfg.kinds[id] == Stream && Stands(hist, Connect(id, h, false))
    ensures Adds(cfg, hist, Deliver(id, Connected), IfSet(cfg, id, h, ConnectArgs))
  {
    StandingIsStored(cfg, hist, Connect(id, h, false), OnConnect, h);
    AddsWhatItPosts(cfg, hist, id, Connected);
  }

  /** Its disconnection runs the disconnect handler. */
  lemma {:induction false} DisconnectedRunsOnDisconnect(cfg: Config, hist: seq<Action>, id: SockId, h: Handler)
    requires id in cfg.kinds && cfg.kinds[id] == Stream && Stands(hist, SetOnDisconnect(id, h))
    ensures Adds(cfg, hist, Deliver(id, Disconnected), IfSet(cfg, id, h, DisconnectArgs))
  {
    StandingIsStored(cfg, hist, SetOnDisconnect(id, h), OnDisconnect, h);
    AddsWhatItPosts(cfg, hist, id, Disconnected);
  }

  /** An incoming connection runs the handler of the last start_listening that was not refused, with the
      impl it brings. */
  lemma {:induction false} IncomingRunsListener(cfg: Config, hist: seq<Action>, id: SockId, h: Handler, x: Impl)
    requires id in cfg.kinds && cfg.kinds[id] == Listener && Stands(hist, StartListening(id, h, false))
    ensures Adds(cfg, hist, Deliver(id, Incoming(x)), IfSet(cfg, id, h, IncomingArgs(x)))
  {
    StandingIsStored(cfg, hist, StartListening(id, h, false), OnIncoming, h);
    AddsWhatItPosts(cfg, hist, id, Incoming(x));
  }

  /** The remaining events post nothing, whatever is registered. */
  lemma {:induction false} QuietEvents(cfg: Config, hist: seq<Action>, id: SockId, x: Impl)
    requires id in cfg.kinds
    ensures Adds(cfg, hist, Deliver(id, NoEvent), []) && Adds(cfg, hist, Deliver(id, UnknownEvent), [])
    ensures cfg.kinds[id] == Udp ==> Adds(cfg, hist, Deliver(id, Connected), []) && Adds(cfg, hist, Deliver(id, Disconnected), [])
    ensures cfg.kinds[id] != Listener ==> Adds(cfg, hist, Deliver(id, Incoming(x)), [])
  {
    AddsWhatItPosts(cfg, hist, id, NoEvent);
    AddsWhatItPosts(cfg, hist, id, UnknownEvent);
    AddsWhatItPosts(cfg, hist, id, Connected);
    AddsWhatItPosts(cfg, hist, id, Disconnected);
    AddsWhatItPosts(cfg, hist, id, Incoming(x));
  }
}
