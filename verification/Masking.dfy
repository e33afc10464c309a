/** Handlers are several words long and interrupts read them while the main program may be
    half way through storing one. This module interleaves the word writes of the main program
    with interrupts and compares the posted log with the word-free model in `Dispatch`.

    The main program runs one call at a time. The handler a storing call receives is named by
    the index of the step that begins it, so a schedule says nothing about handler values;
    those are supplied by a valuation `val`, one handler for each step index. */
module Masking {
  import opened Sal
  import opened Dispatch

  /** setOnError, setOnReadable and setOnSent store with interrupts disabled; the rest do not. */
  predicate Masked(slot: Slot) {
    slot.OnError? || slot.OnReadable? || slot.OnSent?
  }

  datatype Step =
    | Begin(id: SockId, slot: Slot)   // enter a storing call (disabling interrupts if it masks)
    | Write(word: nat)                // one word of the pending handler, in any order
    | End                             // leave the call (enabling interrupts if it masks)
    | Irq(id: SockId, ev: Event)      // a stack event, delivered to completion
    | Check(id: SockId, err: Error)   // error_check, called by the main program
    | Disable                         // the caller disables interrupts around calls of its own
    | Enable                          // and enables them again

  datatype Main = Idle | Storing(id: SockId, slot: Slot, call: nat, written: set<nat>)

  datatype Control = Control(main: Main, irq: bool)

  predicate Full(w: nat, written: set<nat>) {
    forall i :: 0 <= i < w ==> i in written
  }

  predicate Enabled(w: nat, c: Control, s: Step) {
    match s
    case Begin(_, _) => c.main.Idle?
    case Write(i) => c.main.Storing? && i < w && i !in c.main.written
    case End => c.main.Storing? && Full(w, c.main.written)
    case Irq(_, _) => c.irq
    case Check(_, _) => c.main.Idle?
    case Disable => c.main.Idle?
    case Enable => c.main.Idle?
  }

  function NextControl(c: Control, s: Step, index: nat): Control {
    match s
    case Begin(id, slot) => Control(Storing(id, slot, index, {}), c.irq && !Masked(slot))
    case Write(i) => if c.main.Storing? then c.(main := c.main.(written := c.main.written + {i})) else c
    case End => Control(Idle, c.irq || (c.main.Storing? && Masked(c.main.slot)))
    case Irq(_, _) => c
    case Check(_, _) => c
    case Disable => c.(irq := false)
    case Enable => c.(irq := true)
  }

  function ControlAfter(steps: seq<Step>): Control
    decreases |steps|
  {
    if steps == [] then Control(Idle, true)
    else NextControl(ControlAfter(steps[..|steps| - 1]), steps[|steps| - 1], |steps| - 1)
  }

  predicate Legal(w: nat, steps: seq<Step>)
    decreases |steps|
  {
    steps == [] ||
    (Legal(w, steps[..|steps| - 1]) && Enabled(w, ControlAfter(steps[..|steps| - 1]), steps[|steps| - 1]))
  }

  // ------------------------------------------------------------ memory and posted log

  function Zero(w: nat): Handler {
    seq(w, _ => 0)
  }

  type Memory = map<(SockId, Slot), Handler>

  function Cell(w: nat, mem: Memory, id: SockId, slot: Slot): Handler {
    if (id, slot) in mem then mem[(id, slot)] else Zero(w)
  }

  /** The handler words each storing call received. */
  predicate Valuation(w: nat, val: seq<Handler>, steps: seq<Step>) {
    |steps| <= |val| && forall j :: 0 <= j < |val| ==> |val[j]| == w
  }

  function WriteWord(cell: Handler, i: nat, received: Handler): Handler {
    if i < |cell| && i < |received| then cell[i := received[i]] else cell
  }

  function Received(w: nat, val: seq<Handler>, call: nat): Handler {
    if call < |val| then val[call] else Zero(w)
  }

  function MemoryAfter(w: nat, val: seq<Handler>, steps: seq<Step>): Memory
    decreases |steps|
  {
    if steps == [] then map[]
    else
      var n := |steps| - 1;
      var mem := MemoryAfter(w, val, steps[..n]);
      var main := ControlAfter(steps[..n]).main;
      match steps[n]
      case Write(i) =>
        if main.Storing? then
          mem[(main.id, main.slot) := WriteWord(Cell(w, mem, main.id, main.slot), i, Received(w, val, main.call))]
        else mem
      case _ => mem
  }

  datatype Setting = Setting(w: nat, truthy: iset<Handler>, kinds: map<SockId, Kind>)

  ghost function Posted(g: Setting, mem: Memory, s: Step): seq<Callback> {
    match s
    case Irq(id, ev) =>
      if id !in g.kinds then []
      else (
        match Target(g.kinds[id], ev)
        case None => []
        case Some(args) =>
          var h := Cell(g.w, mem, id, SlotOf(args));
          if h in g.truthy then [Callback(id, h, args)] else []
      )
    case Check(id, err) =>
      if err == NoError then [] else [Callback(id, Cell(g.w, mem, id, OnError), ErrorArgs(err))]
    case _ => []
  }

  ghost function LogAfter(g: Setting, val: seq<Handler>, steps: seq<Step>): seq<Callback>
    decreases |steps|
  {
    if steps == [] then []
    else
      var n := |steps| - 1;
      LogAfter(g, val, steps[..n]) + Posted(g, MemoryAfter(g.w, val, steps[..n]), steps[n])
  }

  // ----------------------------------------------------------------- linearisation

  /** The word-free action a step amounts to: a store takes effect when its last word lands. */
  function Effect(w: nat, val: seq<Handler>, c: Control, s: Step): seq<Action> {
    match s
    case Write(i) =>
      if c.main.Storing? && Full(w, c.main.written + {i})
      then [StoreAction(c.main.id, c.main.slot, Received(w, val, c.main.call))] else []
    case Irq(id, ev) => [Deliver(id, ev)]
    case Check(id, err) => [ErrorCheck(id, err)]
    case _ => []
  }

  function Linear(w: nat, val: seq<Handler>, steps: seq<Step>): seq<Action>
    decreases |steps|
  {
    if steps == [] then []
    else
      var n := |steps| - 1;
      Linear(w, val, steps[..n]) + Effect(w, val, ControlAfter(steps[..n]), steps[n])
  }

  ghost function Plain(g: Setting): Config {
    Config(Zero(g.w), g.truthy, g.kinds)
  }

  /** Some but not all words of the pending store to this slot have been written. */
  predicate HalfStored(w: nat, main: Main, id: SockId, slot: Slot) {
    && main.Storing? && main.id == id && main.slot == slot
    && main.written != {} && !Full(w, main.written)
  }

  /** The i-th step is an event that reads a half-stored handler of one of the given slots. */
  predicate TornAt(w: nat, kinds: map<SockId, Kind>, slots: set<Slot>, steps: seq<Step>, i: nat)
    requires i < |steps|
  {
    && steps[i].Irq?
    && steps[i].id in kinds
    && var t := Target(kinds[steps[i].id], steps[i].ev);
    && t.Some?
    && SlotOf(t.value) in slots
    && HalfStored(w, ControlAfter(steps[..i]).main, steps[i].id, SlotOf(t.value))
  }

  predicate NeverTorn(w: nat, kinds: map<SockId, Kind>, slots: set<Slot>, steps: seq<Step>) {
    forall i :: 0 <= i < |steps| ==> !TornAt(w, kinds, slots, steps, i)
  }

  // ------------------------------------------------------------------ control lemmas

  /** The caller's own critical section: it disabled interrupts and nothing enabled them since. A masked
      setter ends the section, because it enables interrupts when it leaves. */
  predicate InSection(steps: seq<Step>)
    decreases |steps|
  {
    steps != [] &&
    match steps[|steps| - 1]
    case Disable => true
    case Enable => false
    case Begin(_, slot) => !Masked(slot) && InSection(steps[..|steps| - 1])
    case _ => InSection(steps[..|steps| - 1])
  }

  /** Interrupts are off exactly inside the masked stores and the caller's sections, and a pending
      store is a call that began. */
  lemma {:induction false} ControlShape(w: nat, steps: seq<Step>)
    requires Legal(w, steps)
    ensures var c := ControlAfter(steps);
            && (c.irq <==> !(c.main.Storing? && Masked(c.main.slot)) && !InSection(steps))
            && (c.main.Storing? && Masked(c.main.slot) ==> !InSection(steps))
            && (c.main.Storing? ==>
                  && c.main.call < |steps|
                  && steps[c.main.call] == Begin(c.main.id, c.main.slot)
                  && forall i :: i in c.main.written ==> i < w)
    decreases |steps|
  {
    if steps == [] {
    } else {
      ControlShape(w, steps[..|steps| - 1]);
    }
  }

  lemma {:induction false} LegalPrefix(w: nat, steps: seq<Step>, i: nat)
    requires Legal(w, steps) && i <= |steps|
    ensures Legal(w, steps[..i])
    ensures i < |steps| ==> Enabled(w, ControlAfter(steps[..i]), steps[i])
    decreases |steps|
  {
    if i == |steps| {
      assert steps[..i] == steps;
    } else {
      var front := steps[..|steps| - 1];
      assert i < |front| ==> front[..i] == steps[..i];
      if i < |front| {
        LegalPrefix(w, front, i);
      }
    }
  }

  const MASKED_SLOTS: set<Slot> := {OnError, OnReadable, OnSent}
  const ALL_SLOTS: set<Slot> := {OnDns, OnError, OnReadable, OnSent, OnConnect, OnDisconnect, OnIncoming}

  /** No interleaving can fire an event inside a masked store. */
  lemma {:induction false} MaskedNeverTorn(w: nat, kinds: map<SockId, Kind>, steps: seq<Step>)
    requires Legal(w, steps)
    ensures NeverTorn(w, kinds, MASKED_SLOTS, steps)
  {
    forall i | 0 <= i < |steps|
      ensures !TornAt(w, kinds, MASKED_SLOTS, steps, i)
    {
      LegalPrefix(w, steps, i);
      ControlShape(w, steps[..i]);
    }
  }

  /** Only the unmasked slots need watching. */
  lemma {:induction false} UnmaskedSuffices(w: nat, kinds: map<SockId, Kind>, steps: seq<Step>)
    requires Legal(w, steps) && NeverTorn(w, kinds, ALL_SLOTS - MASKED_SLOTS, steps)
    ensures NeverTorn(w, kinds, ALL_SLOTS, steps)
  {
    MaskedNeverTorn(w, kinds, steps);
    forall i | 0 <= i < |steps|
      ensures !TornAt(w, kinds, ALL_SLOTS, steps, i)
    {
      assert !TornAt(w, kinds, MASKED_SLOTS, steps, i);
      assert !TornAt(w, kinds, ALL_SLOTS - MASKED_SLOTS, steps, i);
    }
  }

  lemma NeverTornPrefix(w: nat, kinds: map<SockId, Kind>, slots: set<Slot>, steps: seq<Step>)
    requires steps != [] && NeverTorn(w, kinds, slots, steps)
    ensures NeverTorn(w, kinds, slots, steps[..|steps| - 1]) && !TornAt(w, kinds, slots, steps, |steps| - 1)
  {
    var front := steps[..|steps| - 1];
    forall i | 0 <= i < |front|
      ensures !TornAt(w, kinds, slots, front, i)
    {
      assert front[..i] == steps[..i];
      assert !TornAt(w, kinds, slots, steps, i);
    }
  }

  // ---------------------------------------------------------- critical sections of callers

  /** A store that does not mask keeps the section it began in, up to its end. */
  lemma {:induction false} StoreKeepsSection(w: nat, steps: seq<Step>)
    requires Legal(w, steps)
    ensures var main := ControlAfter(steps).main;
            main.Storing? && !Masked(main.slot) ==> main.call < |steps| && (InSection(steps) <==> InSection(steps[..main.call]))
    decreases |steps|
  {
    if steps == [] {
    } else {
      var front := steps[..|steps| - 1];
      StoreKeepsSection(w, front);
      var main := ControlAfter(steps).main;
      if main.Storing? && main.call < |front| {
        assert front[..main.call] == steps[..main.call];
      }
    }
  }

  /** An event inside an unmasked store means that the store did not begin in a section. */
  lemma {:induction false} TornOutsideSection(w: nat, kinds: map<SockId, Kind>, steps: seq<Step>, i: nat)
    requires Legal(w, steps) && i < |steps| && TornAt(w, kinds, ALL_SLOTS, steps, i)
    ensures var main := ControlAfter(steps[..i]).main;
            main.call < i && steps[main.call] == Begin(main.id, main.slot) && !Masked(main.slot) && !InSection(steps[..main.call])
  {
    var front := steps[..i];
    LegalPrefix(w, steps, i);
    ControlShape(w, front);
    StoreKeepsSection(w, front);
    assert front[..ControlAfter(front).main.call] == steps[..ControlAfter(front).main.call];
  }

  /** Every unmasked storing call of the schedule is made inside a section of the caller. */
  predicate Guarded(steps: seq<Step>) {
    forall j :: 0 <= j < |steps| && steps[j].Begin? && !Masked(steps[j].slot) ==> InSection(steps[..j])
  }

  /** Then nothing is torn and the whole log is the plain one, under every interleaving. */
  lemma {:induction false} GuardedLogIsPlainLog(g: Setting, val: seq<Handler>, steps: seq<Step>)
    requires Legal(g.w, steps) && Valuation(g.w, val, steps) && Guarded(steps)
    ensures LogAfter(g, val, steps) == Run(Plain(g), Linear(g.w, val, steps)).log
  {
    forall i | 0 <= i < |steps|
      ensures !TornAt(g.w, g.kinds, ALL_SLOTS - MASKED_SLOTS, steps, i)
    {
      if TornAt(g.w, g.kinds, ALL_SLOTS - MASKED_SLOTS, steps, i) {
        TornOutsideSection(g.w, g.kinds, steps, i);
      }
    }
    WholeLogIsPlainLog(g, val, steps);
  }

  predicate WithinStore(more: seq<Step>) {
    forall i :: 0 <= i < |more| ==> !more[i].End?
  }

  /** However the schedule goes on until the call it ends with has returned, no event reads a
      half-stored handler. */
  ghost predicate StaysWhole(w: nat, kinds: map<SockId, Kind>, steps: seq<Step>) {
    forall more: seq<Step>, i: nat :: Legal(w, steps + more) && WithinStore(more) && |steps| <= i < |steps + more| ==>
      !TornAt(w, kinds, ALL_SLOTS, steps + more, i)
  }

  lemma {:induction false} StoreContinues(w: nat, steps: seq<Step>, more: seq<Step>, call: nat)
    requires Legal(w, steps + more) && WithinStore(more)
    requires ControlAfter(steps).main.Storing? && ControlAfter(steps).main.call == call
    ensures ControlAfter(steps + more).main.Storing? && ControlAfter(steps + more).main.call == call
    decreases |more|
  {
    if more == [] {
      assert steps + more == steps;
    } else {
      var front := more[..|more| - 1];
      assert (steps + more)[..|steps + more| - 1] == steps + front;
      StoreContinues(w, steps, front, call);
    }
  }

  lemma {:induction false} SectionKeepsWhole(w: nat, kinds: map<SockId, Kind>, steps: seq<Step>, id: SockId, slot: Slot)
    requires Legal(w, steps + [Begin(id, slot)]) && InSection(steps) && !Masked(slot)
    ensures StaysWhole(w, kinds, steps + [Begin(id, slot)])
  {
    var begun := steps + [Begin(id, slot)];
    assert begun[..|steps|] == steps;
    forall more: seq<Step>, i: nat | Legal(w, begun + more) && WithinStore(more) && |begun| <= i < |begun + more|
      ensures !TornAt(w, kinds, ALL_SLOTS, begun + more, i)
    {
      if TornAt(w, kinds, ALL_SLOTS, begun + more, i) {
        TornOutsideSection(w, kinds, begun + more, i);
        LegalPrefix(w, begun + more, i);
        var part := more[..i - |begun|];
        assert (begun + more)[..i] == begun + part;
        assert (begun + more)[..|steps|] == steps;
        StoreContinues(w, begun, part, |steps|);
      }
    }
  }

  lemma {:induction false} OneMore(w: nat, steps: seq<Step>, s: Step)
    requires Legal(w, steps) && Enabled(w, ControlAfter(steps), s)
    ensures Legal(w, steps + [s]) && ControlAfter(steps + [s]) == NextControl(ControlAfter(steps), s, |steps|)
  {
    assert (steps + [s])[..|steps|] == steps;
  }

  /** Outside a section an event can read the store half way. */
  lemma {:induction false} OutsideCanTear(w: nat, kinds: map<SockId, Kind>, steps: seq<Step>, id: SockId, slot: Slot, ev: Event)
    requires w >= 2 && Legal(w, steps) && Legal(w, steps + [Begin(id, slot)]) && !InSection(steps) && !Masked(slot)
    requires id in kinds && Target(kinds[id], ev).Some? && SlotOf(Target(kinds[id], ev).value) == slot
    ensures !StaysWhole(w, kinds, steps + [Begin(id, slot)])
  {
    var begun := steps + [Begin(id, slot)];
    var more := [Write(0), Irq(id, ev)];
    assert begun[..|steps|] == steps;
    ControlShape(w, steps);
    var c := ControlAfter(begun);
    assert c == Control(Storing(id, slot, |steps|, {}), true);
    OneMore(w, begun, Write(0));
    var half := begun + [Write(0)];
    assert ControlAfter(half).main.written == {0};
    assert 1 !in ControlAfter(half).main.written;
    OneMore(w, half, Irq(id, ev));
    assert begun + more == half + [Irq(id, ev)] && (begun + more)[..|half|] == half;
    assert TornAt(w, kinds, ALL_SLOTS, begun + more, |half|);
  }

  /** The four other slots are exposed from the start: a first call that stores to one of them can be read
      half way. */
  lemma {:induction false} UnmaskedCanTear(w: nat, kinds: map<SockId, Kind>, id: SockId, slot: Slot, ev: Event)
    requires w >= 2 && slot in {OnDns, OnConnect, OnDisconnect, OnIncoming}
    requires id in kinds && Target(kinds[id], ev).Some? && SlotOf(Target(kinds[id], ev).value) == slot
    ensures Legal(w, [Begin(id, slot)]) && !StaysWhole(w, kinds, [Begin(id, slot)])
  {
    var none: seq<Step> := [];
    assert none + [Begin(id, slot)] == [Begin(id, slot)] && Legal(w, none);
    OneMore(w, none, Begin(id, slot));
    OutsideCanTear(w, kinds, none, id, slot, ev);
  }

  /** No masked setter is called. */
  predicate NoMaskedSetter(steps: seq<Step>) {
    forall j :: 0 <= j < |steps| && steps[j].Begin? ==> !Masked(steps[j].slot)
  }

  predicate NoSwitch(steps: seq<Step>) {
    forall j :: 0 <= j < |steps| ==> !steps[j].Disable? && !steps[j].Enable?
  }

  lemma {:induction false} SectionLastsIff(pre: seq<Step>, mid: seq<Step>)
    requires NoSwitch(mid)
    ensures InSection(pre + [Disable] + mid) <==> NoMaskedSetter(mid)
    decreases |mid|
  {
    if mid == [] {
      assert pre + [Disable] + mid == pre + [Disable];
    } else {
      var front := mid[..|mid| - 1];
      assert (pre + [Disable] + mid)[..|pre + [Disable] + mid| - 1] == pre + [Disable] + front;
      SectionLastsIff(pre, front);
      assert mid == front + [mid[|mid| - 1]];
    }
  }

  /** A caller disables interrupts and then makes an unmasked storing call. However events fall, the
      handler is never read half stored, iff no masked setter was called in between: those enable
      interrupts when they leave, whatever the mask was when they began. */
  lemma {:induction false} SectionProtectsIff(w: nat, kinds: map<SockId, Kind>, pre: seq<Step>, mid: seq<Step>, id: SockId, slot: Slot, ev: Event)
    requires w >= 2 && NoSwitch(mid) && !Masked(slot)
    requires Legal(w, pre + [Disable] + mid) && Legal(w, pre + [Disable] + mid + [Begin(id, slot)])
    requires id in kinds && Target(kinds[id], ev).Some? && SlotOf(Target(kinds[id], ev).value) == slot
    ensures StaysWhole(w, kinds, pre + [Disable] + mid + [Begin(id, slot)]) <==> NoMaskedSetter(mid)
  {
    var steps := pre + [Disable] + mid;
    SectionLastsIff(pre, mid);
    if NoMaskedSetter(mid) {
      SectionKeepsWhole(w, kinds, steps, id, slot);
    } else {
      OutsideCanTear(w, kinds, steps, id, slot, ev);
    }
  }

  // ------------------------------------------------------------------- memory lemmas

  /** A call that began storing here received these words; a call still half way through is not the one. */
  ghost predicate FromCall(w: nat, val: seq<Handler>, steps: seq<Step>, id: SockId, slot: Slot, h: Handler) {
    exists j :: 0 <= j < |steps| && CalledAt(w, val, steps, id, slot, h, j)
  }

  predicate CalledAt(w: nat, val: seq<Handler>, steps: seq<Step>, id: SockId, slot: Slot, h: Handler, j: nat)
    requires j < |steps|
  {
    var main := ControlAfter(steps).main;
    && steps[j] == Begin(id, slot) && j < |val| && h == val[j]
    && (main.Storing? && !Full(w, main.written) ==> j != main.call)
  }

  /** What linearised memory holds: the words of some call that stored here, or NULL. */
  lemma {:induction false} LatestIsReceived(w: nat, val: seq<Handler>, steps: seq<Step>, id: SockId, slot: Slot)
    requires Legal(w, steps) && Valuation(w, val, steps)
    ensures var base := Latest(Zero(w), Linear(w, val, steps), id, slot);
            base == Zero(w) || FromCall(w, val, steps, id, slot, base)
    decreases |steps|
  {
    if steps == [] {
    } else {
      LatestIsReceived(w, val, steps[..|steps| - 1], id, slot);
      LatestAfterStep(w, val, steps, id, slot);
      if Completes(w, steps, id, slot) {
        CompletedIsFromCall(w, val, steps, id, slot);
      } else if Latest(Zero(w), Linear(w, val, steps), id, slot) != Zero(w) {
        FromCallExtends(w, val, steps, id, slot, Latest(Zero(w), Linear(w, val, steps), id, slot));
      }
    }
  }

  /** The last step writes the last missing word of a store to this slot. */
  predicate Completes(w: nat, steps: seq<Step>, id: SockId, slot: Slot)
    requires steps != []
  {
    CompletedBy(w, ControlAfter(steps[..|steps| - 1]), steps[|steps| - 1], id, slot)
  }

  predicate CompletedBy(w: nat, c: Control, s: Step, id: SockId, slot: Slot) {
    WritesTo(c, s, id, slot) && Full(w, c.main.written + {s.word})
  }

  lemma {:induction false} LatestAfterStep(w: nat, val: seq<Handler>, steps: seq<Step>, id: SockId, slot: Slot)
    requires steps != []
    ensures Latest(Zero(w), Linear(w, val, steps), id, slot) ==
            if Completes(w, steps, id, slot) then Received(w, val, ControlAfter(steps[..|steps| - 1]).main.call)
            else Latest(Zero(w), Linear(w, val, steps[..|steps| - 1]), id, slot)
  {
    var front := steps[..|steps| - 1];
    var e := Effect(w, val, ControlAfter(front), steps[|steps| - 1]);
    assert Linear(w, val, steps) == Linear(w, val, front) + e;
    LatestStep(Zero(w), Linear(w, val, front), e, id, slot);
    EffectStoresIff(w, val, ControlAfter(front), steps[|steps| - 1], id, slot);
  }

  /** A step stores to a slot exactly when it writes the last missing word of a store to it. */
  lemma {:induction false} EffectStoresIff(w: nat, val: seq<Handler>, c: Control, s: Step, id: SockId, slot: Slot)
    ensures var e := Effect(w, val, c, s);
            && (e != [] && StoresTo(e[0], id, slot) <==> CompletedBy(w, c, s, id, slot))
            && (CompletedBy(w, c, s, id, slot) ==> Stored(e[0]) == Some(Store(id, slot, Received(w, val, c.main.call))))
  {}

  lemma {:induction false} CompletedIsFromCall(w: nat, val: seq<Handler>, steps: seq<Step>, id: SockId, slot: Slot)
    requires Legal(w, steps) && Valuation(w, val, steps) && steps != [] && Completes(w, steps, id, slot)
    ensures FromCall(w, val, steps, id, slot, Received(w, val, ControlAfter(steps[..|steps| - 1]).main.call))
  {
    var front := steps[..|steps| - 1];
    ControlShape(w, front);
    var call := ControlAfter(front).main.call;
    assert CalledAt(w, val, steps, id, slot, val[call], call);
  }

  lemma {:induction false} FromCallExtends(w: nat, val: seq<Handler>, steps: seq<Step>, id: SockId, slot: Slot, h: Handler)
    requires Legal(w, steps) && steps != []
    requires FromCall(w, val, steps[..|steps| - 1], id, slot, h)
    ensures FromCall(w, val, steps, id, slot, h)
  {
    var front := steps[..|steps| - 1];
    ControlShape(w, front);
    var j :| 0 <= j < |front| && CalledAt(w, val, front, id, slot, h, j);
    assert CalledAt(w, val, steps, id, slot, h, j);
  }

  lemma LatestStep(zero: Handler, hist: seq<Action>, e: seq<Action>, id: SockId, slot: Slot)
    requires |e| <= 1
    ensures Latest(zero, hist + e, id, slot) ==
            if e != [] && StoresTo(e[0], id, slot) then Stored(e[0]).value.h else Latest(zero, hist, id, slot)
  {
    if e == [] {
      assert hist + e == hist;
    } else {
      assert (hist + e)[..|hist + e| - 1] == hist;
    }
  }

  /** A cell is the linearised handler, overlaid with the words already written by the
      pending call when that call is half way through. */
  ghost predicate CellShape(w: nat, val: seq<Handler>, steps: seq<Step>, id: SockId, slot: Slot) {
    Overlaid(w, val, ControlAfter(steps).main, Cell(w, MemoryAfter(w, val, steps), id, slot),
             Latest(Zero(w), Linear(w, val, steps), id, slot), id, slot)
  }

  ghost predicate Overlaid(w: nat, val: seq<Handler>, main: Main, cell: Handler, base: Handler, id: SockId, slot: Slot) {
    && |cell| == w && |base| == w
    && (HalfStored(w, main, id, slot) ==>
          && |Received(w, val, main.call)| == w
          && forall i :: 0 <= i < w ==> cell[i] == if i in main.written then Received(w, val, main.call)[i] else base[i])
    && (!HalfStored(w, main, id, slot) ==> cell == base)
  }

  lemma {:induction false} CellsHaveShape(w: nat, val: seq<Handler>, steps: seq<Step>, id: SockId, slot: Slot)
    requires Legal(w, steps) && Valuation(w, val, steps)
    ensures CellShape(w, val, steps, id, slot)
    decreases |steps|
  {
    if steps == [] {
    } else {
      var n := |steps| - 1;
      CellsHaveShape(w, val, steps[..n], id, slot);
      if WritesTo(ControlAfter(steps[..n]), steps[n], id, slot) {
        CellAfterWrite(w, val, steps, id, slot);
      } else {
        CellKept(w, val, steps, id, slot);
      }
    }
  }

  /** The step writes a word of a pending store to this slot. */
  predicate WritesTo(c: Control, s: Step, id: SockId, slot: Slot) {
    s.Write? && c.main.Storing? && c.main.id == id && c.main.slot == slot
  }

  lemma {:induction false} CellKept(w: nat, val: seq<Handler>, steps: seq<Step>, id: SockId, slot: Slot)
    requires Legal(w, steps) && steps != [] && CellShape(w, val, steps[..|steps| - 1], id, slot)
    requires !WritesTo(ControlAfter(steps[..|steps| - 1]), steps[|steps| - 1], id, slot)
    ensures CellShape(w, val, steps, id, slot)
  {
    var front := steps[..|steps| - 1];
    LatestAfterStep(w, val, steps, id, slot);
    HalfKept(w, ControlAfter(front), steps[|steps| - 1], |front|, id, slot);
    assert Cell(w, MemoryAfter(w, val, steps), id, slot) == Cell(w, MemoryAfter(w, val, front), id, slot);
  }

  /** Any other step leaves a half-done store to this slot as it is, and starts none. */
  lemma {:induction false} HalfKept(w: nat, c: Control, s: Step, index: nat, id: SockId, slot: Slot)
    requires Enabled(w, c, s) && !WritesTo(c, s, id, slot)
    ensures var main := NextControl(c, s, index).main;
            HalfStored(w, main, id, slot) || HalfStored(w, c.main, id, slot) ==> main == c.main
  {}

  lemma {:induction false} CellAfterWrite(w: nat, val: seq<Handler>, steps: seq<Step>, id: SockId, slot: Slot)
    requires Legal(w, steps) && Valuation(w, val, steps)
    requires steps != [] && WritesTo(ControlAfter(steps[..|steps| - 1]), steps[|steps| - 1], id, slot)
    requires CellShape(w, val, steps[..|steps| - 1], id, slot)
    ensures CellShape(w, val, steps, id, slot)
  {
    var front, s := steps[..|steps| - 1], steps[|steps| - 1];
    var c := ControlAfter(front);
    assert c.main.call < |steps| by { ControlShape(w, front); }
    LatestAfterStep(w, val, steps, id, slot);
    OverlayStep(w, val, c, s, |front|, Cell(w, MemoryAfter(w, val, front), id, slot),
                Latest(Zero(w), Linear(w, val, front), id, slot), id, slot);
  }

  /** The same on the values of one cell. */
  lemma {:induction false} OverlayStep(w: nat, val: seq<Handler>, c: Control, s: Step, index: nat, cell: Handler, base: Handler,
                                       id: SockId, slot: Slot)
    requires Enabled(w, c, s) && WritesTo(c, s, id, slot) && |Received(w, val, c.main.call)| == w
    requires Overlaid(w, val, c.main, cell, base, id, slot)
    ensures var received := Received(w, val, c.main.call);
            Overlaid(w, val, NextControl(c, s, index).main, WriteWord(cell, s.word, received),
                     if CompletedBy(w, c, s, id, slot) then received else base, id, slot)
  {
    assert s.word in c.main.written + {s.word};
    OverlayGrows(w, base, cell, Received(w, val, c.main.call), c.main.written, s.word);
  }

  /** Writing one more word of `received` into an overlay of `base` is again an overlay. */
  lemma OverlayGrows(w: nat, base: Handler, cell: Handler, received: Handler, written: set<nat>, word: nat)
    requires |base| == |cell| == |received| == w && word < w && word !in written
    requires forall i :: 0 <= i < w ==> cell[i] == if written != {} && i in written then received[i] else base[i]
    ensures var after := cell[word := received[word]];
            && (forall i :: 0 <= i < w ==> after[i] == if i in written + {word} then received[i] else base[i])
            && (Full(w, written + {word}) ==> after == received)
  {}

  // ------------------------------------------------------- refinement of the plain model

  function OnSlots(slots: set<Slot>, log: seq<Callback>): seq<Callback>
    decreases |log|
  {
    if log == [] then []
    else
      var n := |log| - 1;
      OnSlots(slots, log[..n]) + if SlotOf(log[n].args) in slots then [log[n]] else []
  }

  lemma OnSlotsAppend(slots: set<Slot>, log: seq<Callback>, more: seq<Callback>)
    requires |more| <= 1
    ensures OnSlots(slots, log + more) == OnSlots(slots, log) + OnSlots(slots, more)
  {
    if more == [] {
      assert log + more == log;
    } else {
      assert (log + more)[..|log|] == log;
      assert more[..0] == [];
    }
  }

  lemma FilterMapAppend(cfg: Config, hist: seq<Action>, e: seq<Action>)
    requires |e| <= 1
    ensures FilterMap(cfg, hist + e) ==
            FilterMap(cfg, hist) + if e == [] then [] else AsSeq(Emission(cfg, hist + e, |hist|))
  {
    if e == [] {
      assert hist + e == hist;
    } else {
      assert (hist + e)[..|hist|] == hist;
    }
  }

  /** One step posts, on slots it does not tear, what the plain model emits for its effect. */
  lemma {:induction false} StepPostsEmission(g: Setting, val: seq<Handler>, slots: set<Slot>, steps: seq<Step>, n: nat)
    requires Legal(g.w, steps) && Valuation(g.w, val, steps) && n == |steps| - 1
    requires !TornAt(g.w, g.kinds, slots, steps, n)
    ensures var hist := Linear(g.w, val, steps[..n]);
            var e := Effect(g.w, val, ControlAfter(steps[..n]), steps[n]);
            OnSlots(slots, Posted(g, MemoryAfter(g.w, val, steps[..n]), steps[n]))
            == OnSlots(slots, if e == [] then [] else AsSeq(Emission(Plain(g), hist + e, |hist|)))
  {
    var hist := Linear(g.w, val, steps[..n]);
    var e := Effect(g.w, val, ControlAfter(steps[..n]), steps[n]);
    assert (hist + e)[..|hist|] == hist;
    match steps[n] {
      case Irq(id, ev) =>
        if id in g.kinds && Target(g.kinds[id], ev).Some? {
          CellsHaveShape(g.w, val, steps[..n], id, SlotOf(Target(g.kinds[id], ev).value));
        }
      case Check(id, err) =>
        CellsHaveShape(g.w, val, steps[..n], id, OnError);
      case _ =>
    }
  }

  /** On these slots the word-level log is the plain log of the linearised history. */
  ghost predicate Refines(g: Setting, val: seq<Handler>, slots: set<Slot>, steps: seq<Step>) {
    OnSlots(slots, LogAfter(g, val, steps)) == OnSlots(slots, FilterMap(Plain(g), Linear(g.w, val, steps)))
  }

  lemma {:induction false} RefinesAtStart(g: Setting, val: seq<Handler>, slots: set<Slot>)
    ensures Refines(g, val, slots, [])
  {}

  /** The inductive step of the refinement. */
  lemma {:induction false} LinearizableStep(g: Setting, val: seq<Handler>, slots: set<Slot>, steps: seq<Step>, n: nat)
    requires Legal(g.w, steps) && Valuation(g.w, val, steps) && n == |steps| - 1
    requires !TornAt(g.w, g.kinds, slots, steps, n)
    requires Refines(g, val, slots, steps[..n])
    ensures Refines(g, val, slots, steps)
  {
    var hist := Linear(g.w, val, steps[..n]);
    var e := Effect(g.w, val, ControlAfter(steps[..n]), steps[n]);
    var before, plain := LogAfter(g, val, steps[..n]), FilterMap(Plain(g), hist);
    var posted := Posted(g, MemoryAfter(g.w, val, steps[..n]), steps[n]);
    var emitted := if e == [] then [] else AsSeq(Emission(Plain(g), hist + e, |hist|));
    assert LogAfter(g, val, steps) == before + posted;
    assert Linear(g.w, val, steps) == hist + e;
    calc {
      OnSlots(slots, LogAfter(g, val, steps));
    == { OnSlotsAppend(slots, before, posted); }
      OnSlots(slots, before) + OnSlots(slots, posted);
    == { StepPostsEmission(g, val, slots, steps, n); }
      OnSlots(slots, plain) + OnSlots(slots, emitted);
    == { OnSlotsAppend(slots, plain, emitted); }
      OnSlots(slots, plain + emitted);
    == { FilterMapAppend(Plain(g), hist, e); }
      OnSlots(slots, FilterMap(Plain(g), Linear(g.w, val, steps)));
    }
  }

  /** Refinement: on any set of slots that no event tears, the word-level log is the log the
      plain model posts for the linearised history. */
  lemma {:induction false} Linearizable(g: Setting, val: seq<Handler>, slots: set<Slot>, steps: seq<Step>)
    requires Legal(g.w, steps) && Valuation(g.w, val, steps)
    requires NeverTorn(g.w, g.kinds, slots, steps)
    ensures Refines(g, val, slots, steps)
    decreases |steps|
  {
    if steps == [] {
      RefinesAtStart(g, val, slots);
    } else {
      NeverTornPrefix(g.w, g.kinds, slots, steps);
      Linearizable(g, val, slots, steps[..|steps| - 1]);
      LinearizableStep(g, val, slots, steps, |steps| - 1);
    }
  }

  /** Error, readable and sent callbacks refine the plain model under every interleaving. */
  lemma {:induction false} MaskedLogIsPlainLog(g: Setting, val: seq<Handler>, steps: seq<Step>)
    requires Legal(g.w, steps) && Valuation(g.w, val, steps)
    ensures OnSlots(MASKED_SLOTS, LogAfter(g, val, steps))
            == OnSlots(MASKED_SLOTS, Run(Plain(g), Linear(g.w, val, steps)).log)
  {
    MaskedNeverTorn(g.w, g.kinds, steps);
    Linearizable(g, val, MASKED_SLOTS, steps);
    LogIsFilterMap(Plain(g), Linear(g.w, val, steps));
  }

  lemma {:induction false} AllSlotsIsIdentity(log: seq<Callback>)
    ensures OnSlots(ALL_SLOTS, log) == log
    decreases |log|
  {
    if log == [] {
    } else {
      AllSlotsIsIdentity(log[..|log| - 1]);
    }
  }

  /** If in addition no event reads a half-stored unmasked handler, the whole log is the plain one. */
  lemma {:induction false} WholeLogIsPlainLog(g: Setting, val: seq<Handler>, steps: seq<Step>)
    requires Legal(g.w, steps) && Valuation(g.w, val, steps)
    requires NeverTorn(g.w, g.kinds, ALL_SLOTS - MASKED_SLOTS, steps)
    ensures LogAfter(g, val, steps) == Run(Plain(g), Linear(g.w, val, steps)).log
  {
    UnmaskedSuffices(g.w, g.kinds, steps);
    Linearizable(g, val, ALL_SLOTS, steps);
    AllSlotsIsIdentity(LogAfter(g, val, steps));
    AllSlotsIsIdentity(FilterMap(Plain(g), Linear(g.w, val, steps)));
    LogIsFilterMap(Plain(g), Linear(g.w, val, steps));
  }

  // -------------------------------------------------------------- no mixed handlers

  /** The callback is bound to all the words of one handler stored for it (or to NULL). */
  ghost predicate Whole(w: nat, val: seq<Handler>, steps: seq<Step>, cb: Callback) {
    || cb.handler == Zero(w)
    || exists j :: 0 <= j < |steps| && j < |val| && steps[j] == Begin(cb.sock, SlotOf(cb.args)) && cb.handler == val[j]
  }

  ghost predicate AllWhole(g: Setting, val: seq<Handler>, slots: set<Slot>, steps: seq<Step>) {
    forall k :: 0 <= k < |LogAfter(g, val, steps)| && SlotOf(LogAfter(g, val, steps)[k].args) in slots
                ==> Whole(g.w, val, steps, LogAfter(g, val, steps)[k])
  }

  lemma WholeExtends(w: nat, val: seq<Handler>, front: seq<Step>, steps: seq<Step>, cb: Callback)
    requires front <= steps && Whole(w, val, front, cb)
    ensures Whole(w, val, steps, cb)
  {
    if cb.handler != Zero(w) {
      var j :| 0 <= j < |front| && j < |val| && front[j] == Begin(cb.sock, SlotOf(cb.args)) && cb.handler == val[j];
      assert steps[j] == Begin(cb.sock, SlotOf(cb.args));
    }
  }

  lemma {:induction false} UntornIsWhole(g: Setting, val: seq<Handler>, slots: set<Slot>, steps: seq<Step>)
    requires Legal(g.w, steps) && Valuation(g.w, val, steps)
    requires NeverTorn(g.w, g.kinds, slots, steps)
    ensures AllWhole(g, val, slots, steps)
    decreases |steps|
  {
    if steps == [] {
    } else {
      var n := |steps| - 1;
      var front := steps[..n];
      NeverTornPrefix(g.w, g.kinds, slots, steps);
      UntornIsWhole(g, val, slots, front);
      var before := LogAfter(g, val, front);
      var log := LogAfter(g, val, steps);
      forall k | 0 <= k < |log| && SlotOf(log[k].args) in slots
        ensures Whole(g.w, val, steps, log[k])
      {
        if k < |before| {
          assert log[k] == before[k];
          WholeExtends(g.w, val, front, steps, log[k]);
        } else {
          assert log[k] == Posted(g, MemoryAfter(g.w, val, front), steps[n])[k - |before|];
          NewestIsWhole(g, val, slots, steps, n, log[k]);
        }
      }
    }
  }

  lemma {:induction false} NewestIsWhole(g: Setting, val: seq<Handler>, slots: set<Slot>, steps: seq<Step>, n: nat, cb: Callback)
    requires Legal(g.w, steps) && Valuation(g.w, val, steps) && n == |steps| - 1
    requires !TornAt(g.w, g.kinds, slots, steps, n)
    requires Posted(g, MemoryAfter(g.w, val, steps[..n]), steps[n]) == [cb] && SlotOf(cb.args) in slots
    ensures Whole(g.w, val, steps, cb)
  {
    var front := steps[..n];
    CellsHaveShape(g.w, val, front, cb.sock, SlotOf(cb.args));
    LatestIsReceived(g.w, val, front, cb.sock, SlotOf(cb.args));
    assert cb.handler == Latest(Zero(g.w), Linear(g.w, val, front), cb.sock, SlotOf(cb.args));
    if cb.handler != Zero(g.w) {
      var j :| 0 <= j < |front| && CalledAt(g.w, val, front, cb.sock, SlotOf(cb.args), cb.handler, j);
      assert steps[j] == Begin(cb.sock, SlotOf(cb.args));
    }
  }

  /** Error, readable and sent callbacks are bound to whole handlers under every interleaving. */
  lemma {:induction false} MaskedCallbacksAreWhole(g: Setting, val: seq<Handler>, steps: seq<Step>)
    requires Legal(g.w, steps) && Valuation(g.w, val, steps)
    ensures AllWhole(g, val, MASKED_SLOTS, steps)
  {
    MaskedNeverTorn(g.w, g.kinds, steps);
    UntornIsWhole(g, val, MASKED_SLOTS, steps);
  }

  // ----------------------------------------------------- a half-stored handler is seen

  /** Distinct uniform handlers: the call at step j receives the word j + 1 throughout. */
  function Marks(w: nat, n: nat): seq<Handler> {
    seq(n, j => seq(w, _ => j + 1))
  }

  ghost function NonNull(w: nat): iset<Handler> {
    iset h: Handler | !IsNull(w, h)
  }

  predicate IsNull(w: nat, h: Handler) {
    h == Zero(w)
  }

  lemma {:induction false} LogGrows(g: Setting, val: seq<Handler>, steps: seq<Step>, i: nat)
    requires i <= |steps|
    ensures LogAfter(g, val, steps[..i]) <= LogAfter(g, val, steps)
    decreases |steps|
  {
    if i == |steps| {
      assert steps[..i] == steps;
    } else {
      var front := steps[..|steps| - 1];
      LogGrows(g, val, front, i);
      assert front[..i] == steps[..i];
    }
  }

  /** With distinct marks, the words an event reads from a half-stored handler are no call's. */
  lemma {:induction false} TornCellIsMixed(w: nat, steps: seq<Step>, n: nat, id: SockId, slot: Slot, val: seq<Handler>)
    requires Legal(w, steps) && |steps| <= n && val == Marks(w, n)
    requires HalfStored(w, ControlAfter(steps).main, id, slot)
    ensures var cell := Cell(w, MemoryAfter(w, val, steps), id, slot);
            cell != Zero(w) && forall j :: 0 <= j < n ==> cell != val[j]
  {
    assert Valuation(w, val, steps);
    var main := ControlAfter(steps).main;
    var cell := Cell(w, MemoryAfter(w, val, steps), id, slot);
    CellsHaveShape(w, val, steps, id, slot);
    ControlShape(w, steps);
    LatestIsReceived(w, val, steps, id, slot);
    var base := Latest(Zero(w), Linear(w, val, steps), id, slot);
    var a :| a in main.written;
    assert cell[a] == main.call + 1;
    var b :| 0 <= b < w && b !in main.written;
    assert cell[b] == base[b];
    assert base[b] != main.call + 1;
    forall j | 0 <= j < n
      ensures cell != val[j]
    {
      assert val[j][a] == j + 1 && val[j][b] == j + 1;
    }
  }

  lemma {:induction false} TornIsSeen(w: nat, kinds: map<SockId, Kind>, slots: set<Slot>, steps: seq<Step>, i: nat)
    requires Legal(w, steps) && i < |steps| && TornAt(w, kinds, slots, steps, i)
    ensures var g := Setting(w, NonNull(w), kinds);
            Valuation(w, Marks(w, |steps|), steps) && !AllWhole(g, Marks(w, |steps|), slots, steps)
  {
    var g := Setting(w, NonNull(w), kinds);
    var val := Marks(w, |steps|);
    var front := steps[..i];
    LegalPrefix(w, steps, i);
    var args := Target(kinds[steps[i].id], steps[i].ev).value;
    TornCellIsMixed(w, front, |steps|, steps[i].id, SlotOf(args), val);
    var cb := Callback(steps[i].id, Cell(w, MemoryAfter(w, val, front), steps[i].id, SlotOf(args)), args);
    assert steps[..i + 1][..i] == front;
    assert LogAfter(g, val, steps[..i + 1]) == LogAfter(g, val, front) + [cb];
    LogGrows(g, val, steps, i + 1);
    var k := |LogAfter(g, val, front)|;
    assert LogAfter(g, val, steps)[k] == cb;
    assert !Whole(w, val, steps, cb);
  }

  /** Exactly the schedules in which no event reads a half-stored handler bind whole handlers
      for every choice of handler values and every truth test that rejects NULL. */
  lemma {:induction false} WholeForEveryHandlerIff(w: nat, kinds: map<SockId, Kind>, steps: seq<Step>)
    requires Legal(w, steps)
    ensures (forall val: seq<Handler>, truthy: iset<Handler> ::
               Valuation(w, val, steps) && Zero(w) !in truthy
               ==> AllWhole(Setting(w, truthy, kinds), val, ALL_SLOTS, steps))
            <==> NeverTorn(w, kinds, ALL_SLOTS - MASKED_SLOTS, steps)
  {
    if NeverTorn(w, kinds, ALL_SLOTS - MASKED_SLOTS, steps) {
      UnmaskedSuffices(w, kinds, steps);
      forall val: seq<Handler>, truthy: iset<Handler> | Valuation(w, val, steps) && Zero(w) !in truthy
        ensures AllWhole(Setting(w, truthy, kinds), val, ALL_SLOTS, steps)
      {
        UntornIsWhole(Setting(w, truthy, kinds), val, ALL_SLOTS, steps);
      }
    } else {
      var i :| 0 <= i < |steps| && TornAt(w, kinds, ALL_SLOTS - MASKED_SLOTS, steps, i);
      assert TornAt(w, kinds, ALL_SLOTS, steps, i);
      TornIsSeen(w, kinds, ALL_SLOTS, steps, i);
    }
  }

  /** A concrete bad schedule: the DNS answer to a first resolve arrives while a second resolve
      has stored one of two words. */
  function TearingSchedule(): seq<Step> {
    [Begin(0, OnDns), Write(0), Write(1), End, Begin(0, OnDns), Write(0), Irq(0, DnsAnswer(7, "host"))]
  }

  lemma OneOfTwo(written: set<nat>)
    requires written == {0}
    ensures !Full(2, written)
  {
    assert 1 !in written;
  }

  lemma {:induction false} TearingControl()
    ensures ControlAfter(TearingSchedule()[..2]).main == Storing(0, OnDns, 0, {0})
    ensures ControlAfter(TearingSchedule()[..5]).main == Storing(0, OnDns, 4, {})
    ensures Legal(2, TearingSchedule()[..6])
    ensures ControlAfter(TearingSchedule()[..6]) == Control(Storing(0, OnDns, 4, {0}), true)
  {
    var steps := TearingSchedule();
    var s1, s2, s3, s4, s5, s6 := steps[..1], steps[..2], steps[..3], steps[..4], steps[..5], steps[..6];
    assert s6[..5] == s5 && s5[..4] == s4 && s4[..3] == s3 && s3[..2] == s2 && s2[..1] == s1;
    assert Legal(2, s1[..0]) && ControlAfter(s1[..0]) == Control(Idle, true);
    assert ControlAfter(s1) == Control(Storing(0, OnDns, 0, {}), true) && Legal(2, s1);
    assert {} + {0} == {0};
    assert ControlAfter(s2) == Control(Storing(0, OnDns, 0, {0}), true) && Legal(2, s2);
    assert {0} + {1} == {0, 1};
    assert ControlAfter(s3) == Control(Storing(0, OnDns, 0, {0, 1}), true) && Legal(2, s3);
    assert ControlAfter(s4) == Control(Idle, true) && Legal(2, s4);
    assert ControlAfter(s5) == Control(Storing(0, OnDns, 4, {}), true) && Legal(2, s5);
  }

  /** The schedule is legal, and with the handlers [1, 1] and [5, 5] the posted callback is bound to
      words of both: a handler nobody registered. */
  lemma {:induction false} SecondResolveCanTear()
    ensures Legal(2, TearingSchedule()) && TornAt(2, map[0 := Udp], ALL_SLOTS - MASKED_SLOTS, TearingSchedule(), 6)
    ensures LogAfter(Setting(2, NonNull(2), map[0 := Udp]), Marks(2, 7), TearingSchedule())
            == [Callback(0, [5, 1], DnsArgs(7, "host"))]
  {
    var steps, val := TearingSchedule(), Marks(2, 7);
    var g := Setting(2, NonNull(2), map[0 := Udp]);
    TearingControl();
    OneOfTwo({0});
    TearingMemory();
    QuietLog(g, val, steps[..6]);
    assert [5, 1][0] == 5 && Zero(2)[0] == 0;
  }

  lemma {:induction false} TearingMemory()
    ensures Cell(2, MemoryAfter(2, Marks(2, 7), TearingSchedule()[..6]), 0, OnDns) == [5, 1]
  {
    var steps, val := TearingSchedule()[..6], Marks(2, 7);
    TearingControl();
    CellsHaveShape(2, val, steps, 0, OnDns);
    var cell := Cell(2, MemoryAfter(2, val, steps), 0, OnDns);
    TearingBase();
    OneOfTwo({0});
    assert cell[0] == 5 && cell[1] == 1;
  }

  /** The third step completes the first resolve. */
  lemma {:induction false} TearingFirstStore()
    ensures Latest(Zero(2), Linear(2, Marks(2, 7), TearingSchedule()[..3]), 0, OnDns) == [1, 1]
  {
    var s3, val := TearingSchedule()[..3], Marks(2, 7);
    TearingControl();
    assert s3[..2] == TearingSchedule()[..2];
    assert Full(2, {0} + {1});
    LatestAfterStep(2, val, s3, 0, OnDns);
    assert val[0] == [1, 1];
  }

  lemma {:induction false} LatestKept(w: nat, val: seq<Handler>, steps: seq<Step>, id: SockId, slot: Slot)
    requires steps != [] && !Completes(w, steps, id, slot)
    ensures Latest(Zero(w), Linear(w, val, steps), id, slot) == Latest(Zero(w), Linear(w, val, steps[..|steps| - 1]), id, slot)
  {
    LatestAfterStep(w, val, steps, id, slot);
  }

  /** Nothing later does, so its handler is still the linearised one. */
  lemma {:induction false} TearingBase()
    ensures Latest(Zero(2), Linear(2, Marks(2, 7), TearingSchedule()[..6]), 0, OnDns) == [1, 1]
  {
    var steps, val := TearingSchedule(), Marks(2, 7);
    var s5, s6 := steps[..5], steps[..6];
    assert s6[..5] == s5;
    TearingSecondBegins();
    assert !Completes(2, s6, 0, OnDns) by { TearingControl(); OneOfTwo({} + {0}); }
    LatestKept(2, val, s6, 0, OnDns);
  }

  lemma {:induction false} TearingSecondBegins()
    ensures Latest(Zero(2), Linear(2, Marks(2, 7), TearingSchedule()[..5]), 0, OnDns) == [1, 1]
  {
    var steps, val := TearingSchedule(), Marks(2, 7);
    var s3, s4, s5 := steps[..3], steps[..4], steps[..5];
    assert s5[..4] == s4 && s4[..3] == s3;
    TearingFirstStore();
    LatestKept(2, val, s4, 0, OnDns);
    LatestKept(2, val, s5, 0, OnDns);
  }

  /** Stores post nothing. */
  lemma {:induction false} QuietLog(g: Setting, val: seq<Handler>, steps: seq<Step>)
    requires forall i :: 0 <= i < |steps| ==> !steps[i].Irq? && !steps[i].Check?
    ensures LogAfter(g, val, steps) == []
    decreases |steps|
  {
    if steps == [] {
    } else {
      QuietLog(g, val, steps[..|steps| - 1]);
    }
  }
}
