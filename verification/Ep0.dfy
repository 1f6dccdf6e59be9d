/** Serialisation of control-endpoint register accesses: a busy flag with sleep and wakeup, under
    a mutex that the USB stack drops during every transfer. Any number of threads. */
module Ep0 {
  import opened Bytes

  const SEAL_ADDR := 0x04E0

  predicate InOnSection(addr: nat) {
    addr <= 0x00FF || 0x1000 <= addr <= 0x10FF
  }

  datatype Op = Op(addr: nat, write: bool, data: seq<byte>)

  /** Where a thread stands. Asleep: in msleep. Woken: must take the mutex and look again.
      Accessing, Sealing: its transfer is in progress and the mutex is free. */
  datatype Pc = Out | Asleep(op: Op) | Woken(op: Op) | Accessing(op: Op) | Sealing(op: Op)

  datatype Xfer =
    | Start(tid: nat, op: Op)
    | Done(tid: nat, ok: bool, first: byte)
    | SealStart(tid: nat, addr: nat, value: byte)
    | SealDone(tid: nat, ok: bool)

  datatype State = State(busy: bool, pcs: seq<Pc>, log: seq<Xfer>)

  function Init(threads: nat): State {
    State(false, seq(threads, _ => Out), [])
  }

  datatype Event =
    | Enter(tid: nat, op: Op)
    | Recheck(tid: nat)
    | Complete(tid: nat, ok: bool, first: byte, wake: nat)
    | SealComplete(tid: nat, ok: bool, wake: nat)
    | Spurious(tid: nat)

  /** A write carries data, and this is its first byte; a read may bring any. */
  predicate FirstOf(op: Op, first: byte) {
    op.write ==> op.data != [] && first == op.data[0]
  }

  predicate Sleeper(s: State, t: nat) {
    t < |s.pcs| && s.pcs[t].Asleep?
  }

  /** wakeup_one wakes one sleeper, whichever it likes, if there is any. */
  predicate WakeChoice(s: State, wake: nat) {
    Sleeper(s, wake) || forall t :: 0 <= t < |s.pcs| ==> !s.pcs[t].Asleep?
  }

  predicate Enabled(s: State, e: Event) {
    && e.tid < |s.pcs|
    && match e
       case Enter(t, op) => s.pcs[t].Out?
       case Recheck(t) => s.pcs[t].Woken?
       case Complete(t, ok, first, wake) =>
         s.pcs[t].Accessing? && WakeChoice(s, wake)
         && FirstOf(s.pcs[t].op, first)
       case SealComplete(t, ok, wake) => s.pcs[t].Sealing? && WakeChoice(s, wake)
       case Spurious(t) => s.pcs[t].Asleep?
  }

  /** One pass of the loop of rtw88_usb_io_enter, and the start of the access if it gets through. */
  function TryEnter(s: State, t: nat, op: Op): State
    requires t < |s.pcs|
  {
    if s.busy then s.(pcs := s.pcs[t := Asleep(op)])
    else State(true, s.pcs[t := Accessing(op)], s.log + [Start(t, op)])
  }

  function Wake(pcs: seq<Pc>, wake: nat): seq<Pc> {
    if wake < |pcs| && pcs[wake].Asleep? then pcs[wake := Woken(pcs[wake].op)] else pcs
  }

  /** rtw88_usb_io_exit */
  function Exit(s: State, t: nat, wake: nat): State
    requires t < |s.pcs|
  {
    s.(busy := false, pcs := Wake(s.pcs[t := Out], wake))
  }

  function Step(s: State, e: Event): State
    requires Enabled(s, e)
  {
    match e
    case Enter(t, op) => TryEnter(s, t, op)
    case Recheck(t) => TryEnter(s, t, s.pcs[t].op)
    case Complete(t, ok, first, wake) =>
      var op := s.pcs[t].op;
      var u := s.(log := s.log + [Done(t, ok, first)]);
      if ok && InOnSection(op.addr) then
        u.(pcs := s.pcs[t := Sealing(op)], log := u.log + [SealStart(t, SEAL_ADDR, first)])
      else Exit(u, t, wake)
    case SealComplete(t, ok, wake) => Exit(s.(log := s.log + [SealDone(t, ok)]), t, wake)
    case Spurious(t) => s.(pcs := s.pcs[t := Woken(s.pcs[t].op)])
  }

  function Run(s: State, es: seq<Event>): State
    decreases es
  {
    if es == [] then s else Run(if Enabled(s, es[0]) then Step(s, es[0]) else s, es[1..])
  }

  // ---- the log is a sequence of groups ----

  /** One register access: the transfer and, exactly when it succeeded in the on-section (pages 0 and 0x10),
      the seal write of its first data byte to 0x4E0. */
  datatype Group = Group(tid: nat, op: Op, ok: bool, first: byte, sealOk: bool)

  function Xfers(g: Group): seq<Xfer> {
    [Start(g.tid, g.op), Done(g.tid, g.ok, g.first)]
    + if g.ok && (g.op.addr < 0x100 || g.op.addr / 0x100 == 0x10)
      then [SealStart(g.tid, 0x4E0, g.first), SealDone(g.tid, g.sealOk)] else []
  }

  function Flat(gs: seq<Group>): seq<Xfer> {
    if gs == [] then [] else Flat(gs[..|gs| - 1]) + Xfers(gs[|gs| - 1])
  }

  /** The beginning of a group that its thread has not finished. */
  function Partial(t: nat, pc: Pc, first: byte): seq<Xfer> {
    match pc
    case Accessing(op) => [Start(t, op)]
    case Sealing(op) => [Start(t, op), Done(t, true, first), SealStart(t, SEAL_ADDR, first)]
    case _ => []
  }

  predicate Inside(pc: Pc) {
    pc.Accessing? || pc.Sealing?
  }

  /** The flag is set exactly while one thread is inside, and the log is whole groups followed by the
      beginning of that thread's group; the byte that seals a write is the first it wrote. */
  ghost predicate Serial(s: State, gs: seq<Group>, owner: nat, first: byte) {
    && (forall g :: g in gs ==> FirstOf(g.op, g.first))
    && if s.busy then
         && owner < |s.pcs| && Inside(s.pcs[owner])
         && (forall t :: 0 <= t < |s.pcs| && Inside(s.pcs[t]) ==> t == owner)
         && (s.pcs[owner].Sealing? ==> InOnSection(s.pcs[owner].op.addr) && FirstOf(s.pcs[owner].op, first))
         && s.log == Flat(gs) + Partial(owner, s.pcs[owner], first)
       else
         && (forall t :: 0 <= t < |s.pcs| ==> !Inside(s.pcs[t]))
         && s.log == Flat(gs)
  }

  lemma FlatLast(gs: seq<Group>, g: Group)
    ensures Flat(gs + [g]) == Flat(gs) + Xfers(g)
  {
    assert (gs + [g])[..|gs|] == gs;
  }

  lemma TryEnterSerial(s: State, t: nat, op: Op, gs: seq<Group>, owner: nat, first: byte)
    requires Serial(s, gs, owner, first) && t < |s.pcs| && !Inside(s.pcs[t])
    ensures Serial(TryEnter(s, t, op), gs, if s.busy then owner else t, first)
  {
  }

  lemma WakeInside(pcs: seq<Pc>, wake: nat)
    ensures var w := Wake(pcs, wake);
            |w| == |pcs| && forall t :: 0 <= t < |pcs| ==> Inside(w[t]) == Inside(pcs[t])
  {
  }

  /** Leaving completes the owner's group. */
  lemma ExitSerial(s: State, t: nat, wake: nat, gs: seq<Group>, g: Group)
    requires t < |s.pcs| && forall u :: 0 <= u < |s.pcs| && Inside(s.pcs[u]) ==> u == t
    requires s.log == Flat(gs) + Xfers(g)
    requires FirstOf(g.op, g.first) && forall h :: h in gs ==> FirstOf(h.op, h.first)
    ensures Serial(Exit(s, t, wake), gs + [g], t, 0)
  {
    FlatLast(gs, g);
    WakeInside(s.pcs[t := Out], wake);
  }

  lemma CompleteSerial(s: State, e: Event, gs: seq<Group>, owner: nat, first: byte)
    returns (gs': seq<Group>)
    requires Serial(s, gs, owner, first) && Enabled(s, e) && e.Complete?
    ensures Serial(Step(s, e), gs', owner, if Step(s, e).busy then e.first else 0)
  {
    var op := s.pcs[e.tid].op;
    assert e.tid == owner && s.busy;
    gs' := gs;
    if !(e.ok && InOnSection(op.addr)) {
      var g := Group(e.tid, op, e.ok, e.first, true);
      ExitSerial(s.(log := s.log + [Done(e.tid, e.ok, e.first)]), e.tid, e.wake, gs, g);
      gs' := gs + [g];
    }
  }

  lemma SealSerial(s: State, e: Event, gs: seq<Group>, owner: nat, first: byte)
    returns (gs': seq<Group>)
    requires Serial(s, gs, owner, first) && Enabled(s, e) && e.SealComplete?
    ensures Serial(Step(s, e), gs', owner, 0)
  {
    assert e.tid == owner && s.busy;
    var g := Group(e.tid, s.pcs[e.tid].op, true, first, e.ok);
    ExitSerial(s.(log := s.log + [SealDone(e.tid, e.ok)]), e.tid, e.wake, gs, g);
    gs' := gs + [g];
  }

  lemma StepSerial(s: State, e: Event, gs: seq<Group>, owner: nat, first: byte)
    returns (gs': seq<Group>, owner': nat, first': byte)
    requires Serial(s, gs, owner, first) && Enabled(s, e)
    ensures Serial(Step(s, e), gs', owner', first')
  {
    gs', owner', first' := gs, owner, first;
    if e.Enter? {
      TryEnterSerial(s, e.tid, e.op, gs, owner, first);
      owner' := if s.busy then owner else e.tid;
    } else if e.Recheck? {
      TryEnterSerial(s, e.tid, s.pcs[e.tid].op, gs, owner, first);
      owner' := if s.busy then owner else e.tid;
    } else if e.Complete? {
      gs' := CompleteSerial(s, e, gs, owner, first);
      first' := if Step(s, e).busy then e.first else 0;
    } else if e.SealComplete? {
      gs' := SealSerial(s, e, gs, owner, first);
      first' := 0;
    }
  }

  lemma {:induction false} RunSerial(s: State, es: seq<Event>, gs: seq<Group>, owner: nat, first: byte)
    returns (gs': seq<Group>, owner': nat, first': byte)
    requires Serial(s, gs, owner, first)
    ensures Serial(Run(s, es), gs', owner', first')
    decreases es
  {
    gs', owner', first' := gs, owner, first;
    if es != [] {
      if Enabled(s, es[0]) {
        gs', owner', first' := StepSerial(s, es[0], gs, owner, first);
        gs', owner', first' := RunSerial(Step(s, es[0]), es[1..], gs', owner', first');
      } else {
        gs', owner', first' := RunSerial(s, es[1..], gs, owner, first);
      }
    }
  }

  /** For any number of threads and any run, register accesses never overlap: the transfer log is
      whole access-and-seal groups, then at most the beginning of one by the thread that holds
      the flag; every write is sealed with its own first byte. */
  lemma AccessesAreSerial(threads: nat, es: seq<Event>)
    ensures exists gs, owner, first :: Serial(Run(Init(threads), es), gs, owner, first)
  {
    var gs, owner, first := RunSerial(Init(threads), es, [], 0, 0);
  }

  // ---- no lost wakeup, no deadlock ----

  ghost predicate NoLostWakeup(s: State) {
    (exists t :: 0 <= t < |s.pcs| && s.pcs[t].Asleep?) ==>
      s.busy || exists t :: 0 <= t < |s.pcs| && s.pcs[t].Woken?
  }

  lemma ExitWakeup(s: State, t: nat, wake: nat)
    requires t < |s.pcs| && !s.pcs[t].Asleep? && WakeChoice(s, wake)
    ensures NoLostWakeup(Exit(s, t, wake))
  {
    var u := Exit(s, t, wake);
    if Sleeper(s, wake) {
      assert u.pcs[wake].Woken?;
    } else {
      assert forall v :: 0 <= v < |s.pcs| ==> !u.pcs[v].Asleep?;
    }
  }

  lemma StepWakeup(s: State, e: Event)
    requires NoLostWakeup(s) && Enabled(s, e)
    ensures NoLostWakeup(Step(s, e))
  {
    var u := Step(s, e);
    match e
    case Enter(t, op) =>
    case Recheck(t) =>
    case Complete(t, ok, b, wake) =>
      if ok && InOnSection(s.pcs[t].op.addr) {
        assert forall v :: 0 <= v < |s.pcs| && v != t ==> u.pcs[v] == s.pcs[v];
      } else {
        ExitWakeup(s.(log := u.log), t, wake);
      }
    case SealComplete(t, ok, wake) => ExitWakeup(s.(log := u.log), t, wake);
    case Spurious(t) =>
      assert u.pcs[t].Woken?;
  }

  /** In every reachable state a sleeping thread is owed a wakeup: the flag is set, or a woken
      thread has yet to look at it again. */
  lemma {:induction false} RunWakeup(s: State, es: seq<Event>)
    requires NoLostWakeup(s)
    ensures NoLostWakeup(Run(s, es))
    decreases es
  {
    if es != [] {
      if Enabled(s, es[0]) {
        StepWakeup(s, es[0]);
        RunWakeup(Step(s, es[0]), es[1..]);
      } else {
        RunWakeup(s, es[1..]);
      }
    }
  }

  // ---- every thread inside can get out ----

  function Weight(pc: Pc): nat {
    match pc
    case Out => 0
    case Sealing(_) => 1
    case Accessing(_) => 2
    case Woken(_) => 3
    case Asleep(_) => 4
  }

  function Work(pcs: seq<Pc>): nat {
    if pcs == [] then 0 else Weight(pcs[0]) + Work(pcs[1..])
  }

  lemma {:induction false} WorkUpdate(pcs: seq<Pc>, t: nat, pc: Pc)
    requires t < |pcs|
    ensures Work(pcs[t := pc]) == Work(pcs) - Weight(pcs[t]) + Weight(pc)
  {
    if t > 0 {
      assert pcs[t := pc][1..] == pcs[1..][t - 1 := pc];
      WorkUpdate(pcs[1..], t - 1, pc);
    } else {
      assert pcs[t := pc][1..] == pcs[1..];
    }
  }

  lemma WakeWork(pcs: seq<Pc>, wake: nat)
    ensures Work(Wake(pcs, wake)) <= Work(pcs)
  {
    if wake < |pcs| && pcs[wake].Asleep? {
      WorkUpdate(pcs, wake, Woken(pcs[wake].op));
    }
  }

  lemma ExitWork(s: State, t: nat, wake: nat)
    requires t < |s.pcs|
    ensures Work(Exit(s, t, wake).pcs) <= Work(s.pcs) - Weight(s.pcs[t])
  {
    WorkUpdate(s.pcs, t, Out);
    WakeWork(s.pcs[t := Out], wake);
  }

  lemma SomeSleeper(s: State) returns (wake: nat)
    ensures WakeChoice(s, wake)
  {
    wake := 0;
    if exists t :: 0 <= t < |s.pcs| && s.pcs[t].Asleep? {
      wake :| 0 <= wake < |s.pcs| && s.pcs[wake].Asleep?;
    }
  }

  /** Some step other than a spurious wakeup or a new access is possible, and it brings the
      threads closer to being done. */
  lemma Progress(s: State, gs: seq<Group>, owner: nat, first: byte) returns (e: Event)
    requires Serial(s, gs, owner, first) && NoLostWakeup(s)
    requires exists t :: 0 <= t < |s.pcs| && !s.pcs[t].Out?
    requires forall t :: 0 <= t < |s.pcs| && s.pcs[t].Accessing? && s.pcs[t].op.write ==> s.pcs[t].op.data != []
    ensures Enabled(s, e) && !e.Enter? && !e.Spurious?
    ensures Work(Step(s, e).pcs) < Work(s.pcs)
  {
    if s.busy {
      var wake := SomeSleeper(s);
      var op := s.pcs[owner].op;
      if s.pcs[owner].Sealing? {
        e := SealComplete(owner, true, wake);
        ExitWork(s.(log := s.log + [SealDone(owner, true)]), owner, wake);
      } else {
        var b := if op.write then op.data[0] else 0;
        e := Complete(owner, true, b, wake);
        WorkUpdate(s.pcs, owner, Sealing(op));
        ExitWork(s.(log := s.log + [Done(owner, true, b)]), owner, wake);
      }
    } else {
      var t :| 0 <= t < |s.pcs| && !s.pcs[t].Out?;
      var w :| 0 <= w < |s.pcs| && s.pcs[w].Woken?;
      e := Recheck(w);
      WorkUpdate(s.pcs, w, Accessing(s.pcs[w].op));
    }
  }

  ghost predicate Nonempty(s: State) {
    forall t :: 0 <= t < |s.pcs| && !s.pcs[t].Out? && s.pcs[t].op.write ==> s.pcs[t].op.data != []
  }

  lemma NonemptyStep(s: State, e: Event)
    requires Nonempty(s) && Enabled(s, e) && !e.Enter?
    ensures Nonempty(Step(s, e))
  {
  }

  /** From every reachable state in which writes carry data, the accesses under way can all be
      finished: there is no deadlock, and no thread sleeps for ever for want of a wakeup. */
  lemma {:induction false} CanDrain(s: State, gs: seq<Group>, owner: nat, first: byte) returns (es: seq<Event>)
    requires Serial(s, gs, owner, first) && NoLostWakeup(s) && Nonempty(s)
    ensures forall e :: e in es ==> !e.Enter? && !e.Spurious?
    ensures forall t :: 0 <= t < |Run(s, es).pcs| ==> Run(s, es).pcs[t].Out?
    decreases Work(s.pcs)
  {
    es := [];
    if exists t :: 0 <= t < |s.pcs| && !s.pcs[t].Out? {
      var e := Progress(s, gs, owner, first);
      var gs', owner', first' := StepSerial(s, e, gs, owner, first);
      StepWakeup(s, e);
      NonemptyStep(s, e);
      var rest := CanDrain(Step(s, e), gs', owner', first');
      es := [e] + rest;
      assert es[1..] == rest;
    }
  }

  lemma {:induction false} RunNonempty(s: State, es: seq<Event>)
    requires Nonempty(s) && forall e :: e in es && e.Enter? && e.op.write ==> e.op.data != []
    ensures Nonempty(Run(s, es))
    decreases es
  {
    if es != [] {
      assert es[0] in es;
      RunNonempty(if Enabled(s, es[0]) then Step(s, es[0]) else s, es[1..]);
    }
  }

  lemma EveryRunCanDrain(threads: nat, es: seq<Event>) returns (rest: seq<Event>)
    requires forall e :: e in es && e.Enter? && e.op.write ==> e.op.data != []
    ensures forall e :: e in rest ==> !e.Enter? && !e.Spurious?
    ensures var s := Run(Run(Init(threads), es), rest); forall t :: 0 <= t < |s.pcs| ==> s.pcs[t].Out?
  {
    var gs, owner, first := RunSerial(Init(threads), es, [], 0, 0);
    RunWakeup(Init(threads), es);
    RunNonempty(Init(threads), es);
    rest := CanDrain(Run(Init(threads), es), gs, owner, first);
  }
}
