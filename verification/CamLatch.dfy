/** Several writers on the CAM. A dword goes in by two EP0 transfers, one that sets the write latch and one
    that commits it. A transfer gives up the driver mutex while it is under way, with the busy flag of the
    control endpoint set; its thread takes the mutex back before the flag is cleared, and keeps it up to
    its next transfer. Any number of threads. */
module CamLatch {
  import opened Bytes
  import opened Cam

  /** The next transfer of an operation: set the latch, commit it, poll the command register. */
  datatype Phase = Set | Commit | Poll

  /** What a thread still has to do: operations of which the first has k dwords in. begun: it has started a
      transfer of this call. */
  datatype Work = Work(ops: seq<Op>, k: nat, phase: Phase, begun: bool)

  datatype Call = Call(who: nat, ops: seq<Op>)

  /** works: the threads in a call. mtx: who holds the driver mutex. busy: sc_io_busy, and who set it. calls
      (in the order of their first transfers) and effects are history. */
  datatype State = State(works: map<nat, Work>, mtx: Option<nat>, busy: Option<nat>, latch: word, mem: Memory,
                         calls: seq<Call>, effects: seq<Effect>)

  /** Elsewhere: a poll that found the command pending, or any access that is not to the CAM. */
  datatype Result = Done | Failed | Elsewhere

  datatype Event =
    | Enter(t: nat, ops: seq<Op>)  // a call; the thread wants the mutex
    | Take(t: nat)                 // it gets it: on entry, or woken up
    | Go(t: nat)                   // rtw88_usb_io_enter: sleep, or claim the endpoint and start the transfer
    | Land(t: nat, r: Result)      // the transfer is over: mutex taken back, rtw88_usb_io_exit
    | Leave(t: nat)                // all done, the mutex given up

  function Init(mem: Memory): State {
    State(map[], None, None, 0, mem, [], [])
  }

  predicate OpsValid(ops: seq<Op>) {
    forall i :: 0 <= i < |ops| ==> ValidOp(ops[i])
  }

  predicate Fits(w: Work) {
    && OpsValid(w.ops)
    && (w.ops == [] ==> w.k == 0 && w.phase.Set?)
    && (w.ops != [] ==> if w.phase.Poll? then w.ops[0].Install? && w.k <= 8 else w.k < Steps(w.ops[0]))
  }

  predicate Enabled(s: State, e: Event) {
    match e
    case Enter(t, ops) => t !in s.works && OpsValid(ops)
    case Take(t) => t in s.works && s.mtx.None? && s.busy != Some(t)
    case Go(t) => t in s.works && s.mtx == Some(t)
    case Land(t, r) => t in s.works && s.mtx.None? && s.busy == Some(t) && Fits(s.works[t])
                       && (r.Elsewhere? || s.works[t].ops != [])
    case Leave(t) => t in s.works && s.mtx == Some(t) && s.works[t].ops == []
  }

  /** The dword of step k of an operation, and its CAM address. */
  function Value(op: Op, k: nat): word
    requires ValidOp(op) && k < Steps(op)
  {
    if op.Install? then Dword(op, 7 - k) else 0
  }

  function Addr(op: Op, k: nat): (a: nat)
    requires ValidOp(op) && k < Steps(op)
    ensures a < 8 * SLOTS
  {
    if op.Install? then 8 * op.slot + 7 - k else 8 * op.slot
  }

  /** The first operation is over, with k dwords in. */
  function OpEnds(s: State, t: nat, k: nat): State
    requires t in s.works && s.works[t].ops != []
  {
    var w := s.works[t];
    s.(works := s.works[t := w.(ops := w.ops[1..], k := 0, phase := Set)],
       effects := s.effects + [Effect(t, w.ops[0], k)])
  }

  /** The chip's side of a transfer that succeeded, and what the thread does next. */
  function Took(s: State, t: nat): State
    requires t in s.works && Fits(s.works[t]) && s.works[t].ops != []
  {
    var w := s.works[t];
    var op := w.ops[0];
    match w.phase
    case Set => s.(latch := Value(op, w.k), works := s.works[t := w.(phase := Commit)])
    case Commit =>
      var u := s.(mem := s.mem[Addr(op, w.k) := s.latch]);
      if op.Install? then u.(works := u.works[t := w.(k := w.k + 1, phase := Poll)]) else OpEnds(u, t, 1)
    case Poll => if w.k == 8 then OpEnds(s, t, 8) else s.(works := s.works[t := w.(phase := Set)])
  }

  function Landed(s: State, t: nat, r: Result): State
    requires t in s.works && Fits(s.works[t]) && (r.Elsewhere? || s.works[t].ops != [])
  {
    match r
    case Done => Took(s, t)
    case Failed => OpEnds(s, t, s.works[t].k)
    case Elsewhere => s
  }

  function Started(s: State, t: nat): State
    requires t in s.works
  {
    var w := s.works[t];
    s.(mtx := None, busy := Some(t), works := s.works[t := w.(begun := true)],
       calls := if w.begun then s.calls else s.calls + [Call(t, w.ops)])
  }

  function Step(s: State, e: Event): State
    requires Enabled(s, e)
  {
    match e
    case Enter(t, ops) => s.(works := s.works[t := Work(ops, 0, Set, false)])
    case Take(t) => s.(mtx := Some(t))
    case Go(t) => if s.busy.Some? then s.(mtx := None) else Started(s, t)
    case Land(t, r) => Landed(s.(mtx := Some(t), busy := None), t, r)
    case Leave(t) => s.(works := s.works - {t}, mtx := None)
  }

  function Next(s: State, e: Event): State {
    if Enabled(s, e) then Step(s, e) else s
  }

  function Run(s: State, es: seq<Event>): State
    decreases es
  {
    if es == [] then s else Run(Next(s, es[0]), es[1..])
  }

  // ---- the invariant ----

  /** The thread whose call is going on: the one in a transfer, or the one between two transfers of a call. */
  function Holder(s: State): Option<nat> {
    if s.busy.Some? then s.busy
    else if s.mtx.Some? && s.mtx.value in s.works && s.works[s.mtx.value].begun then s.mtx
    else None
  }

  /** A call that has begun is the one going on, and one that has not is untouched. */
  predicate Threads(s: State) {
    && (s.mtx.Some? ==> s.mtx.value in s.works && s.mtx != s.busy)
    && (s.busy.Some? ==> s.busy.value in s.works && s.works[s.busy.value].begun)
    && (forall t :: t in s.works ==>
          && Fits(s.works[t])
          && (s.works[t].begun ==> Holder(s) == Some(t))
          && (!s.works[t].begun ==> s.works[t].k == 0 && s.works[t].phase.Set?))
  }

  /** What the call going on has left. */
  function Left(s: State): (w: Work)
    requires Threads(s)
    ensures Fits(w)
  {
    if Holder(s).Some? then s.works[Holder(s).value] else Work([], 0, Set, false)
  }

  /** The CAM is what the effects made it, plus the dwords of the operation under way; between setting the
      latch and committing it, the latch holds that operation's dword. */
  ghost predicate Kept(mem: Memory, s: State)
    requires Threads(s) && ValidEffects(s.effects)
  {
    var w := Left(s);
    if w.ops == [] then s.mem == Applied(mem, s.effects)
    else
      && s.mem == Prog(Applied(mem, s.effects), w.ops[0], w.k)
      && (w.phase.Commit? ==> s.latch == Value(w.ops[0], w.k))
  }

  /** Operations and who carries them out. */
  function Tagged(who: nat, ops: seq<Op>): seq<(nat, Op)> {
    if ops == [] then [] else [(who, ops[0])] + Tagged(who, ops[1..])
  }

  function InTurn(calls: seq<Call>): seq<(nat, Op)> {
    if calls == [] then []
    else InTurn(calls[..|calls| - 1]) + Tagged(calls[|calls| - 1].who, calls[|calls| - 1].ops)
  }

  function Happened(fx: seq<Effect>): seq<(nat, Op)> {
    if fx == [] then [] else Happened(fx[..|fx| - 1]) + [(fx[|fx| - 1].who, fx[|fx| - 1].op)]
  }

  /** The operations so far and those left of the call going on are the calls, one whole call after the other. */
  predicate Unsplit(s: State)
    requires Threads(s)
  {
    Happened(s.effects) + (if Holder(s).Some? then Tagged(Holder(s).value, Left(s).ops) else []) == InTurn(s.calls)
  }

  ghost predicate Orderly(mem: Memory, s: State) {
    Threads(s) && ValidEffects(s.effects) && Kept(mem, s) && Unsplit(s)
  }

  lemma OneDone(fx: seq<Effect>, t: nat, ops: seq<Op>, k: nat)
    requires ops != []
    ensures Happened(fx + [Effect(t, ops[0], k)]) + Tagged(t, ops[1..]) == Happened(fx) + Tagged(t, ops)
  {
    assert (fx + [Effect(t, ops[0], k)])[..|fx|] == fx;
  }

  lemma EndThreads(s: State, t: nat, k: nat)
    requires Threads(s) && Holder(s) == Some(t) && s.works[t].ops != []
    ensures Threads(OpEnds(s, t, k)) && Holder(OpEnds(s, t, k)) == Some(t)
    ensures Left(OpEnds(s, t, k)) == Work(s.works[t].ops[1..], 0, Set, s.works[t].begun)
  {
    assert OpsValid(s.works[t].ops[1..]);
  }

  lemma EndUnsplit(s: State, t: nat, k: nat)
    requires Threads(s) && Unsplit(s) && Holder(s) == Some(t) && s.works[t].ops != []
    ensures Threads(OpEnds(s, t, k)) && Unsplit(OpEnds(s, t, k))
  {
    EndThreads(s, t, k);
    OneDone(s.effects, t, s.works[t].ops, k);
  }

  lemma EndOrderly(mem: Memory, s: State, t: nat, k: nat)
    requires Threads(s) && ValidEffects(s.effects) && Unsplit(s) && Holder(s) == Some(t) && s.works[t].ops != []
    requires k <= Steps(s.works[t].ops[0]) && s.mem == Prog(Applied(mem, s.effects), s.works[t].ops[0], k)
    ensures Orderly(mem, OpEnds(s, t, k))
  {
    EndThreads(s, t, k);
    EndUnsplit(s, t, k);
    AppliedMore(mem, s.effects, Effect(t, s.works[t].ops[0], k));
  }

  lemma NextInTurn(calls: seq<Call>, c: Call)
    ensures InTurn(calls + [c]) == InTurn(calls) + Tagged(c.who, c.ops)
  {
    assert (calls + [c])[..|calls|] == calls;
  }

  lemma StartOrderly(mem: Memory, s: State, t: nat)
    requires Orderly(mem, s) && Enabled(s, Go(t)) && s.busy.None?
    ensures Orderly(mem, Started(s, t))
  {
    if !s.works[t].begun {
      NextInTurn(s.calls, Call(t, s.works[t].ops));
      assert Holder(s).None?;
    }
  }

  /** Progress inside an operation keeps threads and order. */
  lemma InsideUnsplit(s: State, t: nat, w: Work)
    requires Threads(s) && Unsplit(s) && Holder(s) == Some(t) && Fits(w) && w.begun && w.ops == s.works[t].ops
    ensures var u := s.(works := s.works[t := w]); Threads(u) && Unsplit(u) && Holder(u) == Some(t) && Left(u) == w
  {
  }

  lemma CommitIn(mem: Memory, op: Op, k: nat)
    requires ValidOp(op) && k < Steps(op)
    ensures Prog(mem, op, k)[Addr(op, k) := Value(op, k)] == Prog(mem, op, k + 1)
  {
  }

  lemma CommitInstall(mem: Memory, s: State, t: nat)
    requires Orderly(mem, s) && Holder(s) == Some(t) && s.works[t].ops != [] && s.works[t].phase.Commit?
    requires s.works[t].ops[0].Install?
    ensures Orderly(mem, Took(s, t))
  {
    var w := s.works[t];
    var op := w.ops[0];
    CommitIn(Applied(mem, s.effects), op, w.k);
    InsideUnsplit(s.(mem := s.mem[Addr(op, w.k) := s.latch]), t, w.(k := w.k + 1, phase := Poll));
  }

  lemma CommitClear(mem: Memory, s: State, t: nat)
    requires Orderly(mem, s) && Holder(s) == Some(t) && s.works[t].ops != [] && s.works[t].phase.Commit?
    requires s.works[t].ops[0].Clear?
    ensures Orderly(mem, Took(s, t))
  {
    var op := s.works[t].ops[0];
    var v := s.(mem := s.mem[Addr(op, 0) := s.latch]);
    CommitIn(Applied(mem, s.effects), op, 0);
    EndOrderly(mem, v, t, 1);
  }

  lemma TookOrderly(mem: Memory, s: State, t: nat)
    requires Orderly(mem, s) && Holder(s) == Some(t) && s.works[t].ops != []
    ensures Orderly(mem, Took(s, t))
  {
    var w := s.works[t];
    match w.phase
    case Set => InsideUnsplit(s.(latch := Value(w.ops[0], w.k)), t, w.(phase := Commit));
    case Commit =>
      if w.ops[0].Install? {
        CommitInstall(mem, s, t);
      } else {
        CommitClear(mem, s, t);
      }
    case Poll =>
      if w.k == 8 {
        EndOrderly(mem, s, t, 8);
      } else {
        InsideUnsplit(s, t, w.(phase := Set));
      }
  }

  /** Taking the mutex back at the end of a transfer leaves the call going on. */
  lemma RetakenOrderly(mem: Memory, s: State, t: nat)
    requires Orderly(mem, s) && s.busy == Some(t) && s.mtx.None?
    ensures var u := s.(mtx := Some(t), busy := None);
            Orderly(mem, u) && Holder(u) == Some(t) && u.works == s.works
  {
    assert Left(s.(mtx := Some(t), busy := None)) == Left(s);
  }

  lemma StepOrderly(mem: Memory, s: State, e: Event)
    requires Orderly(mem, s) && Enabled(s, e)
    ensures Orderly(mem, Step(s, e))
  {
    match e
    case Go(t) =>
      if s.busy.None? {
        StartOrderly(mem, s, t);
      }
    case Land(t, r) =>
      var u := s.(mtx := Some(t), busy := None);
      RetakenOrderly(mem, s, t);
      match r {
        case Done => TookOrderly(mem, u, t);
        case Failed => EndOrderly(mem, u, t, u.works[t].k);
        case Elsewhere =>
      }
    case _ =>
  }

  lemma {:induction false} RunOrderly(mem: Memory, s: State, es: seq<Event>)
    requires Orderly(mem, s)
    ensures Orderly(mem, Run(s, es))
    decreases es
  {
    if es != [] {
      if Enabled(s, es[0]) {
        StepOrderly(mem, s, es[0]);
      }
      RunOrderly(mem, Next(s, es[0]), es[1..]);
    }
  }
}
