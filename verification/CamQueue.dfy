/** The bounded queue of deferred CAM operations and the single worker that drains it.
    A step is one critical section of the driver lock or one dword committed by the chip. */
module CamQueue {
  import opened Bytes
  import opened Cam

  /** The worker of the queue, and the task that carries out link transitions. */
  const WORKER := 0
  const LINK := 1

  datatype Job = Job(serial: nat, op: Op)

  /** queue, fails: sc_cam_q and sc_stat_cam_fails. run: what is left of the worker's local copy,
      its head being programmed, with k dwords of it committed. The rest is history; effects holds
      every operation on the CAM in the order they took effect, those of other threads included. */
  datatype State = State(queue: seq<Job>, run: seq<Job>, k: nat, mem: Memory, fails: nat,
                         accepted: seq<Op>, finished: seq<Job>, lost: seq<Job>, effects: seq<Effect>)

  datatype Event =
    | Submit(op: Op)        // rtw88_vap_key_set, rtw88_vap_key_delete
    | Snapshot              // the worker copies and empties the queue
    | Commit                // the chip takes one dword
    | Finish                // the last dword is in
    | Abort                 // an EP0 transfer of the head operation failed
    | DropQueue             // link-down empties the queue
    | ForeignClear(op: Op)  // link-down clears a slot itself; never inside an operation (CamCalls)

  function Init(mem: Memory): State {
    State([], [], 0, mem, 0, [], [], [], [])
  }

  predicate Enabled(s: State, e: Event) {
    match e
    case Submit(op) => ValidOp(op)
    case Snapshot => s.run == []
    case Commit => s.run != [] && ValidOp(s.run[0].op) && s.k < Steps(s.run[0].op)
    case Finish => s.run != [] && s.k == Steps(s.run[0].op)
    case Abort => s.run != []
    case DropQueue => true
    case ForeignClear(op) => ValidOp(op) && op.Clear? && s.k == 0
  }

  /** An operation is taken only while the queue has a free entry. */
  predicate Room(s: State) {
    |s.queue| < QUEUE_DEPTH
  }

  function CommitOne(mem: Memory, op: Op, k: nat): Memory
    requires ValidOp(op) && k < Steps(op)
  {
    if op.Install? then mem[8 * op.slot + 7 - k := Dword(op, 7 - k)] else mem[8 * op.slot := 0]
  }

  function HeadEnds(s: State): State
    requires s.run != []
  {
    s.(finished := s.finished + [s.run[0]], run := s.run[1..], k := 0,
       effects := s.effects + [Effect(WORKER, s.run[0].op, s.k)])
  }

  function Step(s: State, e: Event): State
    requires Enabled(s, e)
  {
    match e
    case Submit(op) =>
      if Room(s) then s.(queue := s.queue + [Job(|s.accepted|, op)], accepted := s.accepted + [op])
      else s.(fails := s.fails + 1)
    case Snapshot => s.(run := s.queue, queue := [], k := 0)
    case Commit => s.(mem := CommitOne(s.mem, s.run[0].op, s.k), k := s.k + 1)
    case Finish => HeadEnds(s)
    case Abort => HeadEnds(s)
    case DropQueue => s.(lost := s.lost + s.queue, queue := [])
    case ForeignClear(op) => s.(mem := s.mem[8 * op.slot := 0], effects := s.effects + [Effect(LINK, op, 1)])
  }

  function Run(s: State, es: seq<Event>): State
    decreases es
  {
    if es == [] then s
    else Run(if Enabled(s, es[0]) then Step(s, es[0]) else s, es[1..])
  }

  // ---- order and conservation, whatever the failures and link transitions ----

  function Serials(js: seq<Job>): (r: seq<nat>)
    ensures |r| == |js| && forall i :: 0 <= i < |js| ==> r[i] == js[i].serial
  {
    seq(|js|, i requires 0 <= i < |js| => js[i].serial)
  }

  function Line(s: State): seq<Job> {
    s.finished + s.run + s.queue
  }

  ghost predicate Genuine(log: seq<Op>, js: seq<Job>) {
    forall j :: j in js ==> j.serial < |log| && log[j.serial] == j.op
  }

  ghost predicate Ordered(s: State) {
    && Ascending(Serials(Line(s)))
    && multiset(Serials(Line(s))) + multiset(Serials(s.lost)) == multiset(Upto(|s.accepted|))
    && Genuine(s.accepted, Line(s)) && Genuine(s.accepted, s.lost)
  }

  lemma SerialsConcat(a: seq<Job>, b: seq<Job>)
    ensures Serials(a + b) == Serials(a) + Serials(b)
  {
  }

  lemma SubmitOrdered(s: State, op: Op)
    requires Ordered(s) && Room(s) && ValidOp(op)
    ensures Ordered(Step(s, Submit(op)))
  {
    var t, j := Step(s, Submit(op)), Job(|s.accepted|, op);
    assert Line(t) == Line(s) + [j];
    SerialsConcat(Line(s), [j]);
    assert Serials(Line(t)) == Serials(Line(s)) + [j.serial];
    UptoSuccessor(|s.accepted|);
    forall i | i in Line(s)
      ensures i.serial < |s.accepted|
    {
    }
  }

  lemma DropOrdered(s: State)
    requires Ordered(s)
    ensures Ordered(Step(s, DropQueue))
  {
    var t := Step(s, DropQueue);
    var rest := s.finished + s.run;
    SerialsConcat(rest, s.queue);
    SerialsConcat(s.lost, s.queue);
    assert Line(t) == rest && Line(s) == rest + s.queue;
    assert Serials(Line(s)) == Serials(rest) + Serials(s.queue);
    assert forall i :: 0 <= i < |rest| ==> Serials(rest)[i] == Serials(Line(s))[i];
    assert forall j :: j in rest ==> j in Line(s);
    assert forall j :: j in s.queue ==> j in Line(s);
  }

  lemma StepOrdered(s: State, e: Event)
    requires Ordered(s) && Enabled(s, e)
    ensures Ordered(Step(s, e))
  {
    if e.Submit? {
      if Room(s) {
        SubmitOrdered(s, e.op);
      }
    } else if e.DropQueue? {
      DropOrdered(s);
    } else {
      assert Line(Step(s, e)) == Line(s);
    }
  }

  lemma {:induction false} RunOrdered(s: State, es: seq<Event>)
    requires Ordered(s)
    ensures Ordered(Run(s, es))
    decreases es
  {
    if es != [] {
      if Enabled(s, es[0]) {
        StepOrdered(s, es[0]);
        RunOrdered(Step(s, es[0]), es[1..]);
      } else {
        RunOrdered(s, es[1..]);
      }
    }
  }

  /** In every run, with any EP0 failures and link-downs: operations are attempted in the order
      they were accepted and at most once, and every accepted one is attempted, being attempted,
      waiting, or was dropped by a link-down. */
  lemma OpsInOrderAtMostOnce(mem: Memory, es: seq<Event>)
    ensures var s := Run(Init(mem), es);
            && Ascending(Serials(s.finished + s.run + s.queue))
            && multiset(Serials(s.finished + s.run + s.queue)) + multiset(Serials(s.lost))
               == multiset(Upto(|s.accepted|))
            && (forall j :: j in s.finished ==> j.serial < |s.accepted| && s.accepted[j.serial] == j.op)
  {
    RunOrdered(Init(mem), es);
    var s := Run(Init(mem), es);
    assert forall j :: j in s.finished ==> j in Line(s);
  }

  /** Rejections are exactly the counted overflows. */
  lemma {:induction false} OverflowIsCounted(s: State, es: seq<Event>)
    ensures var t := Run(s, es);
            (|t.accepted| - |s.accepted|) + (t.fails - s.fails) == Submissions(es)
    decreases es
  {
    if es != [] {
      OverflowIsCounted(if Enabled(s, es[0]) then Step(s, es[0]) else s, es[1..]);
    }
  }

  function Submissions(es: seq<Event>): nat {
    if es == [] then 0
    else (if es[0].Submit? && ValidOp(es[0].op) then 1 else 0) + Submissions(es[1..])
  }

  /** A submitted operation goes to the end of the queue while fewer than sixteen wait, and is counted as
      failed from then on. */
  lemma SubmitIs(s: State, op: Op)
    requires ValidOp(op)
    ensures var t := Step(s, Submit(op));
            t == if |s.queue| < 16
                 then s.(queue := s.queue + [Job(|s.accepted|, op)], accepted := s.accepted + [op])
                 else s.(fails := s.fails + 1)
  {
  }

  /** In every run no more than sixteen operations wait, and the worker holds no more than sixteen. */
  lemma {:induction false} QueueBounded(s: State, es: seq<Event>)
    requires |s.queue| <= 16 && |s.run| <= 16
    ensures |Run(s, es).queue| <= 16 && |Run(s, es).run| <= 16
    decreases es
  {
    if es != [] {
      QueueBounded(if Enabled(s, es[0]) then Step(s, es[0]) else s, es[1..]);
    }
  }

  // ---- refinement of a map from slots to keys ----

  function Ops(js: seq<Job>): (r: seq<Op>)
    ensures |r| == |js| && forall i :: 0 <= i < |js| ==> r[i] == js[i].op
  {
    seq(|js|, i requires 0 <= i < |js| => js[i].op)
  }

  /** The operations of the worker among the effects. */
  function Mine(fx: seq<Effect>): seq<Op> {
    if fx == [] then []
    else Mine(fx[..|fx| - 1]) + if fx[|fx| - 1].who == WORKER then [fx[|fx| - 1].op] else []
  }

  ghost predicate JobsValid(js: seq<Job>) {
    forall j :: j in js ==> ValidOp(j.op)
  }

  /** In every reachable state the CAM is what the effects made it, plus the dwords of the head operation. */
  ghost predicate Tracking(mem: Memory, s: State) {
    && JobsValid(s.queue) && JobsValid(s.run) && ValidEffects(s.effects)
    && Mine(s.effects) == Ops(s.finished) && (s.lost == [] ==> s.accepted == Ops(Line(s)))
    && (s.run == [] ==> s.k == 0 && s.mem == Applied(mem, s.effects))
    && (s.run != [] ==> s.k <= Steps(s.run[0].op) && s.mem == Prog(Applied(mem, s.effects), s.run[0].op, s.k))
  }

  lemma Appended(mem: Memory, fx: seq<Effect>, e: Effect)
    requires ValidEffect(e) && ValidEffects(fx)
    ensures ValidEffects(fx + [e]) && Applied(mem, fx + [e]) == Prog(Applied(mem, fx), e.op, e.n)
    ensures Mine(fx + [e]) == Mine(fx) + if e.who == WORKER then [e.op] else []
  {
    AppliedMore(mem, fx, e);
    assert (fx + [e])[..|fx|] == fx;
  }

  lemma EndTracking(mem: Memory, s: State)
    requires Tracking(mem, s) && s.run != []
    ensures Tracking(mem, HeadEnds(s))
  {
    var t := HeadEnds(s);
    Appended(mem, s.effects, Effect(WORKER, s.run[0].op, s.k));
    assert Line(t) == Line(s);
    assert Ops(t.finished) == Ops(s.finished) + [s.run[0].op];
  }

  lemma SubmitTracking(mem: Memory, s: State, op: Op)
    requires Tracking(mem, s) && ValidOp(op)
    ensures Tracking(mem, Step(s, Submit(op)))
  {
    if Room(s) {
      var t, j := Step(s, Submit(op)), Job(|s.accepted|, op);
      assert Line(t) == Line(s) + [j];
      assert Ops(Line(t)) == Ops(Line(s)) + [op];
    }
  }

  lemma StepTracking(mem: Memory, s: State, e: Event)
    requires Tracking(mem, s) && Enabled(s, e)
    ensures Tracking(mem, Step(s, e))
  {
    var t := Step(s, e);
    match e
    case Submit(op) => SubmitTracking(mem, s, op);
    case Finish => EndTracking(mem, s);
    case Abort => EndTracking(mem, s);
    case ForeignClear(op) => Appended(mem, s.effects, Effect(LINK, op, 1));
    case DropQueue => assert t.lost == [] ==> Line(t) == Line(s);
    case _ => assert Line(t) == Line(s);
  }

  lemma {:induction false} RunTracking(mem: Memory, s: State, es: seq<Event>)
    requires Tracking(mem, s)
    ensures Tracking(mem, Run(s, es))
    decreases es
  {
    if es != [] {
      if Enabled(s, es[0]) {
        StepTracking(mem, s, es[0]);
        RunTracking(mem, Step(s, es[0]), es[1..]);
      } else {
        RunTracking(mem, s, es[1..]);
      }
    }
  }

  /** In every run, whatever fails and whoever clears slots: the operations of the queue take effect in the
      order they were attempted, and whenever the worker is at rest each slot shows the last operation that
      touched it, of the queue or not, if it was carried out in full. With nothing dropped and nothing waiting
      the attempted operations are the accepted ones. */
  lemma CamRefinesMap(mem: Memory, es: seq<Event>, slot: nat)
    requires slot < SLOTS
    ensures var s := Run(Init(mem), es);
            && Mine(s.effects) == Ops(s.finished)
            && (s.lost == [] && s.queue == [] && s.run == [] ==> Ops(s.finished) == s.accepted)
            && ValidEffects(s.effects)
            && (s.run == [] ==> Shows(Decode(s.mem, slot), LastOn(s.effects, slot), Decode(mem, slot)))
  {
    RunTracking(mem, Init(mem), es);
    var s := Run(Init(mem), es);
    if s.queue == [] && s.run == [] {
      assert Line(s) == s.finished;
    }
    AppliedShows(mem, s.effects, slot);
  }

  // ---- runs in which nothing fails ----

  lemma {:induction false} WholeRun(s: State, es: seq<Event>)
    requires (forall e :: e in s.effects ==> Whole(e)) && Abort !in es
    ensures forall e :: e in Run(s, es).effects ==> Whole(e)
    decreases es
  {
    if es != [] {
      WholeRun(if Enabled(s, es[0]) then Step(s, es[0]) else s, es[1..]);
    }
  }

  /** So without EP0 failures each slot shows, whenever the worker is at rest, the last operation on it. */
  lemma UnfailingRefinesMap(mem: Memory, es: seq<Event>, slot: nat)
    requires slot < SLOTS && Abort !in es
    ensures var s := Run(Init(mem), es);
            var last := LastOn(s.effects, slot);
            s.run == [] ==>
              match last
              case None => Decode(s.mem, slot) == Decode(mem, slot)
              case Some(e) => if e.op.Install? then ValidOp(e.op) && Decode(s.mem, slot) == Shown(e.op)
                              else !Decode(s.mem, slot).valid
  {
    CamRefinesMap(mem, es, slot);
    WholeRun(Init(mem), es);
  }
}
