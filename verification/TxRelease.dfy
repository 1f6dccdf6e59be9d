/** When parked frames get out: what a closed gate waits for, and what strands the frames behind it. */
module TxRelease {
  import opened Bytes
  import opened TxGate
  import C = Cam
  import Q = CamQueue

  /** A pairwise install. */
  predicate Ptk(j: Q.Job) {
    j.op.Install? && !j.op.group
  }

  /** Key operations that the worker has taken or that are still queued. */
  function Waiting(k: Q.State): seq<Q.Job> {
    k.run + k.queue
  }

  predicate Awaited(k: Q.State) {
    exists j :: j in Waiting(k) && Ptk(j)
  }

  /** A closed gate has a reason: a pairwise install is queued or running, or an M4 was deferred. */
  predicate Reasoned(s: State) {
    s.gate ==> s.marker.Some? || Awaited(s.keys)
  }

  /** The EP0 failure of the last pairwise install, with the gate closed for it alone. */
  predicate Strands(s: State, e: Event) {
    && e == EvCam(Q.Abort) && s.gate && s.marker.None? && s.keys.run != [] && Ptk(s.keys.run[0])
    && forall j :: j in s.keys.run[1..] + s.keys.queue ==> !Ptk(j)
  }

  // ---- the reason for a closed gate ----

  lemma {:induction false} ReleaseKeepsGate(s: State, encap: Option<seq<byte>>)
    ensures ReleaseAll(s, encap).gate == s.gate && ReleaseAll(s, encap).keys == s.keys
    ensures ReleaseAll(s, encap).pending == []
    decreases |s.pending|
  {
    if s.pending != [] {
      ReleaseKeepsGate(ReleaseOne(s, encap), encap);
    }
  }

  /** Without its first operation the worker still waits for the others. */
  lemma HeadGone(k: Q.State, l: Q.State)
    requires k.run != [] && l.run == k.run[1..] && l.queue == k.queue
    ensures Waiting(k) == [k.run[0]] + Waiting(l)
    ensures Awaited(k) <==> Ptk(k.run[0]) || Awaited(l)
  {
    assert Waiting(k) == [k.run[0]] + Waiting(l);
    if Ptk(k.run[0]) {
      assert k.run[0] in Waiting(k);
    }
  }

  lemma KeyDoneReasoned(s: State, encap: Option<seq<byte>>)
    requires Reasoned(s) && Q.Enabled(s.keys, Q.Finish)
    ensures Reasoned(KeyDone(s, encap))
  {
    var k := Q.Step(s.keys, Q.Finish);
    HeadGone(s.keys, k);
    ReleaseKeepsGate(s.(keys := k, gate := false), encap);
  }

  lemma SubmitReasoned(s: State, op: C.Op)
    requires Reasoned(s) && C.ValidOp(op)
    ensures Reasoned(KeySubmit(s, op))
  {
    if Q.Room(s.keys) {
      var t, j := KeySubmit(s, op), Q.Job(|s.keys.accepted|, op);
      assert Waiting(t.keys) == Waiting(s.keys) + [j];
      assert j in Waiting(t.keys);
      assert forall i :: i in Waiting(s.keys) ==> i in Waiting(t.keys);
    }
  }

  lemma CamReasonedIff(s: State, c: Q.Event)
    requires Reasoned(s) && Enabled(s, EvCam(c))
    ensures Reasoned(Step(s, EvCam(c))) <==> !Strands(s, EvCam(c))
  {
    var k := Q.Step(s.keys, c);
    if c.Abort? {
      HeadGone(s.keys, k);
    } else {
      assert Waiting(k) == Waiting(s.keys);
    }
  }

  lemma StepReasonedIff(s: State, e: Event)
    requires Reasoned(s) && Enabled(s, e)
    ensures Reasoned(Step(s, e)) <==> !Strands(s, e)
  {
    match e
    case EvKey(op) => SubmitReasoned(s, op);
    case EvCam(c) => CamReasonedIff(s, c);
    case EvKeyDone(encap) => KeyDoneReasoned(s, encap);
    case _ =>
  }

  predicate AlwaysReasoned(s: State, es: seq<Event>)
    decreases es
  {
    Reasoned(s) && (es != [] ==> AlwaysReasoned(Next(s, es[0]), es[1..]))
  }

  predicate NeverStrands(s: State, es: seq<Event>)
    decreases es
  {
    es != [] ==> !(Enabled(s, es[0]) && Strands(s, es[0])) && NeverStrands(Next(s, es[0]), es[1..])
  }

  lemma {:induction false} ReasonedIff(s: State, es: seq<Event>)
    requires Reasoned(s)
    ensures AlwaysReasoned(s, es) <==> NeverStrands(s, es)
    decreases es
  {
    if es != [] {
      if Enabled(s, es[0]) {
        StepReasonedIff(s, es[0]);
      }
      var t := Next(s, es[0]);
      if Reasoned(t) {
        ReasonedIff(t, es[1..]);
      } else {
        assert !AlwaysReasoned(t, es[1..]);
      }
    }
  }

  /** Over every run, a closed gate always has a reason exactly when no EP0 failure takes the last pairwise
      install away from under it. */
  lemma ClosedGateHasReason(depth: nat, mem: C.Memory, es: seq<Event>)
    ensures AlwaysReasoned(Init(depth, mem), es) <==> NeverStrands(Init(depth, mem), es)
  {
    ReasonedIff(Init(depth, mem), es);
  }

  /** A run that strands: the only pairwise install fails on EP0. */
  lemma FailedInstallStrands(depth: nat, mem: C.Memory)
    ensures var s := Run(Init(depth, mem), [EvKey(PTK), EvCam(Q.Snapshot), EvCam(Q.Abort)]);
            s.gate && !Reasoned(s)
  {
    var s0, e0, e1, e2 := Init(depth, mem), EvKey(PTK), EvCam(Q.Snapshot), EvCam(Q.Abort);
    var s1 := Step(s0, e0);
    var s2 := Step(s1, e1);
    RunCons(s0, e0, [e1, e2]);
    RunCons(s1, e1, [e2]);
    RunCons(s2, e2, []);
    assert s2.keys.run == [Q.Job(0, PTK)];
    HeadGone(s2.keys, Step(s2, e2).keys);
  }

  // ---- getting out ----

  /** The worker's position makes sense; true in every run. */
  predicate Working(k: Q.State) {
    && (forall j :: j in Waiting(k) ==> C.ValidOp(j.op))
    && (k.run != [] ==> k.k <= C.Steps(k.run[0].op))
  }

  lemma CamWorking(k: Q.State, c: Q.Event)
    requires Working(k) && Q.Enabled(k, c) && !c.Submit?
    ensures Working(Q.Step(k, c))
  {
    var l := Q.Step(k, c);
    if c.Abort? || c.Finish? {
      HeadGone(k, l);
    } else if c.DropQueue? {
      assert forall j :: j in k.run ==> j in Waiting(k);
    } else {
      assert Waiting(l) == Waiting(k);
    }
  }

  lemma StepWorking(s: State, e: Event)
    requires Working(s.keys) && Enabled(s, e)
    ensures Working(Step(s, e).keys)
  {
    match e
    case EvKey(op) =>
    case EvCam(c) => CamWorking(s.keys, c);
    case EvKeyDone(encap) =>
      CamWorking(s.keys, Q.Finish);
      ReleaseKeepsGate(s.(keys := Q.Step(s.keys, Q.Finish), gate := false), encap);
    case EvLinkDown => CamWorking(s.keys, Q.DropQueue);
    case _ =>
  }

  lemma {:induction false} RunWorking(s: State, es: seq<Event>)
    requires Working(s.keys)
    ensures Working(Run(s, es).keys)
    decreases es
  {
    if es != [] {
      if Enabled(s, es[0]) {
        StepWorking(s, es[0]);
      }
      RunWorking(Next(s, es[0]), es[1..]);
    }
  }

  /** Neither a link-down nor a new pairwise key. */
  predicate NoHelp(e: Event) {
    !e.EvLinkDown? && (e.EvKey? ==> !(e.op.Install? && !e.op.group))
  }

  /** What the worker does next. */
  function Work(k: Q.State, encap: Option<seq<byte>>): Event {
    if k.run == [] then EvCam(Q.Snapshot)
    else if k.k < C.Steps(k.run[0].op) then EvCam(Q.Commit)
    else EvKeyDone(encap)
  }

  /** Fewer operations, or as many with the next step of the head one done. */
  predicate Less(a: Q.State, b: Q.State) {
    || |Waiting(a)| < |Waiting(b)|
    || (|Waiting(a)| == |Waiting(b)| && (if a.run == [] then 9 else 8 - a.k) < (if b.run == [] then 9 else 8 - b.k))
  }

  /** One turn of the worker while it waits for a pairwise install: either that install is done, or the
      worker is closer to it. */
  lemma WorkTurn(s: State, encap: Option<seq<byte>>)
    requires Working(s.keys) && Awaited(s.keys)
    ensures var e := Work(s.keys, encap);
            && Enabled(s, e) && NoHelp(e)
            && var t := Step(s, e);
               (!t.gate && t.pending == []) || (Awaited(t.keys) && Working(t.keys) && Less(t.keys, s.keys))
  {
    var e, k := Work(s.keys, encap), s.keys;
    if k.run != [] {
      assert k.run[0] in Waiting(k);
      StepWorking(s, e);
      if e.EvKeyDone? {
        var l := Q.Step(k, Q.Finish);
        HeadGone(k, l);
        ReleaseKeepsGate(s.(keys := l, gate := false), encap);
      }
    } else {
      StepWorking(s, e);
      assert Waiting(Q.Step(k, Q.Snapshot)) == Waiting(k);
    }
  }

  lemma {:induction false} InstallReleases(s: State, encap: Option<seq<byte>>) returns (es: seq<Event>)
    requires Working(s.keys) && Awaited(s.keys)
    ensures !Run(s, es).gate && Run(s, es).pending == [] && forall e :: e in es ==> NoHelp(e)
    decreases |Waiting(s.keys)|, if s.keys.run == [] then 9 else 8 - s.keys.k
  {
    WorkTurn(s, encap);
    var e := Work(s.keys, encap);
    var t := Step(s, e);
    es := [e];
    if !t.gate && t.pending == [] {
      assert Run(t, []) == t && es[1..] == [];
    } else {
      var rest := InstallReleases(t, encap);
      es := [e] + rest;
      assert es[1..] == rest;
    }
  }

  /** Nothing but a link-down or a new pairwise key opens a gate that no install is coming for. */
  lemma StuckStep(s: State, e: Event)
    requires s.gate && !Awaited(s.keys) && Enabled(s, e) && NoHelp(e)
    ensures var t := Step(s, e); t.gate && !Awaited(t.keys) && s.pending <= t.pending
  {
    match e
    case EvKey(op) =>
      var t := Step(s, e);
      if Q.Room(s.keys) {
        assert Waiting(t.keys) == Waiting(s.keys) + [Q.Job(|s.keys.accepted|, op)];
      }
    case EvCam(c) =>
      if c.Abort? {
        HeadGone(s.keys, Q.Step(s.keys, c));
      } else {
        assert Waiting(Q.Step(s.keys, c)) == Waiting(s.keys);
      }
    case EvKeyDone(encap) => HeadGone(s.keys, Q.Step(s.keys, Q.Finish));
    case _ =>
  }

  lemma {:induction false} StuckStays(s: State, es: seq<Event>)
    requires s.gate && !Awaited(s.keys) && forall e :: e in es ==> NoHelp(e)
    ensures Run(s, es).gate && !Awaited(Run(s, es).keys) && s.pending <= Run(s, es).pending
    decreases es
  {
    if es != [] {
      assert es[0] in es;
      if Enabled(s, es[0]) {
        StuckStep(s, es[0]);
      }
      StuckStays(Next(s, es[0]), es[1..]);
    }
  }

  /** In every reachable state with a closed gate: it can open, and every parked frame leave, without a
      link-down or a new pairwise key exactly when a pairwise install is queued or running. */
  lemma GetsOutIff(depth: nat, mem: C.Memory, past: seq<Event>)
    ensures var s := Run(Init(depth, mem), past);
            s.gate ==>
              ((exists es :: (forall e :: e in es ==> NoHelp(e)) && !Run(s, es).gate && Run(s, es).pending == [])
               <==> Awaited(s.keys))
  {
    var s := Run(Init(depth, mem), past);
    RunWorking(Init(depth, mem), past);
    if s.gate {
      if Awaited(s.keys) {
        var es := InstallReleases(s, None);
      } else {
        forall es | forall e :: e in es ==> NoHelp(e)
          ensures Run(s, es).gate
        {
          StuckStays(s, es);
        }
      }
    }
  }
}
