/** The gate's own promise: Protected unicast data is held back while a pairwise install is awaited. */
module TxGuard {
  import opened Bytes
  import opened Frames
  import opened TxGate
  import opened TxRelease
  import S = TxSeal
  import C = Cam
  import Q = CamQueue

  /** While a pairwise install is queued or running, the gate is closed. */
  predicate Guarded(s: State) {
    Awaited(s.keys) ==> s.gate
  }

  /** The steps that open the gate under an awaited install: the end of one install with another behind it,
      and a link-down while the worker holds one. */
  predicate Opens(s: State, e: Event) {
    match e
    case EvKeyDone(_) =>
      && s.keys.run != [] && Ptk(s.keys.run[0])
      && exists j :: j in s.keys.run[1..] + s.keys.queue && Ptk(j)
    case EvLinkDown => exists j :: j in s.keys.run && Ptk(j)
    case _ => false
  }

  // ---- which steps keep the promise ----

  lemma KeyDoneGuardedIff(s: State, encap: Option<seq<byte>>)
    requires Guarded(s) && Q.Enabled(s.keys, Q.Finish)
    ensures Guarded(KeyDone(s, encap)) <==> !Opens(s, EvKeyDone(encap))
  {
    var k := Q.Step(s.keys, Q.Finish);
    HeadGone(s.keys, k);
    assert Waiting(k) == s.keys.run[1..] + s.keys.queue;
    ReleaseKeepsGate(s.(keys := k, gate := false), encap);
  }

  lemma SubmitGuarded(s: State, op: C.Op)
    requires Guarded(s) && C.ValidOp(op)
    ensures Guarded(KeySubmit(s, op))
  {
    if Q.Room(s.keys) {
      assert Waiting(KeySubmit(s, op).keys) == Waiting(s.keys) + [Q.Job(|s.keys.accepted|, op)];
    }
  }

  lemma CamGuarded(s: State, c: Q.Event)
    requires Guarded(s) && Enabled(s, EvCam(c))
    ensures Guarded(Step(s, EvCam(c)))
  {
    var k := Q.Step(s.keys, c);
    if c.Abort? {
      HeadGone(s.keys, k);
    } else {
      assert Waiting(k) == Waiting(s.keys);
    }
  }

  lemma LinkDownGuardedIff(s: State)
    ensures Guarded(LinkDown(s)) <==> !Opens(s, EvLinkDown)
  {
    assert Waiting(LinkDown(s).keys) == s.keys.run;
  }

  lemma StepGuardedIff(s: State, e: Event)
    requires Guarded(s) && Enabled(s, e)
    ensures Guarded(Step(s, e)) <==> !Opens(s, e)
  {
    match e
    case EvKey(op) => SubmitGuarded(s, op);
    case EvCam(c) => CamGuarded(s, c);
    case EvKeyDone(encap) => KeyDoneGuardedIff(s, encap);
    case EvLinkDown => LinkDownGuardedIff(s);
    case _ =>
  }

  predicate AlwaysGuarded(s: State, es: seq<Event>)
    decreases es
  {
    Guarded(s) && (es != [] ==> AlwaysGuarded(Next(s, es[0]), es[1..]))
  }

  predicate NeverOpens(s: State, es: seq<Event>)
    decreases es
  {
    es != [] ==> !(Enabled(s, es[0]) && Opens(s, es[0])) && NeverOpens(Next(s, es[0]), es[1..])
  }

  lemma {:induction false} GuardedIff(s: State, es: seq<Event>)
    requires Guarded(s)
    ensures AlwaysGuarded(s, es) <==> NeverOpens(s, es)
    decreases es
  {
    if es != [] {
      if Enabled(s, es[0]) {
        StepGuardedIff(s, es[0]);
      }
      var t := Next(s, es[0]);
      if Guarded(t) {
        GuardedIff(t, es[1..]);
      } else {
        assert !AlwaysGuarded(t, es[1..]);
      }
    }
  }

  /** Over every run, the gate is closed whenever a pairwise install is awaited exactly when no install ends
      with another behind it and no link-down finds the worker holding one. */
  lemma GateGuardsIff(depth: nat, mem: C.Memory, es: seq<Event>)
    ensures AlwaysGuarded(Init(depth, mem), es) <==> NeverOpens(Init(depth, mem), es)
  {
    GuardedIff(Init(depth, mem), es);
  }

  // ---- what the promise is for ----

  /** The state and bytes with which an event comes to the enqueue routine. */
  function Offered(s: State, e: Event): Option<(State, seq<byte>)> {
    if e.EvEnqueue? then Some((s, e.bytes))
    else if e.EvTransmit? then
      match EncapIfNeeded(s, e.addr, e.bytes, e.node, e.whole, e.encap)
      case Refused => None
      case Go(t, c, _) => Some((t, c))
    else None
  }

  /** The event brings a Protected unicast data frame that is accepted. */
  predicate Brings(s: State, e: Event) {
    var o := Offered(s, e);
    o.Some? && Gated(o.value.1) && EnqueueVerdict(o.value.0, o.value.1) == Accepted
  }

  /** It is accepted into a data queue. */
  predicate Passes(s: State, e: Event) {
    Enabled(s, e) && Brings(s, e) && (Step(s, e).be != s.be || Step(s, e).vo != s.vo)
  }

  /** It joins a data queue exactly when the gate is open by then, and is parked otherwise. */
  lemma PassesIff(s: State, e: Event)
    requires Brings(s, e)
    ensures Passes(s, e) <==> !Offered(s, e).value.0.gate
    ensures !Passes(s, e) ==> |Step(s, e).pending| == |s.pending| + 1
  {
    var t, b := Offered(s, e).value.0, Offered(s, e).value.1;
    if !t.gate {
      assert |At(Step(s, e), ForVo(b)).queue| == |At(s, ForVo(b)).queue| + 1;
    }
  }

  /** Some frame of the run joins a data queue while an install is awaited. */
  predicate PassesAwaited(s: State, es: seq<Event>)
    decreases es
  {
    es != [] && ((Awaited(s.keys) && Passes(s, es[0])) || PassesAwaited(Next(s, es[0]), es[1..]))
  }

  /** Over every run that never opens the gate under an awaited install, no Protected unicast data frame
      joins a data queue while one is awaited. */
  lemma {:induction false} NothingPassesAwaited(s: State, es: seq<Event>)
    requires Guarded(s) && NeverOpens(s, es)
    ensures !PassesAwaited(s, es)
    decreases es
  {
    if es != [] {
      if Awaited(s.keys) && Brings(s, es[0]) {
        PassesIff(s, es[0]);
      }
      if Enabled(s, es[0]) {
        StepGuardedIff(s, es[0]);
      }
      NothingPassesAwaited(Next(s, es[0]), es[1..]);
    }
  }

  // ---- a run for each way to fail ----

  const OFFER := EvEnqueue(7, S.M4_FRAME, true, true)

  lemma OfferPasses(s: State)
    requires !s.gate && Awaited(s.keys) && s.vo == Pipe([], None, []) && s.depth > 0
    ensures Passes(s, OFFER) && !Guarded(s)
  {
    S.M4FrameFacts();
    PassesIff(s, OFFER);
  }

  /** A link-down while the worker holds the install: a Protected frame then joins a data queue although
      the key is not yet in place. */
  lemma LinkDownOpens(depth: nat, mem: C.Memory)
    requires depth > 0
    ensures var s := Run(Init(depth, mem), [EvKey(PTK), EvCam(Q.Snapshot), EvLinkDown]);
            Awaited(s.keys) && !s.gate && Passes(s, OFFER)
  {
    var s0, e0, e1, e2 := Init(depth, mem), EvKey(PTK), EvCam(Q.Snapshot), EvLinkDown;
    var s1 := Step(s0, e0);
    var s2 := Step(s1, e1);
    var s3 := Step(s2, e2);
    RunCons(s0, e0, [e1, e2]);
    RunCons(s1, e1, [e2]);
    RunCons(s2, e2, []);
    assert Waiting(s3.keys) == [Q.Job(0, PTK)] && Q.Job(0, PTK) in Waiting(s3.keys);
    OfferPasses(s3);
  }

  function Commits(n: nat): (es: seq<Event>)
    ensures |es| == n
  {
    seq(n, _ => EvCam(Q.Commit))
  }

  lemma {:induction false} CommitsRun(s: State, n: nat) returns (t: State)
    requires s.keys.run != [] && C.ValidOp(s.keys.run[0].op) && s.keys.k + n <= C.Steps(s.keys.run[0].op)
    ensures t == Run(s, Commits(n)) && t == s.(keys := t.keys)
    ensures t.keys.run == s.keys.run && t.keys.queue == s.keys.queue && t.keys.k == s.keys.k + n
    decreases n
  {
    t := s;
    if n > 0 {
      assert Commits(n)[1..] == Commits(n - 1);
      t := CommitsRun(Step(s, EvCam(Q.Commit)), n - 1);
    }
  }

  const TWO_TAKEN := [EvKey(PTK), EvKey(PTK), EvCam(Q.Snapshot)]

  lemma TwoTaken(depth: nat, mem: C.Memory) returns (s: State)
    ensures s == Run(Init(depth, mem), TWO_TAKEN) && s == Init(depth, mem).(gate := true, keys := s.keys)
    ensures s.keys.run == [Q.Job(0, PTK), Q.Job(1, PTK)] && s.keys.queue == [] && s.keys.k == 0
  {
    var s0, e0, e2 := Init(depth, mem), EvKey(PTK), EvCam(Q.Snapshot);
    var s1 := Step(s0, e0);
    var s2 := Step(s1, e0);
    RunCons(s0, e0, [e0, e2]);
    RunCons(s1, e0, [e2]);
    RunCons(s2, e2, []);
    s := Step(s2, e2);
  }

  /** Two pairwise installs taken together by the worker: the first one done, a Protected frame joins a
      data queue although the second is not yet in place. */
  lemma FirstInstallOpens(depth: nat, mem: C.Memory, encap: Option<seq<byte>>)
    requires depth > 0
    ensures var s := Run(Init(depth, mem), TWO_TAKEN + Commits(8) + [EvKeyDone(encap)]);
            Awaited(s.keys) && !s.gate && Passes(s, OFFER)
  {
    var s := TwoTaken(depth, mem);
    var t := CommitsRun(s, 8);
    RunConcat(Init(depth, mem), TWO_TAKEN, Commits(8));
    RunConcat(Init(depth, mem), TWO_TAKEN + Commits(8), [EvKeyDone(encap)]);
    RunCons(t, EvKeyDone(encap), []);
    OtherAwaited(t, encap);
    OfferPasses(KeyDone(t, encap));
  }

  lemma OtherAwaited(t: State, encap: Option<seq<byte>>)
    requires Q.Enabled(t.keys, Q.Finish) && t.keys.run == [Q.Job(0, PTK), Q.Job(1, PTK)] && t.pending == []
    ensures var u := KeyDone(t, encap);
            u == t.(gate := false, keys := u.keys) && Awaited(u.keys)
  {
    var k := Q.Step(t.keys, Q.Finish);
    assert k.run == [Q.Job(1, PTK)] && Q.Job(1, PTK) in Waiting(k);
    assert KeyDone(t, encap) == t.(keys := k, gate := false);
  }
}
