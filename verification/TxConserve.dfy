/** Conservation: every accepted data frame is in exactly one place, and freed once. */
module TxConserve {
  import opened Bytes
  import opened Frames
  import opened TxGate
  import opened TxOrder
  import C = Cam
  import Q = CamQueue

  /** How often acceptance n occurs among these frames. */
  function Times(fs: seq<Frame>, n: nat): nat {
    multiset(Ser(fs))[n]
  }

  function One(f: Frame, n: nat): nat {
    if f.serial == n then 1 else 0
  }

  function Held(p: Pipe, n: nat): nat {
    Times(p.queue, n) + Times(Flying(p), n)
  }

  /** The places where an accepted frame can be: parked, queued, in flight, or freed. */
  function Places(s: State, n: nat): nat {
    Times(s.pending, n) + Held(s.be, n) + Held(s.vo, n) + Times(s.retired, n)
  }

  ghost predicate Conserved(s: State, n: nat) {
    Places(s, n) == if n < |s.accepted| then 1 else 0
  }

  lemma TimesConcat(a: seq<Frame>, b: seq<Frame>, n: nat)
    ensures Times(a + b, n) == Times(a, n) + Times(b, n)
  {
    SerConcat(a, b);
  }

  lemma TimesOne(f: Frame, n: nat)
    ensures Times([f], n) == One(f, n)
  {
    assert Ser([f]) == [f.serial];
  }

  lemma TimesLast(fs: seq<Frame>, f: Frame, n: nat)
    ensures Times(fs + [f], n) == Times(fs, n) + One(f, n)
  {
    TimesConcat(fs, [f], n);
    TimesOne(f, n);
  }

  lemma TimesHead(fs: seq<Frame>, n: nat)
    requires fs != []
    ensures Times(fs, n) == One(fs[0], n) + Times(fs[1..], n)
  {
    assert fs == [fs[0]] + fs[1..];
    TimesConcat([fs[0]], fs[1..], n);
    TimesOne(fs[0], n);
  }

  lemma PushPlaces(s: State, vo: bool, f: Frame, n: nat)
    ensures Places(With(s, vo, Push(At(s, vo), f)), n) == Places(s, n) + One(f, n)
  {
    TimesLast(At(s, vo).queue, f, n);
  }

  lemma ParkPlaces(s: State, f: Frame, n: nat)
    ensures Places(s.(pending := s.pending + [f]), n) == Places(s, n) + One(f, n)
  {
    TimesLast(s.pending, f, n);
  }

  lemma EnqueueConserves(s: State, addr: nat, b: seq<byte>, sealed: bool, node: bool, n: nat)
    requires Conserved(s, n)
    ensures Conserved(Enqueue(s, addr, b, sealed, node), n)
  {
    var f := Frame(addr, |s.accepted|, b, sealed, node);
    var t := s.(accepted := s.accepted + [f]);
    assert Places(t, n) == Places(s, n);
    ParkPlaces(t, f, n);
    PushPlaces(t, ForVo(b), f, n);
  }

  lemma UnparkPlaces(s: State, n: nat)
    requires s.pending != []
    ensures Places(s.(pending := s.pending[1..]), n) + One(s.pending[0], n) == Places(s, n)
  {
    TimesHead(s.pending, n);
  }

  lemma RoutePlaces(s: State, vo: bool, g: Frame, n: nat)
    ensures Places(Route(s, vo, g), n) == Places(s, n) + One(g, n)
  {
    PushPlaces(s, vo, g, n);
    TimesLast(s.retired, g, n);
  }

  lemma ReleaseOneConserves(s: State, encap: Option<seq<byte>>, n: nat)
    requires s.pending != []
    ensures Places(ReleaseOne(s, encap), n) == Places(s, n)
    ensures ReleaseOne(s, encap).accepted == s.accepted
  {
    var f := s.pending[0];
    var t := Unmark(s, f).(pending := s.pending[1..]);
    UnparkPlaces(s, n);
    RoutePlaces(t, ForVo(f.bytes), Resealed(s, f, encap), n);
  }

  lemma {:induction false} ReleaseAllConserves(s: State, encap: Option<seq<byte>>, n: nat)
    ensures Places(ReleaseAll(s, encap), n) == Places(s, n) && ReleaseAll(s, encap).accepted == s.accepted
    decreases |s.pending|
  {
    if s.pending != [] {
      ReleaseOneConserves(s, encap, n);
      ReleaseAllConserves(ReleaseOne(s, encap), encap, n);
    }
  }

  /** A fresh submission would overwrite the in-flight pointer. */
  predicate Overwrites(p: Pipe) {
    p.flight.Some? && p.queue != [] && Submittable(p.queue[0])
  }

  lemma DrainHeld(p: Pipe, n: nat)
    ensures Held(Drained(p), n) + Times(Discarded(p), n) + (if Overwrites(p) then One(p.flight.value, n) else 0)
            == Held(p, n)
  {
    if p.queue != [] {
      TimesHead(p.queue, n);
      TimesOne(p.queue[0], n);
      if p.flight.Some? {
        TimesOne(p.flight.value, n);
      }
    }
  }

  lemma SetupPlaces(s: State, vo: bool, n: nat)
    ensures var p := At(s, vo);
            Places(Setup(s, vo), n) + (if Overwrites(p) then One(p.flight.value, n) else 0) == Places(s, n)
  {
    DrainHeld(At(s, vo), n);
    TimesConcat(s.retired, Discarded(At(s, vo)), n);
  }

  /** Draining an endpoint keeps conservation exactly when no in-flight frame is overwritten,
      which is why endpoints must not be cancelled before teardown. */
  lemma SetupConservesIff(s: State, vo: bool)
    requires forall n :: Conserved(s, n)
    ensures (forall n :: Conserved(Setup(s, vo), n)) <==> !Overwrites(At(s, vo))
  {
    var t := Setup(s, vo);
    forall n
      ensures !Overwrites(At(s, vo)) ==> Conserved(t, n)
    {
      SetupPlaces(s, vo, n);
      assert Conserved(s, n);
    }
    if Overwrites(At(s, vo)) {
      var lost := At(s, vo).flight.value.serial;
      SetupPlaces(s, vo, lost);
      assert Conserved(s, lost) && !Conserved(t, lost);
    }
  }

  lemma FailedPlaces(s: State, vo: bool, n: nat)
    ensures Places(Failed(s, vo), n) == Places(s, n) && !Overwrites(At(Failed(s, vo), vo))
  {
    TimesConcat(s.retired, Flying(At(s, vo)), n);
    assert Flying(At(Failed(s, vo), vo)) == [];
    assert Ser([]) == [];
  }

  lemma LinkDownPlaces(s: State, n: nat)
    ensures Places(LinkDown(s), n) == Places(s, n)
  {
    TimesConcat(s.retired, s.pending, n);
    TimesConcat(s.retired + s.pending, s.be.queue, n);
    TimesConcat(s.retired + s.pending + s.be.queue, s.vo.queue, n);
    assert Ser([]) == [];
  }

  lemma TransmitConserves(s: State, addr: nat, b: seq<byte>, node: bool, whole: bool, encap: Option<seq<byte>>, n: nat)
    requires Conserved(s, n)
    ensures Conserved(Transmit(s, addr, b, node, whole, encap), n)
  {
    var r := EncapIfNeeded(s, addr, b, node, whole, encap);
    if r.Go? {
      EnqueueConserves(r.state, addr, r.bytes, r.sealed, node, n);
    }
  }

  lemma KeyDoneConserves(s: State, encap: Option<seq<byte>>, n: nat)
    requires Conserved(s, n) && Q.Enabled(s.keys, Q.Finish)
    ensures Conserved(KeyDone(s, encap), n)
  {
    ReleaseAllConserves(s.(keys := Q.Step(s.keys, Q.Finish), gate := false), encap, n);
  }

  lemma CompletedPlaces(s: State, vo: bool, n: nat)
    ensures Places(Completed(s, vo), n) == Places(s, n)
  {
    FailedPlaces(s, vo, n);
    SetupPlaces(Failed(s, vo), vo, n);
  }

  /** Marker, gate and key operations leave the frames where they are. */
  predicate SamePlaces(s: State, t: State) {
    t.pending == s.pending && t.be == s.be && t.vo == s.vo && t.retired == s.retired && t.accepted == s.accepted
  }

  lemma LinkDownConserves(s: State, n: nat)
    requires Conserved(s, n)
    ensures Conserved(LinkDown(s), n)
  {
    LinkDownPlaces(s, n);
  }

  lemma SetupConserves(s: State, vo: bool, n: nat)
    requires Conserved(s, n) && At(s, vo).flight.None?
    ensures Conserved(Setup(s, vo), n)
  {
    SetupPlaces(s, vo, n);
  }

  lemma CompletedConserves(s: State, vo: bool, n: nat)
    requires Conserved(s, n)
    ensures Conserved(Completed(s, vo), n)
  {
    CompletedPlaces(s, vo, n);
  }

  lemma FailedConserves(s: State, vo: bool, n: nat)
    requires Conserved(s, n)
    ensures Conserved(Failed(s, vo), n)
  {
    FailedPlaces(s, vo, n);
  }

  lemma StepConserves(s: State, e: Event, n: nat)
    requires Conserved(s, n) && Enabled(s, e)
    ensures Conserved(Step(s, e), n)
  {
    match e
    case EvEnqueue(addr, b, sealed, node) => EnqueueConserves(s, addr, b, sealed, node, n);
    case EvTransmit(addr, b, node, whole, encap) => TransmitConserves(s, addr, b, node, whole, encap, n);
    case EvKeyDone(encap) => KeyDoneConserves(s, encap, n);
    case EvLinkDown => LinkDownConserves(s, n);
    case EvSetup(vo) => SetupConserves(s, vo, n);
    case EvCompleted(vo) => CompletedConserves(s, vo, n);
    case EvFailed(vo) => FailedConserves(s, vo, n);
    case _ => assert SamePlaces(s, Step(s, e));
  }

  lemma {:induction false} RunConserves(s: State, es: seq<Event>, n: nat)
    requires Conserved(s, n)
    ensures Conserved(Run(s, es), n)
    decreases es
  {
    if es != [] {
      if Enabled(s, es[0]) {
        StepConserves(s, es[0], n);
        RunConserves(Step(s, es[0]), es[1..], n);
      } else {
        RunConserves(s, es[1..], n);
      }
    }
  }

  /** In every run each accepted frame is in exactly one place: the pending queue, an endpoint's
      queue, an endpoint's in-flight slot, or freed, and freed at most once. */
  lemma EveryFrameInOnePlace(depth: nat, mem: C.Memory, es: seq<Event>, n: nat)
    ensures var s := Run(Init(depth, mem), es);
            n < |s.accepted| ==>
              Times(s.pending, n) + Times(s.be.queue, n) + Times(Flying(s.be), n)
              + Times(s.vo.queue, n) + Times(Flying(s.vo), n) + Times(s.retired, n) == 1
  {
    assert Ser([]) == [];
    RunConserves(Init(depth, mem), es, n);
  }
}
