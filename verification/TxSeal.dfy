/** The deferred M4: when the one-slot marker and software encapsulation are sound. */
module TxSeal {
  import opened Bytes
  import opened Frames
  import opened TxGate
  import C = Cam
  import Q = CamQueue

  ghost predicate Distinct(fs: seq<Frame>) {
    forall i, j :: 0 <= i < j < |fs| ==> fs[i].addr != fs[j].addr
  }

  predicate Absent(fs: seq<Frame>, addr: nat) {
    forall f :: f in fs ==> f.addr != addr
  }

  /** Every Protected unicast data frame among these has been encapsulated. */
  predicate Sealed(fs: seq<Frame>) {
    forall f :: f in fs ==> Gated(f.bytes) ==> f.sealed
  }

  predicate PipeSealed(p: Pipe) {
    Sealed(p.queue) && Sealed(Flying(p)) && Sealed(p.wire)
  }

  /** The marker is null or names exactly one parked frame; every other parked frame, and every
      Protected unicast data frame in or beyond a data queue, has been encapsulated. */
  ghost predicate Good(s: State) {
    && Distinct(s.pending)
    && (s.marker.Some? ==> !Absent(s.pending, s.marker.value))
    && (forall f :: f in s.pending ==> f.sealed || s.marker == Some(f.addr))
    && PipeSealed(s.be) && PipeSealed(s.vo)
  }

  // ---- enqueueing ----

  lemma SealedAppend(fs: seq<Frame>, f: Frame)
    requires Sealed(fs) && (Gated(f.bytes) ==> f.sealed)
    ensures Sealed(fs + [f])
  {
  }

  lemma DistinctAppend(fs: seq<Frame>, f: Frame)
    requires Distinct(fs) && Absent(fs, f.addr)
    ensures Distinct(fs + [f])
  {
    var all := fs + [f];
    forall i, j | 0 <= i < j < |all|
      ensures all[i].addr != all[j].addr
    {
      assert fs[i] in fs;
    }
  }

  /** Parking a frame whose address is not yet parked. */
  lemma ParkGood(s: State, f: Frame, log: seq<Frame>)
    requires Distinct(s.pending) && Absent(s.pending, f.addr) && PipeSealed(s.be) && PipeSealed(s.vo)
    requires forall g :: g in s.pending ==> g.sealed || s.marker == Some(g.addr)
    requires s.marker.Some? ==> s.marker == Some(f.addr) || !Absent(s.pending, s.marker.value)
    ensures Good(s.(accepted := log, pending := s.pending + [f])) <==> (f.sealed || s.marker == Some(f.addr))
  {
    var all := s.pending + [f];
    DistinctAppend(s.pending, f);
    assert f in all;
    if s.marker.Some? && s.marker != Some(f.addr) {
      var g :| g in s.pending && g.addr == s.marker.value;
      assert g in all;
    }
  }

  /** A frame put in a data queue keeps soundness exactly if it is sealed or needs no sealing. */
  lemma PushGood(s: State, vo: bool, f: Frame, log: seq<Frame>)
    requires Good(s)
    ensures Good(With(s, vo, Push(At(s, vo), f)).(accepted := log)) <==> (Gated(f.bytes) ==> f.sealed)
  {
    var p := At(s, vo);
    assert f in Push(p, f).queue;
    if Gated(f.bytes) ==> f.sealed {
      SealedAppend(p.queue, f);
    }
  }

  /** Enqueueing an unsealed frame from a sound state is sound exactly if it is rejected or not a
      Protected unicast data frame; a sealed one always is. */
  lemma EnqueueGood(s: State, addr: nat, b: seq<byte>, sealed: bool, node: bool)
    requires Good(s) && Absent(s.pending, addr)
    ensures Good(Enqueue(s, addr, b, sealed, node))
            <==> (sealed || !Gated(b) || EnqueueVerdict(s, b) != Accepted)
  {
    if EnqueueVerdict(s, b) == Accepted {
      var f := Frame(addr, |s.accepted|, b, sealed, node);
      if Parks(s, b) {
        ParkGood(s, f, s.accepted + [f]);
      } else {
        PushGood(s, ForVo(b), f, s.accepted + [f]);
      }
    }
  }

  // ---- the two halves of a deferred transmit ----

  /** A thread has taken the marker for its M4 but not yet enqueued it. */
  ghost predicate HalfWay(s: State, addr: nat) {
    && s.marker == Some(addr) && Absent(s.pending, addr)
    && Good(s.(marker := None))
  }

  /** While the marker is still the frame's own: the gate must still be closed and the pending queue
      take the frame. */
  lemma MarkedHalfIff(s: State, addr: nat, b: seq<byte>, node: bool)
    requires HalfWay(s, addr)
    ensures Good(Enqueue(s, addr, b, false, node)) <==>
            s.gate && Gated(b) && SendableLength(|b|) && |s.pending| < PENDING_DEPTH
  {
    var t := Enqueue(s, addr, b, false, node);
    var f := Frame(addr, |s.accepted|, b, false, node);
    if EnqueueVerdict(s, b) == Accepted && Parks(s, b) {
      ParkGood(s, f, s.accepted + [f]);
    } else {
      assert t.pending == s.pending && t.marker == Some(addr);
    }
  }

  /** The enqueue half of a deferred M4, whatever came between the halves. With the marker still its own
      it ends in a sound state exactly when the gate is closed and the pending queue takes the frame. With
      the marker gone, exactly when the frame needs no encapsulation or is rejected: a closed gate no
      longer helps, for nothing will encapsulate the frame at release. */
  lemma SecondHalfIff(s: State, addr: nat, b: seq<byte>, node: bool)
    requires HalfWay(s, addr) || (Good(s) && s.marker != Some(addr) && Absent(s.pending, addr))
    ensures Good(Enqueue(s, addr, b, false, node)) <==>
            if s.marker == Some(addr) then
              s.gate && Gated(b) && SendableLength(|b|) && |s.pending| < PENDING_DEPTH
            else !Gated(b) || EnqueueVerdict(s, b) != Accepted
  {
    if s.marker == Some(addr) {
      MarkedHalfIff(s, addr, b, node);
    } else {
      EnqueueGood(s, addr, b, false, node);
    }
  }

  lemma DeferHalfWay(s: State, addr: nat)
    requires Good(s) && s.marker.None? && Absent(s.pending, addr)
    ensures HalfWay(Defer(s, addr), addr)
  {
    assert Defer(s, addr).(marker := None, gate := s.gate) == s;
  }

  /** Header bytes of an M4 without payload beyond its Key Information: a minimal EAPOL-Key frame. */
  const M4_FRAME: seq<byte> :=
    [0x08, 0x41, 0, 0] + seq(20, _ => 0) + [0xAA, 0xAA, 0x03, 0, 0, 0, 0x88, 0x8E, 2, 3, 0, 0, 2, 0x03, 0x0A, 0]

  lemma M4FrameFacts()
    ensures |M4_FRAME| == 40 && Gated(M4_FRAME) && IsM4(M4_FRAME) && ForVo(M4_FRAME)
  {
    var b := M4_FRAME;
    assert b[0] == 0x08 && b[1] == 0x41 && b[4] == 0;
    assert b[24] == 0xAA && b[25] == 0xAA && b[26] == 0x03 && b[30] == 0x88 && b[31] == 0x8E;
    assert b[33] == 3 && b[37] == 0x03 && b[38] == 0x0A;
  }

  /** The halves may be split by another thread: a link-down between them opens the gate, and the
      M4 reaches the VO queue marked Protected although nothing has encapsulated it. */
  lemma InterleavedHalvesLeak(depth: nat, mem: C.Memory)
    requires depth > 0
    ensures var s := Run(Init(depth, mem), [EvDefer(7), EvLinkDown, EvEnqueue(7, M4_FRAME, false, true)]);
            && |s.vo.queue| == 1 && s.vo.queue[0].bytes == M4_FRAME
            && Gated(s.vo.queue[0].bytes) && !s.vo.queue[0].sealed
  {
    M4FrameFacts();
    var s0 := Init(depth, mem);
    var e0, e1, e2 := EvDefer(7), EvLinkDown, EvEnqueue(7, M4_FRAME, false, true);
    var es := [e0, e1, e2];
    assert es[1..] == [e1, e2] && [e1, e2][1..] == [e2] && [e2][1..] == [];
    var s1 := Step(s0, e0);
    var s2 := Step(s1, e1);
    var s3 := Step(s2, e2);
    assert !s2.gate && s2.vo.queue == [];
    assert Run(s3, []) == s3;
    assert Run(s2, [e2]) == s3;
    assert Run(s1, [e1, e2]) == s3;
  }

  lemma ParkedUnmarked(s: State, encap: Option<seq<byte>>)
    requires s.gate && s.pending == [] && s.marker.None? && s.depth > 0
    requires s.vo == Pipe([], None, []) && s.accepted == []
    ensures var t := Enqueue(s, 7, M4_FRAME, false, true);
            && t.gate && |t.pending| == 1 && !Good(t)
            && ReleaseAll(t, encap).vo.queue == [Frame(7, 0, M4_FRAME, false, true)]
  {
    M4FrameFacts();
    var t, f := Enqueue(s, 7, M4_FRAME, false, true), Frame(7, 0, M4_FRAME, false, true);
    assert t.pending == [f] && t.vo == s.vo && f in t.pending;
    var r := ReleaseOne(t, encap);
    assert r.pending == [] && ReleaseAll(t, encap) == r;
  }

  /** An M4 deferred, the link down, and a pairwise key set. */
  lemma Reclosed(s: State) returns (t: State)
    requires s.pending == [] && s.vo == Pipe([], None, []) && s.accepted == [] && s.keys.queue == []
    ensures t == Step(Step(Step(s, EvDefer(7)), EvLinkDown), EvKey(PTK))
    ensures t.gate && t.pending == [] && t.marker.None? && t.depth == s.depth && t.vo == s.vo && t.accepted == []
  {
    t := Step(Step(Step(s, EvDefer(7)), EvLinkDown), EvKey(PTK));
  }

  /** Nor does it help that a new key closes the gate again before the second half: the M4 parks without
      the marker, and the release passes it on as it is, whatever encapsulation would have done. */
  lemma ReclosedGateLeaks(depth: nat, mem: C.Memory, encap: Option<seq<byte>>)
    requires depth > 0
    ensures var s := Run(Init(depth, mem), [EvDefer(7), EvLinkDown, EvKey(PTK), EvEnqueue(7, M4_FRAME, false, true)]);
            && s.gate && |s.pending| == 1 && !Good(s)
            && ReleaseAll(s, encap).vo.queue == [Frame(7, 0, M4_FRAME, false, true)]
  {
    var s0, e0, e1, e2 := Init(depth, mem), EvDefer(7), EvLinkDown, EvKey(PTK);
    var e3 := EvEnqueue(7, M4_FRAME, false, true);
    var s3 := Reclosed(s0);
    RunCons(s0, e0, [e1, e2, e3]);
    RunCons(Step(s0, e0), e1, [e2, e3]);
    RunCons(Step(Step(s0, e0), e1), e2, [e3]);
    RunCons(s3, e3, []);
    ParkedUnmarked(s3, encap);
  }

  // ---- transmit in one piece ----

  /** What makes a transmit sound, given the outcome of its encapsulation. A frame without a node or a
      whole header skips encapsulation, and an M4 whose encapsulation fails must get a parking place. */
  predicate TransmitSafe(s: State, b: seq<byte>, node: bool, whole: bool, encap: Option<seq<byte>>) {
    if !node || !whole || |b| < 24 then !Gated(b) || EnqueueVerdict(s, b) != Accepted
    else if IsProtected(b) || !IsM4(b) || encap.Some? || s.marker.Some? then true
    else !IsMulticast(b) && SendableLength(|b|) && |s.pending| < PENDING_DEPTH
  }

  lemma TransmitIff(s: State, addr: nat, b: seq<byte>, node: bool, whole: bool, encap: Option<seq<byte>>)
    requires Good(s) && Absent(s.pending, addr)
    ensures Good(Transmit(s, addr, b, node, whole, encap)) <==> TransmitSafe(s, b, node, whole, encap)
  {
    var r := EncapIfNeeded(s, addr, b, node, whole, encap);
    if r.Go? {
      if r.state == s {
        EnqueueGood(s, addr, r.bytes, r.sealed, node);
      } else {
        DeferHalfWay(s, addr);
        SecondHalfIff(r.state, addr, r.bytes, node);
      }
    }
  }

  /** What a caller can check before the call, the outcome of encapsulation being unknown. */
  predicate CallerSafe(s: State, b: seq<byte>, node: bool, whole: bool) {
    if !node || !whole || |b| < 24 then !Gated(b) || EnqueueVerdict(s, b) != Accepted
    else if IsProtected(b) || !IsM4(b) || s.marker.Some? then true
    else !IsMulticast(b) && SendableLength(|b|) && |s.pending| < PENDING_DEPTH
  }

  /** A transmit is sound whatever its encapsulation does exactly when its caller's condition holds. */
  lemma TransmitWhateverIff(s: State, addr: nat, b: seq<byte>, node: bool, whole: bool)
    requires Good(s) && Absent(s.pending, addr)
    ensures (forall encap: Option<seq<byte>> :: Good(Transmit(s, addr, b, node, whole, encap)))
            <==> CallerSafe(s, b, node, whole)
  {
    TransmitIff(s, addr, b, node, whole, None);
    forall encap: Option<seq<byte>>
      ensures CallerSafe(s, b, node, whole) ==> Good(Transmit(s, addr, b, node, whole, encap))
    {
      TransmitIff(s, addr, b, node, whole, encap);
    }
  }

  // ---- the other steps ----

  lemma RouteGood(s: State, vo: bool, g: Frame)
    requires Good(s) && (Gated(g.bytes) ==> g.sealed)
    ensures Good(Route(s, vo, g))
  {
    SealedAppend(At(s, vo).queue, g);
  }

  lemma ReleaseOneGood(s: State, encap: Option<seq<byte>>)
    requires Good(s) && s.pending != []
    ensures Good(ReleaseOne(s, encap))
  {
    var f, rest := s.pending[0], s.pending[1..];
    var t := Unmark(s, f).(pending := rest);
    assert f in s.pending;
    assert forall i :: 0 <= i < |rest| ==> rest[i] == s.pending[i + 1];
    assert Distinct(rest);
    forall g | g in rest
      ensures g in s.pending && g.addr != f.addr
    {
      var i :| 0 <= i < |rest| && rest[i] == g;
      assert s.pending[i + 1] == g;
    }
    if s.marker.Some? && s.marker != Some(f.addr) {
      var g :| g in s.pending && g.addr == s.marker.value;
      assert g in rest;
    }
    assert Good(t);
    RouteGood(t, ForVo(f.bytes), Resealed(s, f, encap));
  }

  lemma {:induction false} ReleaseAllGood(s: State, encap: Option<seq<byte>>)
    requires Good(s)
    ensures Good(ReleaseAll(s, encap)) && ReleaseAll(s, encap).gate == s.gate
    ensures ReleaseAll(s, encap).marker.None? && ReleaseAll(s, encap).keys == s.keys
    decreases |s.pending|
  {
    if s.pending != [] {
      ReleaseOneGood(s, encap);
      ReleaseAllGood(ReleaseOne(s, encap), encap);
    }
  }

  lemma SetupGood(s: State, vo: bool)
    requires Good(s)
    ensures Good(Setup(s, vo))
  {
    var p := At(s, vo);
    if p.queue != [] {
      assert p.queue[0] in p.queue;
      assert forall f :: f in p.queue[1..] ==> f in p.queue;
      SealedAppend(p.wire, p.queue[0]);
    }
  }

  /** Transmits are one step, and never of a frame that is already parked. */
  predicate Whole(s: State, e: Event) {
    !e.EvDefer? && !e.EvEnqueue? && (e.EvTransmit? ==> Absent(s.pending, e.addr))
  }

  predicate Safe(s: State, e: Event) {
    e.EvTransmit? ==> TransmitSafe(s, e.bytes, e.node, e.whole, e.encap)
  }

  lemma StepGoodIff(s: State, e: Event)
    requires Good(s) && Enabled(s, e) && Whole(s, e)
    ensures Good(Step(s, e)) <==> Safe(s, e)
  {
    match e
    case EvTransmit(addr, b, node, whole, encap) => TransmitIff(s, addr, b, node, whole, encap);
    case EvKeyDone(encap) =>
      var t := s.(keys := Q.Step(s.keys, Q.Finish));
      ReleaseAllGood(t.(gate := false), encap);
    case EvSetup(vo) => SetupGood(s, vo);
    case EvCompleted(vo) => SetupGood(Failed(s, vo), vo);
    case _ =>
  }

  ghost predicate AlwaysGood(s: State, es: seq<Event>)
    decreases es
  {
    Good(s) && (es != [] ==> AlwaysGood(Next(s, es[0]), es[1..]))
  }

  predicate AllWhole(s: State, es: seq<Event>)
    decreases es
  {
    es != [] ==> (Enabled(s, es[0]) ==> Whole(s, es[0])) && AllWhole(Next(s, es[0]), es[1..])
  }

  predicate AllSafe(s: State, es: seq<Event>)
    decreases es
  {
    es != [] ==> (Enabled(s, es[0]) ==> Safe(s, es[0])) && AllSafe(Next(s, es[0]), es[1..])
  }

  /** Over every run of undivided transmits with given encapsulation outcomes: the state is sound
      throughout exactly when each transmit met its condition for its outcome. */
  lemma {:induction false} SoundIffSafe(s: State, es: seq<Event>)
    requires Good(s) && AllWhole(s, es)
    ensures AlwaysGood(s, es) <==> AllSafe(s, es)
    decreases es
  {
    if es != [] {
      if Enabled(s, es[0]) {
        StepGoodIff(s, es[0]);
      }
      var t := Next(s, es[0]);
      if Good(t) {
        SoundIffSafe(t, es[1..]);
      } else {
        assert !AlwaysGood(t, es[1..]);
      }
    }
  }

  /** Safe transmits keep the marker and the encapsulation sound from the start to the end of a run. */
  lemma SafeRunGood(depth: nat, mem: C.Memory, es: seq<Event>)
    requires AllWhole(Init(depth, mem), es) && AllSafe(Init(depth, mem), es)
    ensures Good(Run(Init(depth, mem), es))
  {
    SoundIffSafe(Init(depth, mem), es);
    AlwaysGoodAtEnd(Init(depth, mem), es);
  }

  lemma {:induction false} AlwaysGoodAtEnd(s: State, es: seq<Event>)
    requires AlwaysGood(s, es)
    ensures Good(Run(s, es))
    decreases es
  {
    if es != [] {
      AlwaysGoodAtEnd(Next(s, es[0]), es[1..]);
    }
  }

  // ---- whatever encapsulation does ----

  /** The event with another outcome of its encapsulation. */
  function WithEncap(e: Event, outcome: Option<seq<byte>>): Event {
    if e.EvTransmit? then e.(encap := outcome) else e
  }

  /** One undivided event with this outcome; anything else is skipped. */
  function Turn(s: State, e: Event, outcome: Option<seq<byte>>): State {
    if Enabled(s, WithEncap(e, outcome)) && Whole(s, e) then Step(s, WithEncap(e, outcome)) else s
  }

  /** Sound throughout, whatever each encapsulation on the way turns out to do. */
  ghost predicate GoodWhatever(s: State, es: seq<Event>)
    decreases es
  {
    Good(s) && (es != [] ==> forall o: Option<seq<byte>> :: GoodWhatever(Turn(s, es[0], o), es[1..]))
  }

  /** Every caller's condition holds when it calls, whatever the encapsulations before did. */
  ghost predicate CallersSafe(s: State, es: seq<Event>)
    decreases es
  {
    es != [] ==>
      && (es[0].EvTransmit? && Whole(s, es[0]) ==> CallerSafe(s, es[0].bytes, es[0].node, es[0].whole))
      && forall o: Option<seq<byte>> :: CallersSafe(Turn(s, es[0], o), es[1..])
  }

  lemma TurnGoodIff(s: State, e: Event)
    requires Good(s)
    ensures (forall o: Option<seq<byte>> :: Good(Turn(s, e, o)))
            <==> (e.EvTransmit? && Whole(s, e) ==> CallerSafe(s, e.bytes, e.node, e.whole))
  {
    if e.EvTransmit? && Whole(s, e) {
      TransmitWhateverIff(s, e.addr, e.bytes, e.node, e.whole);
      forall o: Option<seq<byte>>
        ensures Turn(s, e, o) == Transmit(s, e.addr, e.bytes, e.node, e.whole, o)
      {
      }
      if !CallerSafe(s, e.bytes, e.node, e.whole) {
        var o: Option<seq<byte>> :| !Good(Transmit(s, e.addr, e.bytes, e.node, e.whole, o));
        assert !Good(Turn(s, e, o));
      }
    } else {
      forall o: Option<seq<byte>>
        ensures Good(Turn(s, e, o))
      {
        if Enabled(s, e) && Whole(s, e) {
          StepGoodIff(s, e);
        }
      }
    }
  }

  /** Over every run of undivided transmits: the state is sound throughout whatever encapsulation does
      exactly when every caller's condition held when it called. */
  lemma {:induction false} SoundIffCallerSafe(s: State, es: seq<Event>)
    requires Good(s)
    ensures GoodWhatever(s, es) <==> CallersSafe(s, es)
    decreases es
  {
    if es != [] {
      TurnGoodIff(s, es[0]);
      forall o: Option<seq<byte>>
        ensures var t := Turn(s, es[0], o);
                Good(t) ==> (GoodWhatever(t, es[1..]) <==> CallersSafe(t, es[1..]))
      {
        if Good(Turn(s, es[0], o)) {
          SoundIffCallerSafe(Turn(s, es[0], o), es[1..]);
        }
      }
    }
  }

  /** From the initial state, transmits whose callers heed their condition keep the marker and the
      encapsulation sound for ever, whatever encapsulation does. */
  lemma DeferredM4Sound(depth: nat, mem: C.Memory, es: seq<Event>)
    ensures GoodWhatever(Init(depth, mem), es) <==> CallersSafe(Init(depth, mem), es)
  {
    SoundIffCallerSafe(Init(depth, mem), es);
  }
}
