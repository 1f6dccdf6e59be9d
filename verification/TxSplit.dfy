/** Transmit as it really runs: in two critical sections, with any number of threads between their halves. */
module TxSplit {
  import opened Bytes
  import opened Frames
  import opened TxGate
  import opened TxSeal
  import C = Cam
  import Q = CamQueue

  /** What a thread holds after rtw88_crypto_encap_if_needed, on its way to rtw88_tx_enqueue_locked. */
  datatype Hand = Hand(bytes: seq<byte>, sealed: bool, node: bool)

  /** The transmit state, and the frames in the hands of threads, by address. */
  datatype Split = Split(s: State, hands: map<nat, Hand>)

  datatype Move =
    | Prepare(addr: nat, bytes: seq<byte>, node: bool, whole: bool, encap: Option<seq<byte>>)
    | Submit(addr: nat)
    | Other(event: Event)

  predicate IsTransmit(e: Event) {
    e.EvTransmit? || e.EvDefer? || e.EvEnqueue?
  }

  /** An address that a thread holds or that is parked is not handed out again. */
  predicate Free(x: Split, addr: nat) {
    addr !in x.hands && Absent(x.s.pending, addr)
  }

  predicate MayMove(x: Split, m: Move) {
    match m
    case Prepare(addr, _, _, _, _) => Free(x, addr)
    case Submit(addr) => addr in x.hands
    case Other(e) => !IsTransmit(e) && Enabled(x.s, e)
  }

  function Submitted(x: Split, addr: nat): Split
    requires addr in x.hands
  {
    var h := x.hands[addr];
    Split(Enqueue(x.s, addr, h.bytes, h.sealed, h.node), x.hands - {addr})
  }

  /** One move; an impossible one is skipped. */
  function Moved(x: Split, m: Move): Split {
    if !MayMove(x, m) then x
    else match m
      case Prepare(addr, b, node, whole, encap) =>
        (match EncapIfNeeded(x.s, addr, b, node, whole, encap)
         case Refused => x
         case Go(t, c, sealed) => Split(t, x.hands[addr := Hand(c, sealed, node)]))
      case Submit(addr) => Submitted(x, addr)
      case Other(e) => x.(s := Step(x.s, e))
  }

  function Play(x: Split, ms: seq<Move>): Split
    decreases ms
  {
    if ms == [] then x else Play(Moved(x, ms[0]), ms[1..])
  }

  // ---- soundness with frames in hand ----

  predicate MarkerHeld(x: Split) {
    x.s.marker.Some? && x.s.marker.value in x.hands
  }

  /** The state without a marker that belongs to a frame still in hand. */
  function Rest(x: Split): State {
    if MarkerHeld(x) then x.s.(marker := None) else x.s
  }

  /** The marker is null, or names a frame in the hands of the thread that deferred it, or exactly one
      parked frame; and every Protected unicast data frame in or beyond a data queue is encapsulated. */
  ghost predicate Sound(x: Split) {
    && Good(Rest(x))
    && (forall a :: a in x.hands ==> Absent(x.s.pending, a))
    && (MarkerHeld(x) ==> !x.hands[x.s.marker.value].sealed)
  }

  /** When a second half is safe: with the marker still this frame's, the gate must be closed and the
      pending queue take it; else it must be encapsulated, need none, or be rejected. */
  predicate SubmitSafe(x: Split, addr: nat)
    requires addr in x.hands
  {
    var h := x.hands[addr];
    if x.s.marker == Some(addr) then
      x.s.gate && Gated(h.bytes) && SendableLength(|h.bytes|) && |x.s.pending| < PENDING_DEPTH
    else h.sealed || !Gated(h.bytes) || EnqueueVerdict(x.s, h.bytes) != Accepted
  }

  predicate MoveSafe(x: Split, m: Move) {
    m.Submit? && m.addr in x.hands ==> SubmitSafe(x, m.addr)
  }

  // ---- the first half ----

  lemma PrepareSound(x: Split, m: Move)
    requires Sound(x) && m.Prepare? && MayMove(x, m)
    ensures Sound(Moved(x, m))
  {
    var y := Moved(x, m);
    var r := EncapIfNeeded(x.s, m.addr, m.bytes, m.node, m.whole, m.encap);
    if r.Go? && r.state != x.s {
      assert x.s.marker.None? && y.s.marker == Some(m.addr);
      assert Rest(y) == x.s.(gate := true);
    } else if r.Go? {
      assert x.s.marker != Some(m.addr);
      assert Rest(y) == Rest(x);
    }
  }

  // ---- the second half ----

  lemma EnqueueKeepsRest(s: State, addr: nat, h: Hand)
    ensures Enqueue(s, addr, h.bytes, h.sealed, h.node).(marker := None)
            == Enqueue(s.(marker := None), addr, h.bytes, h.sealed, h.node)
    ensures Enqueue(s, addr, h.bytes, h.sealed, h.node).marker == s.marker
  {
  }

  lemma EnqueueAbsent(s: State, addr: nat, h: Hand, other: nat)
    requires Absent(s.pending, other) && other != addr
    ensures Absent(Enqueue(s, addr, h.bytes, h.sealed, h.node).pending, other)
  {
  }

  lemma SubmitGoodIff(x: Split, addr: nat)
    requires Sound(x) && addr in x.hands
    ensures Good(Rest(Submitted(x, addr))) <==> SubmitSafe(x, addr)
  {
    var h, y := x.hands[addr], Submitted(x, addr);
    EnqueueKeepsRest(x.s, addr, h);
    if x.s.marker == Some(addr) {
      assert Rest(y) == y.s;
      MarkedHalfIff(x.s, addr, h.bytes, h.node);
    } else {
      assert MarkerHeld(y) == MarkerHeld(x);
      assert Rest(y) == Enqueue(Rest(x), addr, h.bytes, h.sealed, h.node);
      EnqueueGood(Rest(x), addr, h.bytes, h.sealed, h.node);
    }
  }

  lemma SubmitSoundIff(x: Split, addr: nat)
    requires Sound(x) && addr in x.hands
    ensures Sound(Submitted(x, addr)) <==> SubmitSafe(x, addr)
  {
    var h, y := x.hands[addr], Submitted(x, addr);
    SubmitGoodIff(x, addr);
    EnqueueKeepsRest(x.s, addr, h);
    forall a | a in y.hands
      ensures Absent(y.s.pending, a)
    {
      EnqueueAbsent(x.s, addr, h, a);
    }
  }

  // ---- everything else ----

  lemma {:induction false} ReleaseKeepsMarker(s: State, encap: Option<seq<byte>>)
    requires s.marker.Some? && Absent(s.pending, s.marker.value)
    ensures ReleaseAll(s, encap).marker == s.marker && ReleaseAll(s, encap).pending == []
    ensures ReleaseAll(s, encap).(marker := None) == ReleaseAll(s.(marker := None), encap)
    decreases |s.pending|
  {
    if s.pending != [] {
      var f := s.pending[0];
      assert f in s.pending;
      assert forall g :: g in s.pending[1..] ==> g in s.pending;
      assert ReleaseOne(s, encap).(marker := None) == ReleaseOne(s.(marker := None), encap);
      ReleaseKeepsMarker(ReleaseOne(s, encap), encap);
    }
  }

  lemma {:induction false} ReleaseEmpties(s: State, encap: Option<seq<byte>>)
    ensures ReleaseAll(s, encap).pending == []
    decreases |s.pending|
  {
    if s.pending != [] {
      ReleaseEmpties(ReleaseOne(s, encap), encap);
    }
  }

  lemma KeyDoneSound(x: Split, encap: Option<seq<byte>>)
    requires Sound(x) && Q.Enabled(x.s.keys, Q.Finish)
    ensures Sound(x.(s := KeyDone(x.s, encap)))
  {
    var t := x.s.(keys := Q.Step(x.s.keys, Q.Finish));
    var u := t.(gate := false);
    ReleaseEmpties(u, encap);
    if MarkerHeld(x) {
      ReleaseKeepsMarker(u, encap);
      assert u.(marker := None) == Rest(x).(keys := t.keys, gate := false);
      ReleaseAllGood(u.(marker := None), encap);
    } else {
      ReleaseAllGood(u, encap);
    }
  }

  /** A step that leaves marker and pending queue alone. */
  lemma SameParked(x: Split, t: State)
    requires Sound(x) && t.marker == x.s.marker && t.pending == x.s.pending
    requires Good(if MarkerHeld(x) then t.(marker := None) else t)
    ensures Sound(x.(s := t))
  {
  }

  lemma SetupSound(x: Split, vo: bool)
    requires Sound(x)
    ensures Sound(x.(s := Setup(x.s, vo)))
  {
    SetupGood(Rest(x), vo);
    var t := Setup(x.s, vo);
    assert Setup(Rest(x), vo) == if MarkerHeld(x) then t.(marker := None) else t;
    SameParked(x, t);
  }

  lemma FailedSound(x: Split, vo: bool)
    requires Sound(x)
    ensures Sound(x.(s := Failed(x.s, vo)))
  {
    var t := Failed(x.s, vo);
    assert Good(Failed(Rest(x), vo));
    assert Failed(Rest(x), vo) == if MarkerHeld(x) then t.(marker := None) else t;
    SameParked(x, t);
  }

  lemma OtherSound(x: Split, e: Event)
    requires Sound(x) && !IsTransmit(e) && Enabled(x.s, e)
    ensures Sound(x.(s := Step(x.s, e)))
  {
    match e
    case EvKeyDone(encap) => KeyDoneSound(x, encap);
    case EvSetup(vo) => SetupSound(x, vo);
    case EvFailed(vo) => FailedSound(x, vo);
    case EvCompleted(vo) =>
      FailedSound(x, vo);
      SetupSound(x.(s := Failed(x.s, vo)), vo);
    case _ =>
  }

  /** Only a second half can break soundness, and exactly when it is not safe. */
  lemma MoveSoundIff(x: Split, m: Move)
    requires Sound(x)
    ensures Sound(Moved(x, m)) <==> MoveSafe(x, m)
  {
    match m
    case Prepare(addr, _, _, _, _) => if MayMove(x, m) { PrepareSound(x, m); }
    case Submit(addr) => if MayMove(x, m) { SubmitSoundIff(x, addr); }
    case Other(e) => if MayMove(x, m) { OtherSound(x, e); }
  }

  // ---- schedules ----

  ghost predicate AlwaysSound(x: Split, ms: seq<Move>)
    decreases ms
  {
    Sound(x) && (ms != [] ==> AlwaysSound(Moved(x, ms[0]), ms[1..]))
  }

  predicate SubmitsSafe(x: Split, ms: seq<Move>)
    decreases ms
  {
    ms != [] ==> MoveSafe(x, ms[0]) && SubmitsSafe(Moved(x, ms[0]), ms[1..])
  }

  lemma {:induction false} ScheduleSoundIff(x: Split, ms: seq<Move>)
    requires Sound(x)
    ensures AlwaysSound(x, ms) <==> SubmitsSafe(x, ms)
    decreases ms
  {
    if ms != [] {
      MoveSoundIff(x, ms[0]);
      var y := Moved(x, ms[0]);
      if Sound(y) {
        ScheduleSoundIff(y, ms[1..]);
      } else {
        assert !AlwaysSound(y, ms[1..]);
      }
    }
  }

  /** Over every schedule of split transmits, any number of threads between their halves and anything else
      in between: marker and encapsulation are sound throughout exactly when every second half, as it ran,
      either still owned the marker and was parked behind a closed gate, or was encapsulated, needed no
      encapsulation, or was rejected. */
  lemma SplitSoundIff(depth: nat, mem: C.Memory, ms: seq<Move>)
    ensures var x := Split(Init(depth, mem), map[]);
            AlwaysSound(x, ms) <==> SubmitsSafe(x, ms)
  {
    ScheduleSoundIff(Split(Init(depth, mem), map[]), ms);
  }

  lemma {:induction false} SoundAtEnd(x: Split, ms: seq<Move>)
    requires AlwaysSound(x, ms)
    ensures Sound(Play(x, ms))
    decreases ms
  {
    if ms != [] {
      SoundAtEnd(Moved(x, ms[0]), ms[1..]);
    }
  }

  /** So with safe second halves, every Protected unicast data frame ever handed to USB was encapsulated. */
  lemma SafeSplitsSendSealed(depth: nat, mem: C.Memory, ms: seq<Move>, vo: bool)
    requires SubmitsSafe(Split(Init(depth, mem), map[]), ms)
    ensures Sealed(At(Play(Split(Init(depth, mem), map[]), ms).s, vo).wire)
  {
    var x := Split(Init(depth, mem), map[]);
    SplitSoundIff(depth, mem, ms);
    SoundAtEnd(x, ms);
    assert Good(Rest(Play(x, ms)));
  }

  // ---- split schedules are runs ----

  /** The run event of a move, if it changes the transmit state. */
  function EventsOf(x: Split, m: Move): seq<Event> {
    if !MayMove(x, m) then []
    else match m
      case Prepare(addr, b, node, whole, encap) =>
        var r := EncapIfNeeded(x.s, addr, b, node, whole, encap);
        if r.Go? && r.state != x.s then [EvDefer(addr)] else []
      case Submit(addr) => [EvEnqueue(addr, x.hands[addr].bytes, x.hands[addr].sealed, x.hands[addr].node)]
      case Other(e) => [e]
  }

  function RunOf(x: Split, ms: seq<Move>): seq<Event>
    decreases ms
  {
    if ms == [] then [] else EventsOf(x, ms[0]) + RunOf(Moved(x, ms[0]), ms[1..])
  }

  /** So order, class and conservation, proved for every run, hold of split transmits. */
  lemma {:induction false} ScheduleIsRun(x: Split, ms: seq<Move>)
    ensures Play(x, ms).s == Run(x.s, RunOf(x, ms))
    decreases ms
  {
    if ms != [] {
      var es, y := EventsOf(x, ms[0]), Moved(x, ms[0]);
      ScheduleIsRun(y, ms[1..]);
      if es != [] {
        assert es == [es[0]] && (es + RunOf(y, ms[1..]))[1..] == RunOf(y, ms[1..]);
      } else {
        assert es + RunOf(y, ms[1..]) == RunOf(y, ms[1..]);
      }
    }
  }
}
