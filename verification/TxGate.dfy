/** The data transmit path as a state machine: the install gate, its pending queue, the one-slot
    M4 marker, the two data endpoints and the key queue. A step is one critical section of the
    driver lock; any number of transmitting threads may interleave their steps. */
module TxGate {
  import opened Bytes
  import opened Frames
  import C = Cam
  import Q = CamQueue

  const PENDING_DEPTH := 16

  /** An mbuf: its address (which the allocator may hand out again once the mbuf is freed), the
      number of its acceptance, its bytes, whether software encapsulation has run on it, and
      whether it carries a node reference. */
  datatype Frame = Frame(addr: nat, serial: nat, bytes: seq<byte>, sealed: bool, node: bool)

  /** A data endpoint: its queue, the frame handed to USB, and every frame ever handed to USB. */
  datatype Pipe = Pipe(queue: seq<Frame>, flight: Option<Frame>, wire: seq<Frame>)

  datatype State = State(depth: nat, gate: bool, marker: Option<nat>, pending: seq<Frame>,
                         be: Pipe, vo: Pipe, keys: Q.State, accepted: seq<Frame>, retired: seq<Frame>)

  function Init(depth: nat, mem: C.Memory): State {
    State(depth, false, None, [], Pipe([], None, []), Pipe([], None, []), Q.Init(mem), [], [])
  }

  datatype Verdict = Accepted | Invalid | TooLong | QueueFull | NotData

  // ---- rtw88_tx_enqueue_locked ----

  function At(s: State, vo: bool): Pipe {
    if vo then s.vo else s.be
  }

  function With(s: State, vo: bool, p: Pipe): State {
    if vo then s.(vo := p) else s.(be := p)
  }

  function Push(p: Pipe, f: Frame): Pipe {
    p.(queue := p.queue + [f])
  }

  predicate Parks(s: State, b: seq<byte>) {
    s.gate && Gated(b)
  }

  function EnqueueVerdict(s: State, b: seq<byte>): Verdict {
    if |b| == 0 || |b| > 0xFFFF then Invalid
    else if |b| + TX_DESC_SZ > TX_BUFSZ then TooLong
    else if !IsData(b) then NotData
    else if Parks(s, b) then if |s.pending| < PENDING_DEPTH then Accepted else QueueFull
    else if |At(s, ForVo(b)).queue| < s.depth then Accepted else QueueFull
  }

  function Enqueue(s: State, addr: nat, b: seq<byte>, sealed: bool, node: bool): State {
    if EnqueueVerdict(s, b) != Accepted then s
    else
      var f := Frame(addr, |s.accepted|, b, sealed, node);
      var t := s.(accepted := s.accepted + [f]);
      if Parks(s, b) then t.(pending := s.pending + [f])
      else With(t, ForVo(b), Push(At(s, ForVo(b)), f))
  }

  // ---- rtw88_crypto_encap_if_needed ----

  /** The critical section that defers an M4: the first one takes the marker and closes the gate. */
  function Defer(s: State, addr: nat): State {
    if s.marker.Some? then s else s.(marker := Some(addr), gate := true)
  }

  datatype Encap = Refused | Go(state: State, bytes: seq<byte>, sealed: bool)

  /** `encap` is what ieee80211_crypto_encap makes of the frame, None when it fails; `whole` says
      that the first buffer of the mbuf holds the 24-byte header. */
  function EncapIfNeeded(s: State, addr: nat, b: seq<byte>, node: bool, whole: bool, encap: Option<seq<byte>>)
    : (r: Encap)
    ensures r.Refused? <==> node && whole && |b| >= 24 && IsProtected(b) && encap.None?
    ensures r.Go? && r.sealed ==> encap == Some(r.bytes) && r.state == s
    ensures r.Go? && r.state != s ==>
              s.marker.None? && IsM4(b) && r.state == Defer(s, addr) && !r.sealed && r.bytes == SetProtected(b)
    ensures r.Go? && r.state == s && !r.sealed ==> r.bytes == b && (Gated(b) ==> !node || !whole)
  {
    if !node || !whole || |b| < 24 then Go(s, b, false)
    else if IsProtected(b) then
      if encap.Some? then Go(s, encap.value, true) else Refused
    else if !IsM4(b) then Go(s, b, false)
    else if encap.Some? then Go(s, encap.value, true)
    else if s.marker.Some? then Go(s, b, false)
    else Go(Defer(s, addr), SetProtected(b), false)
  }

  /** rtw88_transmit with nothing in between its two halves. */
  function Transmit(s: State, addr: nat, b: seq<byte>, node: bool, whole: bool, encap: Option<seq<byte>>): State {
    match EncapIfNeeded(s, addr, b, node, whole, encap)
    case Refused => s
    case Go(t, c, sealed) => Enqueue(t, addr, c, sealed, node)
  }

  // ---- rtw88_cam_task: releasing the pending queue ----

  function Unmark(s: State, f: Frame): State {
    if s.marker == Some(f.addr) then s.(marker := None) else s
  }

  /** The marked M4 gets a second attempt at encapsulation; if that fails it goes out in clear. */
  function Resealed(s: State, f: Frame, encap: Option<seq<byte>>): Frame {
    if s.marker != Some(f.addr) then f
    else if f.node && encap.Some? then f.(bytes := encap.value, sealed := true)
    else if |f.bytes| > 1 then f.(bytes := ClearProtected(f.bytes))
    else f
  }

  /** A released frame joins the queue of its endpoint, or is freed when that is full. */
  function Route(s: State, vo: bool, g: Frame): State {
    if |At(s, vo).queue| < s.depth then With(s, vo, Push(At(s, vo), g))
    else s.(retired := s.retired + [g])
  }

  /** One pass of the release loop, for the frame at the head of the pending queue. */
  function ReleaseOne(s: State, encap: Option<seq<byte>>): State
    requires s.pending != []
  {
    var f := s.pending[0];
    Route(Unmark(s, f).(pending := s.pending[1..]), ForVo(f.bytes), Resealed(s, f, encap))
  }

  function ReleaseAll(s: State, encap: Option<seq<byte>>): State
    decreases |s.pending|
  {
    if s.pending == [] then s else ReleaseAll(ReleaseOne(s, encap), encap)
  }

  /** The step that ends a key operation: a pairwise install opens the gate and empties the queue. */
  function KeyDone(s: State, encap: Option<seq<byte>>): State
    requires Q.Enabled(s.keys, Q.Finish)
  {
    var op := s.keys.run[0].op;
    var t := s.(keys := Q.Step(s.keys, Q.Finish));
    if op.Install? && !op.group then ReleaseAll(t.(gate := false), encap) else t
  }

  /** rtw88_vap_key_set: an accepted pairwise install closes the gate. */
  function KeySubmit(s: State, op: C.Op): State
    requires C.ValidOp(op)
  {
    var t := s.(keys := Q.Step(s.keys, Q.Submit(op)));
    if Q.Room(s.keys) && op.Install? && !op.group then t.(gate := true) else t
  }

  /** The last critical section of the link-down work. */
  function LinkDown(s: State): State {
    s.(gate := false, marker := None, pending := [], keys := Q.Step(s.keys, Q.DropQueue),
       be := s.be.(queue := []), vo := s.vo.(queue := []),
       retired := s.retired + s.pending + s.be.queue + s.vo.queue)
  }

  // ---- the endpoint callbacks ----

  /** The frame length as rtw88_bulk_tx_drain_q sees it: 16 bits wide. */
  predicate Submittable(f: Frame) {
    var n := |f.bytes| % 0x1_0000;
    n != 0 && n + TX_DESC_SZ <= TX_BUFSZ
  }

  function Drained(p: Pipe): Pipe {
    if p.queue == [] then p
    else if Submittable(p.queue[0]) then
      Pipe(p.queue[1..], Some(p.queue[0]), p.wire + [p.queue[0]])
    else p.(queue := p.queue[1..])
  }

  /** The frame that draining frees because it cannot be framed. */
  function Discarded(p: Pipe): seq<Frame> {
    if p.queue != [] && !Submittable(p.queue[0]) then [p.queue[0]] else []
  }

  function Flying(p: Pipe): seq<Frame> {
    if p.flight.Some? then [p.flight.value] else []
  }

  function Setup(s: State, vo: bool): State {
    With(s, vo, Drained(At(s, vo))).(retired := s.retired + Discarded(At(s, vo)))
  }

  /** A transfer completed: free the frame and chain the next one. */
  function Completed(s: State, vo: bool): State {
    Setup(Failed(s, vo), vo)
  }

  /** A transfer failed with an error other than cancellation: free the frame. */
  function Failed(s: State, vo: bool): State {
    With(s, vo, At(s, vo).(flight := None)).(retired := s.retired + Flying(At(s, vo)))
  }

  // ---- runs ----

  datatype Event =
    | EvDefer(addr: nat)
    | EvEnqueue(addr: nat, bytes: seq<byte>, sealed: bool, node: bool)
    | EvTransmit(addr: nat, bytes: seq<byte>, node: bool, whole: bool, encap: Option<seq<byte>>)
    | EvKey(op: C.Op)
    | EvCam(cam: Q.Event)
    | EvKeyDone(encap: Option<seq<byte>>)
    | EvLinkDown
    | EvSetup(vo: bool)
    | EvCompleted(vo: bool)
    | EvFailed(vo: bool)

  /** USB calls an endpoint back for a fresh start only when no transfer of it is active. */
  predicate Enabled(s: State, e: Event) {
    match e
    case EvDefer(_) => true
    case EvEnqueue(_, _, _, _) => true
    case EvTransmit(_, _, _, _, _) => true
    case EvKey(op) => C.ValidOp(op)
    case EvCam(c) => !c.Submit? && !c.Finish? && !c.DropQueue? && Q.Enabled(s.keys, c)
    case EvKeyDone(_) => Q.Enabled(s.keys, Q.Finish)
    case EvLinkDown => true
    case EvSetup(vo) => At(s, vo).flight.None?
    case EvCompleted(vo) => true
    case EvFailed(vo) => true
  }

  function Step(s: State, e: Event): State
    requires Enabled(s, e)
  {
    match e
    case EvDefer(addr) => Defer(s, addr)
    case EvEnqueue(addr, b, sealed, node) => Enqueue(s, addr, b, sealed, node)
    case EvTransmit(addr, b, node, whole, encap) => Transmit(s, addr, b, node, whole, encap)
    case EvKey(op) => KeySubmit(s, op)
    case EvCam(c) => s.(keys := Q.Step(s.keys, c))
    case EvKeyDone(encap) => KeyDone(s, encap)
    case EvLinkDown => LinkDown(s)
    case EvSetup(vo) => Setup(s, vo)
    case EvCompleted(vo) => Completed(s, vo)
    case EvFailed(vo) => Failed(s, vo)
  }

  function Next(s: State, e: Event): State {
    if Enabled(s, e) then Step(s, e) else s
  }

  function Run(s: State, es: seq<Event>): State
    decreases es
  {
    if es == [] then s else Run(Next(s, es[0]), es[1..])
  }

  lemma RunCons(s: State, e: Event, es: seq<Event>)
    requires Enabled(s, e)
    ensures Run(s, [e] + es) == Run(Step(s, e), es)
    ensures Run(s, [e]) == Step(s, e)
  {
    assert ([e] + es)[1..] == es && [e][1..] == [];
  }

  lemma {:induction false} RunConcat(s: State, a: seq<Event>, b: seq<Event>)
    ensures Run(s, a + b) == Run(Run(s, a), b)
    decreases a
  {
    if a == [] {
      assert a + b == b;
    } else {
      assert (a + b)[1..] == a[1..] + b;
      RunConcat(if Enabled(s, a[0]) then Step(s, a[0]) else s, a[1..], b);
    }
  }

  /** A pairwise key install, for runs that need one. */
  const PTK: C.Op := C.Install(4, 4, 0, false, [0, 0, 0, 0, 0, 0], [])
}
