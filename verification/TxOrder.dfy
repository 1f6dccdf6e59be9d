/** Order, class and conservation of data frames over every interleaving of the transmit path. */
module TxOrder {
  import opened Bytes
  import opened Frames
  import opened TxGate
  import C = Cam
  import Q = CamQueue

  function Ser(fs: seq<Frame>): (r: seq<nat>)
    ensures |r| == |fs| && forall i :: 0 <= i < |fs| ==> r[i] == fs[i].serial
  {
    seq(|fs|, i requires 0 <= i < |fs| => fs[i].serial)
  }

  lemma SerConcat(a: seq<Frame>, b: seq<Frame>)
    ensures Ser(a + b) == Ser(a) + Ser(b)
  {
  }

  // ---- acceptance order ----

  /** Acceptance n was a gated frame of this endpoint's class. */
  predicate Mine(log: seq<Frame>, n: nat, vo: bool) {
    n < |log| && Gated(log[n].bytes) && ForVo(log[n].bytes) == vo
  }

  ghost predicate InOrder(log: seq<Frame>, xs: seq<nat>, vo: bool) {
    forall i, j :: 0 <= i < j < |xs| && Mine(log, xs[i], vo) && Mine(log, xs[j], vo) ==> xs[i] < xs[j]
  }

  /** Everything that has left, will leave, or waits to be released towards an endpoint. */
  function Line(p: Pipe, pending: seq<Frame>): seq<nat> {
    Ser(p.wire) + Ser(p.queue) + Ser(pending)
  }

  ghost predicate OfClass(log: seq<Frame>, fs: seq<Frame>, vo: bool) {
    forall f :: f in fs ==> f.serial < |log| && ForVo(log[f.serial].bytes) == vo
  }

  ghost predicate Parked(log: seq<Frame>, fs: seq<Frame>) {
    forall f :: f in fs ==> f.serial < |log| && log[f.serial] == f && Gated(f.bytes)
  }

  ghost predicate PipeInv(log: seq<Frame>, p: Pipe, pending: seq<Frame>, vo: bool) {
    && OfClass(log, p.wire, vo)
    && OfClass(log, p.queue, vo)
    && InOrder(log, Line(p, pending), vo)
  }

  ghost predicate OrderInv(s: State) {
    && (s.pending != [] ==> s.gate)
    && Parked(s.accepted, s.pending)
    && PipeInv(s.accepted, s.be, s.pending, false)
    && PipeInv(s.accepted, s.vo, s.pending, true)
  }

  lemma InOrderDrop(log: seq<Frame>, a: seq<nat>, x: nat, b: seq<nat>, vo: bool)
    requires InOrder(log, a + [x] + b, vo)
    ensures InOrder(log, a + b, vo)
  {
    var all, cut := a + [x] + b, a + b;
    forall i, j | 0 <= i < j < |cut| && Mine(log, cut[i], vo) && Mine(log, cut[j], vo)
      ensures cut[i] < cut[j]
    {
      var i', j' := if i < |a| then i else i + 1, if j < |a| then j else j + 1;
      assert all[i'] == cut[i] && all[j'] == cut[j];
    }
  }

  lemma InOrderInsert(log: seq<Frame>, a: seq<nat>, x: nat, b: seq<nat>, vo: bool)
    requires InOrder(log, a + b, vo) && !Mine(log, x, vo)
    ensures InOrder(log, a + [x] + b, vo)
  {
    var all, cut := a + [x] + b, a + b;
    assert all[|a|] == x;
    forall i, j | 0 <= i < j < |all| && Mine(log, all[i], vo) && Mine(log, all[j], vo)
      ensures all[i] < all[j]
    {
      var i', j' := if i < |a| then i else i - 1, if j < |a| then j else j - 1;
      assert all[i] == cut[i'] && all[j] == cut[j'];
    }
  }

  /** A newly accepted frame may go to the end of the line. */
  lemma InOrderAppend(log: seq<Frame>, xs: seq<nat>, f: Frame, vo: bool)
    requires InOrder(log, xs, vo) && forall x :: x in xs ==> x < |log|
    ensures InOrder(log + [f], xs + [|log|], vo)
  {
    var all := xs + [|log|];
    forall i, j | 0 <= i < j < |all| && Mine(log + [f], all[i], vo) && Mine(log + [f], all[j], vo)
      ensures all[i] < all[j]
    {
      assert xs[i] in xs;
      if j < |xs| {
        assert xs[j] in xs;
        assert Mine(log, xs[i], vo) && Mine(log, xs[j], vo);
      }
    }
  }

  /** Growing the log changes nothing for frames accepted earlier. */
  lemma InOrderGrow(log: seq<Frame>, xs: seq<nat>, f: Frame, vo: bool)
    requires InOrder(log, xs, vo) && forall x :: x in xs ==> x < |log|
    ensures InOrder(log + [f], xs, vo)
  {
    forall i, j | 0 <= i < j < |xs| && Mine(log + [f], xs[i], vo) && Mine(log + [f], xs[j], vo)
      ensures xs[i] < xs[j]
    {
      assert xs[i] in xs && xs[j] in xs;
      assert Mine(log, xs[i], vo) && Mine(log, xs[j], vo);
    }
  }

  lemma LineBelow(log: seq<Frame>, p: Pipe, pending: seq<Frame>, vo: bool)
    requires Parked(log, pending) && PipeInv(log, p, pending, vo)
    ensures forall x :: x in Line(p, pending) ==> x < |log|
  {
    forall x | x in Line(p, pending)
      ensures x < |log|
    {
      if x in Ser(p.wire) {
        var i :| 0 <= i < |p.wire| && p.wire[i].serial == x;
      } else if x in Ser(p.queue) {
        var i :| 0 <= i < |p.queue| && p.queue[i].serial == x;
      } else {
        var i :| 0 <= i < |pending| && pending[i].serial == x;
      }
    }
  }

  // ---- transmit ----

  lemma ParkOrder(log: seq<Frame>, p: Pipe, pending: seq<Frame>, f: Frame, vo: bool)
    requires Parked(log, pending) && PipeInv(log, p, pending, vo) && f.serial == |log|
    ensures PipeInv(log + [f], p, pending + [f], vo)
  {
    LineBelow(log, p, pending, vo);
    InOrderAppend(log, Line(p, pending), f, vo);
    assert Line(p, pending + [f]) == Line(p, pending) + [|log|];
  }

  lemma OtherPipeOrder(log: seq<Frame>, p: Pipe, pending: seq<Frame>, f: Frame, vo: bool)
    requires Parked(log, pending) && PipeInv(log, p, pending, vo)
    ensures PipeInv(log + [f], p, pending, vo)
  {
    LineBelow(log, p, pending, vo);
    InOrderGrow(log, Line(p, pending), f, vo);
  }

  /** A frame that passes the gate may join the queue ahead of the parked ones. */
  lemma QueueOrder(log: seq<Frame>, p: Pipe, pending: seq<Frame>, f: Frame, vo: bool)
    requires Parked(log, pending) && PipeInv(log, p, pending, vo)
    requires f.serial == |log| && ForVo(f.bytes) == vo && (pending == [] || !Gated(f.bytes))
    ensures PipeInv(log + [f], Push(p, f), pending, vo)
  {
    LineBelow(log, p, pending, vo);
    var front := Ser(p.wire) + Ser(p.queue);
    if pending == [] {
      InOrderAppend(log, Line(p, pending), f, vo);
      assert Line(Push(p, f), pending) == Line(p, pending) + [|log|];
    } else {
      InOrderGrow(log, Line(p, pending), f, vo);
      InOrderInsert(log + [f], front, |log|, Ser(pending), vo);
      assert Line(Push(p, f), pending) == front + [|log|] + Ser(pending);
    }
  }

  lemma EnqueueOrder(s: State, addr: nat, b: seq<byte>, sealed: bool, node: bool)
    requires OrderInv(s)
    ensures OrderInv(Enqueue(s, addr, b, sealed, node))
  {
    if EnqueueVerdict(s, b) == Accepted {
      var f := Frame(addr, |s.accepted|, b, sealed, node);
      if Parks(s, b) {
        ParkOrder(s.accepted, s.be, s.pending, f, false);
        ParkOrder(s.accepted, s.vo, s.pending, f, true);
      } else if ForVo(b) {
        QueueOrder(s.accepted, s.vo, s.pending, f, true);
        OtherPipeOrder(s.accepted, s.be, s.pending, f, false);
      } else {
        QueueOrder(s.accepted, s.be, s.pending, f, false);
        OtherPipeOrder(s.accepted, s.vo, s.pending, f, true);
      }
    }
  }

  // ---- release, link-down, callbacks ----

  lemma SplitHead(p: Pipe, pending: seq<Frame>)
    requires pending != []
    ensures Line(p, pending) == Ser(p.wire) + Ser(p.queue) + [pending[0].serial] + Ser(pending[1..])
  {
    assert pending == [pending[0]] + pending[1..];
    SerConcat([pending[0]], pending[1..]);
    assert Ser([pending[0]]) == [pending[0].serial];
  }

  lemma UnparkOrder(log: seq<Frame>, p: Pipe, pending: seq<Frame>, vo: bool)
    requires pending != [] && PipeInv(log, p, pending, vo)
    ensures PipeInv(log, p, pending[1..], vo)
  {
    SplitHead(p, pending);
    InOrderDrop(log, Ser(p.wire) + Ser(p.queue), pending[0].serial, Ser(pending[1..]), vo);
  }

  lemma MoveOrder(log: seq<Frame>, p: Pipe, pending: seq<Frame>, g: Frame, vo: bool)
    requires pending != [] && Parked(log, pending) && PipeInv(log, p, pending, vo)
    requires g.serial == pending[0].serial && ForVo(pending[0].bytes) == vo
    ensures PipeInv(log, Push(p, g), pending[1..], vo)
  {
    SplitHead(p, pending);
    assert pending[0] in pending;
    assert Ser(Push(p, g).queue) == Ser(p.queue) + [g.serial];
    assert Line(Push(p, g), pending[1..]) == Line(p, pending);
  }

  lemma RouteOrder(s: State, vo: bool, g: Frame, pending: seq<Frame>, of: bool)
    requires pending != [] && Parked(s.accepted, pending) && PipeInv(s.accepted, At(s, of), pending, of)
    requires s.pending == pending[1..] && g.serial == pending[0].serial && ForVo(pending[0].bytes) == vo
    ensures PipeInv(s.accepted, At(Route(s, vo, g), of), pending[1..], of)
  {
    UnparkOrder(s.accepted, At(s, of), pending, of);
    if vo == of {
      MoveOrder(s.accepted, At(s, of), pending, g, of);
    }
  }

  lemma ReleaseOneOrder(s: State, encap: Option<seq<byte>>, of: bool)
    requires s.pending != [] && Parked(s.accepted, s.pending) && PipeInv(s.accepted, At(s, of), s.pending, of)
    ensures var t := ReleaseOne(s, encap);
            && t.pending == s.pending[1..] && t.accepted == s.accepted && t.gate == s.gate
            && PipeInv(t.accepted, At(t, of), t.pending, of)
  {
    var f := s.pending[0];
    RouteOrder(Unmark(s, f).(pending := s.pending[1..]), ForVo(f.bytes), Resealed(s, f, encap), s.pending, of);
  }

  lemma {:induction false} ReleaseAllOrder(s: State, encap: Option<seq<byte>>)
    requires Parked(s.accepted, s.pending)
    requires PipeInv(s.accepted, s.be, s.pending, false) && PipeInv(s.accepted, s.vo, s.pending, true)
    ensures var t := ReleaseAll(s, encap);
            t.pending == [] && t.accepted == s.accepted && t.gate == s.gate
            && PipeInv(t.accepted, t.be, [], false) && PipeInv(t.accepted, t.vo, [], true)
    decreases |s.pending|
  {
    if s.pending != [] {
      ReleaseOneOrder(s, encap, false);
      ReleaseOneOrder(s, encap, true);
      ReleaseAllOrder(ReleaseOne(s, encap), encap);
    }
  }

  lemma CutOrder(log: seq<Frame>, p: Pipe, pending: seq<Frame>, vo: bool)
    requires PipeInv(log, p, pending, vo)
    ensures PipeInv(log, p.(queue := []), [], vo)
  {
    var w := Ser(p.wire);
    assert Line(p.(queue := []), []) == w;
    assert forall i :: 0 <= i < |w| ==> w[i] == Line(p, pending)[i];
  }

  lemma SubmitOrder(log: seq<Frame>, p: Pipe, pending: seq<Frame>, vo: bool)
    requires PipeInv(log, p, pending, vo) && p.queue != []
    ensures PipeInv(log, Pipe(p.queue[1..], Some(p.queue[0]), p.wire + [p.queue[0]]), pending, vo)
  {
    var q := Pipe(p.queue[1..], Some(p.queue[0]), p.wire + [p.queue[0]]);
    assert p.queue[0] in p.queue;
    assert Ser(q.wire) + Ser(q.queue) == Ser(p.wire) + Ser(p.queue);
    assert Line(q, pending) == Line(p, pending);
  }

  lemma DiscardOrder(log: seq<Frame>, p: Pipe, pending: seq<Frame>, vo: bool)
    requires PipeInv(log, p, pending, vo) && p.queue != []
    ensures PipeInv(log, p.(queue := p.queue[1..]), pending, vo)
  {
    var back := Ser(p.queue[1..]) + Ser(pending);
    assert Ser(p.queue) == [p.queue[0].serial] + Ser(p.queue[1..]);
    assert Line(p, pending) == Ser(p.wire) + [p.queue[0].serial] + back;
    InOrderDrop(log, Ser(p.wire), p.queue[0].serial, back, vo);
    assert Line(p.(queue := p.queue[1..]), pending) == Ser(p.wire) + back;
  }

  lemma DrainOrder(log: seq<Frame>, p: Pipe, pending: seq<Frame>, vo: bool)
    requires PipeInv(log, p, pending, vo)
    ensures PipeInv(log, Drained(p), pending, vo)
  {
    if p.queue != [] {
      SubmitOrder(log, p, pending, vo);
      DiscardOrder(log, p, pending, vo);
    }
  }

  lemma SetupOrder(s: State, vo: bool)
    requires OrderInv(s)
    ensures OrderInv(Setup(s, vo))
  {
    DrainOrder(s.accepted, At(s, vo), s.pending, vo);
  }

  lemma TransmitOrder(s: State, addr: nat, b: seq<byte>, node: bool, whole: bool, encap: Option<seq<byte>>)
    requires OrderInv(s)
    ensures OrderInv(Transmit(s, addr, b, node, whole, encap))
  {
    var r := EncapIfNeeded(s, addr, b, node, whole, encap);
    if r.Go? {
      EnqueueOrder(r.state, addr, r.bytes, r.sealed, node);
    }
  }

  lemma StepOrder(s: State, e: Event)
    requires OrderInv(s) && Enabled(s, e)
    ensures OrderInv(Step(s, e))
  {
    match e
    case EvDefer(_) =>
    case EvEnqueue(addr, b, sealed, node) => EnqueueOrder(s, addr, b, sealed, node);
    case EvTransmit(addr, b, node, whole, encap) => TransmitOrder(s, addr, b, node, whole, encap);
    case EvKey(_) =>
    case EvCam(_) =>
    case EvKeyDone(encap) => ReleaseAllOrder(s.(keys := Q.Step(s.keys, Q.Finish), gate := false), encap);
    case EvLinkDown =>
      CutOrder(s.accepted, s.be, s.pending, false);
      CutOrder(s.accepted, s.vo, s.pending, true);
    case EvSetup(vo) => SetupOrder(s, vo);
    case EvCompleted(vo) =>
      assert OrderInv(Failed(s, vo));
      SetupOrder(Failed(s, vo), vo);
    case EvFailed(_) =>
  }

  lemma {:induction false} RunOrder(s: State, es: seq<Event>)
    requires OrderInv(s)
    ensures OrderInv(Run(s, es))
    decreases es
  {
    if es != [] {
      if Enabled(s, es[0]) {
        StepOrder(s, es[0]);
        RunOrder(Step(s, es[0]), es[1..]);
      } else {
        RunOrder(s, es[1..]);
      }
    }
  }

  predicate WasGated(s: State, f: Frame) {
    f.serial < |s.accepted| && Gated(s.accepted[f.serial].bytes)
  }

  ghost predicate SentInOrder(s: State, vo: bool) {
    var sent := At(s, vo).wire;
    && (forall f :: f in sent ==> f.serial < |s.accepted| && ForVo(s.accepted[f.serial].bytes) == vo)
    && (forall i, j | 0 <= i < j < |sent| && WasGated(s, sent[i]) && WasGated(s, sent[j]) ::
          sent[i].serial < sent[j].serial)
  }

  lemma OrderInvSends(s: State, vo: bool)
    requires OrderInv(s)
    ensures SentInOrder(s, vo)
  {
    var sent, line := At(s, vo).wire, Line(At(s, vo), s.pending);
    forall i, j | 0 <= i < j < |sent| && WasGated(s, sent[i]) && WasGated(s, sent[j])
      ensures sent[i].serial < sent[j].serial
    {
      assert sent[i] in sent && sent[j] in sent;
      assert line[i] == sent[i].serial && line[j] == sent[j].serial;
      assert Mine(s.accepted, line[i], vo) && Mine(s.accepted, line[j], vo);
    }
  }

  /** In every run: a frame leaves by the endpoint of the class it had when it was accepted, and
      Protected unicast data frames leave their endpoint in acceptance order, parked or not. */
  lemma AcceptanceOrder(depth: nat, mem: C.Memory, es: seq<Event>, vo: bool)
    ensures SentInOrder(Run(Init(depth, mem), es), vo)
  {
    RunOrder(Init(depth, mem), es);
    OrderInvSends(Run(Init(depth, mem), es), vo);
  }

  /** The pending queue is in use only while the gate is closed, and whatever opens the gate
      empties it in the same step. */
  lemma PendingOnlyBehindGate(depth: nat, mem: C.Memory, es: seq<Event>)
    ensures var s := Run(Init(depth, mem), es); !s.gate ==> s.pending == []
  {
    RunOrder(Init(depth, mem), es);
  }

  // ---- the key operations of a run ----

  lemma {:induction false} ReleaseKeepsKeys(s: State, encap: Option<seq<byte>>)
    ensures ReleaseAll(s, encap).keys == s.keys
    decreases |s.pending|
  {
    if s.pending != [] {
      ReleaseKeepsKeys(ReleaseOne(s, encap), encap);
    }
  }

  lemma StepKeys(s: State, e: Event)
    requires Q.Ordered(s.keys) && Enabled(s, e)
    ensures Q.Ordered(Step(s, e).keys)
  {
    match e
    case EvKey(op) => Q.StepOrdered(s.keys, Q.Submit(op));
    case EvCam(c) => Q.StepOrdered(s.keys, c);
    case EvKeyDone(encap) =>
      Q.StepOrdered(s.keys, Q.Finish);
      ReleaseKeepsKeys(s.(keys := Q.Step(s.keys, Q.Finish), gate := false), encap);
    case EvLinkDown => Q.StepOrdered(s.keys, Q.DropQueue);
    case _ =>
  }

  /** Interleaved with transmission and link-downs, key operations still run in order and at most once. */
  lemma {:induction false} RunKeys(s: State, es: seq<Event>)
    requires Q.Ordered(s.keys)
    ensures Q.Ordered(Run(s, es).keys)
    decreases es
  {
    if es != [] {
      if Enabled(s, es[0]) {
        StepKeys(s, es[0]);
        RunKeys(Step(s, es[0]), es[1..]);
      } else {
        RunKeys(s, es[1..]);
      }
    }
  }
}
