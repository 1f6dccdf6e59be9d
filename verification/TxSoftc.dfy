/** The driver's own routines on its soft state, each proved to carry out one step of TxGate. */
module TxSoftc {
  import opened Bytes
  import opened Frames
  import G = TxGate
  import C = Cam
  import Q = CamQueue

  datatype UsbStatus = Transferred | SetUp | Error

  class Softc {
    const depth: nat
    const mgmtDepth: nat
    var ptkInstallPending: bool
    var m4NeedsEncap: Option<nat>
    var pendingQ: seq<G.Frame>
    var be: G.Pipe    // sc_tx_data_q, sc_tx_data_inflight
    var vo: G.Pipe    // sc_tx_data_vo_q, sc_tx_data_vo_inflight
    var mgmtQ: seq<seq<byte>>
    var cam: Q.State  // sc_cam_q, sc_stat_cam_fails and the worker's local copy
    ghost var accepted: seq<G.Frame>
    ghost var retired: seq<G.Frame>
    var nextSerial: nat

    ghost predicate Valid()
      reads this
    {
      nextSerial == |accepted|
    }

    ghost function State(): G.State
      reads this
    {
      G.State(depth, ptkInstallPending, m4NeedsEncap, pendingQ, be, vo, cam, accepted, retired)
    }

    constructor (depth: nat, mgmtDepth: nat, mem: C.Memory)
      ensures Valid() && State() == G.Init(depth, mem) && mgmtQ == [] && this.mgmtDepth == mgmtDepth
    {
      this.depth, this.mgmtDepth, mgmtQ := depth, mgmtDepth, [];
      ptkInstallPending, m4NeedsEncap, pendingQ := false, None, [];
      be, vo, cam := G.Pipe([], None, []), G.Pipe([], None, []), Q.Init(mem);
      accepted, retired, nextSerial := [], [], 0;
    }

    /** mbufq_enqueue on a data queue. */
    method QueueData(toVo: bool, f: G.Frame) returns (ok: bool)
      modifies `be, `vo
      ensures ok == (|G.At(old(State()), toVo).queue| < depth)
      ensures State() == if ok then G.With(old(State()), toVo, G.Push(G.At(old(State()), toVo), f)) else old(State())
    {
      if toVo {
        ok := |vo.queue| < depth;
        if ok { vo := vo.(queue := vo.queue + [f]); }
      } else {
        ok := |be.queue| < depth;
        if ok { be := be.(queue := be.queue + [f]); }
      }
    }

    /** rtw88_tx_enqueue_locked */
    method TxEnqueue(addr: nat, b: seq<byte>, sealed: bool, node: bool) returns (v: G.Verdict)
      requires Valid()
      modifies this
      ensures Valid()
      ensures G.EnqueueVerdict(old(State()), b) != G.NotData ==>
                v == G.EnqueueVerdict(old(State()), b) && mgmtQ == old(mgmtQ)
      ensures G.EnqueueVerdict(old(State()), b) == G.NotData ==>
                if |old(mgmtQ)| < mgmtDepth then v == G.Accepted && mgmtQ == old(mgmtQ) + [b]
                else v == G.QueueFull && mgmtQ == old(mgmtQ)
      ensures State() == G.Enqueue(old(State()), addr, b, sealed, node)
    {
      if |b| == 0 || |b| > 0xFFFF {
        return G.Invalid;
      }
      if |b| + TX_DESC_SZ > TX_BUFSZ {
        return G.TooLong;
      }
      if !IsData(b) {
        if |mgmtQ| >= mgmtDepth {
          return G.QueueFull;
        }
        mgmtQ := mgmtQ + [b];
        return G.Accepted;
      }
      var f := G.Frame(addr, nextSerial, b, sealed, node);
      if ptkInstallPending && |b| >= 24 && IsProtected(b) && !IsMulticast(b) {
        if |pendingQ| >= G.PENDING_DEPTH {
          return G.QueueFull;
        }
        pendingQ := pendingQ + [f];
      } else {
        var ok := QueueData(ForVo(b), f);
        if !ok {
          return G.QueueFull;
        }
      }
      accepted, nextSerial := accepted + [f], nextSerial + 1;
      return G.Accepted;
    }

    /** rtw88_crypto_encap_if_needed; `refused` stands for its error return. */
    method EncapIfNeeded(addr: nat, b: seq<byte>, node: bool, whole: bool, encap: Option<seq<byte>>)
      returns (refused: bool, out: seq<byte>, sealed: bool)
      modifies `m4NeedsEncap, `ptkInstallPending
      ensures var r := G.EncapIfNeeded(old(State()), addr, b, node, whole, encap);
              if refused then r.Refused? && State() == old(State())
              else r == G.Go(State(), out, sealed)
    {
      refused, out, sealed := false, b, false;
      if !node || !whole || |b| < 24 {
        return;
      }
      if !IsProtected(b) {
        if IsM4(b) {
          out := SetProtected(b);
          if encap.Some? {
            return false, encap.value, true;
          }
          if m4NeedsEncap.Some? {
            out := b;
            return;
          }
          m4NeedsEncap, ptkInstallPending := Some(addr), true;
        }
        return;
      }
      if encap.None? {
        refused := true;
      } else {
        out, sealed := encap.value, true;
      }
    }

    /** rtw88_vap_key_set and rtw88_vap_key_delete, once the operation is made up. */
    method SubmitKey(op: C.Op) returns (taken: bool)
      requires C.ValidOp(op)
      modifies `cam, `ptkInstallPending
      ensures taken == Q.Room(old(cam))
      ensures State() == G.KeySubmit(old(State()), op)
    {
      if |cam.queue| >= C.QUEUE_DEPTH {
        cam := cam.(fails := cam.fails + 1);
        return false;
      }
      cam := cam.(queue := cam.queue + [Q.Job(|cam.accepted|, op)], accepted := cam.accepted + [op]);
      if op.Install? && !op.group {
        ptkInstallPending := true;
      }
      return true;
    }

    /** The worker of rtw88_cam_task copies and empties the queue. */
    method CamSnapshot()
      requires cam.run == []
      modifies `cam
      ensures State() == old(State()).(keys := Q.Step(old(cam), Q.Snapshot))
    {
      cam := cam.(run := cam.queue, queue := [], k := 0);
    }

    /** rtw88_cam_task once an operation has been carried out: after a pairwise install, open the
        gate and release every parked frame. */
    method CamOpDone(encap: Option<seq<byte>>)
      requires Q.Enabled(cam, Q.Finish)
      modifies this
      ensures mgmtQ == old(mgmtQ)
      ensures State() == G.KeyDone(old(State()), encap) && nextSerial == old(nextSerial)
    {
      var op := cam.run[0].op;
      cam := Q.HeadEnds(cam);
      if op.Install? && !op.group {
        ptkInstallPending := false;
        ReleasePending(encap);
      }
    }

    method ReleasePending(encap: Option<seq<byte>>)
      modifies this
      ensures mgmtQ == old(mgmtQ)
      ensures State() == G.ReleaseAll(old(State()), encap)
      ensures nextSerial == old(nextSerial)
    {
      while pendingQ != []
        invariant G.ReleaseAll(State(), encap) == G.ReleaseAll(old(State()), encap)
        invariant nextSerial == old(nextSerial) && mgmtQ == old(mgmtQ)
        decreases |pendingQ|
      {
        ReleaseHead(encap);
      }
    }

    /** One pass: route by the bytes as parked, and encapsulate the marked M4 on the way. */
    method ReleaseHead(encap: Option<seq<byte>>)
      requires pendingQ != []
      modifies this
      ensures mgmtQ == old(mgmtQ)
      ensures State() == G.ReleaseOne(old(State()), encap)
      ensures nextSerial == old(nextSerial)
    {
      var pm := pendingQ[0];
      pendingQ := pendingQ[1..];
      var toVo := ForVo(pm.bytes);
      if m4NeedsEncap == Some(pm.addr) {
        m4NeedsEncap := None;
        if pm.node && encap.Some? {
          pm := pm.(bytes := encap.value, sealed := true);
        } else if |pm.bytes| > 1 {
          pm := pm.(bytes := ClearProtected(pm.bytes));
        }
      }
      var ok := QueueData(toVo, pm);
      if !ok {
        retired := retired + [pm];
      }
    }

    /** The tail of the LINK_DOWN arm of rtw88_post_state_task. */
    method LinkDown()
      modifies this
      ensures mgmtQ == old(mgmtQ)
      ensures State() == G.LinkDown(old(State())) && nextSerial == old(nextSerial)
    {
      ptkInstallPending := false;
      retired, pendingQ := retired + pendingQ, [];
      m4NeedsEncap := None;
      cam := cam.(lost := cam.lost + cam.queue, queue := []);
      retired, be := retired + be.queue, be.(queue := []);
      retired, vo := retired + vo.queue, vo.(queue := []);
    }

    /** rtw88_bulk_tx_drain_q up to the hand-over to USB. */
    method DrainQ(p: G.Pipe) returns (q: G.Pipe, submitted: bool)
      modifies `retired
      ensures q == G.Drained(p) && retired == old(retired) + G.Discarded(p)
      ensures submitted == (p.queue != [] && G.Submittable(p.queue[0]))
    {
      if p.queue == [] {
        return p, false;
      }
      var m := p.queue[0];
      var framelen := |m.bytes| % 0x1_0000;
      if framelen == 0 || framelen + TX_DESC_SZ > TX_BUFSZ {
        retired := retired + [m];
        return p.(queue := p.queue[1..]), false;
      }
      return G.Pipe(p.queue[1..], Some(m), p.wire + [m]), true;
    }

    /** rtw88_bulk_tx_data_be_cb */
    method BeCallback(status: UsbStatus)
      modifies `be, `retired
      ensures State() == Called(old(State()), false, status)
    {
      if status != SetUp && be.flight.Some? {
        retired, be := retired + [be.flight.value], be.(flight := None);
      }
      if status != Error {
        var q, _ := DrainQ(be);
        be := q;
      }
    }

    /** rtw88_bulk_tx_data_vo_cb */
    method VoCallback(status: UsbStatus)
      modifies `vo, `retired
      ensures State() == Called(old(State()), true, status)
    {
      if status != SetUp && vo.flight.Some? {
        retired, vo := retired + [vo.flight.value], vo.(flight := None);
      }
      if status != Error {
        var q, _ := DrainQ(vo);
        vo := q;
      }
    }
  }

  function Called(s: G.State, vo: bool, status: UsbStatus): G.State {
    match status
    case Transferred => G.Completed(s, vo)
    case SetUp => G.Setup(s, vo)
    case Error => G.Failed(s, vo)
  }
}
