/** Which queue a data frame joins, in terms of the bits it carries: on acceptance, and when it is released. */
module TxClass {
  import opened Bytes
  import opened Frames
  import opened TxGate
  import K = EapolKey
  import S = TxSeal

  /** Protected unicast data with a whole header, by its bits. */
  predicate Held(b: seq<byte>) {
    |b| >= 24 && b[0] / 4 % 4 == 2 && b[1] / 0x40 % 2 == 1 && b[4] % 2 == 0
  }

  /** An EAPOL-Key frame, or a frame with the QoS bit that carries a TID of 4 to 7. */
  ghost predicate Urgent(b: seq<byte>) {
    (exists f :: K.Valid(f) && K.Ser(f) == b) || (|b| >= 26 && b[0] >= 0x80 && b[24] % 8 in {4, 5, 6, 7})
  }

  lemma UrgentIff(b: seq<byte>)
    ensures Urgent(b) <==> ForVo(b)
  {
    if EapolKeyInfo(b).Some? {
      K.KeyInfoIff(b, EapolKeyInfo(b).value);
    }
    if f :| K.Valid(f) && K.Ser(f) == b {
      K.Recognised(f);
    }
  }

  /** An EAPOL-Key frame with MIC and Secure set and Key Ack clear. */
  ghost predicate FourthMessage(b: seq<byte>) {
    exists f :: K.Valid(f) && K.Ser(f) == b
                && f.info / 0x100 % 2 == 1 && f.info / 0x200 % 2 == 1 && f.info / 0x80 % 2 == 0
  }

  lemma FourthIff(b: seq<byte>)
    ensures FourthMessage(b) <==> IsM4(b)
  {
    if IsM4(b) {
      K.KeyInfoIff(b, EapolKeyInfo(b).value);
      var f :| K.Valid(f) && f.info == EapolKeyInfo(b).value && K.Ser(f) == b;
      K.M4Iff(f);
    }
    if f :| K.Valid(f) && K.Ser(f) == b
            && f.info / 0x100 % 2 == 1 && f.info / 0x200 % 2 == 1 && f.info / 0x80 % 2 == 0 {
      K.M4Iff(f);
    }
  }

  /** Everything rtw88_crypto_encap_if_needed does, by the bits of the frame. Without a node or a contiguous
      header it passes the frame on; a Protected frame is encapsulated or refused; of the others only a fourth
      handshake message is touched: encapsulated if that works; else, the first one, deferred with Protected set;
      and further ones passed on in clear. */
  lemma EncapIs(s: State, addr: nat, b: seq<byte>, node: bool, whole: bool, encap: Option<seq<byte>>)
    ensures var r := EncapIfNeeded(s, addr, b, node, whole, encap);
            if !node || !whole || |b| < 24 then r == Go(s, b, false)
            else if b[1] / 0x40 % 2 == 1 then r == if encap.Some? then Go(s, encap.value, true) else Refused
            else if !FourthMessage(b) then r == Go(s, b, false)
            else if encap.Some? then r == Go(s, encap.value, true)
            else if s.marker.Some? then r == Go(s, b, false)
            else r == Go(s.(marker := Some(addr), gate := true), b[1 := b[1] + 0x40], false)
  {
    FourthIff(b);
  }

  // ---- acceptance ----

  /** Everything the enqueue routine does, by length and bits of the frame: it takes data frames of at most
      16336 bytes; holds Protected unicast ones behind a closed gate, sixteen at most; and else queues the
      urgent ones for the VO endpoint and the others for the BE endpoint, up to the depth of the queue. */
  lemma EnqueueIs(s: State, addr: nat, b: seq<byte>, sealed: bool, node: bool)
    ensures var f := Frame(addr, |s.accepted|, b, sealed, node);
            var t := Enqueue(s, addr, b, sealed, node);
            if !(0 < |b| <= 16336) || b[0] / 4 % 4 != 2 then t == s
            else if s.gate && Held(b) then
              t == if |s.pending| < 16 then s.(accepted := s.accepted + [f], pending := s.pending + [f]) else s
            else if Urgent(b) then
              t == if |s.vo.queue| < s.depth
                   then s.(accepted := s.accepted + [f], vo := s.vo.(queue := s.vo.queue + [f])) else s
            else
              t == if |s.be.queue| < s.depth
                   then s.(accepted := s.accepted + [f], be := s.be.(queue := s.be.queue + [f])) else s
  {
    UrgentIff(b);
  }

  /** A frame that is taken keeps address and node, gets the next serial, and has the bytes and the seal that
      encapsulation left it with. */
  lemma TransmitTakes(s: State, addr: nat, b: seq<byte>, node: bool, whole: bool, encap: Option<seq<byte>>)
    ensures var t := Step(s, EvTransmit(addr, b, node, whole, encap));
            var r := EncapIfNeeded(s, addr, b, node, whole, encap);
            && (r.Refused? ==> t == s)
            && (r.Go? && EnqueueVerdict(r.state, r.bytes) == Accepted ==>
                  t.accepted == s.accepted + [Frame(addr, |s.accepted|, r.bytes, r.sealed, node)])
            && (r.Go? && EnqueueVerdict(r.state, r.bytes) != Accepted ==> t == r.state)
  {
    EncapIs(s, addr, b, node, whole, encap);
  }

  /** The verdict: empty frames and those above 65535 bytes are invalid, others above 16336 too long; what is
      not data is for the management queue; and data is refused only by a full queue, the one it would join. */
  lemma VerdictIs(s: State, b: seq<byte>)
    ensures var v := EnqueueVerdict(s, b);
            && (v == Invalid <==> |b| == 0 || |b| > 65535)
            && (v == TooLong <==> 16336 < |b| <= 65535)
            && (v == NotData <==> 0 < |b| <= 16336 && b[0] / 4 % 4 != 2)
            && (v == QueueFull <==>
                  && 0 < |b| <= 16336 && b[0] / 4 % 4 == 2
                  && if s.gate && Held(b) then |s.pending| >= 16
                     else if Urgent(b) then |s.vo.queue| >= s.depth else |s.be.queue| >= s.depth)
  {
    UrgentIff(b);
  }

  /** Deferring an M4 takes a free marker and closes the gate; a taken marker stays with its frame. */
  lemma DeferIs(s: State, addr: nat)
    ensures Step(s, EvDefer(addr)) == if s.marker.Some? then s else s.(marker := Some(addr), gate := true)
  {
  }

  /** An accepted frame that is not held joins the VO queue if it has the QoS bit and TID 4 to 7. */
  lemma TidQueues(s: State, addr: nat, b: seq<byte>, sealed: bool, node: bool, tid: nat)
    requires EnqueueVerdict(s, b) == Accepted && !(s.gate && Held(b))
    requires |b| >= 26 && b[0] >= 0x80 && b[24] % 8 == tid
    ensures var f := Frame(addr, |s.accepted|, b, sealed, node);
            var t := Enqueue(s, addr, b, sealed, node);
            && (tid >= 4 ==> t.vo.queue == s.vo.queue + [f] && t.be == s.be)
            && (tid < 4 && EapolKeyInfo(b).None? ==> t.be.queue == s.be.queue + [f] && t.vo == s.vo)
  {
  }

  /** Every EAPOL-Key frame, QoS data or not, joins the VO queue; any other frame without the QoS bit, or too
      short for a QoS Control field, the BE queue. */
  lemma OtherQueues(s: State, addr: nat, b: seq<byte>, sealed: bool, node: bool)
    requires EnqueueVerdict(s, b) == Accepted && !(s.gate && Held(b))
    ensures var f := Frame(addr, |s.accepted|, b, sealed, node);
            var t := Enqueue(s, addr, b, sealed, node);
            && ((exists k :: K.Valid(k) && K.Ser(k) == b) ==> t.vo.queue == s.vo.queue + [f] && t.be == s.be)
            && (!(exists k :: K.Valid(k) && K.Ser(k) == b) && (|b| < 26 || b[0] < 0x80) ==>
                  t.be.queue == s.be.queue + [f] && t.vo == s.vo)
  {
    UrgentIff(b);
    EnqueueIs(s, addr, b, sealed, node);
  }

  // ---- release ----

  /** What becomes of a released frame: as parked; or encapsulated, if it was marked, has a node and
      encapsulation works; or, marked, the same but for a cleared Protected bit. */
  predicate Comes(f: Frame, g: Frame, marked: bool, encap: Option<seq<byte>>) {
    && g.addr == f.addr && g.serial == f.serial && g.node == f.node
    && (!marked ==> g == f)
    && (marked && f.node && encap.Some? ==> g.bytes == encap.value && g.sealed)
    && (marked && !(f.node && encap.Some?) ==>
          && g.sealed == f.sealed && |g.bytes| == |f.bytes|
          && (forall i :: 0 <= i < |f.bytes| && i != 1 ==> g.bytes[i] == f.bytes[i])
          && (|f.bytes| > 1 ==>
                var p: nat := f.bytes[1];
                g.bytes[1] as int == if p / 0x40 % 2 == 1 then p - 0x40 else p))
  }

  /** The frames of gs whose bytes, as parked in fs, are urgent (or are not), in order. */
  ghost function Picked(fs: seq<Frame>, gs: seq<Frame>, vo: bool): seq<Frame>
    requires |fs| == |gs|
  {
    if fs == [] then []
    else (if Urgent(fs[0].bytes) == vo then [gs[0]] else []) + Picked(fs[1..], gs[1..], vo)
  }

  /** As many of these as still fit. */
  function Fitting(queue: seq<Frame>, gs: seq<Frame>, depth: nat): seq<Frame> {
    if |queue| + |gs| <= depth then gs else if |queue| <= depth then gs[..depth - |queue|] else []
  }

  lemma ReleaseOneIs(s: State, encap: Option<seq<byte>>) returns (g: Frame)
    requires s.pending != []
    ensures Comes(s.pending[0], g, s.marker == Some(s.pending[0].addr), encap)
    ensures var t, vo := ReleaseOne(s, encap), Urgent(s.pending[0].bytes);
            && t.pending == s.pending[1..] && t.depth == s.depth
            && t.marker == (if s.marker == Some(s.pending[0].addr) then None else s.marker)
            && t.vo == s.vo.(queue := s.vo.queue + if vo then Fitting(s.vo.queue, [g], s.depth) else [])
            && t.be == s.be.(queue := s.be.queue + if vo then [] else Fitting(s.be.queue, [g], s.depth))
  {
    UrgentIff(s.pending[0].bytes);
    g := Resealed(s, s.pending[0], encap);
    var f := s.pending[0];
    if |f.bytes| > 1 {
      ClearedBit(f.bytes);
    }
  }

  lemma ClearedBit(b: seq<byte>)
    requires |b| > 1
    ensures var p: nat := b[1]; ClearProtected(b)[1] as int == if p / 0x40 % 2 == 1 then p - 0x40 else p
  {
  }

  lemma FittingMore(queue: seq<Frame>, g: Frame, gs: seq<Frame>, depth: nat)
    ensures var first := Fitting(queue, [g], depth);
            Fitting(queue, [g] + gs, depth) == first + Fitting(queue + first, gs, depth)
  {
    if |queue| >= depth {
      assert Fitting(queue, [g], depth) == [] && queue + [] == queue;
      assert Fitting(queue, [g] + gs, depth) == Fitting(queue, gs, depth);
    } else if |queue| + 1 + |gs| > depth {
      assert ([g] + gs)[..depth - |queue|] == [g] + gs[..depth - |queue| - 1];
    }
  }

  lemma PipeMore(queue: seq<Frame>, g: Frame, gs: seq<Frame>, mine: bool, depth: nat)
    ensures var first := if mine then Fitting(queue, [g], depth) else [];
            queue + Fitting(queue, (if mine then [g] else []) + gs, depth)
            == (queue + first) + Fitting(queue + first, gs, depth)
  {
    if mine {
      FittingMore(queue, g, gs, depth);
    } else {
      assert queue + [] == queue && [] + gs == gs;
    }
  }

  lemma PickedMore(fs: seq<Frame>, g: Frame, gs: seq<Frame>, vo: bool)
    requires fs != [] && |fs| == 1 + |gs|
    ensures Picked(fs, [g] + gs, vo) == (if Urgent(fs[0].bytes) == vo then [g] else []) + Picked(fs[1..], gs, vo)
  {
    assert ([g] + gs)[1..] == gs;
  }

  /** Everything the release does, by the bits of the parked frames: each comes out as it should, and the
      urgent ones join the VO queue and the others the BE queue in order, as many as fit. */
  lemma {:induction false} ReleaseAllIs(s: State, encap: Option<seq<byte>>) returns (gs: seq<Frame>)
    requires S.Distinct(s.pending)
    ensures |gs| == |s.pending|
    ensures forall i :: 0 <= i < |gs| ==> Comes(s.pending[i], gs[i], s.marker == Some(s.pending[i].addr), encap)
    ensures var t := ReleaseAll(s, encap);
            && t.pending == []
            && t.vo == s.vo.(queue := s.vo.queue + Fitting(s.vo.queue, Picked(s.pending, gs, true), s.depth))
            && t.be == s.be.(queue := s.be.queue + Fitting(s.be.queue, Picked(s.pending, gs, false), s.depth))
    decreases |s.pending|
  {
    if s.pending == [] {
      gs := [];
      assert s.vo.queue + [] == s.vo.queue && s.be.queue + [] == s.be.queue;
    } else {
      var t := ReleaseOne(s, encap);
      var g := ReleaseOneIs(s, encap);
      var more := ReleaseAllIs(t, encap);
      gs := [g] + more;
      var vo := Urgent(s.pending[0].bytes);
      PickedMore(s.pending, g, more, true);
      PickedMore(s.pending, g, more, false);
      PipeMore(s.vo.queue, g, Picked(t.pending, more, true), vo, s.depth);
      PipeMore(s.be.queue, g, Picked(t.pending, more, false), !vo, s.depth);
    }
  }

  // ---- the marked M4 ----

  /** How many of these are urgent (or are not). */
  ghost function Count(fs: seq<Frame>, vo: bool): nat {
    if fs == [] then 0 else (if Urgent(fs[0].bytes) == vo then 1 else 0) + Count(fs[1..], vo)
  }

  lemma {:induction false} PickedAt(fs: seq<Frame>, gs: seq<Frame>, i: nat)
    requires |fs| == |gs| && i < |fs|
    ensures var vo := Urgent(fs[i].bytes);
            var k := Count(fs[..i], vo);
            && Count(fs[..i + 1], vo) == k + 1
            && k < |Picked(fs, gs, vo)| && Picked(fs, gs, vo)[k] == gs[i]
    decreases fs
  {
    var vo := Urgent(fs[i].bytes);
    if i == 0 {
      assert fs[..1][1..] == [];
    } else {
      PickedAt(fs[1..], gs[1..], i - 1);
      assert fs[..i][1..] == fs[1..][..i - 1] && fs[..i + 1][1..] == fs[1..][..i];
    }
  }

  /** From a sound state every parked frame with room for it ends in the queue of its class under its serial:
      the marked M4 encapsulated if it has a node and encapsulation works, else with Protected cleared; every
      other one with its bytes as parked. */
  lemma ReleasedWhole(s: State, encap: Option<seq<byte>>, i: nat) returns (g: Frame)
    requires S.Good(s) && i < |s.pending|
    requires var vo := Urgent(s.pending[i].bytes);
             |At(s, vo).queue| + Count(s.pending[..i + 1], vo) <= s.depth
    ensures g in At(ReleaseAll(s, encap), Urgent(s.pending[i].bytes)).queue
    ensures Comes(s.pending[i], g, s.marker == Some(s.pending[i].addr), encap)
  {
    var vo := Urgent(s.pending[i].bytes);
    var gs := ReleaseAllIs(s, encap);
    PickedAt(s.pending, gs, i);
    g := gs[i];
    var k := Count(s.pending[..i], vo);
    var more := Fitting(At(s, vo).queue, Picked(s.pending, gs, vo), s.depth);
    assert k < |more| && more[k] == g;
  }
}
