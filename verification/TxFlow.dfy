/** What moves on the endpoints: completions hand the queue to USB frame by frame, and a link-down leaves
    nothing behind to be sent. */
module TxFlow {
  import opened Bytes
  import opened Frames
  import opened TxGate
  import C = Cam

  /** A frame whose length, as 16 bits, is not zero and fits the buffer behind a descriptor. */
  predicate Framable(f: Frame) {
    0 < |f.bytes| % 0x1_0000 <= 16336
  }

  /** A queue with its head handed to USB or, when it cannot be framed, freed. */
  predicate HandsOver(p: Pipe, q: Pipe, freed: seq<Frame>) {
    if p.queue == [] then q == p && freed == []
    else if Framable(p.queue[0]) then
      q.flight == Some(p.queue[0]) && q.wire == p.wire + [p.queue[0]] && q.queue == p.queue[1..] && freed == []
    else q.flight == p.flight && q.wire == p.wire && q.queue == p.queue[1..] && freed == [p.queue[0]]
  }

  /** A completion frees the frame in flight and hands over the next one; a set-up hands one over; a failure
      frees the frame in flight. The other endpoint, the gate and the pending queue are not touched. */
  lemma CallbackIs(s: State, vo: bool, e: Event)
    requires e in {EvCompleted(vo), EvSetup(vo), EvFailed(vo)} && Enabled(s, e)
    ensures var t, p := Step(s, e), At(s, vo);
            var flown := if e.EvSetup? || p.flight.None? then [] else [p.flight.value];
            var rest := Pipe(p.queue, if e.EvSetup? then p.flight else None, p.wire);
            && At(t, !vo) == At(s, !vo) && t.gate == s.gate && t.marker == s.marker && t.pending == s.pending
            && t.accepted == s.accepted && t.keys == s.keys
            && (e.EvFailed? ==> At(t, vo) == rest && t.retired == s.retired + flown)
            && (!e.EvFailed? ==>
                  var freed := if p.queue == [] || Framable(p.queue[0]) then [] else [p.queue[0]];
                  HandsOver(rest, At(t, vo), freed) && t.retired == s.retired + flown + freed)
  {
    assert s.retired + [] == s.retired;
  }

  /** A completion with a frame behind it that can be framed puts that one in flight. */
  lemma CompletionChains(s: State, vo: bool)
    requires At(s, vo).queue != [] && Framable(At(s, vo).queue[0])
    ensures var p, q := At(s, vo), At(Step(s, EvCompleted(vo)), vo);
            q.flight == Some(p.queue[0]) && q.wire == p.wire + [p.queue[0]] && q.queue == p.queue[1..]
  {
    CallbackIs(s, vo, EvCompleted(vo));
  }

  function Completions(n: nat, vo: bool): (es: seq<Event>)
    ensures |es| == n
  {
    seq(n, _ => EvCompleted(vo))
  }

  lemma HeadFirst(wire: seq<Frame>, queue: seq<Frame>, n: nat)
    requires 0 < n <= |queue|
    ensures (wire + [queue[0]]) + queue[1..][..n - 1] == wire + queue[..n] && queue[1..][n - 1..] == queue[n..]
    ensures n > 1 ==> queue[1..][n - 2] == queue[n - 1]
  {
  }

  /** From every state n completions hand the first n queued frames to USB in order, if all of them can be
      framed: the last one is in flight then, and the other endpoint is as it was. */
  lemma {:induction false} CompletionsSend(s: State, vo: bool, n: nat)
    requires n <= |At(s, vo).queue| && forall i :: 0 <= i < n ==> Framable(At(s, vo).queue[i])
    ensures var p, t := At(s, vo), Run(s, Completions(n, vo));
            && At(t, vo).wire == p.wire + p.queue[..n] && At(t, vo).queue == p.queue[n..]
            && At(t, vo).flight == (if n == 0 then p.flight else Some(p.queue[n - 1]))
            && At(t, !vo) == At(s, !vo)
    decreases n
  {
    var p := At(s, vo);
    if n == 0 {
      assert p.wire + p.queue[..0] == p.wire;
    } else {
      var t := Step(s, EvCompleted(vo));
      CallbackIs(s, vo, EvCompleted(vo));
      assert Completions(n, vo)[0] == EvCompleted(vo) && Completions(n, vo)[1..] == Completions(n - 1, vo);
      CompletionsSend(t, vo, n - 1);
      HeadFirst(p.wire, p.queue, n);
    }
  }

  // ---- link-down ----

  predicate AllFrom(fs: seq<Frame>, base: nat) {
    forall f :: f in fs ==> f.serial >= base
  }

  /** Everything parked or queued, and everything sent beyond the given wires, was accepted from base on. */
  predicate Since(s: State, base: nat, be: seq<Frame>, vo: seq<Frame>) {
    && |s.accepted| >= base && AllFrom(s.pending, base) && AllFrom(s.be.queue, base) && AllFrom(s.vo.queue, base)
    && be <= s.be.wire && AllFrom(s.be.wire[|be|..], base)
    && vo <= s.vo.wire && AllFrom(s.vo.wire[|vo|..], base)
  }

  lemma RouteSince(s: State, v: bool, g: Frame, base: nat, be: seq<Frame>, vo: seq<Frame>)
    requires Since(s, base, be, vo) && g.serial >= base
    ensures Since(Route(s, v, g), base, be, vo)
  {
  }

  lemma {:induction false} ReleaseSince(s: State, encap: Option<seq<byte>>, base: nat, be: seq<Frame>, vo: seq<Frame>)
    requires Since(s, base, be, vo)
    ensures Since(ReleaseAll(s, encap), base, be, vo)
    decreases |s.pending|
  {
    if s.pending != [] {
      var f := s.pending[0];
      assert f in s.pending;
      RouteSince(Unmark(s, f).(pending := s.pending[1..]), ForVo(f.bytes), Resealed(s, f, encap), base, be, vo);
      ReleaseSince(ReleaseOne(s, encap), encap, base, be, vo);
    }
  }

  lemma SentSince(wire: seq<Frame>, before: seq<Frame>, f: Frame, base: nat)
    requires before <= wire && AllFrom(wire[|before|..], base) && f.serial >= base
    ensures before <= wire + [f] && AllFrom((wire + [f])[|before|..], base)
  {
    assert (wire + [f])[|before|..] == wire[|before|..] + [f];
  }

  lemma SetupSince(s: State, v: bool, base: nat, be: seq<Frame>, vo: seq<Frame>)
    requires Since(s, base, be, vo)
    ensures Since(Setup(s, v), base, be, vo)
  {
    var p := At(s, v);
    if p.queue != [] {
      assert p.queue[0] in p.queue;
      SentSince(p.wire, if v then vo else be, p.queue[0], base);
    }
  }

  lemma EnqueueSince(s: State, addr: nat, b: seq<byte>, sealed: bool, node: bool, base: nat, be: seq<Frame>,
                     vo: seq<Frame>)
    requires Since(s, base, be, vo)
    ensures Since(Enqueue(s, addr, b, sealed, node), base, be, vo)
  {
  }

  lemma StepSince(s: State, e: Event, base: nat, be: seq<Frame>, vo: seq<Frame>)
    requires Since(s, base, be, vo) && Enabled(s, e)
    ensures Since(Step(s, e), base, be, vo)
  {
    match e
    case EvEnqueue(addr, b, sealed, node) => EnqueueSince(s, addr, b, sealed, node, base, be, vo);
    case EvTransmit(addr, b, node, whole, encap) =>
      var r := EncapIfNeeded(s, addr, b, node, whole, encap);
      if r.Go? {
        EnqueueSince(r.state, addr, r.bytes, r.sealed, node, base, be, vo);
      }
    case EvKeyDone(encap) => ReleaseSince(s.(keys := Q.Step(s.keys, Q.Finish), gate := false), encap, base, be, vo);
    case EvSetup(v) => SetupSince(s, v, base, be, vo);
    case EvCompleted(v) => SetupSince(Failed(s, v), v, base, be, vo);
    case _ =>
  }

  lemma {:induction false} RunSince(s: State, es: seq<Event>, base: nat, be: seq<Frame>, vo: seq<Frame>)
    requires Since(s, base, be, vo)
    ensures Since(Run(s, es), base, be, vo)
    decreases es
  {
    if es != [] {
      if Enabled(s, es[0]) {
        StepSince(s, es[0], base, be, vo);
      }
      RunSince(Next(s, es[0]), es[1..], base, be, vo);
    }
  }

  /** After a link-down nothing that was accepted before it is ever handed to USB, whatever happens next; what
      was in flight stays there, key operations the worker holds still run, and the gate is open. */
  lemma NothingOldIsSent(s: State, es: seq<Event>)
    ensures var t := Step(s, EvLinkDown);
            && !t.gate && t.marker.None? && t.keys.queue == [] && t.keys.run == s.keys.run
            && t.be.flight == s.be.flight && t.vo.flight == s.vo.flight
    ensures var u := Run(Step(s, EvLinkDown), es);
            && s.be.wire <= u.be.wire && (forall f :: f in u.be.wire[|s.be.wire|..] ==> f.serial >= |s.accepted|)
            && s.vo.wire <= u.vo.wire && (forall f :: f in u.vo.wire[|s.vo.wire|..] ==> f.serial >= |s.accepted|)
  {
    RunSince(Step(s, EvLinkDown), es, |s.accepted|, s.be.wire, s.vo.wire);
  }
}
