/** Where the queues meet the framing: every transfer handed to USB, in every run. */
module TxWire {
  import opened Bytes
  import opened Frames
  import opened Xors
  import opened TxFrame
  import opened TxFraming
  import G = TxGate
  import S = TxSeal
  import C = Cam

  /** Draining takes the head of the queue into flight when it can be framed, and frees it when not. */
  lemma DrainIsFraming(p: G.Pipe, ctx: Ctx)
    requires p.queue != []
    ensures Build(p.queue[0].bytes, ctx).Some? ==>
              G.Drained(p) == G.Pipe(p.queue[1..], Some(p.queue[0]), p.wire + [p.queue[0]]) && G.Discarded(p) == []
    ensures Build(p.queue[0].bytes, ctx).None? ==>
              G.Drained(p) == p.(queue := p.queue[1..]) && G.Discarded(p) == [p.queue[0]]
  {
    FramedIffSubmittable(p.queue[0], ctx);
  }

  /** Only frames that can be framed are handed to USB. */
  predicate Clean(s: G.State) {
    (forall f :: f in s.be.wire ==> G.Submittable(f)) && (forall f :: f in s.vo.wire ==> G.Submittable(f))
  }

  lemma {:induction false} ReleaseKeepsWire(s: G.State, encap: Option<seq<byte>>)
    ensures G.ReleaseAll(s, encap).be.wire == s.be.wire && G.ReleaseAll(s, encap).vo.wire == s.vo.wire
    decreases |s.pending|
  {
    if s.pending != [] {
      ReleaseKeepsWire(G.ReleaseOne(s, encap), encap);
    }
  }

  lemma SetupClean(s: G.State, vo: bool)
    requires Clean(s)
    ensures Clean(G.Setup(s, vo))
  {
  }

  lemma StepClean(s: G.State, e: G.Event)
    requires Clean(s) && G.Enabled(s, e)
    ensures Clean(G.Step(s, e))
  {
    match e
    case EvKeyDone(encap) =>
      ReleaseKeepsWire(s.(keys := G.Q.Step(s.keys, G.Q.Finish), gate := false), encap);
    case EvSetup(vo) => SetupClean(s, vo);
    case EvCompleted(vo) => SetupClean(G.Failed(s, vo), vo);
    case EvTransmit(addr, b, node, whole, encap) =>
      assert G.EncapIfNeeded(s, addr, b, node, whole, encap).Go? ==>
          G.EncapIfNeeded(s, addr, b, node, whole, encap).state.be == s.be;
    case _ =>
  }

  lemma {:induction false} RunClean(s: G.State, es: seq<G.Event>)
    requires Clean(s)
    ensures Clean(G.Run(s, es))
    decreases es
  {
    if es != [] {
      if G.Enabled(s, es[0]) {
        StepClean(s, es[0]);
      }
      RunClean(if G.Enabled(s, es[0]) then G.Step(s, es[0]) else s, es[1..]);
    }
  }

  /** In every run every frame handed to USB was framed: its descriptor announces the bytes that follow it,
      and its checksum words cancel out. */
  lemma EveryTransferFramed(depth: nat, mem: C.Memory, es: seq<G.Event>, vo: bool, f: G.Frame, ctx: Ctx)
    requires f in G.At(G.Run(G.Init(depth, mem), es), vo).wire
    ensures Build(f.bytes, ctx).Some?
    ensures var s := Build(f.bytes, ctx).value;
            && s.words[0] % 0x1_0000 == |s.wire|
            && XorAll(seq(16, i requires 0 <= i < 16 => Le16(Enc32All(s.words), 2 * i))) == 0
  {
    RunClean(G.Init(depth, mem), es);
    FramedIffSubmittable(f, ctx);
    ChecksumIsZero(f.bytes, ctx);
    LengthIsSent(f.bytes, ctx);
  }

  /** In every run of undivided safe transmits, every Protected unicast data frame handed to USB was
      encapsulated. */
  lemma SafeRunSendsSealed(depth: nat, mem: C.Memory, es: seq<G.Event>, vo: bool)
    requires S.AllWhole(G.Init(depth, mem), es) && S.AllSafe(G.Init(depth, mem), es)
    ensures S.Sealed(G.At(G.Run(G.Init(depth, mem), es), vo).wire)
  {
    S.SafeRunGood(depth, mem, es);
  }
}
