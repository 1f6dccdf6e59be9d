/** Bulk-IN: descriptor decoding, the outcome of each packet, and the loop over a transfer. */
module RxDemux {
  import opened Bytes
  import Frames

  const DESC_SZ := 24
  const RX_BUFSZ := 32768
  const MCLBYTES := 2048
  const FCS_LEN := 4
  const CCMP_LEN := 8
  const ENC_AES := 4

  datatype Desc = Desc(len: nat, crc: bool, icv: bool, drv: nat, enc: nat, shift: nat, swdec: bool, c2h: bool)

  function DescOf(w0: word, w2: word): (d: Desc)
    ensures d.len < 0x4000 && d.drv <= 120 && d.shift < 4 && d.enc < 8
  {
    Desc(w0 % 0x4000, Bit(w0, 0x4000), Bit(w0, 0x8000), w0 / 0x1_0000 % 16 * 8, w0 / 0x10_0000 % 8,
         w0 / 0x100_0000 % 4, Bit(w0, 0x800_0000), Bit(w2, 0x1000_0000))
  }

  function Start(d: Desc): nat {
    DESC_SZ + d.drv + d.shift
  }

  /** The length of a packet rounded up to the next multiple of eight. */
  function Aligned(total: nat): (n: nat)
    ensures total <= n < total + 8 && n % 8 == 0
  {
    (total + 7) / 8 * 8
  }

  /** The descriptor at the head of b, if the whole packet is there. */
  function Parse(b: seq<byte>): (r: Option<Desc>)
    ensures r.Some? ==> DESC_SZ <= Start(r.value) <= Start(r.value) + r.value.len <= |b|
  {
    if |b| < DESC_SZ then None
    else
      var d := DescOf(Le32(b, 0), Le32(b, 8));
      if Start(d) + d.len > |b| then None else Some(d)
  }

  // ---- hardware CCMP: section 12.5.3.2 of IEEE 802.11-2016 ----

  /** The header size of any frame, control frames included. */
  function AnyHdrSize(fc0: byte, fc1: byte): nat {
    if fc0 / 4 % 4 == 1 then
      if fc0 / 0x10 == 0xC || fc0 / 0x10 == 0xD then 10 else if fc0 / 0x10 == 0x8 then 20 else 16
    else Frames.HdrSize(fc0, fc1)
  }

  function StripCcmp(m: seq<byte>): (r: seq<byte>) {
    if |m| < 24 + CCMP_LEN + CCMP_LEN || !Frames.IsProtected(m) then m
    else
      var h := AnyHdrSize(m[0], m[1]);
      if |m| < h + CCMP_LEN + CCMP_LEN then m
      else Frames.ClearProtected(m[..h]) + m[h + CCMP_LEN..|m| - CCMP_LEN]
  }

  /** What the sender made of the plain frame m: Protected set, a header and a trailer around the body. */
  function SealCcmp(m: seq<byte>, iv: seq<byte>, mic: seq<byte>): seq<byte>
    requires |m| >= 24 && |m| >= AnyHdrSize(m[0], m[1])
  {
    var h := AnyHdrSize(m[0], m[1]);
    Frames.SetProtected(m[..h]) + iv + m[h..] + mic
  }

  lemma StripSplit(r: seq<byte>, m: seq<byte>, h: nat)
    requires |m| >= 24 + CCMP_LEN + CCMP_LEN && Frames.IsProtected(m) && h == AnyHdrSize(m[0], m[1])
    requires |m| >= h + CCMP_LEN + CCMP_LEN && |r| == |m| - CCMP_LEN - CCMP_LEN
    requires r[1] == Frames.ClearBit40(m[1])
    requires forall j :: 0 <= j < h && j != 1 ==> r[j] == m[j]
    requires forall j :: h <= j < |r| ==> r[j] == m[j + CCMP_LEN]
    ensures r == StripCcmp(m)
  {
    var s := StripCcmp(m);
    assert |s| == |r|;
    assert m[..h][1] == m[1];
    forall j | 0 <= j < |r|
      ensures r[j] == s[j]
    {
      if j < h {
        assert s[j] == Frames.ClearProtected(m[..h])[j];
      } else {
        assert s[j] == m[h + CCMP_LEN..|m| - CCMP_LEN][j - h];
      }
    }
  }

  // ---- the outcome of a packet ----

  datatype Outcome =
    | C2h(payload: seq<byte>)
    | Empty
    | CrcError
    | TooShort(icv: bool)
    | Dropped(icv: bool)
    | Delivered(frame: seq<byte>, reorder: bool, icv: bool)

  function FrameOf(d: Desc, m: seq<byte>): seq<byte> {
    if !d.swdec && d.enc == ENC_AES then StripCcmp(m) else m
  }

  /** A packet with a frame m, its FCS already removed; QoS data is offered to A-MPDU reordering. */
  function FrameOutcome(d: Desc, m: seq<byte>, mem: bool, ampdu: bool): Outcome {
    if |m| > MCLBYTES || !mem then Dropped(d.icv)
    else Delivered(FrameOf(d, m), ampdu && |m| >= 24 && Frames.QosData(FrameOf(d, m)), d.icv)
  }

  function OutcomeOf(d: Desc, body: seq<byte>, mem: bool, ampdu: bool): Outcome {
    if d.c2h then C2h(body)
    else if body == [] then Empty
    else if d.crc then CrcError
    else if |body| <= FCS_LEN then TooShort(d.icv)
    else FrameOutcome(d, body[..|body| - FCS_LEN], mem, ampdu)
  }

  function Rest(b: seq<byte>, n: nat): seq<byte> {
    if n < |b| then b[n..] else []
  }

  /** What the receiver cannot choose: whether an mbuf can be had for packet n, and the A-MPDU setting. */
  datatype Env = Env(mem: nat -> bool, ampdu: bool)

  function Payload(b: seq<byte>): seq<byte>
    requires Parse(b).Some?
  {
    var d := Parse(b).value;
    b[Start(d)..Start(d) + d.len]
  }

  /** The packet at the head of b, the nth of the transfer. */
  function HeadOutcome(b: seq<byte>, n: nat, env: Env): Outcome
    requires Parse(b).Some?
  {
    OutcomeOf(Parse(b).value, Payload(b), env.mem(n), env.ampdu)
  }

  function HeadLen(b: seq<byte>): (n: nat)
    requires Parse(b).Some?
    ensures n >= DESC_SZ
  {
    Aligned(Start(Parse(b).value) + Parse(b).value.len)
  }

  /** The outcomes of the packets in b. */
  function Demux(b: seq<byte>, n: nat, env: Env): (os: seq<Outcome>)
    ensures DESC_SZ * |os| <= |b|
    decreases |b|
  {
    if Parse(b).None? then []
    else [HeadOutcome(b, n, env)] + Demux(Rest(b, HeadLen(b)), n + 1, env)
  }

  /** The outcomes of a transfer of the given length. */
  function Transfer(stage: seq<byte>, actlen: int, env: Env): seq<Outcome>
    requires |stage| == RX_BUFSZ
  {
    if 0 <= actlen <= RX_BUFSZ then Demux(stage[..actlen], 0, env) else []
  }

  // ---- counters ----

  datatype Stats = Stats(errors: nat, drops: nat, frames: nat, c2h: seq<seq<byte>>, input: seq<(seq<byte>, bool)>)

  predicate Icv(o: Outcome) {
    match o
    case TooShort(icv) => icv
    case Dropped(icv) => icv
    case Delivered(_, _, icv) => icv
    case _ => false
  }

  function Kept(s: Stats, o: Outcome): Stats {
    match o
    case C2h(p) => s.(c2h := s.c2h + [p])
    case Dropped(_) => s.(drops := s.drops + 1)
    case Delivered(m, r, _) => s.(frames := s.frames + 1, input := s.input + [(m, r)])
    case _ => s
  }

  /** An error for each bad checksum of either kind, a drop, a frame, or a firmware event handed on. */
  function Counted(s: Stats, o: Outcome): Stats {
    Kept(if o.CrcError? || Icv(o) then s.(errors := s.errors + 1) else s, o)
  }

  function CountedAll(s: Stats, os: seq<Outcome>): Stats
    decreases os
  {
    if os == [] then s else CountedAll(Counted(s, os[0]), os[1..])
  }

  /** The counters once the packets from an offset on are counted as well. */
  function Finished(st: Stats, s: seq<byte>, off: nat, n: nat, env: Env): Stats {
    CountedAll(st, Demux(Rest(s, off), n, env))
  }

  /** One packet counted and its size consumed, or nothing when no whole packet is there. */
  predicate Counts(b: seq<byte>, n: nat, env: Env, st: Stats, consumed: nat, t: Stats) {
    if Parse(b).None? then consumed == 0 && t == st
    else consumed == HeadLen(b) && t == Counted(st, HeadOutcome(b, n, env))
  }

  lemma FinishedHead(s: seq<byte>, off: nat, n: nat, env: Env, st: Stats, consumed: nat, t: Stats)
    requires off < |s| && Counts(s[off..], n, env, st, consumed, t)
    ensures Finished(st, s, off, n, env) == if consumed == 0 then t else Finished(t, s, off + consumed, n + 1, env)
  {
    if Parse(s[off..]).Some? {
      assert Rest(s[off..], consumed) == Rest(s, off + consumed);
      var tail := Demux(Rest(s, off + consumed), n + 1, env);
      assert ([HeadOutcome(s[off..], n, env)] + tail)[1..] == tail;
    }
  }

  lemma FinishedEnd(st: Stats, s: seq<byte>, off: nat, n: nat, env: Env)
    requires off >= |s|
    ensures Finished(st, s, off, n, env) == st
  {
  }

  // ---- rtw88_rx_one, rtw88_bulk_rx_cb ----

  class Receiver {
    const env: Env
    var stats: Stats

    constructor (env: Env)
      ensures this.env == env && stats == Stats(0, 0, 0, [], [])
    {
      this.env, stats := env, Stats(0, 0, 0, [], []);
    }

    /** rtw88_rx_one; n counts the packets of this transfer. */
    method RxOne(buf: seq<byte>, n: nat) returns (consumed: nat)
      modifies this
      ensures Counts(buf, n, env, old(stats), consumed, stats)
    {
      if |buf| < DESC_SZ {
        return 0;
      }
      var d := DescOf(Le32(buf, 0), Le32(buf, 8));
      var start := DESC_SZ + d.drv + d.shift;
      var total := start + d.len;
      if total > |buf| {
        return 0;
      }
      consumed := (total + 7) / 8 * 8;
      Handle(d, buf[start..total], n);
    }

    /** The rest of rtw88_rx_one, for a packet with this payload. */
    method Handle(d: Desc, body: seq<byte>, n: nat)
      requires |body| == d.len
      modifies this
      ensures stats == Counted(old(stats), OutcomeOf(d, body, env.mem(n), env.ampdu))
    {
      if d.c2h {
        stats := stats.(c2h := stats.c2h + [body]);
        return;
      }
      if d.len == 0 {
        return;
      }
      if d.crc {
        stats := stats.(errors := stats.errors + 1);
        return;
      }
      if d.icv {
        stats := stats.(errors := stats.errors + 1);
      }
      if d.len <= FCS_LEN {
        return;
      }
      Store(d, body[..d.len - FCS_LEN], n);
    }

    /** The frame m0, its FCS already removed, is copied into an mbuf. */
    method Store(d: Desc, m0: seq<byte>, n: nat)
      modifies this
      ensures stats == Kept(old(stats), FrameOutcome(d, m0, env.mem(n), env.ampdu))
    {
      if |m0| > MCLBYTES || !env.mem(n) {
        stats := stats.(drops := stats.drops + 1);
        return;
      }
      var m := CopyOut(m0);
      Deliver(m, d);
    }

    /** The frame handed to net80211. */
    method Deliver(m: array<byte>, d: Desc)
      modifies this, m
      ensures var frame := FrameOf(d, old(m[..]));
              var reorder := env.ampdu && m.Length >= 24 && Frames.QosData(frame);
              stats == old(stats).(frames := old(stats.frames) + 1, input := old(stats.input) + [(frame, reorder)])
    {
      var lo, hi := 0, m.Length;
      if !d.swdec && d.enc == ENC_AES {
        lo, hi := StripHwCcmp(m);
      } else {
        assert m[lo..hi] == m[..];
      }
      var frame := m[lo..hi];
      var reorder := env.ampdu && m.Length >= 24 && Frames.QosData(frame);
      stats := stats.(frames := stats.frames + 1, input := stats.input + [(frame, reorder)]);
    }

    static method CopyOut(m0: seq<byte>) returns (m: array<byte>)
      ensures fresh(m) && m[..] == m0
    {
      m := new byte[|m0|];
      for i := 0 to |m0|
        invariant m[..i] == m0[..i]
      {
        m[i] := m0[i];
      }
    }

    /** rtw88_rx_strip_hw_ccmp: the header slides over the cipher header, in place; the frame is then
        p[lo..hi]. */
    static method StripHwCcmp(p: array<byte>) returns (lo: nat, hi: nat)
      modifies p
      ensures lo <= hi <= p.Length && p[lo..hi] == StripCcmp(old(p[..]))
    {
      lo, hi := 0, p.Length;
      if p.Length < 24 + CCMP_LEN + CCMP_LEN || !Bit(p[1], 0x40) {
        return;
      }
      var h := AnyHdrSize(p[0], p[1]);
      if p.Length < h + CCMP_LEN + CCMP_LEN {
        return;
      }
      ghost var was := p[..];
      var k := h;
      while k > 0
        invariant 0 <= k <= h
        invariant forall j :: 0 <= j < k + CCMP_LEN || h + CCMP_LEN <= j < p.Length ==> p[j] == was[j]
        invariant forall j :: k <= j < h ==> p[j + CCMP_LEN] == was[j]
      {
        k := k - 1;
        p[k + CCMP_LEN] := p[k];
      }
      lo, hi := CCMP_LEN, p.Length - CCMP_LEN;
      p[lo + 1] := Frames.ClearBit40(p[lo + 1]);
      StripSplit(p[lo..hi], was, h);
    }

    /** The completed-transfer arm of rtw88_bulk_rx_cb. */
    method BulkRx(stage: seq<byte>, actlen: int)
      requires |stage| == RX_BUFSZ
      modifies this
      ensures stats == CountedAll(old(stats), Transfer(stage, actlen, env))
    {
      if actlen < 0 || actlen > RX_BUFSZ {
        return;
      }
      var off, n := 0, 0;
      var s := stage[..actlen];
      ghost var all := Finished(stats, s, off, n, env);
      assert all == CountedAll(stats, Transfer(stage, actlen, env));
      while off < actlen
        invariant Finished(stats, s, off, n, env) == all
        decreases actlen - off
      {
        ghost var was := stats;
        var consumed := RxOne(s[off..], n);
        FinishedHead(s, off, n, env, was, consumed, stats);
        if consumed == 0 {
          return;
        }
        off, n := off + consumed, n + 1;
      }
      FinishedEnd(stats, s, off, n, env);
    }
  }
}
