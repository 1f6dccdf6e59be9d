/** Chip packets: every transfer is a list of them, and the receive loop recovers that list. */
module RxCodec {
  import opened Bytes
  import opened RxDemux
  import Frames
  import K = EapolKey

  /** The flags of the first descriptor word; spare, phyStatus and top are not looked at here. */
  datatype Flags = Flags(crc: bool, icv: bool, enc: nat, spare: bool, shift: nat, phyStatus: bool, swdec: bool,
                         top: nat)

  datatype Packet = Packet(flags: Flags, words: seq<word>, drv: seq<byte>, gap: seq<byte>, body: seq<byte>)

  predicate Valid(p: Packet) {
    && p.flags.enc < 8 && p.flags.top < 16 && p.flags.shift == |p.gap| < 4
    && |p.words| == 5 && |p.drv| % 8 == 0 && |p.drv| <= 120 && |p.body| < 0x4000
  }

  function One(b: bool): nat {
    if b then 1 else 0
  }

  function LowHalf(len: nat, f: Flags): nat {
    len + 0x4000 * (One(f.crc) + 2 * One(f.icv))
  }

  function HighHalf(drv: nat, f: Flags): nat {
    drv / 8
    + 0x10 * (f.enc + 8 * (One(f.spare) + 2 * (f.shift + 4 * (One(f.phyStatus) + 2 * (One(f.swdec) + 2 * f.top)))))
  }

  function W0(p: Packet): word
    requires Valid(p)
  {
    LowHalf(|p.body|, p.flags) + 0x1_0000 * HighHalf(|p.drv|, p.flags)
  }

  function Later(p: Packet): (b: seq<byte>)
    requires Valid(p)
    ensures |b| == 12
  {
    Enc32(p.words[2]) + Enc32(p.words[3]) + Enc32(p.words[4])
  }

  function Descriptor(p: Packet): (b: seq<byte>)
    requires Valid(p)
    ensures |b| == DESC_SZ
  {
    Enc32(W0(p)) + (Enc32(p.words[0]) + (Enc32(p.words[1]) + Later(p)))
  }

  function Ser(p: Packet): (b: seq<byte>)
    requires Valid(p)
    ensures |b| >= DESC_SZ
  {
    Descriptor(p) + (p.drv + (p.gap + p.body))
  }

  function DescFor(p: Packet): Desc
    requires Valid(p)
  {
    Desc(|p.body|, p.flags.crc, p.flags.icv, |p.drv|, p.flags.enc, p.flags.shift, p.flags.swdec,
         Bit(p.words[1], 0x1000_0000))
  }

  lemma LowFields(w: nat, len: nat, f: Flags, high: nat)
    requires len < 0x4000 && w == LowHalf(len, f) + 0x1_0000 * high
    ensures w % 0x4000 == len && Bit(w, 0x4000) == f.crc && Bit(w, 0x8000) == f.icv && w / 0x1_0000 == high
  {
    var crc, icv := One(f.crc), One(f.icv);
    var q := icv + 2 * high;
    DivMod(0x4000, len, crc + 2 * q);
    assert w / 0x4000 == crc + 2 * q;
    DivMod(2, crc, q);
    DivMod(0x8000, len + 0x4000 * crc, q);
    assert w / 0x8000 == q;
    DivMod(2, icv, high);
    DivMod(0x1_0000, LowHalf(len, f), high);
  }

  lemma HighFields(h: nat, drv: nat, f: Flags)
    requires drv % 8 == 0 && drv <= 120 && f.enc < 8 && f.shift < 4 && h == HighHalf(drv, f)
    ensures h % 0x10 * 8 == drv && h / 0x10 % 8 == f.enc && h / 0x100 % 4 == f.shift && (h / 0x800 % 2 == 1) == f.swdec
  {
    var q3 := One(f.swdec) + 2 * f.top;
    var q2 := f.shift + 4 * (One(f.phyStatus) + 2 * q3);
    var q1 := f.enc + 8 * (One(f.spare) + 2 * q2);
    DivMod(0x10, drv / 8, q1);
    DivMod(0x100, drv / 8 + 0x10 * (f.enc + 8 * One(f.spare)), q2);
    DivMod(0x800, drv / 8 + 0x10 * (f.enc + 8 * (One(f.spare) + 2 * (f.shift + 4 * One(f.phyStatus)))), q3);
    DivMod(8, f.enc, One(f.spare) + 2 * q2);
    DivMod(4, f.shift, One(f.phyStatus) + 2 * q3);
    DivMod(2, One(f.swdec), f.top);
  }

  lemma DescRoundTrip(p: Packet)
    requires Valid(p)
    ensures DescOf(W0(p), p.words[1]) == DescFor(p)
  {
    var w, h := W0(p), HighHalf(|p.drv|, p.flags);
    LowFields(w, |p.body|, p.flags, h);
    HighFields(h, |p.drv|, p.flags);
    DivDiv(w, 0x1_0000, 0x10);
    DivDiv(w, 0x1_0000, 0x100);
    DivDiv(w, 0x1_0000, 0x800);
  }

  // ---- a packet at the head of a buffer ----

  lemma DescriptorWords(b: seq<byte>, p: Packet)
    requires Valid(p) && Stands(b, 0, Descriptor(p))
    ensures Le32(b, 0) == W0(p) && Le32(b, 8) == p.words[1]
  {
    var tail := Enc32(p.words[1]) + Later(p);
    StandsSplit(b, 0, Enc32(W0(p)), Enc32(p.words[0]) + tail);
    StandsSplit(b, 4, Enc32(p.words[0]), tail);
    StandsSplit(b, 8, Enc32(p.words[1]), Later(p));
    Le32Stands(b, 0, W0(p));
    Le32Stands(b, 8, p.words[1]);
  }

  lemma BodyStands(b: seq<byte>, p: Packet)
    requires Valid(p) && Stands(b, 0, Ser(p))
    ensures Stands(b, 0, Descriptor(p)) && Stands(b, DESC_SZ + |p.drv| + |p.gap|, p.body)
  {
    StandsSplit(b, 0, Descriptor(p), p.drv + (p.gap + p.body));
    StandsSplit(b, DESC_SZ, p.drv, p.gap + p.body);
    StandsSplit(b, DESC_SZ + |p.drv|, p.gap, p.body);
  }

  lemma PacketParses(b: seq<byte>, p: Packet)
    requires Valid(p) && Stands(b, 0, Ser(p))
    ensures Parse(b) == Some(DescFor(p))
  {
    BodyStands(b, p);
    DescriptorWords(b, p);
    DescRoundTrip(p);
  }

  lemma PacketPayload(b: seq<byte>, p: Packet)
    requires Valid(p) && Stands(b, 0, Ser(p)) && Parse(b) == Some(DescFor(p))
    ensures Payload(b) == p.body && HeadLen(b) == Aligned(|Ser(p)|)
  {
    BodyStands(b, p);
  }

  lemma PacketOutcome(b: seq<byte>, p: Packet, n: nat, env: Env)
    requires Valid(p) && Stands(b, 0, Ser(p))
    ensures Parse(b).Some? && HeadLen(b) == Aligned(|Ser(p)|)
    ensures HeadOutcome(b, n, env) == OutcomeOf(DescFor(p), p.body, env.mem(n), env.ampdu)
  {
    PacketParses(b, p);
    PacketPayload(b, p);
  }

  // ---- a list of packets ----

  /** The packets stand in b one after the other, each at the next multiple of eight (the padding is
      free, and the last one's may be cut), and what is left over starts with no packet. */
  ghost predicate Holds(b: seq<byte>, ps: seq<Packet>)
    decreases ps
  {
    if ps == [] then Parse(b).None?
    else Valid(ps[0]) && Stands(b, 0, Ser(ps[0])) && Holds(Rest(b, Aligned(|Ser(ps[0])|)), ps[1..])
  }

  /** The outcome of each packet, from its own fields. */
  function Outcomes(ps: seq<Packet>, n: nat, env: Env): (os: seq<Outcome>)
    requires forall i :: 0 <= i < |ps| ==> Valid(ps[i])
    ensures |os| == |ps|
    ensures forall i :: 0 <= i < |ps| ==> os[i] == OutcomeOf(DescFor(ps[i]), ps[i].body, env.mem(n + i), env.ampdu)
  {
    seq(|ps|, i requires 0 <= i < |ps| => OutcomeOf(DescFor(ps[i]), ps[i].body, env.mem(n + i), env.ampdu))
  }

  lemma {:induction false} HoldsValid(b: seq<byte>, ps: seq<Packet>)
    requires Holds(b, ps)
    ensures forall i :: 0 <= i < |ps| ==> Valid(ps[i])
    decreases ps
  {
    if ps != [] {
      HoldsValid(Rest(b, Aligned(|Ser(ps[0])|)), ps[1..]);
      assert forall i :: 1 <= i < |ps| ==> ps[i] == ps[1..][i - 1];
    }
  }

  lemma OutcomesHead(ps: seq<Packet>, n: nat, env: Env)
    requires ps != [] && forall i :: 0 <= i < |ps| ==> Valid(ps[i])
    ensures Outcomes(ps, n, env)
            == [OutcomeOf(DescFor(ps[0]), ps[0].body, env.mem(n), env.ampdu)] + Outcomes(ps[1..], n + 1, env)
  {
    forall i | 1 <= i < |ps|
      ensures Outcomes(ps, n, env)[i] == Outcomes(ps[1..], n + 1, env)[i - 1]
    {
      assert ps[i] == ps[1..][i - 1];
    }
  }

  lemma {:induction false} DemuxPackets(b: seq<byte>, ps: seq<Packet>, n: nat, env: Env)
    requires Holds(b, ps) && forall i :: 0 <= i < |ps| ==> Valid(ps[i])
    ensures Demux(b, n, env) == Outcomes(ps, n, env)
    decreases ps
  {
    if ps != [] {
      PacketOutcome(b, ps[0], n, env);
      DemuxPackets(Rest(b, Aligned(|Ser(ps[0])|)), ps[1..], n + 1, env);
      OutcomesHead(ps, n, env);
    }
  }

  // ---- every transfer is a list of packets ----

  function FlagsOf(w: word): (f: Flags)
    ensures f.enc < 8 && f.top < 16 && f.shift < 4
  {
    var h := w / 0x1_0000;
    Flags(w / 0x4000 % 2 == 1, w / 0x8000 % 2 == 1, h / 0x10 % 8, h / 0x80 % 2 == 1, h / 0x100 % 4,
          h / 0x400 % 2 == 1, h / 0x800 % 2 == 1, h / 0x1000)
  }

  lemma FlagsBack(w: word)
    ensures w == LowHalf(w % 0x4000, FlagsOf(w)) + 0x1_0000 * HighHalf(w / 0x1_0000 % 0x10 * 8, FlagsOf(w))
  {
    var f, h := FlagsOf(w), w / 0x1_0000;
    LowBack(w, f);
    HighBack(h, f);
  }

  lemma LowBack(w: word, f: Flags)
    requires f.crc == (w / 0x4000 % 2 == 1) && f.icv == (w / 0x8000 % 2 == 1)
    ensures w == LowHalf(w % 0x4000, f) + 0x1_0000 * (w / 0x1_0000)
  {
    DivDiv(w, 0x4000, 2);
    DivDiv(w, 0x8000, 2);
  }

  lemma HighBack(h: nat, f: Flags)
    requires h < 0x1_0000 && f.enc == h / 0x10 % 8 && f.spare == (h / 0x80 % 2 == 1) && f.shift == h / 0x100 % 4
    requires f.phyStatus == (h / 0x400 % 2 == 1) && f.swdec == (h / 0x800 % 2 == 1) && f.top == h / 0x1000
    ensures h == HighHalf(h % 0x10 * 8, f)
  {
    DivDiv(h, 0x10, 8);
    DivDiv(h, 0x80, 2);
    DivDiv(h, 0x100, 4);
    DivDiv(h, 0x400, 2);
    DivDiv(h, 0x800, 2);
  }

  /** The packet read back from its descriptor words and the bytes behind them. */
  function PacketOf(b: seq<byte>, f: Flags, drv: nat, len: nat): (p: Packet)
    requires DESC_SZ + drv + f.shift + len <= |b|
    requires f.enc < 8 && f.top < 16 && f.shift < 4 && drv % 8 == 0 && drv <= 120 && len < 0x4000
    ensures Valid(p)
  {
    var at := DESC_SZ + drv;
    Packet(f, [Le32(b, 4), Le32(b, 8), Le32(b, 12), Le32(b, 16), Le32(b, 20)],
           b[DESC_SZ..at], b[at..at + f.shift], b[at + f.shift..at + f.shift + len])
  }

  lemma WordStands(b: seq<byte>, at: nat)
    requires at + 4 <= |b|
    ensures Stands(b, at, Enc32(Le32(b, at)))
  {
    Enc32Word(b[at], b[at + 1], b[at + 2], b[at + 3]);
  }

  lemma DescriptorStands(b: seq<byte>, p: Packet)
    requires Valid(p) && DESC_SZ <= |b| && Le32(b, 0) == W0(p)
    requires p.words == [Le32(b, 4), Le32(b, 8), Le32(b, 12), Le32(b, 16), Le32(b, 20)]
    ensures Stands(b, 0, Descriptor(p))
  {
    WordStands(b, 0);
    WordStands(b, 4);
    WordStands(b, 8);
    LaterStands(b, p);
    StandsJoin(b, 8, Enc32(p.words[1]), Later(p));
    StandsJoin(b, 4, Enc32(p.words[0]), Enc32(p.words[1]) + Later(p));
    StandsJoin(b, 0, Enc32(W0(p)), Enc32(p.words[0]) + (Enc32(p.words[1]) + Later(p)));
  }

  lemma PartsStand(b: seq<byte>, p: Packet)
    requires Valid(p) && Stands(b, 0, Descriptor(p)) && Stands(b, DESC_SZ, p.drv)
    requires Stands(b, DESC_SZ + |p.drv|, p.gap) && Stands(b, DESC_SZ + |p.drv| + |p.gap|, p.body)
    ensures Stands(b, 0, Ser(p))
  {
    StandsJoin(b, DESC_SZ + |p.drv|, p.gap, p.body);
    StandsJoin(b, DESC_SZ, p.drv, p.gap + p.body);
    StandsJoin(b, 0, Descriptor(p), p.drv + (p.gap + p.body));
  }

  lemma SliceStands(b: seq<byte>, at: nat, n: nat)
    requires at + n <= |b|
    ensures Stands(b, at, b[at..at + n])
  {
  }

  lemma PacketOfStands(b: seq<byte>, f: Flags, drv: nat, len: nat)
    requires DESC_SZ + drv + f.shift + len <= |b|
    requires f.enc < 8 && f.top < 16 && f.shift < 4 && drv % 8 == 0 && drv <= 120 && len < 0x4000
    requires Le32(b, 0) == LowHalf(len, f) + 0x1_0000 * HighHalf(drv, f)
    ensures Stands(b, 0, Ser(PacketOf(b, f, drv, len)))
  {
    var p, at := PacketOf(b, f, drv, len), DESC_SZ + drv;
    SliceStands(b, DESC_SZ, drv);
    SliceStands(b, at, f.shift);
    SliceStands(b, at + f.shift, len);
    DescriptorStands(b, p);
    PartsStand(b, p);
  }

  lemma FlagsAgree(w0: word, w2: word)
    ensures var d, f := DescOf(w0, w2), FlagsOf(w0);
            && d.shift == f.shift && d.drv % 8 == 0 && d.drv <= 120
            && w0 == LowHalf(d.len, f) + 0x1_0000 * HighHalf(d.drv, f)
  {
    DivDiv(w0, 0x1_0000, 0x100);
    DivMod(8, 0, w0 / 0x1_0000 % 16);
    FlagsBack(w0);
  }

  lemma HeadFlags(b: seq<byte>)
    requires Parse(b).Some?
    ensures var d, f := Parse(b).value, FlagsOf(Le32(b, 0));
            && d.shift == f.shift && d.drv % 8 == 0 && d.drv <= 120
            && Le32(b, 0) == LowHalf(d.len, f) + 0x1_0000 * HighHalf(d.drv, f)
  {
    FlagsAgree(Le32(b, 0), Le32(b, 8));
  }

  lemma PacketThere(b: seq<byte>) returns (p: Packet)
    requires Parse(b).Some?
    ensures Valid(p) && Stands(b, 0, Ser(p))
  {
    HeadFlags(b);
    var d, f := Parse(b).value, FlagsOf(Le32(b, 0));
    p := PacketOf(b, f, d.drv, d.len);
    PacketOfStands(b, f, d.drv, d.len);
  }

  lemma LaterStands(b: seq<byte>, p: Packet)
    requires Valid(p) && DESC_SZ <= |b|
    requires p.words[2] == Le32(b, 12) && p.words[3] == Le32(b, 16) && p.words[4] == Le32(b, 20)
    ensures Stands(b, 12, Later(p))
  {
    WordStands(b, 12);
    WordStands(b, 16);
    WordStands(b, 20);
    StandsJoin(b, 12, Enc32(p.words[2]), Enc32(p.words[3]));
    StandsJoin(b, 12, Enc32(p.words[2]) + Enc32(p.words[3]), Enc32(p.words[4]));
  }

  lemma {:induction false} PacketsOf(b: seq<byte>) returns (ps: seq<Packet>)
    ensures Holds(b, ps)
    decreases |b|
  {
    ps := [];
    if Parse(b).Some? {
      var p := PacketThere(b);
      var rest := PacketsOf(Rest(b, Aligned(|Ser(p)|)));
      ps := [p] + rest;
      assert ps[1..] == rest;
    }
  }

  /** Whatever a transfer holds, it is a list of packets and a rest that starts with none, and the loop
      gives every packet its outcome, in order. */
  lemma TransferIsPackets(stage: seq<byte>, actlen: nat, env: Env)
    requires |stage| == RX_BUFSZ && actlen <= RX_BUFSZ
    ensures exists ps :: Holds(stage[..actlen], ps)
    ensures forall ps :: Holds(stage[..actlen], ps) ==>
              (forall i :: 0 <= i < |ps| ==> Valid(ps[i])) && Transfer(stage, actlen, env) == Outcomes(ps, 0, env)
  {
    var ps := PacketsOf(stage[..actlen]);
    forall ps | Holds(stage[..actlen], ps)
      ensures (forall i :: 0 <= i < |ps| ==> Valid(ps[i])) && Transfer(stage, actlen, env) == Outcomes(ps, 0, env)
    {
      HoldsValid(stage[..actlen], ps);
      DemuxPackets(stage[..actlen], ps, 0, env);
    }
  }

  // ---- laying packets out ----

  function Padded(p: Packet): (b: seq<byte>)
    requires Valid(p)
    ensures |b| == Aligned(|Ser(p)|)
  {
    Ser(p) + Zeros(Aligned(|Ser(p)|) - |Ser(p)|)
  }

  function Lay(ps: seq<Packet>): seq<byte>
    requires forall i :: 0 <= i < |ps| ==> Valid(ps[i])
    decreases ps
  {
    if ps == [] then [] else Padded(ps[0]) + Lay(ps[1..])
  }

  lemma {:induction false} LayHolds(ps: seq<Packet>)
    requires forall i :: 0 <= i < |ps| ==> Valid(ps[i])
    ensures Holds(Lay(ps), ps)
    decreases ps
  {
    if ps != [] {
      LayHolds(ps[1..]);
      var a, c := Padded(ps[0]), Lay(ps[1..]);
      assert Stands(a + c, 0, Ser(ps[0])) by {
        assert forall k :: 0 <= k < |Ser(ps[0])| ==> (a + c)[0 + k] == a[k];
      }
      assert Rest(a + c, |a|) == c;
    }
  }

  /** Packets laid out at multiples of eight are received as they were sent, in order. */
  lemma LayRoundTrip(ps: seq<Packet>, stage: seq<byte>, env: Env)
    requires forall i :: 0 <= i < |ps| ==> Valid(ps[i])
    requires |stage| == RX_BUFSZ && |Lay(ps)| <= RX_BUFSZ && stage[..|Lay(ps)|] == Lay(ps)
    ensures Transfer(stage, |Lay(ps)|, env) == Outcomes(ps, 0, env)
  {
    LayHolds(ps);
    TransferIsPackets(stage, |Lay(ps)|, env);
  }

  // ---- what is delivered ----

  lemma StripSeal(m: seq<byte>, iv: seq<byte>, mic: seq<byte>)
    requires 24 <= |m| && AnyHdrSize(m[0], m[1]) <= |m| && !Frames.IsProtected(m) && |iv| == |mic| == CCMP_LEN
    ensures |SealCcmp(m, iv, mic)| == |m| + 2 * CCMP_LEN && StripCcmp(SealCcmp(m, iv, mic)) == m
  {
    var h, s := AnyHdrSize(m[0], m[1]), SealCcmp(m, iv, mic);
    SameHdr(m[0], m[1]);
    assert s[0] == m[0] && s[1] == Frames.SetBit40(m[1]);
    forall j | 0 <= j < h && j != 1
      ensures m[j] == s[j]
    {
      assert s[j] == Frames.SetProtected(m[..h])[j] == m[..h][j];
    }
    forall j | h <= j < |m|
      ensures m[j] == s[j + CCMP_LEN]
    {
      assert m[h..][j - h] == m[j];
    }
    StripSplit(m, s, h);
  }

  /** Setting Protected keeps the header size. */
  lemma SameHdr(fc0: byte, fc1: byte)
    requires !Bit(fc1, 0x40)
    ensures AnyHdrSize(fc0, Frames.SetBit40(fc1)) == AnyHdrSize(fc0, fc1)
    ensures Frames.ClearBit40(Frames.SetBit40(fc1)) == fc1
  {
  }

  /** The header sizes: a data header is as long as its parts; a control frame has 10 bytes as CTS or ACK, 20 as
      a block ack request, and else 16. */
  lemma HeaderSizes(h: K.Header, fc0: byte, fc1: byte)
    ensures K.ValidHeader(h) ==> AnyHdrSize(h.fc0, h.fc1) == |K.Laid(h)|
    ensures fc0 / 4 % 4 == 1 ==>
              AnyHdrSize(fc0, fc1) == if fc0 / 0x10 in {0xC, 0xD} then 10 else if fc0 / 0x10 == 8 then 20 else 16
  {
    if K.ValidHeader(h) {
      K.HeaderParts(h);
    }
  }

  /** Header, cipher header, body and trailer: the strip leaves header and body, the Protected bit clear. */
  lemma StripLaid(h: K.Header, iv: seq<byte>, body: seq<byte>, mic: seq<byte>)
    requires K.ValidHeader(h) && h.fc1 / 0x40 % 2 == 1 && |iv| == 8 && |mic| == 8
    ensures StripCcmp(K.Laid(h) + iv + body + mic) == K.Laid(h.(fc1 := h.fc1 - 0x40)) + body
  {
    var m, n := K.Laid(h) + iv + body + mic, |K.Laid(h)|;
    HeaderSizes(h, h.fc0, h.fc1);
    assert m[0] == h.fc0 && m[1] == h.fc1 && m[..n] == K.Laid(h) && m[n + 8..|m| - 8] == body;
    assert K.Laid(h)[1 := h.fc1 - 0x40] == K.Laid(h.(fc1 := h.fc1 - 0x40));
  }

  /** A frame that is not Protected, or too short to hold header, cipher header and trailer, is left alone. */
  lemma StripLeaves(h: K.Header, rest: seq<byte>)
    requires K.ValidHeader(h) && (h.fc1 / 0x40 % 2 == 0 || |rest| < 16)
    ensures StripCcmp(K.Laid(h) + rest) == K.Laid(h) + rest
  {
    var m := K.Laid(h) + rest;
    HeaderSizes(h, h.fc0, h.fc1);
    assert m[0] == h.fc0 && m[1] == h.fc1;
  }

  /** So is any frame of fewer than forty bytes. */
  lemma ShortLeft(m: seq<byte>)
    requires |m| < 40
    ensures StripCcmp(m) == m
  {
  }

  /** A frame the hardware decrypted comes out as it was before it was sealed, without cipher header,
      trailer and FCS; any other frame only loses its FCS. */
  lemma SealedIsDelivered(d: Desc, m: seq<byte>, iv: seq<byte>, mic: seq<byte>, fcs: seq<byte>, ampdu: bool)
    requires 24 <= |m| <= MCLBYTES - 2 * CCMP_LEN && AnyHdrSize(m[0], m[1]) <= |m| && !Frames.IsProtected(m)
    requires |iv| == |mic| == CCMP_LEN && |fcs| == FCS_LEN && !d.c2h && !d.crc
    ensures var o := OutcomeOf(d, SealCcmp(m, iv, mic) + fcs, true, ampdu);
            && o.Delivered?
            && o.frame == if !d.swdec && d.enc == ENC_AES then m else SealCcmp(m, iv, mic)
  {
    StripSeal(m, iv, mic);
    var s := SealCcmp(m, iv, mic);
    assert (s + fcs)[..|s + fcs| - FCS_LEN] == s;
  }

  /** Which outcome a packet has, by what is wrong with it. */
  lemma OutcomeIff(d: Desc, body: seq<byte>, mem: bool, ampdu: bool)
    ensures var o, plain := OutcomeOf(d, body, mem, ampdu), !d.c2h && !d.crc && |body| > FCS_LEN;
            && (o.C2h? <==> d.c2h) && (o.Empty? <==> !d.c2h && body == [])
            && (o.CrcError? <==> !d.c2h && d.crc && body != [])
            && (o.TooShort? <==> !d.c2h && !d.crc && 0 < |body| <= FCS_LEN)
            && (o.Delivered? <==> plain && |body| <= MCLBYTES + FCS_LEN && mem)
            && (o.Dropped? <==> plain && !o.Delivered?)
            && (Icv(o) <==> d.icv && !d.c2h && !d.crc && body != [])
            && (o.Delivered? ==>
                  (o.reorder <==> ampdu && |body| >= 28 && o.frame[0] >= 0x80 && o.frame[0] / 4 % 4 == 2))
  {
  }

  // ---- each packet is counted once ----

  datatype Class = C2H | EMPTY | CRC | SHORT | DROPPED | DELIVERED

  function ClassOf(o: Outcome): Class {
    match o
    case C2h(_) => C2H
    case Empty => EMPTY
    case CrcError => CRC
    case TooShort(_) => SHORT
    case Dropped(_) => DROPPED
    case Delivered(_, _, _) => DELIVERED
  }

  function Tally(os: seq<Outcome>, c: Class): nat
    decreases os
  {
    if os == [] then 0 else (if ClassOf(os[0]) == c then 1 else 0) + Tally(os[1..], c)
  }

  /** The frames handed to net80211, each with its reorder flag, and the firmware events, in order. */
  function FramesOf(os: seq<Outcome>): seq<(seq<byte>, bool)>
    decreases os
  {
    if os == [] then []
    else (if os[0].Delivered? then [(os[0].frame, os[0].reorder)] else []) + FramesOf(os[1..])
  }

  function EventsOf(os: seq<Outcome>): seq<seq<byte>>
    decreases os
  {
    if os == [] then [] else (if os[0].C2h? then [os[0].payload] else []) + EventsOf(os[1..])
  }

  function IcvTally(os: seq<Outcome>): nat
    decreases os
  {
    if os == [] then 0 else (if Icv(os[0]) then 1 else 0) + IcvTally(os[1..])
  }

  /** The counters account for every packet: errors for bad checksums of either kind, drops, frames and
      firmware events; only empty and too short packets leave no mark of their own. */
  lemma {:induction false} CountersAddUp(s: Stats, os: seq<Outcome>)
    ensures var r := CountedAll(s, os);
            && r.errors == s.errors + Tally(os, CRC) + IcvTally(os)
            && r.drops == s.drops + Tally(os, DROPPED)
            && r.frames == s.frames + Tally(os, DELIVERED)
            && |r.input| == |s.input| + Tally(os, DELIVERED) && |r.c2h| == |s.c2h| + Tally(os, C2H)
            && (r.frames - s.frames) + (r.drops - s.drops) + (|r.c2h| - |s.c2h|)
               + Tally(os, EMPTY) + Tally(os, SHORT) + Tally(os, CRC) == |os|
    decreases os
  {
    if os != [] {
      CountersAddUp(Counted(s, os[0]), os[1..]);
    }
  }

  lemma Regroup<T>(a: seq<T>, b: seq<T>, c: seq<T>)
    ensures (a + b) + c == a + (b + c)
  {
  }

  /** Exactly the delivered frames go to net80211, in order. */
  lemma {:induction false} FramesHandedOn(s: Stats, os: seq<Outcome>)
    ensures CountedAll(s, os).input == s.input + FramesOf(os)
    decreases os
  {
    if os != [] {
      FramesHandedOn(Counted(s, os[0]), os[1..]);
      Regroup(s.input, if os[0].Delivered? then [(os[0].frame, os[0].reorder)] else [], FramesOf(os[1..]));
    }
  }

  /** Exactly the firmware events go to their handler, in order. */
  lemma {:induction false} EventsHandedOn(s: Stats, os: seq<Outcome>)
    ensures CountedAll(s, os).c2h == s.c2h + EventsOf(os)
    decreases os
  {
    if os != [] {
      EventsHandedOn(Counted(s, os[0]), os[1..]);
      Regroup(s.c2h, if os[0].C2h? then [os[0].payload] else [], EventsOf(os[1..]));
    }
  }
}
