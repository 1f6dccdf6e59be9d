/** What framing promises the chip and the receiver, for every frame. */
module TxFraming {
  import opened Bytes
  import opened Frames
  import opened Xors
  import opened TxFrame
  import G = TxGate
  import K = EapolKey

  /** A dequeued frame is framed and submitted exactly when the transmit state machine says so; any other
      is freed. */
  lemma FramedIffSubmittable(f: G.Frame, ctx: Ctx)
    ensures Build(f.bytes, ctx).Some? <==> G.Submittable(f)
  {
    assert LenOf(f.bytes) == |f.bytes| % 0x1_0000;
  }

  // ---- checksum ----

  lemma {:induction false} Enc32AllAt(ws: seq<word>, i: nat, k: nat)
    requires i < |ws| && k < 4
    ensures Enc32All(ws)[4 * i + k] == Enc32(ws[i])[k]
    decreases ws
  {
    if i > 0 {
      Enc32AllAt(ws[1..], i - 1, k);
      assert Enc32All(ws)[4 * i + k] == Enc32All(ws[1..])[4 * (i - 1) + k];
    }
  }

  lemma HalfOfWord(v: word)
    ensures Le16(Enc32(v), 0) == v % 0x1_0000 && Le16(Enc32(v), 2) == v / 0x1_0000
  {
    DivDiv(v, 0x100, 0x100);
    DivDiv(v, 0x1_0000, 0x100);
    DivMod(0x1_0000, v % 0x100 + 0x100 * (v / 0x100 % 0x100), v / 0x1_0000);
  }

  /** The checksum words are the little-endian 16-bit words of the descriptor bytes. */
  lemma HalvesAreBytes(ws: seq<word>, i: nat)
    requires |ws| == 12 && i < 16
    ensures Le16(Enc32All(ws), 2 * i) == Halves(ws)[i]
  {
    var j, k := i / 2, i % 2 * 2;
    Enc32AllAt(ws, j, k);
    Enc32AllAt(ws, j, k + 1);
    HalfOfWord(ws[j]);
  }

  lemma ChecksumCancels(ws: seq<word>)
    requires |ws| == 12 && ws[7] == 0
    ensures XorAll(Halves(Checksummed(ws))) == 0
  {
    var h, sum := Halves(ws), XorAll(Halves(ws));
    XorAllBound(h);
    assert Halves(Checksummed(ws)) == h[14 := sum];
    XorReplace(h, 14, sum);
    XorSelf(sum);
  }

  /** The sixteen little-endian words of the first 32 descriptor bytes cancel out. */
  lemma ChecksumIsZero(m: seq<byte>, ctx: Ctx)
    requires Build(m, ctx).Some?
    ensures XorAll(seq(16, i requires 0 <= i < 16 => Le16(Enc32All(Build(m, ctx).value.words), 2 * i))) == 0
  {
    var ws := Build(m, ctx).value.words;
    var s := seq(16, i requires 0 <= i < 16 => Le16(Enc32All(ws), 2 * i));
    forall i | 0 <= i < 16
      ensures s[i] == Halves(ws)[i]
    {
      HalvesAreBytes(ws, i);
    }
    assert s == Halves(ws);
    ChecksumCancels(Words(m, ctx, |Wire(m, ctx.txSeq)|));
  }

  // ---- length ----

  /** W0 announces exactly the bytes behind the descriptor, after any promotion. */
  lemma LengthIsSent(m: seq<byte>, ctx: Ctx)
    requires Build(m, ctx).Some?
    ensures var s := Build(m, ctx).value;
            && s.words[0] % 0x1_0000 == |s.wire| && s.words[0] / 0x1_0000 % 0x100 == TX_DESC_SZ
            && |s.wire| == LenOf(m) + if Promotes(m[..LenOf(m)]) then 2 else 0
  {
    var s := Build(m, ctx).value;
    var flags := 4 + Weight(Bmc(m), 1) + Weight(!IsData(m), 0x80);
    DivMod(0x1_0000, |s.wire|, TX_DESC_SZ + 0x100 * flags);
    DivMod(0x100, TX_DESC_SZ, flags);
  }

  // ---- promotion can be undone ----

  function Demoted(w: seq<byte>): seq<byte>
    requires |w| >= 26 && w[0] >= 0x80
  {
    [w[0] - 0x80] + w[1..24] + w[26..]
  }

  /** Everything but the sequence control field. */
  predicate SameButSeq(a: seq<byte>, b: seq<byte>) {
    |a| == |b| && forall i :: 0 <= i < |a| && i != 22 && i != 23 ==> a[i] == b[i]
  }

  /** The parts of what is sent. */
  lemma Parts(m: seq<byte>, ctx: Ctx)
    requires Framable(m)
    ensures var s := Build(m, ctx).value;
            && s.wire == Wire(m, ctx.txSeq)
            && s.txSeq == (if Unstamped(Shaped(m)) then NextSeq(ctx.txSeq) else ctx.txSeq)
            && |s.words| == 12 && s.words[0] == W0(|s.wire|, Bmc(m), IsData(m))
            && (IsData(m) ==> s.words[1] == DataW1(m, ctx) && s.words[2] == DataW2(m, ctx)
                              && s.words[3] == DataW3(m, ctx) && s.words[9] == DataW9(m)
                              && s.words[6] == DataW6(m, ctx))
  {
  }

  lemma StampedOnly(q: seq<byte>, w: seq<byte>, txSeq: nat)
    requires w == if Unstamped(q) then Stamped(q, NextSeq(txSeq)) else q
    ensures SameButSeq(w, q)
    ensures |q| >= 24 ==> Le16(w, 22) == if Unstamped(q) then NextSeq(txSeq) * 0x10 else Le16(q, 22)
  {
  }

  lemma DemotedPromoted(b: seq<byte>, tid: byte, w: seq<byte>)
    requires |b| >= 24 && b[0] < 0x10 && IsData(b) && SameButSeq(w, Promoted(b, tid))
    ensures QosData(w) && SameButSeq(Demoted(w), b)
  {
    var p, d := Promoted(b, tid), Demoted(w);
    assert w[0] == b[0] + 0x80;
    forall i | 1 <= i < |b| && i != 22 && i != 23
      ensures d[i] == b[i]
    {
      var k := if i < 24 then i else i + 2;
      assert d[i] == w[k] && p[k] == b[i];
    }
  }

  lemma ShapedSeq(m: seq<byte>)
    requires Framable(m)
    ensures var b, q := m[..LenOf(m)], Shaped(m);
            |b| >= 24 ==> Le16(q, 22) == Le16(b, 22) == Le16(m, 22) && (Unstamped(q) <==> Unstamped(b))
    ensures |m[..LenOf(m)]| < 24 ==> !Unstamped(Shaped(m))
  {
  }

  /** Deleting the QoS Control field and clearing the QoS bit of a promoted frame gives the frame back,
      but for a sequence control field that was zero; other frames differ in that field at most. */
  lemma PromotionUndone(m: seq<byte>, ctx: Ctx)
    requires Build(m, ctx).Some?
    ensures var b, w := m[..LenOf(m)], Build(m, ctx).value.wire;
            && (Promotes(b) ==> QosData(w) && SameButSeq(Demoted(w), b))
            && (!Promotes(b) ==> SameButSeq(w, b))
            && (|b| >= 24 ==>
                  |w| >= 24 && Le16(w, 22) == if Unstamped(b) then NextSeq(ctx.txSeq) * 0x10 else Le16(b, 22))
  {
    var b, w := m[..LenOf(m)], Wire(m, ctx.txSeq);
    Parts(m, ctx);
    ShapedSeq(m);
    StampedOnly(Shaped(m), w, ctx.txSeq);
    if Promotes(b) {
      DemotedPromoted(b, if Eapol(m) then 7 else 0, w);
    }
  }

  // ---- queue selection ----

  function QselOf(w1: word): nat {
    w1 / 0x100 % 0x20
  }

  function TidOf(w: seq<byte>): nat
    requires |w| >= 26
  {
    w[24] % 0x10
  }

  lemma QselField(m: seq<byte>, ctx: Ctx)
    ensures QselOf(DataW1(m, ctx)) == Qsel(m)
  {
    DivMod(0x100, 0, Qsel(m) + 0x100 * ctx.rateId as int);
    DivMod(0x20, Qsel(m), 8 * ctx.rateId as int);
  }

  lemma TidFits(x: byte)
    ensures x % 8 == x % 0x10 <==> x % 0x10 < 8
  {
  }

  lemma ShapedTid(m: seq<byte>)
    requires Framable(m) && |Shaped(m)| >= 26
    ensures var b := m[..LenOf(m)];
            Shaped(m)[24] == if Promotes(b) then if Eapol(m) then 7 else 0 else m[24]
    ensures !Promotes(m[..LenOf(m)]) ==> LenOf(m) >= 26 && Shaped(m)[0] == m[0]
  {
  }

  /** A frame sent as QoS data announces its own TID to the scheduler exactly when it is EAPOL promoted
      here, or QoS data as it came, with TID 7 if EAPOL and below 8 if not. Promoted frames that are
      not EAPOL carry TID 0 but select queue 2. */
  lemma QselIsTidIff(m: seq<byte>, ctx: Ctx)
    requires Build(m, ctx).Some? && IsData(m) && QosData(Build(m, ctx).value.wire) && |Build(m, ctx).value.wire| >= 26
    ensures var b, s := m[..LenOf(m)], Build(m, ctx).value;
            QselOf(s.words[1]) == TidOf(s.wire) <==>
            if Promotes(b) then Eapol(m) else if Eapol(m) then b[24] % 0x10 == 7 else b[24] % 0x10 < 8
    ensures Promotes(m[..LenOf(m)]) && Eapol(m) ==>
              QselOf(Build(m, ctx).value.words[1]) == TidOf(Build(m, ctx).value.wire) == 7
  {
    Parts(m, ctx);
    QselField(m, ctx);
    StampedOnly(Shaped(m), Wire(m, ctx.txSeq), ctx.txSeq);
    ShapedTid(m);
    if !Promotes(m[..LenOf(m)]) {
      TidFits(m[24]);
    }
  }

  // ---- sequence numbers ----

  lemma SeqNumbers(txSeq: nat, field: nat)
    ensures NextSeq(txSeq) * 0x10 / 0x10 == NextSeq(txSeq) && (NextSeq(txSeq) == 0 <==> txSeq % 0x1000 == 0xFFF)
    ensures field / 0x10 * 0x1000 / 0x1000 == field / 0x10
  {
    DivMod(0x10, 0, NextSeq(txSeq));
    DivMod(0x1000, 0, field / 0x10);
    ModShift(txSeq, 1);
  }

  lemma ModShift(x: nat, i: nat)
    ensures (x % 0x1000 + i) % 0x1000 == (x + i) % 0x1000
  {
  }

  /** The sequence number in the descriptor of a data frame is the one on the wire unless the frame came
      with a zero sequence control field and was given a number other than zero. */
  lemma SeqInDescriptorIff(m: seq<byte>, ctx: Ctx)
    requires Build(m, ctx).Some? && IsData(m) && LenOf(m) >= 24
    ensures var b, s := m[..LenOf(m)], Build(m, ctx).value;
            s.words[9] / 0x1000 == Le16(s.wire, 22) / 0x10 <==> !Unstamped(b) || ctx.txSeq % 0x1000 == 0xFFF
  {
    Parts(m, ctx);
    ShapedSeq(m);
    StampedOnly(Shaped(m), Wire(m, ctx.txSeq), ctx.txSeq);
    SeqNumbers(ctx.txSeq, Le16(m, 22));
  }

  // ---- a frame for which both fail ----

  /** A plain data frame, header only, with a zero sequence control field. */
  const PLAIN: seq<byte> := [0x08] + Zeros(23)

  /** It goes out with TID 0 on queue 2, and stamped 1 under a descriptor that says 0. */
  lemma PlainFrameDisagrees(ctx: Ctx)
    requires ctx.txSeq == 0
    ensures Build(PLAIN, ctx).Some?
    ensures var s := Build(PLAIN, ctx).value;
            && |s.wire| == 26 && QosData(s.wire) && QselOf(s.words[1]) == 2 && TidOf(s.wire) == 0
            && s.words[9] / 0x1000 == 0 && Le16(s.wire, 22) / 0x10 == 1
  {
    var m := PLAIN;
    assert |m| == 24 && m[0] == 8 && m[22] == 0 && m[23] == 0 && LenOf(m) == 24;
    PlainParts(m, ctx);
  }

  lemma PlainParts(m: seq<byte>, ctx: Ctx)
    requires |m| == 24 == LenOf(m) && m[0] == 8 && Le16(m, 22) == 0 && ctx.txSeq == 0
    ensures Build(m, ctx).Some?
    ensures var s := Build(m, ctx).value;
            && |s.wire| == 26 && QosData(s.wire) && QselOf(s.words[1]) == 2 && TidOf(s.wire) == 0
            && s.words[9] / 0x1000 == 0 && Le16(s.wire, 22) / 0x10 == 1
  {
    assert m[..24] == m;
    Parts(m, ctx);
    ShapedSeq(m);
    StampedOnly(Shaped(m), Wire(m, ctx.txSeq), ctx.txSeq);
    QselField(m, ctx);
    ShapedTid(m);
    DemotedPromoted(m, 0, Wire(m, ctx.txSeq));
  }

  // ---- the other fields, as the chip reads them ----

  lemma W0Flags(len: nat, bmc: bool, data: bool)
    requires len < 0x1_0000
    ensures var w := W0(len, bmc, data); Bit(w, 0x100_0000) == bmc && Bit(w, 0x400_0000) && Bit(w, 0x8000_0000) == !data
  {
    var low, b, d := len + 0x1_0000 * TX_DESC_SZ, Weight(bmc, 1), Weight(!data, 1);
    DivMod(0x100_0000, low, b + 4 + 0x80 * d);
    DivMod(2, b, 2 + 0x40 * d);
    DivMod(0x400_0000, low + 0x100_0000 * b, 1 + 0x20 * d);
    DivMod(2, 1, 0x10 * d);
    DivMod(0x8000_0000, low + 0x100_0000 * b + 0x400_0000, d);
  }

  lemma W2Fields(density: nat, agg: bool, report: bool)
    ensures var w := Weight(agg, 0x1000 + density % 8 * 0x10_0000) + Weight(report, 0x8_0000);
            && Bit(w, 0x1000) == agg && Bit(w, 0x8_0000) == report && w / 0x10_0000 % 8 == Weight(agg, density % 8)
  {
    var a, r, n := Weight(agg, 1), Weight(report, 1), Weight(agg, density % 8);
    DivMod(0x1000, 0, a + 0x80 * r + 0x100 * n);
    DivMod(2, a, 0x40 * r + 0x80 * n);
    DivMod(0x8_0000, 0x1000 * a, r + 2 * n);
    DivMod(2, r, n);
    DivMod(0x10_0000, 0x1000 * a + 0x8_0000 * r, n);
  }

  /** Everything but data goes to the management queue at a fixed CCK rate, without fallback. */
  lemma MgmtFields(m: seq<byte>, ctx: Ctx)
    requires Build(m, ctx).Some? && !IsData(m)
    ensures var ws := Build(m, ctx).value.words;
            QselOf(ws[1]) == 0x12 && ws[1] / 0x1_0000 == 8 && Bit(ws[3], 0x100) && Bit(ws[3], 0x400) && ws[4] == 0
  {
    var ws := Build(m, ctx).value.words;
    assert ws[1] == 0x8_1200 && ws[3] == 0x500 && ws[4] == 0;
  }

  /** The multicast bit is set for group receivers, sequence selection is disabled for all but data, and
      a data descriptor asks for aggregation exactly in a running session, for a report exactly on EAPOL;
      everything else goes to the management queue at a fixed rate. */
  lemma DescriptorFields(m: seq<byte>, ctx: Ctx)
    requires Build(m, ctx).Some?
    ensures var ws := Build(m, ctx).value.words;
            Bit(ws[0], 0x100_0000) == (LenOf(m) >= 10 && IsMulticast(m)) && Bit(ws[0], 0x8000_0000) == !IsData(m)
    ensures IsData(m) ==>
              var ws := Build(m, ctx).value.words;
              && Bit(ws[2], 0x1000) == UseAmpdu(m, ctx) && Bit(ws[2], 0x8_0000) == Eapol(m)
              && ws[2] / 0x10_0000 % 8 == Weight(UseAmpdu(m, ctx), ctx.density % 8)
              && ws[3] / 0x2_0000 % 0x20 == Weight(UseAmpdu(m, ctx), ctx.maxNum % 0x20)
              && ws[1] / 0x1_0000 % 0x100 == ctx.rateId
    ensures !IsData(m) ==>
              var ws := Build(m, ctx).value.words;
              QselOf(ws[1]) == 0x12 && ws[1] / 0x1_0000 == 8 && Bit(ws[3], 0x100) && Bit(ws[3], 0x400) && ws[4] == 0
  {
    if !IsData(m) {
      MgmtFields(m, ctx);
    }
    Parts(m, ctx);
    W0Flags(|Wire(m, ctx.txSeq)|, Bmc(m), IsData(m));
    W2Fields(ctx.density, UseAmpdu(m, ctx), Eapol(m));
    DivMod(0x2_0000, 0, Weight(UseAmpdu(m, ctx), ctx.maxNum % 0x20));
    DivMod(0x1_0000, Qsel(m) * 0x100, ctx.rateId);
  }

  lemma ReportField(sn: byte)
    ensures var w := NextSn(sn) as int % 0x40 * 4; w % 4 == 0 && w / 4 == (sn as int + 1) % 0x40
  {
    DivMod(4, 0, NextSn(sn) as int % 0x40);
  }

  /** The report serial goes into bits 2 to 7, for EAPOL only. */
  lemma ReportSerial(m: seq<byte>, ctx: Ctx)
    requires Build(m, ctx).Some? && IsData(m)
    ensures var sn := Build(m, ctx).value.words[6];
            sn % 4 == 0 && sn / 4 == if Eapol(m) then (ctx.reportSn as int + 1) % 0x40 else 0
  {
    Parts(m, ctx);
    ReportField(ctx.reportSn);
  }

  // ---- the descriptor and the counters, in terms of the frame's bits ----

  ghost predicate IsKeyFrame(m: seq<byte>) {
    exists f :: K.Valid(f) && K.Ser(f) == m
  }

  lemma KeyFrameIff(m: seq<byte>)
    ensures IsKeyFrame(m) <==> Eapol(m)
  {
    if Eapol(m) {
      K.KeyInfoIff(m, EapolKeyInfo(m).value);
    }
    if f :| K.Valid(f) && K.Ser(f) == m {
      K.Recognised(f);
    }
  }

  /** Exactly plain data of at least a header that leaves room for two more bytes grows, by the QoS Control
      field. */
  lemma GrowsIff(m: seq<byte>, ctx: Ctx)
    requires Build(m, ctx).Some?
    ensures var n, s := |m| % 0x1_0000, Build(m, ctx).value;
            |s.wire| == if n >= 24 && m[0] / 4 % 4 == 2 && m[0] < 0x10 && n + 2 <= 16336 then n + 2 else n
  {
    assert LenOf(m) == |m| % 0x1_0000;
  }

  /** A zero sequence control field takes the next of 4096 numbers, with fragment zero, and moves the counter;
      any other stays and leaves the counter. The report serial moves with EAPOL-Key data only. */
  lemma CountersMove(m: seq<byte>, ctx: Ctx)
    requires Build(m, ctx).Some?
    ensures var n, s := |m| % 0x1_0000, Build(m, ctx).value;
            if n >= 24 && m[22] == 0 && m[23] == 0 then
              s.txSeq == (ctx.txSeq + 1) % 4096 && Le16(s.wire, 22) == s.txSeq * 16
            else s.txSeq == ctx.txSeq && (n >= 24 ==> Le16(s.wire, 22) == Le16(m, 22))
    ensures Build(m, ctx).value.reportSn as int
            == if IsKeyFrame(m) then (ctx.reportSn as int + 1) % 256 else ctx.reportSn as int
  {
    KeyFrameIff(m);
    PromotionUndone(m, ctx);
    ShapedSeq(m);
    var b := m[..LenOf(m)];
    assert LenOf(m) >= 24 ==> b[22] == m[22] && b[23] == m[23];
  }

  /** An A-MPDU session for its TID. */
  predicate Aggregated(m: seq<byte>, ctx: Ctx) {
    |m| >= 26 && m[0] >= 0x80 && m[0] / 4 % 4 == 2 && ctx.session(m[24] % 16)
  }

  /** Every word of a data descriptor but the checksum. */
  lemma DataDescriptor(m: seq<byte>, ctx: Ctx)
    requires Build(m, ctx).Some? && m[0] / 4 % 4 == 2
    ensures var n, s := |m| % 0x1_0000, Build(m, ctx).value;
            var ws, agg, key := s.words, Aggregated(m, ctx), IsKeyFrame(m);
            var queue: nat := if key then 7 else if n >= 26 && m[0] >= 0x80 then m[24] % 8 else 2;
            && |ws| == 12
            && ws[0] == |s.wire| + 48 * 0x1_0000 + 0x400_0000
                        + (if n >= 10 && m[4] % 2 == 1 then 0x100_0000 else 0)
            && ws[1] / 0x1_0000 == ctx.rateId as int
            && ws[1] % 0x1_0000 == 0x100 * queue
            && ws[2] == (if agg then 0x1000 + ctx.density % 8 * 0x10_0000 else 0) + (if key then 0x8_0000 else 0)
            && ws[3] == (if agg then ctx.maxNum % 32 * 0x2_0000 else 0)
            && ws[4] == 4 && ws[5] == 0 && ws[8] == 0 && ws[10] == 0 && ws[11] == 0
            && ws[9] == (if n >= 24 then Le16(m, 22) / 16 * 0x1000 else 0)
  {
    KeyFrameIff(m);
    Parts(m, ctx);
    DivMod(0x1_0000, Qsel(m) * 0x100, ctx.rateId);
  }

  /** Every word of any other descriptor but the checksum. */
  lemma MgmtDescriptor(m: seq<byte>, ctx: Ctx)
    requires Build(m, ctx).Some? && m[0] / 4 % 4 != 2
    ensures var n, s := |m| % 0x1_0000, Build(m, ctx).value;
            && s.words[0] == |s.wire| + 48 * 0x1_0000 + 0x8400_0000
                             + (if n >= 10 && m[4] % 2 == 1 then 0x100_0000 else 0)
            && s.words[1..7] == [0x8_1200, 0x8_0000, 0x500, 0, 0, 0x38] && s.words[8..] == [0x8000, 0, 0, 0]
  {
    Parts(m, ctx);
  }
}
