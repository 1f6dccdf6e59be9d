/** Framing a dequeued frame for bulk-OUT: descriptor words, QoS promotion, sequence numbers and the
    descriptor checksum. The descriptor is viewed as its twelve little-endian words. */
module TxFrame {
  import opened Bytes
  import opened Frames
  import opened Xors

  const FRAME_MAX := TX_BUFSZ - TX_DESC_SZ

  /** What the descriptor takes from the driver: the rate mask, the block-ack sessions with their
      parameters, the software sequence counter and the report serial number. */
  datatype Ctx = Ctx(rateId: byte, session: nat -> bool, density: nat, maxNum: nat, txSeq: nat, reportSn: byte)

  predicate UseAmpdu(m: seq<byte>, ctx: Ctx) {
    |m| >= 26 && QosData(m) && ctx.session(m[24] % 0x10)
  }

  predicate Eapol(m: seq<byte>) {
    EapolKeyInfo(m).Some?
  }

  /** The frame length is 16 bits wide. */
  function LenOf(m: seq<byte>): (n: nat)
    ensures n <= |m|
  {
    |m| % 0x1_0000
  }

  predicate Framable(m: seq<byte>) {
    0 < LenOf(m) <= FRAME_MAX
  }

  // ---- the frame on the wire ----

  predicate Promotes(b: seq<byte>) {
    |b| >= 24 && IsData(b) && b[0] < 0x10 && |b| + 2 <= FRAME_MAX
  }

  /** Plain data made QoS data: a QoS Control field behind the 24-byte header (section 9.2.4.5 of
      IEEE 802.11-2016). */
  function Promoted(b: seq<byte>, tid: byte): (r: seq<byte>)
    requires |b| >= 24 && b[0] < 0x10
    ensures |r| == |b| + 2
  {
    [b[0] + 0x80] + b[1..24] + [tid, 0] + b[24..]
  }

  lemma PromotedIs(b: seq<byte>, tid: byte, r: seq<byte>)
    requires |b| >= 24 && b[0] < 0x10 && |r| == |b| + 2
    requires r[0] == b[0] + 0x80 && r[24] == tid && r[25] == 0
    requires forall j :: 1 <= j < 24 ==> r[j] == b[j]
    requires forall j :: 24 <= j < |b| ==> r[j + 2] == b[j]
    ensures r == Promoted(b, tid)
  {
    var p := Promoted(b, tid);
    forall j | 26 <= j < |r|
      ensures r[j] == p[j]
    {
      assert r[(j - 2) + 2] == b[j - 2];
    }
    assert forall j :: 0 <= j < 26 ==> r[j] == p[j];
  }

  function NextSeq(txSeq: nat): nat {
    (txSeq + 1) % 0x1000
  }

  predicate Unstamped(b: seq<byte>) {
    |b| >= 24 && Le16(b, 22) == 0
  }

  function Stamped(b: seq<byte>, no: nat): (r: seq<byte>)
    requires |b| >= 24
    ensures |r| == |b|
  {
    b[22 := Enc16(no * 0x10)[0]][23 := Enc16(no * 0x10)[1]]
  }

  /** The frame as QoS data where the driver makes it so; EAPOL gets TID 7, other data TID 0. */
  function Shaped(m: seq<byte>): (q: seq<byte>)
    requires Framable(m)
    ensures 0 < |q| <= FRAME_MAX
  {
    var b := m[..LenOf(m)];
    if Promotes(b) then Promoted(b, if Eapol(m) then 7 else 0) else b
  }

  function Wire(m: seq<byte>, txSeq: nat): (w: seq<byte>)
    requires Framable(m)
    ensures |w| == |Shaped(m)|
  {
    if Unstamped(Shaped(m)) then Stamped(Shaped(m), NextSeq(txSeq)) else Shaped(m)
  }

  // ---- the descriptor ----

  function Qsel(m: seq<byte>): (q: nat)
    ensures q < 8
  {
    if Eapol(m) then 7 else if LenOf(m) >= 26 && QosData(m) then m[24] % 8 else 2
  }

  predicate Bmc(m: seq<byte>) {
    LenOf(m) >= 10 && IsMulticast(m)
  }

  function Weight(on: bool, w: nat): nat {
    if on then w else 0
  }

  function NextSn(sn: byte): byte {
    (sn as int + 1) % 0x100
  }

  /** W0 of a frame of the given length: its length, the descriptor size, last segment, multicast. */
  function W0(len: nat, bmc: bool, data: bool): word
    requires len < 0x1_0000
  {
    len + 0x1_0000 * TX_DESC_SZ + 0x400_0000 + Weight(bmc, 0x100_0000) + Weight(!data, 0x8000_0000)
  }

  function DataW1(m: seq<byte>, ctx: Ctx): word {
    Qsel(m) * 0x100 + ctx.rateId as int * 0x1_0000
  }

  function DataW2(m: seq<byte>, ctx: Ctx): word {
    Weight(UseAmpdu(m, ctx), 0x1000 + ctx.density % 8 * 0x10_0000) + Weight(Eapol(m), 0x8_0000)
  }

  function DataW3(m: seq<byte>, ctx: Ctx): word {
    Weight(UseAmpdu(m, ctx), ctx.maxNum % 0x20 * 0x2_0000)
  }

  function DataW6(m: seq<byte>, ctx: Ctx): word {
    Weight(Eapol(m), NextSn(ctx.reportSn) as int % 0x40 * 4)
  }

  /** The sequence number the frame has before any restamping. */
  function DataW9(m: seq<byte>): word {
    if LenOf(m) >= 24 then Le16(m, 22) / 0x10 * 0x1000 else 0
  }

  function DataWords(m: seq<byte>, ctx: Ctx, len: nat): (ws: seq<word>)
    requires len < 0x1_0000
    ensures |ws| == 12 && ws[7] == 0
  {
    [W0(len, Bmc(m), true), DataW1(m, ctx), DataW2(m, ctx), DataW3(m, ctx), 4, 0, DataW6(m, ctx), 0, 0, DataW9(m), 0, 0]
  }

  function MgmtWords(m: seq<byte>, len: nat): (ws: seq<word>)
    requires len < 0x1_0000
    ensures |ws| == 12 && ws[7] == 0
  {
    [W0(len, Bmc(m), false), 0x8_1200, 0x8_0000, 0x500, 0, 0, 0x38, 0, 0x8000, 0, 0, 0]
  }

  function Words(m: seq<byte>, ctx: Ctx, len: nat): (ws: seq<word>)
    requires len < 0x1_0000
    ensures |ws| == 12 && ws[7] == 0
  {
    if IsData(m) then DataWords(m, ctx, len) else MgmtWords(m, len)
  }

  lemma W0Relength(len: nat, n: nat, bmc: bool, data: bool)
    requires len < 0x1_0000 && n < 0x1_0000
    ensures W0(len, bmc, data) - W0(len, bmc, data) % 0x1_0000 + n == W0(n, bmc, data)
  {
    DivMod(0x1_0000, len, TX_DESC_SZ + 0x400 + Weight(bmc, 0x100) + Weight(!data, 0x8000));
  }

  /** Writing a new length into the low half of W0. */
  lemma Relength(m: seq<byte>, ctx: Ctx, len: nat, n: nat)
    requires len < 0x1_0000 && n < 0x1_0000
    ensures var ws := Words(m, ctx, len);
            var w0 := ws[0] - ws[0] % 0x1_0000 + n;
            w0 < 0x1_0000_0000 && ws[0 := w0] == Words(m, ctx, n)
  {
    W0Relength(len, n, Bmc(m), IsData(m));
    var ws, out := Words(m, ctx, len), Words(m, ctx, n);
    assert forall i :: 1 <= i < 12 ==> ws[i] == out[i];
    assert ws[0 := out[0]] == out;
  }

  /** The sixteen 16-bit words of the first 32 descriptor bytes. */
  function Halves(ws: seq<word>): (h: seq<nat>)
    requires |ws| == 12
    ensures |h| == 16 && forall i :: 0 <= i < 16 ==> h[i] < 0x1_0000
    ensures forall i :: 0 <= i < 16 ==> h[i] == Half(ws, i)
  {
    seq(16, i requires 0 <= i < 16 => Half(ws, i))
  }

  function Half(ws: seq<word>, i: nat): nat
    requires |ws| == 12 && i < 16
  {
    if i % 2 == 0 then ws[i / 2] % 0x1_0000 else ws[i / 2] / 0x1_0000
  }

  function Checksummed(ws: seq<word>): seq<word>
    requires |ws| == 12 && ws[7] == 0
  {
    XorAllBound(Halves(ws));
    ws[7 := XorAll(Halves(ws))]
  }

  datatype Sent = Sent(words: seq<word>, wire: seq<byte>, txSeq: nat, reportSn: byte)

  /** What is handed to USB for a frame, and the counters behind it; None when it is freed instead. */
  function Build(m: seq<byte>, ctx: Ctx): (r: Option<Sent>) {
    if !Framable(m) then None
    else
      var w := Wire(m, ctx.txSeq);
      Some(Sent(Checksummed(Words(m, ctx, |w|)), w,
                if Unstamped(Shaped(m)) then NextSeq(ctx.txSeq) else ctx.txSeq,
                if IsData(m) && Eapol(m) then NextSn(ctx.reportSn) else ctx.reportSn))
  }

  // ---- rtw88_bulk_tx_drain_q ----

  class Framer {
    const desc: array<word>
    const frame: array<byte>
    var txSeq: nat
    var reportSn: byte

    ghost predicate Valid()
      reads this
    {
      desc.Length == 12 && frame.Length == FRAME_MAX
    }

    constructor ()
      ensures Valid() && fresh(desc) && fresh(frame) && txSeq == 0 && reportSn == 0
    {
      desc, frame, txSeq, reportSn := new word[12], new byte[FRAME_MAX], 0, 0;
    }

    static method QselOf(m: seq<byte>) returns (qsel: nat)
      requires IsData(m)
      ensures qsel == Qsel(m)
    {
      qsel := 2;
      if Eapol(m) {
        qsel := 7;
      } else if m[0] >= 0x80 && LenOf(m) >= 26 {
        qsel := m[24] % 8;
      }
    }

    static method AmpduWords(m: seq<byte>, ctx: Ctx) returns (w2: word, w3: word)
      ensures w2 == DataW2(m, ctx) && w3 == DataW3(m, ctx)
    {
      var agg: nat := 0;
      w3 := 0;
      if UseAmpdu(m, ctx) {
        agg := 0x1000 + ctx.density % 8 * 0x10_0000;
        w3 := ctx.maxNum % 0x20 * 0x2_0000;
      }
      w2 := if Eapol(m) then agg + 0x8_0000 else agg;
    }

    method Report(m: seq<byte>) returns (w6: word)
      modifies `reportSn
      ensures w6 == if Eapol(m) then NextSn(old(reportSn)) as int % 0x40 * 4 else 0
      ensures reportSn == if Eapol(m) then NextSn(old(reportSn)) else old(reportSn)
    {
      w6 := 0;
      if Eapol(m) {
        reportSn := (reportSn as int + 1) % 0x100;
        var sn := reportSn as int;
        DivMod(0x100, sn % 0x40 * 4, sn / 0x40);
        w6 := reportSn as int * 4 % 0x100;
      }
    }

    /** The data arm; W0 carries the length before promotion. */
    method FillData(m: seq<byte>, ctx: Ctx)
      requires Valid() && IsData(m) && ctx.reportSn == reportSn
      modifies desc, `reportSn
      ensures desc[..] == DataWords(m, ctx, LenOf(m))
      ensures reportSn == if Eapol(m) then NextSn(old(reportSn)) else old(reportSn)
    {
      var len := LenOf(m);
      var qsel := QselOf(m);
      var w2, w3 := AmpduWords(m, ctx);
      var w6 := Report(m);
      desc[0] := W0(len, len >= 10 && IsMulticast(m), true);
      desc[1] := qsel * 0x100 + ctx.rateId as int * 0x1_0000;
      desc[2], desc[3], desc[4], desc[5], desc[6] := w2, w3, 4, 0, w6;
      desc[7], desc[8] := 0, 0;
      desc[9] := if len >= 24 then Le16(m, 22) / 0x10 * 0x1000 else 0;
      desc[10], desc[11] := 0, 0;
    }

    method FillMgmt(m: seq<byte>)
      requires Valid() && !IsData(m)
      modifies desc
      ensures desc[..] == MgmtWords(m, LenOf(m))
    {
      var len := LenOf(m);
      desc[0] := W0(len, len >= 10 && IsMulticast(m), false);
      desc[1], desc[2], desc[3], desc[4] := 0x12 * 0x100 + 8 * 0x1_0000, 0x8_0000, 0x100 + 0x400, 0;
      desc[5], desc[6], desc[7], desc[8] := 0, 0x38, 0, 0x8000;
      desc[9], desc[10], desc[11] := 0, 0, 0;
    }

    /** m_copydata */
    method CopyIn(b: seq<byte>)
      requires Valid() && |b| <= FRAME_MAX
      modifies frame
      ensures frame[..|b|] == b
    {
      for i := 0 to |b|
        invariant frame[..i] == b[..i]
      {
        frame[i] := b[i];
      }
    }

    /** The QoS Control field goes in behind the header; the rest moves up by two, last byte first. */
    method Promote(len: nat, tid: byte)
      requires Valid() && 24 <= len && len + 2 <= FRAME_MAX && frame[0] < 0x10
      modifies frame
      ensures frame[..len + 2] == Promoted(old(frame[..len]), tid)
    {
      ghost var b := frame[..len];
      var k := len;
      while k > 24
        invariant 24 <= k <= len
        invariant forall j :: 0 <= j < k ==> frame[j] == b[j]
        invariant forall j :: k <= j < len ==> frame[j + 2] == b[j]
      {
        k := k - 1;
        frame[k + 2] := frame[k];
      }
      frame[24], frame[25] := tid, 0;
      frame[0] := frame[0] + 0x80;
      PromotedIs(b, tid, frame[..len + 2]);
    }

    method Stamp(len: nat)
      requires Valid() && len <= FRAME_MAX
      modifies `txSeq, frame
      ensures var b := old(frame[..len]);
              && frame[..len] == (if Unstamped(b) then Stamped(b, NextSeq(old(txSeq))) else b)
              && txSeq == if Unstamped(b) then NextSeq(old(txSeq)) else old(txSeq)
    {
      if len < 24 || Le16(frame[..len], 22) != 0 {
        return;
      }
      ghost var b := frame[..len];
      txSeq := (txSeq + 1) % 0x1000;
      frame[22] := Enc16(txSeq * 0x10)[0];
      frame[23] := Enc16(txSeq * 0x10)[1];
      assert frame[..len] == Stamped(b, txSeq);
    }

    method Checksum()
      requires Valid() && desc[7] == 0
      modifies desc
      ensures desc[..] == Checksummed(old(desc[..]))
    {
      var sum, i := 0, 16;
      ghost var h := Halves(desc[..]);
      while i > 0
        invariant 0 <= i <= 16 && desc[..] == old(desc[..])
        invariant sum == XorAll(h[i..])
      {
        i := i - 1;
        assert h[i..][1..] == h[i + 1..];
        sum := Xor(if i % 2 == 0 then desc[i / 2] % 0x1_0000 else desc[i / 2] / 0x1_0000, sum);
      }
      XorAllBound(h);
      assert h[0..] == h;
      desc[7] := sum;
    }

    method Fill(m: seq<byte>, ctx: Ctx)
      requires Valid() && Framable(m) && ctx.reportSn == reportSn
      modifies desc, frame, `reportSn
      ensures desc[..] == Words(m, ctx, LenOf(m)) && frame[..LenOf(m)] == m[..LenOf(m)]
      ensures reportSn == if IsData(m) && Eapol(m) then NextSn(old(reportSn)) else old(reportSn)
    {
      if IsData(m) {
        FillData(m, ctx);
      } else {
        FillMgmt(m);
      }
      CopyIn(m[..LenOf(m)]);
    }

    method Shape(m: seq<byte>, ctx: Ctx) returns (len: nat)
      requires Valid() && Framable(m)
      requires desc[..] == Words(m, ctx, LenOf(m)) && frame[..LenOf(m)] == m[..LenOf(m)]
      modifies desc, frame
      ensures len == |Shaped(m)| && desc[..] == Words(m, ctx, len) && frame[..len] == Shaped(m)
    {
      len := LenOf(m);
      assert frame[0] == frame[..len][0] == m[..len][0];
      if IsData(m) && len >= 24 && frame[0] / 0x10 == 0 && len + 2 + TX_DESC_SZ <= TX_BUFSZ {
        Promote(len, if Eapol(m) then 7 else 0);
        Relength(m, ctx, len, len + 2);
        assert desc[0] == Words(m, ctx, len)[0];
        len := len + 2;
        desc[0] := desc[0] - desc[0] % 0x1_0000 + len;
      }
    }

    /** rtw88_bulk_tx_drain_q, for the frame it dequeued: the size of the transfer, 0 when the frame is
        freed instead. */
    method Frame(m: seq<byte>, ctx: Ctx) returns (total: nat)
      requires Valid() && ctx.txSeq == txSeq && ctx.reportSn == reportSn
      modifies this, desc, frame
      ensures total == 0 <==> Build(m, ctx).None?
      ensures total == 0 ==> txSeq == old(txSeq) && reportSn == old(reportSn)
      ensures total != 0 ==> TX_DESC_SZ < total <= TX_BUFSZ
      ensures total != 0 ==> Build(m, ctx) == Some(Sent(desc[..], frame[..total - TX_DESC_SZ], txSeq, reportSn))
    {
      var len := LenOf(m);
      if len == 0 || len + TX_DESC_SZ > TX_BUFSZ {
        return 0;
      }
      Fill(m, ctx);
      len := Shape(m, ctx);
      Stamp(len);
      assert desc[7] == desc[..][7];
      Checksum();
      total := TX_DESC_SZ + len;
    }
  }
}
