/** Promotion against CCMP: software encapsulation runs before framing, so what framing changes in the
    header must not matter to the receiver. Additional data and nonce follow sections 12.5.3.3.3 and
    12.5.3.3.4 of IEEE 802.11-2016, without A-MSDU protection. */
module TxCcmp {
  import opened Bytes
  import opened Frames
  import opened TxFrame
  import opened TxFraming

  predicate FourAddresses(b: seq<byte>) {
    |b| > 1 && b[1] % 4 == 3
  }

  function Header(b: seq<byte>): nat
    requires |b| >= 2
  {
    HdrSize(b[0], b[1])
  }

  /** A data frame with a whole header and the cipher header behind it. */
  predicate Encapsulated(b: seq<byte>) {
    |b| >= 2 && IsData(b) && |b| >= Header(b) + 8
  }

  /** Frame control without subtype bits 4 to 6, retry, power management and more data; Protected set, and
      the top bit kept only without QoS Control. */
  function MaskedFc(b: seq<byte>): (byte, byte)
    requires |b| >= 2
  {
    (b[0] % 0x10 + b[0] / 0x80 * 0x80, b[1] % 8 + 0x40 + if QosData(b) then 0 else b[1] / 0x80 * 0x80)
  }

  function Aad(b: seq<byte>): seq<byte>
    requires Encapsulated(b)
  {
    [MaskedFc(b).0, MaskedFc(b).1] + b[4..22] + [b[22] % 0x10, 0]
    + (if FourAddresses(b) then b[24..30] else [])
    + (if QosData(b) then [b[Header(b) - 2] % 0x10, 0] else [])
  }

  /** Priority, transmitter and packet number. */
  function Nonce(b: seq<byte>): seq<byte>
    requires Encapsulated(b)
  {
    var h := Header(b);
    [if QosData(b) then b[h - 2] % 0x10 else 0] + b[10..16]
    + [b[h + 7], b[h + 6], b[h + 5], b[h + 4], b[h + 1], b[h]]
  }

  /** A stamped number leaves the fragment number zero. */
  lemma FragmentZero(no: nat)
    ensures Enc16(no * 0x10)[0] % 0x10 == 0
  {
    DivMod(0x100, no % 0x10 * 0x10, no / 0x10);
    DivMod(0x10, 0, no % 0x10);
  }

  lemma StampedFragment(q: seq<byte>, w: seq<byte>, txSeq: nat)
    requires |q| >= 24 && w == if Unstamped(q) then Stamped(q, NextSeq(txSeq)) else q
    ensures w[22] % 0x10 == q[22] % 0x10
  {
    FragmentZero(NextSeq(txSeq));
  }

  lemma StampKeeps(q: seq<byte>, w: seq<byte>)
    requires SameButSeq(w, q) && Encapsulated(q) && w[22] % 0x10 == q[22] % 0x10
    ensures Encapsulated(w) && Aad(w) == Aad(q) && Nonce(w) == Nonce(q)
  {
    assert w[0] == q[0] && w[1] == q[1];
    assert w[4..22] == q[4..22] && w[10..16] == q[10..16];
    assert FourAddresses(q) ==> w[24..30] == q[24..30];
  }

  lemma PromotedDiffers(b: seq<byte>, tid: byte, w: seq<byte>)
    requires Encapsulated(b) && |b| >= 24 && b[0] < 0x10 && SameButSeq(w, Promoted(b, tid))
    ensures Encapsulated(w) && Aad(w) != Aad(b)
  {
    assert w[0] == b[0] + 0x80 && w[1] == b[1];
    DivMod(4, b[0] % 4, b[0] / 4);
    assert Aad(w)[0] == b[0] + 0x80 && Aad(b)[0] == b[0];
  }

  /** What the receiver computes from the frame on the wire is what the sender encapsulated it under exactly
      when the driver did not promote it: a plain data frame that software encapsulated cannot be opened
      once it is promoted. */
  lemma OpensIffNotPromoted(m: seq<byte>, ctx: Ctx)
    requires Build(m, ctx).Some? && Encapsulated(m[..LenOf(m)])
    ensures var b, w := m[..LenOf(m)], Build(m, ctx).value.wire;
            && Encapsulated(w)
            && (Aad(w) == Aad(b) && Nonce(w) == Nonce(b) <==> !Promotes(b))
  {
    var b, w := m[..LenOf(m)], Wire(m, ctx.txSeq);
    Parts(m, ctx);
    StampedOnly(Shaped(m), w, ctx.txSeq);
    if Promotes(b) {
      PromotedDiffers(b, if Eapol(m) then 7 else 0, w);
    } else {
      StampedFragment(b, w, ctx.txSeq);
      StampKeeps(b, w);
    }
  }

  lemma PromotedAt(b: seq<byte>, tid: byte, w: seq<byte>)
    requires |b| >= 24 && b[0] < 0x10 && SameButSeq(w, Promoted(b, tid))
    ensures w[0] == b[0] + 0x80 && w[1] == b[1] && w[24] == tid
    ensures forall i :: 10 <= i < 16 ==> w[i] == b[i]
    ensures forall i :: 24 <= i < |b| ==> w[i + 2] == b[i]
  {
    var p := Promoted(b, tid);
    assert forall i :: 10 <= i < 16 ==> p[i] == b[i];
    assert forall i :: 24 <= i < |b| ==> p[i + 2] == b[i];
  }

  lemma PromotedNonce(b: seq<byte>, tid: byte, w: seq<byte>)
    requires Encapsulated(b) && |b| >= 24 && b[0] < 0x10 && !FourAddresses(b) && tid < 0x10
    requires SameButSeq(w, Promoted(b, tid)) && Encapsulated(w)
    ensures Nonce(w) == Nonce(b) <==> tid == 0
  {
    PromotedAt(b, tid, w);
    assert Header(b) == 24 && Header(w) == 26 && QosData(w) && !QosData(b);
    assert Nonce(w)[0] == tid && Nonce(b)[0] == 0;
    assert w[10..16] == b[10..16];
    assert w[26] == b[24] && w[27] == b[25] && w[30] == b[28] && w[31] == b[29] && w[32] == b[30] && w[33] == b[31];
  }

  /** The priority that promotion writes is the one the nonce was made with exactly when it is zero, that is
      for all but EAPOL. */
  lemma NoncePriorityIff(m: seq<byte>, ctx: Ctx)
    requires Build(m, ctx).Some? && Encapsulated(m[..LenOf(m)]) && Promotes(m[..LenOf(m)])
    requires !FourAddresses(m[..LenOf(m)])
    ensures var b, w := m[..LenOf(m)], Build(m, ctx).value.wire;
            Encapsulated(w) && (Nonce(w) == Nonce(b) <==> !Eapol(m))
  {
    var b, w := m[..LenOf(m)], Wire(m, ctx.txSeq);
    var tid: byte := if Eapol(m) then 7 else 0;
    Parts(m, ctx);
    StampedOnly(Shaped(m), w, ctx.txSeq);
    PromotedDiffers(b, tid, w);
    PromotedNonce(b, tid, w);
  }

  /** A plain data frame of a header and a cipher header. */
  const SEALED: seq<byte> := [0x08, 0x41] + Zeros(30)

  lemma SealedIsSpoiled(ctx: Ctx)
    ensures Build(SEALED, ctx).Some? && Encapsulated(SEALED)
    ensures var w := Build(SEALED, ctx).value.wire; Encapsulated(w) && Aad(w) != Aad(SEALED)
  {
    var m := SEALED;
    assert |m| == 32 && m[0] == 0x08 && m[1] == 0x41 && LenOf(m) == 32;
    assert m[..32] == m;
    Parts(m, ctx);
    StampedOnly(Shaped(m), Wire(m, ctx.txSeq), ctx.txSeq);
    PromotedDiffers(m, if Eapol(m) then 7 else 0, Wire(m, ctx.txSeq));
  }
}
