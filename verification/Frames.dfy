/** What the driver reads in an 802.11 frame: type, Protected bit, receiver, TID and the
    EAPOL-Key information word. Header sizes follow section 9.2.4 of IEEE 802.11-2016. */
module Frames {
  import opened Bytes

  const TX_BUFSZ := 16384
  const TX_DESC_SZ := 48

  predicate IsData(b: seq<byte>) {
    |b| > 0 && b[0] / 4 % 4 == 2
  }

  predicate QosData(b: seq<byte>) {
    |b| > 0 && b[0] >= 0x80 && IsData(b)
  }

  predicate IsProtected(b: seq<byte>) {
    |b| > 1 && Bit(b[1], 0x40)
  }

  predicate IsMulticast(b: seq<byte>) {
    |b| > 4 && Bit(b[4], 0x01)
  }

  /** A frame the install gate holds back: Protected unicast data with a whole header. */
  predicate Gated(b: seq<byte>) {
    |b| >= 24 && IsData(b) && IsProtected(b) && !IsMulticast(b)
  }

  function Tid(b: seq<byte>): nat {
    if |b| >= 26 && Bit(b[0], 0x80) then b[24] % 8 else 0
  }

  function HdrSize(fc0: byte, fc1: byte): nat {
    24 + (if fc1 % 4 == 3 then 6 else 0) + (if fc0 / 4 % 4 == 2 && Bit(fc0, 0x80) then 2 else 0)
  }

  /** The Key Information word of an EAPOL-Key frame. */
  function EapolKeyInfo(b: seq<byte>): (r: Option<nat>)
    ensures r.Some? ==> |b| >= 39 && IsData(b)
  {
    if |b| < 24 + 8 + 7 || !IsData(b) then None
    else
      var h := HdrSize(b[0], b[1]);
      if |b| < h + 8 + 7 then None
      else if b[h] != 0xAA || b[h + 1] != 0xAA || b[h + 2] != 0x03 then None
      else if b[h + 6] != 0x88 || b[h + 7] != 0x8E then None
      else if b[h + 9] != 0x03 then None
      else Some(0x100 * (b[h + 13] as int) + b[h + 14] as int)
  }

  /** Message 4 of the 4-way handshake: MIC and Secure set, Key Ack clear. */
  predicate IsM4(b: seq<byte>) {
    var ki := EapolKeyInfo(b);
    ki.Some? && ki.value / 0x100 % 4 == 3 && !Bit(ki.value, 0x80)
  }

  /** The VI/VO endpoint takes EAPOL-Key frames and TIDs 4 to 7, the BE/BK endpoint the rest. */
  predicate ForVo(b: seq<byte>) {
    EapolKeyInfo(b).Some? || Tid(b) >= 4
  }

  function SetProtected(b: seq<byte>): (r: seq<byte>)
    requires |b| > 1
    ensures |r| == |b| && IsProtected(r) && forall i :: 0 <= i < |b| && i != 1 ==> r[i] == b[i]
  {
    if IsProtected(b) then b else b[1 := SetBit40(b[1])]
  }

  function ClearProtected(b: seq<byte>): (r: seq<byte>)
    requires |b| > 1
    ensures |r| == |b| && !IsProtected(r) && forall i :: 0 <= i < |b| && i != 1 ==> r[i] == b[i]
  {
    if IsProtected(b) then b[1 := ClearBit40(b[1])] else b
  }

  function SetBit40(x: byte): (r: byte)
    requires !Bit(x, 0x40)
    ensures Bit(r, 0x40)
  {
    x + 0x40
  }

  function ClearBit40(x: byte): (r: byte)
    requires Bit(x, 0x40)
    ensures !Bit(r, 0x40)
  {
    x - 0x40
  }

  predicate SendableLength(n: nat) {
    0 < n <= 0xFFFF && n + TX_DESC_SZ <= TX_BUFSZ
  }
}
