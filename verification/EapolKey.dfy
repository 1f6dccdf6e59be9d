/** What the EAPOL-Key detector recognises, and what it copies out of the frame on the way. */
module EapolKey {
  import opened Bytes
  import opened Frames

  /** An EAPOL-Key frame: 802.11 header, LLC/SNAP, EAPOL header, descriptor type, Key Information. */
  datatype Frame = Frame(hdr: seq<byte>, oui: seq<byte>, version: byte, len: seq<byte>, desc: byte, info: nat,
                         rest: seq<byte>)

  predicate Valid(f: Frame) {
    && |f.hdr| >= 24 && |f.hdr| == HdrSize(f.hdr[0], f.hdr[1]) && IsData(f.hdr)
    && |f.oui| == 3 && |f.len| == 2 && f.info < 0x1_0000
  }

  /** A data header by its parts, in the order they are sent: frame control, duration to sequence control, a
      fourth address between two distribution systems, QoS Control in QoS data. */
  datatype Header = Header(fc0: byte, fc1: byte, fixed: seq<byte>, fourth: seq<byte>, qos: seq<byte>)

  predicate ValidHeader(h: Header) {
    && h.fc0 / 4 % 4 == 2 && |h.fixed| == 22
    && |h.fourth| == (if h.fc1 % 4 == 3 then 6 else 0)
    && |h.qos| == (if h.fc0 >= 0x80 then 2 else 0)
  }

  function Laid(h: Header): seq<byte> {
    [h.fc0, h.fc1] + h.fixed + h.fourth + h.qos
  }

  /** The header sizes of all data frames, and what in them the driver goes by. */
  lemma HeaderParts(h: Header)
    requires ValidHeader(h)
    ensures HdrSize(h.fc0, h.fc1) == |Laid(h)| && IsData(Laid(h)) && (QosData(Laid(h)) <==> h.qos != [])
    ensures h.fourth == [] && h.qos != [] ==> Tid(Laid(h)) == h.qos[0] % 8
    ensures h.qos == [] ==> Tid(Laid(h)) == 0
    ensures IsMulticast(Laid(h)) <==> h.fixed[2] % 2 == 1
  {
    var b := Laid(h);
    assert b[4] == h.fixed[2];
    if h.fourth == [] && h.qos != [] {
      assert b[24] == h.qos[0];
    }
  }

  function Fixed(f: Frame): (b: seq<byte>)
    requires Valid(f)
    ensures |b| == 15
  {
    [0xAA, 0xAA, 0x03] + f.oui + [0x88, 0x8E, f.version, 0x03] + f.len + [f.desc, f.info / 0x100, f.info % 0x100]
  }

  function Ser(f: Frame): seq<byte>
    requires Valid(f)
  {
    f.hdr + Fixed(f) + f.rest
  }

  lemma SerAt(f: Frame, i: nat)
    requires Valid(f) && i < |f.hdr| + 15
    ensures Ser(f)[i] == if i < |f.hdr| then f.hdr[i] else Fixed(f)[i - |f.hdr|]
  {
  }

  lemma Recognised(f: Frame)
    requires Valid(f)
    ensures EapolKeyInfo(Ser(f)) == Some(f.info)
  {
    var b, h := Ser(f), |f.hdr|;
    SerAt(f, 0);
    SerAt(f, 1);
    SerAt(f, h);
    SerAt(f, h + 1);
    SerAt(f, h + 2);
    SerAt(f, h + 6);
    SerAt(f, h + 7);
    SerAt(f, h + 9);
    SerAt(f, h + 13);
    SerAt(f, h + 14);
  }

  /** An EAPOL-Key frame is taken for message 4 exactly when MIC and Secure are set in it and Key Ack is not;
      so message 4 of section 12.7.6 of IEEE 802.11-2016 is, and messages 1 to 3 are not. */
  lemma M4Iff(f: Frame)
    requires Valid(f)
    ensures IsM4(Ser(f)) <==> f.info / 0x100 % 2 == 1 && f.info / 0x200 % 2 == 1 && f.info / 0x80 % 2 == 0
    ensures f.info == 0x030A ==> IsM4(Ser(f))
    ensures f.info in {0x008A, 0x010A, 0x13CA} ==> !IsM4(Ser(f))
  {
    Recognised(f);
    DivDiv(f.info, 0x100, 2);
  }

  function FrameOf(b: seq<byte>, h: nat): (f: Frame)
    requires h + 15 <= |b|
    ensures f.info < 0x1_0000
  {
    Frame(b[..h], b[h + 3..h + 6], b[h + 8], b[h + 10..h + 12], b[h + 12],
          0x100 * (b[h + 13] as int) + b[h + 14] as int, b[h + 15..])
  }

  lemma Only(b: seq<byte>) returns (f: Frame)
    requires EapolKeyInfo(b).Some?
    ensures Valid(f) && Ser(f) == b && EapolKeyInfo(b) == Some(f.info)
  {
    var h := HdrSize(b[0], b[1]);
    f := FrameOf(b, h);
    FixedIs(b, h, f);
    assert b == b[..h] + b[h..h + 15] + b[h + 15..];
  }

  lemma FixedIs(b: seq<byte>, h: nat, f: Frame)
    requires EapolKeyInfo(b).Some? && h == HdrSize(b[0], b[1]) && h + 15 <= |b| && f == FrameOf(b, h)
    ensures Valid(f) && Fixed(f) == b[h..h + 15]
  {
    DivMod(0x100, b[h + 14], b[h + 13]);
    var x, y := Fixed(f), b[h..h + 15];
    assert forall i :: 0 <= i < 15 ==> x[i] == y[i];
  }

  /** The detector finds a key-information word exactly in the EAPOL-Key frames, QoS data and four-address
      headers included, and it is theirs. */
  lemma KeyInfoIff(b: seq<byte>, info: nat)
    ensures EapolKeyInfo(b) == Some(info) <==> exists f :: Valid(f) && f.info == info && Ser(f) == b
  {
    if EapolKeyInfo(b) == Some(info) {
      var f := Only(b);
    }
    if f :| Valid(f) && f.info == info && Ser(f) == b {
      Recognised(f);
    }
  }

  // ---- rtw88_maybe_upgrade_eapol_qos ----

  /** An EAPOL-Key frame made QoS data before encapsulation: sequence control zero, then TID 7. */
  function Upgraded(b: seq<byte>): (u: seq<byte>)
    ensures EapolKeyInfo(b).None? ==> u == b
    ensures EapolKeyInfo(b).Some? ==> |u| == |b| + 2 && QosData(u) && u[24] == 7
  {
    if EapolKeyInfo(b).None? then b
    else UpgradedHead(b[0]) + b[1..22] + [0, 0, 7, 0] + b[24..]
  }

  function UpgradedHead(fc0: byte): (h: seq<byte>)
    ensures |h| == 1 && h[0] >= 0x80 && h[0] / 4 % 4 == fc0 / 4 % 4
  {
    if fc0 >= 0x80 then [fc0] else [fc0 + 0x80]
  }

  /** Where the bytes of a head, 21 bytes, four bytes and the rest end up behind each other. */
  lemma FourParts(head: byte, front: seq<byte>, mid: seq<byte>, rest: seq<byte>, i: nat)
    requires |front| == 21 && |mid| == 4
    ensures var u := [head] + front + mid + rest;
            && |u| == 26 + |rest| && u[0] == head && u[22] == mid[0] && u[23] == mid[1] && u[24] == mid[2]
            && u[25] == mid[3] && (i < 21 ==> u[i + 1] == front[i]) && (i < |rest| ==> u[i + 26] == rest[i])
  {
  }

  lemma UpgradedAt(b: seq<byte>, i: nat)
    requires EapolKeyInfo(b).Some? && 24 <= i < |b|
    ensures Upgraded(b)[i + 2] == b[i] && Upgraded(b)[1] == b[1]
  {
    FourParts(UpgradedHead(b[0])[0], b[1..22], [0, 0, 7, 0], b[24..], 0);
    FourParts(UpgradedHead(b[0])[0], b[1..22], [0, 0, 7, 0], b[24..], i - 24);
    assert UpgradedHead(b[0]) == [UpgradedHead(b[0])[0]];
  }

  /** The upgraded frame byte by byte: the QoS bit set, the sequence control field zero, TID 7 behind the first
      24 bytes, and the rest two bytes further on. */
  lemma UpgradedBytes(b: seq<byte>, i: nat)
    requires EapolKeyInfo(b).Some? && i < |b|
    ensures var u := Upgraded(b);
            && |u| == |b| + 2 && u[0] as int == (if b[0] >= 0x80 then b[0] as int else b[0] + 0x80)
            && u[22] == 0 && u[23] == 0 && u[24] == 7 && u[25] == 0
            && (1 <= i < 22 ==> u[i] == b[i]) && (i >= 24 ==> u[i + 2] == b[i])
  {
    var h := UpgradedHead(b[0])[0];
    assert UpgradedHead(b[0]) == [h];
    FourParts(h, b[1..22], [0, 0, 7, 0], b[24..], if i >= 24 then i - 24 else 0);
    FourParts(h, b[1..22], [0, 0, 7, 0], b[24..], if 1 <= i then i - 1 else 0);
  }

  /** The upgraded frame is still recognised, with the same key information, exactly when it was not QoS
      data before: QoS frames are upgraded as well, and then carry two QoS Control fields. */
  lemma UpgradeKeepsKeyIff(b: seq<byte>)
    requires EapolKeyInfo(b).Some?
    ensures EapolKeyInfo(Upgraded(b)) == EapolKeyInfo(b) <==> !QosData(b)
    ensures QosData(b) ==> EapolKeyInfo(Upgraded(b)).None?
  {
    var u, h := Upgraded(b), HdrSize(b[0], b[1]);
    UpgradedAt(b, h);
    if QosData(b) {
      assert HdrSize(u[0], u[1]) == h && u[h + 2] == 0xAA;
    } else {
      assert HdrSize(u[0], u[1]) == h + 2;
      UpgradedAt(b, h + 1);
      UpgradedAt(b, h + 2);
      UpgradedAt(b, h + 6);
      UpgradedAt(b, h + 7);
      UpgradedAt(b, h + 9);
      UpgradedAt(b, h + 13);
      UpgradedAt(b, h + 14);
    }
  }

  // ---- what it copies ----

  datatype Span = Span(off: nat, len: nat)

  predicate Snap(b: seq<byte>, h: nat)
    requires h + 8 <= |b|
  {
    b[h] == 0xAA && b[h + 1] == 0xAA && b[h + 2] == 0x03 && b[h + 6] == 0x88 && b[h + 7] == 0x8E
  }

  /** The pieces of the frame that rtw88_eapol_key_info asks m_copydata for, in order. */
  function Copies(b: seq<byte>): seq<Span> {
    if |b| < 24 + 8 + 7 then []
    else if !IsData(b) then [Span(0, 2)]
    else
      var h := HdrSize(b[0], b[1]);
      [Span(0, 2), Span(0, 18)] +
      if |b| < h + 8 + 7 then []
      else if !Snap(b, h) then [Span(h, 8)]
      else [Span(h, 8), Span(h + 8, 8)]
  }

  lemma SnapIs(b: seq<byte>, h: nat)
    requires h + 8 <= |b|
    ensures Snap(b, h) <==> b[h..h + 3] == [0xAA, 0xAA, 3] && b[h + 6..h + 8] == [0x88, 0x8E]
  {
    var x, y := b[h..h + 3], b[h + 6..h + 8];
    assert x[0] == b[h] && x[1] == b[h + 1] && x[2] == b[h + 2] && y[0] == b[h + 6] && y[1] == b[h + 7];
  }

  /** Of an EAPOL-Key frame it copies the frame control field, 18 bytes of header, LLC/SNAP, and eight bytes of
      the EAPOL header. */
  lemma KeyFrameCopies(f: Frame)
    requires Valid(f)
    ensures Copies(Ser(f)) == [Span(0, 2), Span(0, 18), Span(|f.hdr|, 8), Span(|f.hdr| + 8, 8)]
  {
    Recognised(f);
    SerAt(f, 0);
    SerAt(f, 1);
  }

  /** All copies stay inside the frame unless it is data with a matching LLC/SNAP and ends seven bytes
      behind it: the last copy takes eight. */
  lemma CopiesInsideIff(b: seq<byte>)
    ensures (forall c :: c in Copies(b) ==> c.off + c.len <= |b|)
            <==> !(|b| >= 39 && IsData(b) && |b| == HdrSize(b[0], b[1]) + 15 && Snap(b, HdrSize(b[0], b[1])))
  {
    if |b| >= 39 && IsData(b) {
      var h := HdrSize(b[0], b[1]);
      if |b| >= h + 15 && Snap(b, h) {
        assert Span(h + 8, 8) in Copies(b);
      }
    }
  }

  /** Any EAPOL-Key frame that ends there is recognised all the same, and copied one byte past its end. */
  lemma ShortFrameRecognised(f: Frame)
    requires Valid(f) && f.rest == []
    ensures EapolKeyInfo(Ser(f)) == Some(f.info) && exists c :: c in Copies(Ser(f)) && c.off + c.len == |Ser(f)| + 1
  {
    Recognised(f);
    var b, h := Ser(f), |f.hdr|;
    SerAt(f, 0);
    SerAt(f, 1);
    assert Snap(b, h);
    assert Span(h + 8, 8) in Copies(b);
  }
}
