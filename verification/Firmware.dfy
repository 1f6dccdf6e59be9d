/** Firmware download: a segment goes out in chunks through the TX FIFO and the chip's DMA engine into
    its RAM; the blob is cut into segments by its header. */
module Firmware {
  import opened Bytes
  import opened Frames
  import opened TxFrame
  import opened TxFraming
  import opened Xors

  const OCP_TXBUF := 0x1878_0000
  const MAX_CHUNK := 0x1000
  const DMEM_START := 0x20_0000
  const RAM_SIZE := 0x1_0000_0000

  // ---- the chip: TX FIFO, RAM, DMA engine and its running checksum ----

  /** `summed` is the byte stream of the running checksum, `done` the segment acknowledgements. */
  datatype Chip = Chip(fifo: seq<byte>, ram: word -> byte, summed: seq<byte>, acks: Acks)

  datatype Acks = Acks(imemDone: bool, imemOk: bool, dmemDone: bool, dmemOk: bool)

  /** RAM after these bytes went to the addresses from dst on, which wrap at 32 bits. */
  function Written(ram: word -> byte, dst: word, bytes: seq<byte>): word -> byte {
    (a: word) => Seen(ram, dst, bytes, a)
  }

  function Seen(ram: word -> byte, dst: word, bytes: seq<byte>, a: word): byte {
    var i := (a - dst) % RAM_SIZE;
    if i < |bytes| then bytes[i] else ram(a)
  }

  /** What the engine fetches: whatever is outside the staged packet reads as zero. */
  function Fetched(fifo: seq<byte>, src: int, len: nat): (b: seq<byte>)
    ensures |b| == len
  {
    if 0 <= src - OCP_TXBUF <= src - OCP_TXBUF + len <= |fifo| then fifo[src - OCP_TXBUF..src - OCP_TXBUF + len]
    else Zeros(len)
  }

  /** Starting the engine: it copies, and sums the bytes, afresh unless told to continue. */
  function Kicked(c: Chip, src: int, dst: word, len: nat, cont: bool): Chip {
    var b := Fetched(c.fifo, src, len);
    c.(ram := Written(c.ram, dst, b), summed := if cont then c.summed + b else b)
  }

  function PacketWords(size: nat): (ws: seq<word>)
    ensures |ws| == 12 && ws[7] == 0
  {
    [size % 0x1_0000 + 0x1_0000 * TX_DESC_SZ + 0x400_0000, 0x10 * 0x100, 0, 0, 0, 0, 0, 0, 0, 0, 0, 0]
  }

  /** A firmware packet: descriptor, then data. */
  function Packet(data: seq<byte>): (p: seq<byte>)
    ensures |p| == TX_DESC_SZ + |data|
  {
    Enc32All(Checksummed(PacketWords(|data|))) + data
  }

  /** A firmware packet announces its size and a last segment, goes to the beacon queue, asks for nothing else,
      and its checksum words cancel out. */
  lemma PacketFramed(data: seq<byte>)
    requires |data| < 0x1_0000
    ensures var ws := Checksummed(PacketWords(|data|));
            && ws[0] % 0x1_0000 == |data| && ws[0] / 0x1_0000 == 48 + 0x400 && ws[1] == 0x1000
            && (forall i :: 2 <= i < 12 && i != 7 ==> ws[i] == 0)
            && XorAll(Halves(ws)) == 0 && Packet(data) == Enc32All(ws) + data
  {
    DivMod(0x1_0000, |data|, TX_DESC_SZ + 0x400);
    DivMod(0x100, TX_DESC_SZ, 4);
    ChecksumCancels(PacketWords(|data|));
  }

  // ---- RAM against the segment ----

  ghost predicate Holds(ram: word -> byte, before: word -> byte, dst: word, bytes: seq<byte>) {
    forall a: word :: ram(a) == Seen(before, dst, bytes, a)
  }

  lemma Offset(a: word, dst: word, n: nat)
    requires n < RAM_SIZE
    ensures var i, j := (a - dst) % RAM_SIZE, (a - (dst + n) % RAM_SIZE) % RAM_SIZE;
            j == if i >= n then i - n else i - n + RAM_SIZE
  {
  }

  lemma HoldsExtend(ram: word -> byte, before: word -> byte, dst: word, x: seq<byte>, y: seq<byte>)
    requires Holds(ram, before, dst, x) && |x| < RAM_SIZE && |x| + |y| <= RAM_SIZE
    ensures Holds(Written(ram, (dst + |x|) % RAM_SIZE, y), before, dst, x + y)
  {
    forall a: word
      ensures Written(ram, (dst + |x|) % RAM_SIZE, y)(a) == Seen(before, dst, x + y, a)
    {
      Offset(a, dst, |x|);
      assert ram(a) == Seen(before, dst, x, a);
    }
  }

  lemma StagedIsFetched(y: seq<byte>)
    ensures Fetched(Packet(y), OCP_TXBUF + TX_DESC_SZ, |y|) == y
  {
  }

  /** Starting the engine on a staged chunk carries RAM and checksum from off to off + chunk. */
  lemma KickExtends(c: Chip, ram0: word -> byte, dst: word, data: seq<byte>, off: nat, chunk: nat)
    requires off + chunk <= |data| < RAM_SIZE && c.fifo == Packet(data[off..off + chunk])
    requires Holds(c.ram, ram0, dst, data[..off]) && (off > 0 ==> c.summed == data[..off])
    ensures var k := Kicked(c, OCP_TXBUF + TX_DESC_SZ, (dst + off) % RAM_SIZE, chunk, off > 0);
            Holds(k.ram, ram0, dst, data[..off + chunk]) && k.summed == data[..off + chunk]
  {
    var x, y := data[..off], data[off..off + chunk];
    assert x + y == data[..off + chunk];
    StagedIsFetched(y);
    HoldsExtend(c.ram, ram0, dst, x, y);
  }

  // ---- the download ----

  function AckFor(acks: Acks, dst: word, ok: bool): Acks {
    if dst < DMEM_START then acks.(imemDone := true, imemOk := ok)
    else acks.(dmemDone := true, dmemOk := ok)
  }

  class Loader {
    const fails: nat -> bool
    const mismatch: seq<byte> -> bool
    var ops: nat
    var chip: Chip

    constructor (fails: nat -> bool, mismatch: seq<byte> -> bool, chip: Chip)
      ensures this.fails == fails && this.mismatch == mismatch && this.chip == chip
    {
      this.fails, this.mismatch, this.chip, ops := fails, mismatch, chip, 0;
    }

    ghost predicate Healthy() {
      forall k: nat :: !fails(k)
    }

    /** One EP0 access, poll or bulk transfer; a failed one leaves the chip alone. */
    method Try() returns (ok: bool)
      modifies `ops
      ensures Healthy() ==> ok
    {
      ok := !fails(ops);
      ops := ops + 1;
    }

    /** rtw88_send_firmware_pkt: five register accesses, the packet, and a poll. */
    method SendFirmwarePkt(data: seq<byte>) returns (ok: bool)
      modifies this
      ensures ok ==> chip == old(chip).(fifo := Packet(data))
      ensures !ok ==> chip == old(chip) || chip == old(chip).(fifo := Packet(data))
      ensures ok ==> 0 < |data| <= TX_BUFSZ - TX_DESC_SZ
      ensures Healthy() && 0 < |data| <= TX_BUFSZ - TX_DESC_SZ ==> ok
    {
      if |data| == 0 || |data| > TX_BUFSZ - TX_DESC_SZ {
        return false;
      }
      for i := 0 to 5
        invariant chip == old(chip)
      {
        ok := Try();
        if !ok {
          return;
        }
      }
      ok := Try();
      if ok {
        chip := chip.(fifo := Packet(data));
        ok := Try();
      }
    }

    /** rtw88_iddma_chunk: wait for the engine, set source and target, start it, wait again. */
    method IddmaChunk(src: int, dst: word, len: nat, first: bool) returns (ok: bool)
      requires len < 0x4_0000
      modifies this
      ensures ok ==> chip == Kicked(old(chip), src, dst, len, !first)
      ensures !ok ==> chip == old(chip) || chip == Kicked(old(chip), src, dst, len, !first)
      ensures Healthy() ==> ok
    {
      for i := 0 to 4
        invariant chip == old(chip)
      {
        ok := Try();
        if !ok {
          return;
        }
      }
      chip := Kicked(chip, src, dst, len, !first);
      ok := Try();
    }

    /** rtw88_segment_checksum_ack; the final write may fail unnoticed. */
    method SegmentChecksumAck(dst: word) returns (ok: bool)
      modifies this
      ensures ok ==> !mismatch(chip.summed)
      ensures Healthy() ==> ok == !mismatch(chip.summed)
      ensures chip == old(chip) || chip == old(chip).(acks := AckFor(old(chip.acks), dst, !mismatch(chip.summed)))
      ensures Healthy() ==> chip == old(chip).(acks := AckFor(old(chip.acks), dst, !mismatch(chip.summed)))
    {
      ok := Try();
      if ok {
        ok := Try();
      }
      if !ok {
        return;
      }
      ok := !mismatch(chip.summed);
      var written := Try();
      if written {
        chip := chip.(acks := AckFor(chip.acks, dst, ok));
      }
    }

    /** One pass of the chunk loop: the packet, then the engine. */
    method SendChunk(dst: word, data: seq<byte>, off: nat, chunk: nat, first: bool, ghost ram0: word -> byte)
      returns (ok: bool)
      requires off + chunk <= |data| < RAM_SIZE && 0 < chunk <= MAX_CHUNK && first == (off == 0)
      requires Holds(chip.ram, ram0, dst, data[..off]) && (off > 0 ==> chip.summed == data[..off])
      modifies this
      ensures ok ==> Holds(chip.ram, ram0, dst, data[..off + chunk]) && chip.summed == data[..off + chunk]
      ensures !ok ==> Holds(chip.ram, ram0, dst, data[..off]) || Holds(chip.ram, ram0, dst, data[..off + chunk])
      ensures chip.acks == old(chip.acks) && (Healthy() ==> ok)
    {
      ok := SendFirmwarePkt(data[off..off + chunk]);
      if !ok {
        return;
      }
      KickExtends(chip, ram0, dst, data, off, chunk);
      ok := IddmaChunk(OCP_TXBUF + TX_DESC_SZ, (dst + off) % RAM_SIZE, chunk, first);
    }

    /** rtw88_download_firmware_segment. RAM holds the whole segment on success, else some prefix of it;
        nothing else changes, and the engine's checksum ran over exactly the segment. */
    method DownloadSegment(dst: word, data: seq<byte>) returns (ok: bool)
      requires |data| < RAM_SIZE
      modifies this
      ensures ok ==> Holds(chip.ram, old(chip.ram), dst, data)
      ensures exists n :: 0 <= n <= |data| && Holds(chip.ram, old(chip.ram), dst, data[..n])
      ensures ok && data != [] ==> chip.summed == data && !mismatch(data)
      ensures Healthy() && data != [] ==> ok == !mismatch(data)
      ensures ok ==> chip.acks == old(chip.acks) || chip.acks == AckFor(old(chip.acks), dst, true)
      ensures ok && Healthy() ==> chip.acks == AckFor(old(chip.acks), dst, true)
    {
      ghost var ram0 := chip.ram;
      assert Holds(ram0, ram0, dst, data[..0]);
      for i := 0 to 2
        invariant chip == old(chip)
      {
        ok := Try();
        if !ok {
          return;
        }
      }
      var off, first := 0, true;
      while off < |data|
        invariant off <= |data| && first == (off == 0) && Holds(chip.ram, ram0, dst, data[..off])
        invariant chip.acks == old(chip.acks)
        invariant off > 0 ==> chip.summed == data[..off]
        decreases |data| - off
      {
        var chunk := if |data| - off > MAX_CHUNK then MAX_CHUNK else |data| - off;
        ok := SendChunk(dst, data, off, chunk, first, ram0);
        if !ok {
          return;
        }
        first := false;
        off := off + chunk;
      }
      assert data[..off] == data;
      ok := SegmentChecksumAck(dst);
    }
  }

  // ---- the blob ----

  const HDR_SIZE := 64
  const SIGNATURE := 0x8821

  /** What rtw88_fw_acquire lets through: a whole header with the chip's signature. */
  predicate Acquired(blob: seq<byte>) {
    |blob| >= HDR_SIZE && Le16(blob, 0) == SIGNATURE
  }

  datatype Segment = Segment(dst: word, off: nat, size: word)

  /** h + 8 in 32 bits. */
  function Plus8(h: word): word {
    if h + 8 < RAM_SIZE then h + 8 else h + 8 - RAM_SIZE
  }

  /** A size with its checksum, as 32-bit arithmetic has it. */
  lemma Plus8Is(h: word)
    ensures Plus8(h) == (h + 8) % 0x1_0000_0000
  {
  }

  /** Segments of these sizes one behind the other, the third only if it has any bytes. */
  function Cut(d: word, i: word, e: word, da: word, ia: word, ea: word): (s: seq<Segment>)
    ensures 2 <= |s| <= 3
  {
    var dmem, imem := Segment(da, HDR_SIZE, d), Segment(ia, HDR_SIZE + d, i);
    if e > 0 then [dmem, imem, Segment(ea, HDR_SIZE + d + i, e)] else [dmem, imem]
  }

  /** The segments the header announces: DMEM, IMEM and, where the blob says so, EMEM. */
  function Segments(blob: seq<byte>): (s: seq<Segment>)
    requires |blob| >= HDR_SIZE
    ensures 2 <= |s| <= 3
  {
    Cut(Plus8(Le32(blob, 0x24)), Plus8(Le32(blob, 0x30)),
        if Bit(blob[0x18], 0x10) then Plus8(Le32(blob, 0x34)) else 0,
        Le32(blob, 0x20) % 0x8000_0000, Le32(blob, 0x3C) % 0x8000_0000, Le32(blob, 0x38) % 0x8000_0000)
  }

  function End(s: Segment): nat {
    s.off + s.size
  }

  function Total(ss: seq<Segment>): nat
    requires ss != []
  {
    End(ss[|ss| - 1])
  }

  /** Where the last segment ends, as the driver adds it up: in 32 bits. */
  predicate Accepted(blob: seq<byte>)
    requires |blob| >= HDR_SIZE
  {
    Sums(Total(Segments(blob)), |blob|)
  }

  predicate Sums(total: nat, size: nat) {
    total % RAM_SIZE == size % RAM_SIZE
  }

  function Slice(blob: seq<byte>, s: Segment): seq<byte>
    requires End(s) <= |blob|
  {
    blob[s.off..End(s)]
  }

  function Joined(blob: seq<byte>, ss: seq<Segment>): seq<byte>
    requires forall k :: 0 <= k < |ss| ==> End(ss[k]) <= |blob|
    decreases ss
  {
    if ss == [] then [] else Slice(blob, ss[0]) + Joined(blob, ss[1..])
  }

  ghost predicate Partitions(blob: seq<byte>, ss: seq<Segment>)
    requires |blob| >= HDR_SIZE
  {
    (forall k :: 0 <= k < |ss| ==> End(ss[k]) <= |blob|) && blob[..HDR_SIZE] + Joined(blob, ss) == blob
  }

  /** Each segment starts where the one before it ends, the first behind the header. */
  predicate Chained(ss: seq<Segment>, at: nat) {
    && (ss != [] ==> ss[0].off == at)
    && forall k :: 0 < k < |ss| ==> ss[k].off == End(ss[k - 1])
  }

  lemma {:induction false} EndsGrow(ss: seq<Segment>, at: nat, k: nat)
    requires Chained(ss, at) && k < |ss|
    ensures at <= End(ss[k]) <= Total(ss)
    decreases |ss| - k
  {
    if k < |ss| - 1 {
      EndsGrow(ss, at, k + 1);
    }
    OffsGrow(ss, at, k);
  }

  lemma {:induction false} OffsGrow(ss: seq<Segment>, at: nat, k: nat)
    requires Chained(ss, at) && k < |ss|
    ensures at <= ss[k].off
    decreases k
  {
    if k > 0 {
      OffsGrow(ss, at, k - 1);
    }
  }

  lemma {:induction false} JoinedIs(blob: seq<byte>, ss: seq<Segment>, at: nat)
    requires Chained(ss, at) && at <= |blob|
    requires forall k :: 0 <= k < |ss| ==> End(ss[k]) <= |blob|
    requires (if ss == [] then at else Total(ss)) == |blob|
    ensures blob[..at] + Joined(blob, ss) == blob
    decreases ss
  {
    if ss != [] {
      var s, rest := ss[0], ss[1..];
      assert forall k :: 0 <= k < |rest| ==> rest[k] == ss[k + 1];
      JoinedIs(blob, rest, End(s));
      assert blob[..End(s)] == blob[..at] + Slice(blob, s);
      assert blob[..at] + (Slice(blob, s) + Joined(blob, rest)) == blob[..at] + Slice(blob, s) + Joined(blob, rest);
    }
  }

  lemma TailChained(ss: seq<Segment>, at: nat)
    requires Chained(ss, at) && ss != []
    ensures Chained(ss[1..], End(ss[0]))
    ensures |ss| > 1 ==> Total(ss[1..]) == Total(ss)
    ensures forall k :: 0 <= k < |ss[1..]| ==> ss[1..][k] == ss[k + 1]
  {
  }

  lemma {:induction false} JoinedLength(blob: seq<byte>, ss: seq<Segment>, at: nat)
    requires Chained(ss, at) && forall k :: 0 <= k < |ss| ==> End(ss[k]) <= |blob|
    ensures at + |Joined(blob, ss)| == if ss == [] then at else Total(ss)
    decreases ss
  {
    if ss != [] {
      TailChained(ss, at);
      JoinedLength(blob, ss[1..], End(ss[0]));
      assert |Slice(blob, ss[0])| == ss[0].size;
    }
  }

  lemma ChainPartitionsIff(blob: seq<byte>, ss: seq<Segment>)
    requires HDR_SIZE <= |blob| && ss != [] && Chained(ss, HDR_SIZE)
    ensures Partitions(blob, ss) <==> Total(ss) == |blob|
  {
    if Total(ss) == |blob| {
      forall k | 0 <= k < |ss|
        ensures End(ss[k]) <= |blob|
      {
        EndsGrow(ss, HDR_SIZE, k);
      }
      JoinedIs(blob, ss, HDR_SIZE);
    } else if Partitions(blob, ss) {
      JoinedLength(blob, ss, HDR_SIZE);
    }
  }

  lemma ModSmall(t: nat, n: nat)
    requires n < RAM_SIZE && Sums(t, n)
    ensures if t < RAM_SIZE then t == n else t > n
  {
  }

  /** The segments of an accepted blob cut everything behind its header into pieces exactly when the sizes
      really add up to its length; for a blob below 4 GiB, exactly when their sum did not wrap, and
      otherwise the last piece lies outside the blob. */
  lemma PartitionIff(blob: seq<byte>, ss: seq<Segment>)
    requires Acquired(blob) && Accepted(blob) && ss == Segments(blob)
    ensures Partitions(blob, ss) <==> Total(ss) == |blob|
    ensures |blob| < RAM_SIZE ==>
              (Partitions(blob, ss) <==> Total(ss) < RAM_SIZE) && (!Partitions(blob, ss) ==> Total(ss) > |blob|)
  {
    assert Chained(ss, HDR_SIZE);
    ChainPartitionsIff(blob, ss);
    if |blob| < RAM_SIZE {
      ModSmall(Total(ss), |blob|);
    }
  }

  lemma WrapsOnce(n: nat)
    ensures Sums(RAM_SIZE + n, n)
  {
  }

  lemma TwoSegments(blob: seq<byte>, d: word, i: word)
    requires |blob| >= HDR_SIZE && blob[0x18] == 0
    requires d == Plus8(Le32(blob, 0x24)) && i == Plus8(Le32(blob, 0x30))
    ensures Total(Segments(blob)) == HDR_SIZE + d + i
  {
  }

  /** A header alone whose two sizes add up to 4 GiB is accepted, its last segment outside it. */
  lemma WrappedSizes(blob: seq<byte>, d: word, i: word)
    requires Acquired(blob) && |blob| == HDR_SIZE && blob[0x18] == 0 && d + i == RAM_SIZE
    requires d == Plus8(Le32(blob, 0x24)) && i == Plus8(Le32(blob, 0x30))
    ensures Accepted(blob) && !Partitions(blob, Segments(blob))
  {
    TwoSegments(blob, d, i);
    WrapsOnce(|blob|);
    PartitionIff(blob, Segments(blob));
  }

  lemma OnlyDmem(dmem: word) returns (blob: seq<byte>)
    ensures Acquired(blob) && |blob| == HDR_SIZE && blob[0x18] == 0 && Le32(blob, 0x24) == dmem && Le32(blob, 0x30) == 0
  {
    blob := [0x21, 0x88] + Zeros(0x22) + Enc32(dmem) + Zeros(HDR_SIZE - 0x28);
    Le32Stands(blob, 0x24, dmem);
  }

  /** There is such a header, with the chip's signature: a DMEM size just below 4 GiB and nothing else. */
  lemma WrappedBlobAccepted() returns (blob: seq<byte>)
    ensures Acquired(blob) && |blob| == HDR_SIZE && Accepted(blob) && !Partitions(blob, Segments(blob))
  {
    blob := OnlyDmem(0xFFFF_FFF0);
    WrappedSizes(blob, 0xFFFF_FFF8, 8);
  }

  // ---- a blob by its parts ----

  /** What a firmware image is made of: the fields the driver reads out of its header, with everything
      between them, and the bytes of each memory (behind them its eight-byte checksum). */
  datatype Image = Image(ver: seq<byte>, usage: byte, format: seq<byte>, dmemAddr: word, gap: seq<byte>,
                         ememAddr: word, imemAddr: word, dmem: seq<byte>, imem: seq<byte>, emem: seq<byte>)

  predicate ValidImage(f: Image) {
    && |f.ver| == 22 && |f.format| == 7 && |f.gap| == 8
    && 8 <= |f.dmem| < RAM_SIZE && 8 <= |f.imem| < RAM_SIZE
    && if f.usage / 0x10 % 2 == 1 then 8 <= |f.emem| < RAM_SIZE else f.emem == []
  }

  function Front(f: Image): (h: seq<byte>)
    requires ValidImage(f)
    ensures |h| == 32
  {
    [0x21, 0x88] + f.ver + [f.usage] + f.format
  }

  function SizesAndAddresses(imem: word, emem: word, ememAddr: word, imemAddr: word): (h: seq<byte>)
    ensures |h| == 16
  {
    Enc32(imem) + (Enc32(emem) + (Enc32(ememAddr) + Enc32(imemAddr)))
  }

  /** The 64-byte header: signature, version and date, memory usage, addresses and sizes. A size without its
      checksum; that of a memory that is not there does not matter. */
  function ImageHeader(f: Image, spare: word): (h: seq<byte>)
    requires ValidImage(f)
    ensures |h| == 64
  {
    var emem := if f.emem == [] then spare else |f.emem| - 8;
    Front(f) + (Enc32(f.dmemAddr) + (Enc32(|f.dmem| - 8) + (f.gap
      + SizesAndAddresses(|f.imem| - 8, emem, f.ememAddr, f.imemAddr))))
  }

  /** An address without its top bit. */
  function Low31(a: word): word {
    if a < 0x8000_0000 then a else a - 0x8000_0000
  }

  lemma LastFields(b: seq<byte>, imem: word, emem: word, ememAddr: word, imemAddr: word)
    requires Stands(b, 0x30, SizesAndAddresses(imem, emem, ememAddr, imemAddr))
    ensures Le32(b, 0x30) == imem && Le32(b, 0x34) == emem && Le32(b, 0x38) == ememAddr && Le32(b, 0x3C) == imemAddr
  {
    StandsSplit(b, 0x30, Enc32(imem), Enc32(emem) + (Enc32(ememAddr) + Enc32(imemAddr)));
    StandsSplit(b, 0x34, Enc32(emem), Enc32(ememAddr) + Enc32(imemAddr));
    StandsSplit(b, 0x38, Enc32(ememAddr), Enc32(imemAddr));
    Le32Stands(b, 0x30, imem);
    Le32Stands(b, 0x34, emem);
    Le32Stands(b, 0x38, ememAddr);
    Le32Stands(b, 0x3C, imemAddr);
  }

  lemma FirstFields(b: seq<byte>, front: seq<byte>, dmemAddr: word, dmem: word, gap: seq<byte>, last: seq<byte>)
    requires |front| == 0x20 && |gap| == 8
    requires Stands(b, 0, front + (Enc32(dmemAddr) + (Enc32(dmem) + (gap + last))))
    ensures Stands(b, 0, front) && Le32(b, 0x20) == dmemAddr && Le32(b, 0x24) == dmem && Stands(b, 0x30, last)
  {
    StandsSplit(b, 0, front, Enc32(dmemAddr) + (Enc32(dmem) + (gap + last)));
    StandsSplit(b, 0x20, Enc32(dmemAddr), Enc32(dmem) + (gap + last));
    StandsSplit(b, 0x24, Enc32(dmem), gap + last);
    StandsSplit(b, 0x28, gap, last);
    Le32Stands(b, 0x20, dmemAddr);
    Le32Stands(b, 0x24, dmem);
  }

  lemma FrontFields(f: Image, b: seq<byte>)
    requires ValidImage(f) && Stands(b, 0, Front(f)) && |b| >= 64
    ensures Acquired(b) && b[0x18] == f.usage
  {
    var h := Front(f);
    assert h[0] == 0x21 && h[1] == 0x88 && h[0x18] == f.usage;
    assert h[0] == b[0 + 0] && h[1] == b[0 + 1] && h[0x18] == b[0 + 0x18];
  }

  lemma PrefixStands(h: seq<byte>, b: seq<byte>)
    requires h <= b
    ensures Stands(b, 0, h)
  {
  }

  lemma FieldsStand(b: seq<byte>, front: seq<byte>, dmemAddr: word, dmem: word, gap: seq<byte>,
                    imem: word, emem: word, ememAddr: word, imemAddr: word)
    requires |front| == 0x20 && |gap| == 8
    requires front + (Enc32(dmemAddr) + (Enc32(dmem) + (gap + SizesAndAddresses(imem, emem, ememAddr, imemAddr)))) <= b
    ensures Stands(b, 0, front) && Le32(b, 0x20) == dmemAddr && Le32(b, 0x24) == dmem
    ensures Le32(b, 0x30) == imem && Le32(b, 0x34) == emem && Le32(b, 0x38) == ememAddr && Le32(b, 0x3C) == imemAddr
  {
    var last := SizesAndAddresses(imem, emem, ememAddr, imemAddr);
    PrefixStands(front + (Enc32(dmemAddr) + (Enc32(dmem) + (gap + last))), b);
    FirstFields(b, front, dmemAddr, dmem, gap, last);
    LastFields(b, imem, emem, ememAddr, imemAddr);
  }

  lemma HeaderFields(f: Image, spare: word, b: seq<byte>)
    requires ValidImage(f) && ImageHeader(f, spare) <= b
    ensures Acquired(b) && b[0x18] == f.usage
    ensures Le32(b, 0x20) == f.dmemAddr && Le32(b, 0x24) == |f.dmem| - 8 && Le32(b, 0x30) == |f.imem| - 8
    ensures Le32(b, 0x34) == (if f.emem == [] then spare else |f.emem| - 8)
    ensures Le32(b, 0x38) == f.ememAddr && Le32(b, 0x3C) == f.imemAddr
  {
    FieldsStand(b, Front(f), f.dmemAddr, |f.dmem| - 8, f.gap, |f.imem| - 8,
                if f.emem == [] then spare else |f.emem| - 8, f.ememAddr, f.imemAddr);
    FrontFields(f, b);
  }

  lemma Low31Is(a: word)
    ensures a % 0x8000_0000 == Low31(a)
  {
  }

  lemma SizesBack(d: word, i: word, e: word, d8: word, i8: word, e8: word, there: bool)
    requires d >= 8 && i >= 8 && d8 == d - 8 && i8 == i - 8 && (if there then e >= 8 && e8 == e - 8 else e == 0)
    ensures Plus8(d8) == d && Plus8(i8) == i && (if there then Plus8(e8) else 0) == e
  {
  }

  lemma ImageCut(f: Image, spare: word, b: seq<byte>)
    requires ValidImage(f) && ImageHeader(f, spare) <= b
    ensures Acquired(b)
    ensures Segments(b) == Cut(|f.dmem|, |f.imem|, |f.emem|, Low31(f.dmemAddr), Low31(f.imemAddr), Low31(f.ememAddr))
  {
    HeaderFields(f, spare, b);
    SizesBack(|f.dmem|, |f.imem|, |f.emem|, Le32(b, 0x24), Le32(b, 0x30), Le32(b, 0x34), Bit(b[0x18], 0x10));
    Low31Is(f.dmemAddr);
    Low31Is(f.imemAddr);
    Low31Is(f.ememAddr);
  }

  lemma SliceIs(b: seq<byte>, beyond: nat -> byte, s: Segment, before: seq<byte>, x: seq<byte>, after: seq<byte>)
    requires b == before + x + after && s.off == |before| && s.size == |x|
    ensures SegmentBytes(b, beyond, s) == x
  {
    var y := SegmentBytes(b, beyond, s);
    forall i | 0 <= i < |x|
      ensures y[i] == x[i]
    {
      assert y[i] == Memory(b, beyond, s.off + i) == b[|before| + i];
    }
  }

  lemma CutSegments(f: Image, h: seq<byte>, b: seq<byte>, beyond: nat -> byte, ss: seq<Segment>)
    requires ValidImage(f) && |h| == HDR_SIZE && b == h + f.dmem + f.imem + f.emem
    requires ss == Cut(|f.dmem|, |f.imem|, |f.emem|, Low31(f.dmemAddr), Low31(f.imemAddr), Low31(f.ememAddr))
    ensures |ss| == (if f.emem == [] then 2 else 3) && Total(ss) == |b|
    ensures ss[0].dst == Low31(f.dmemAddr) && SegmentBytes(b, beyond, ss[0]) == f.dmem
    ensures ss[1].dst == Low31(f.imemAddr) && SegmentBytes(b, beyond, ss[1]) == f.imem
    ensures f.emem != [] ==> ss[2].dst == Low31(f.ememAddr) && SegmentBytes(b, beyond, ss[2]) == f.emem
  {
    assert b == h + f.dmem + (f.imem + f.emem);
    SliceIs(b, beyond, ss[0], h, f.dmem, f.imem + f.emem);
    SliceIs(b, beyond, ss[1], h + f.dmem, f.imem, f.emem);
    if f.emem != [] {
      assert b == (h + f.dmem + f.imem) + f.emem + [];
      SliceIs(b, beyond, ss[2], h + f.dmem + f.imem, f.emem, []);
    }
  }

  /** An image laid out behind its header is acquired and accepted, and its segments are its memories, each for
      its own address: DMEM, IMEM and, if there, EMEM. */
  lemma ImageSegments(f: Image, spare: word, beyond: nat -> byte, b: seq<byte>)
    requires ValidImage(f) && b == ImageHeader(f, spare) + f.dmem + f.imem + f.emem
    ensures Acquired(b) && Accepted(b) && |Segments(b)| == (if f.emem == [] then 2 else 3)
    ensures Segments(b)[0].dst == Low31(f.dmemAddr) && SegmentBytes(b, beyond, Segments(b)[0]) == f.dmem
    ensures Segments(b)[1].dst == Low31(f.imemAddr) && SegmentBytes(b, beyond, Segments(b)[1]) == f.imem
    ensures f.emem != [] ==>
              Segments(b)[2].dst == Low31(f.ememAddr) && SegmentBytes(b, beyond, Segments(b)[2]) == f.emem
  {
    ImageCut(f, spare, b);
    CutSegments(f, ImageHeader(f, spare), b, beyond, Segments(b));
  }

  // ---- the whole download ----

  predicate Covers(s: Segment, a: word) {
    (a - s.dst) % RAM_SIZE < s.size
  }

  /** The last of these segments that covers an address. */
  function LastOver(ss: seq<Segment>, a: word): Option<Segment>
    decreases ss
  {
    if ss == [] then None
    else if LastOver(ss[1..], a).Some? then LastOver(ss[1..], a)
    else if Covers(ss[0], a) then Some(ss[0])
    else None
  }

  lemma {:induction false} LastOverCovers(ss: seq<Segment>, a: word)
    ensures var s := LastOver(ss, a); s.Some? ==> s.value in ss && Covers(s.value, a)
    decreases ss
  {
    if ss != [] {
      LastOverCovers(ss[1..], a);
    }
  }

  /** A segment's addresses that no later segment covers are its own. */
  lemma {:induction false} LastOverIs(ss: seq<Segment>, k: nat, a: word)
    requires k < |ss| && Covers(ss[k], a) && forall j :: k < j < |ss| ==> !Covers(ss[j], a)
    ensures LastOver(ss, a) == Some(ss[k])
    decreases ss
  {
    var rest := ss[1..];
    if k > 0 {
      assert forall j :: k - 1 < j < |rest| ==> rest[j] == ss[j + 1];
      LastOverIs(rest, k - 1, a);
    } else {
      LastOverCovers(rest, a);
    }
  }

  /** The driver's memory from the blob on: the blob, then whatever lies behind it. */
  function Memory(blob: seq<byte>, beyond: nat -> byte, k: nat): byte {
    if k < |blob| then blob[k] else beyond(k - |blob|)
  }

  function SegmentBytes(blob: seq<byte>, beyond: nat -> byte, s: Segment): (b: seq<byte>)
    ensures |b| == s.size
  {
    seq<byte>(s.size, i requires 0 <= i < s.size => Memory(blob, beyond, s.off + i))
  }

  /** What an address holds once these segments were downloaded in order. */
  function Loaded(before: word -> byte, blob: seq<byte>, beyond: nat -> byte, ss: seq<Segment>, a: word): byte {
    match LastOver(ss, a)
    case None => before(a)
    case Some(s) => Memory(blob, beyond, s.off + (a - s.dst) % RAM_SIZE)
  }

  ghost predicate AllLoaded(ram: word -> byte, before: word -> byte, blob: seq<byte>, beyond: nat -> byte,
                            ss: seq<Segment>) {
    forall a: word :: ram(a) == Loaded(before, blob, beyond, ss, a)
  }

  /** Segments that partition the blob load nothing from behind it. */
  lemma PartitionLoadsBlob(before: word -> byte, blob: seq<byte>, beyond: nat -> byte, ss: seq<Segment>, a: word)
    requires |blob| >= HDR_SIZE && Partitions(blob, ss)
    ensures match LastOver(ss, a)
            case None => Loaded(before, blob, beyond, ss, a) == before(a)
            case Some(s) =>
              s in ss && s.off + (a - s.dst) % RAM_SIZE < |blob|
              && Loaded(before, blob, beyond, ss, a) == blob[s.off + (a - s.dst) % RAM_SIZE]
  {
    LastOverCovers(ss, a);
    if LastOver(ss, a).Some? {
      var k :| 0 <= k < |ss| && ss[k] == LastOver(ss, a).value;
      assert End(ss[k]) <= |blob|;
    }
  }

  lemma LoadedStep(ram: word -> byte, mid: word -> byte, before: word -> byte, blob: seq<byte>, beyond: nat -> byte,
                   ss: seq<Segment>, s: Segment)
    requires AllLoaded(mid, before, blob, beyond, ss) && Holds(ram, mid, s.dst, SegmentBytes(blob, beyond, s))
    ensures AllLoaded(ram, before, blob, beyond, ss + [s])
  {
    forall a: word
      ensures ram(a) == Loaded(before, blob, beyond, ss + [s], a)
    {
      assert ram(a) == Seen(mid, s.dst, SegmentBytes(blob, beyond, s), a);
      assert mid(a) == Loaded(before, blob, beyond, ss, a);
      LastOverSnoc(ss, s, a);
    }
  }

  lemma {:induction false} LastOverSnoc(ss: seq<Segment>, s: Segment, a: word)
    ensures LastOver(ss + [s], a) == if Covers(s, a) then Some(s) else LastOver(ss, a)
    decreases ss
  {
    if ss == [] {
      assert ss + [s] == [s];
      assert [s][1..] == [];
    } else {
      assert (ss + [s])[1..] == ss[1..] + [s];
      LastOverSnoc(ss[1..], s, a);
    }
  }

  /** The segment is acknowledged as whole: IMEM below 0x20_0000, DMEM from there on. */
  predicate Acknowledged(acks: Acks, s: Segment) {
    if s.dst < 0x20_0000 then acks.imemDone && acks.imemOk else acks.dmemDone && acks.dmemOk
  }

  /** The segment part of rtw88_download_firmware. The driver does not look where the blob ends, so a blob
      whose sizes wrap takes bytes from behind it. */
  method DownloadBlob(loader: Loader, blob: seq<byte>, beyond: nat -> byte) returns (ok: bool)
    requires Acquired(blob)
    modifies loader
    ensures ok ==> Accepted(blob) && AllLoaded(loader.chip.ram, old(loader.chip.ram), blob, beyond, Segments(blob))
    ensures loader.Healthy() && (forall b :: !loader.mismatch(b)) && Accepted(blob) ==>
              ok || exists s :: s in Segments(blob) && s.size == 0
    ensures ok && loader.Healthy() ==> forall s :: s in Segments(blob) ==> Acknowledged(loader.chip.acks, s)
  {
    var ss := Segments(blob);
    ok := Sums(Total(ss), |blob|);
    if !ok {
      return;
    }
    ghost var ram0 := loader.chip.ram;
    var k := 0;
    while k < |ss|
      invariant 0 <= k <= |ss| && ok && AllLoaded(loader.chip.ram, ram0, blob, beyond, ss[..k])
      invariant loader.Healthy() ==> forall j :: 0 <= j < k ==> Acknowledged(loader.chip.acks, ss[j])
    {
      ghost var mid := loader.chip.ram;
      ok := loader.DownloadSegment(ss[k].dst, SegmentBytes(blob, beyond, ss[k]));
      if !ok {
        return;
      }
      LoadedStep(loader.chip.ram, mid, ram0, blob, beyond, ss[..k], ss[k]);
      assert ss[..k + 1] == ss[..k] + [ss[k]];
      k := k + 1;
    }
    assert ss[..k] == ss;
  }
}
