/** The key CAM: packing of an entry, the deferred operation queue and its worker,
    and the map from slots to keys that the chip's memory implements. */
module Cam {
  import opened Bytes

  const QUEUE_DEPTH := 16
  const PAIRWISE_SLOT := 4
  const TYPE_AES := 4
  const SLOTS := 32

  datatype Op =
    | Install(slot: nat, typ: nat, keyidx: nat, group: bool, peer: seq<byte>, key: seq<byte>)
    | Clear(slot: nat)

  predicate ValidOp(op: Op) {
    op.slot < SLOTS && (op.Install? ==> |op.peer| == 6)
  }

  /** The operation rtw88_vap_key_set makes up for a CCMP key: group keys go to the slot of their
      index with a zero address, the pairwise key to its own slot with the AP's address. */
  function InstallOp(group: bool, keyix: nat, bssid: seq<byte>, key: seq<byte>): (op: Op)
    requires |bssid| == 6
    ensures op.Install? && ValidOp(op) && (op.slot == PAIRWISE_SLOT <==> !group) && |op.key| <= 16
  {
    Install(if group then keyix % 4 else PAIRWISE_SLOT, TYPE_AES, keyix % 4, group,
            if group then Zeros(6) else bssid, if |key| > 16 then key[..16] else key)
  }

  /** What the CAM dump shows of one slot. */
  datatype View = View(valid: bool, group: bool, typ: nat, keyidx: nat, mac: seq<byte>, key: seq<byte>)

  // ---- entry packing ----

  function KeyByte(key: seq<byte>, j: nat): byte {
    if j < |key| && j < 16 then key[j] else 0
  }

  function KeyWord(key: seq<byte>, j: nat): word {
    Word(KeyByte(key, j), KeyByte(key, j + 1), KeyByte(key, j + 2), KeyByte(key, j + 3))
  }

  /** The low half of the first dword, above which the first two address bytes sit. */
  function HeadLow(op: Op): nat
    requires op.Install?
  {
    op.keyidx % 4 + 4 * (op.typ % 8) + (if op.group then 0x40 else 0) + 0x8000  // 0x8000: valid
  }

  function Dword(op: Op, i: nat): word
    requires ValidOp(op) && op.Install? && i < 8
  {
    if i == 0 then
      HeadLow(op) + Word(0, 0, op.peer[0], op.peer[1])
    else if i == 1 then
      Word(op.peer[2], op.peer[3], op.peer[4], op.peer[5])
    else if i < 6 then KeyWord(op.key, 4 * (i - 2))
    else 0
  }

  type Memory = m: seq<word> | |m| == 8 * SLOTS witness seq(8 * SLOTS, _ => 0)

  function Steps(op: Op): nat {
    if op.Install? then 8 else 1
  }

  /** The memory after the first k dwords of `op` have been committed; an entry is written
      from dword 7 down to dword 0. */
  function Prog(mem: Memory, op: Op, k: nat): Memory
    requires ValidOp(op) && k <= Steps(op)
    decreases k
  {
    if k == 0 then mem
    else if op.Clear? then mem[8 * op.slot := 0]
    else Prog(mem, op, k - 1)[8 * op.slot + 8 - k := Dword(op, 8 - k)]
  }

  lemma {:induction false} ProgAt(mem: Memory, op: Op, k: nat, a: nat)
    requires ValidOp(op) && op.Install? && k <= 8 && a < 8 * SLOTS
    ensures Prog(mem, op, k)[a] ==
            if 8 * op.slot + 8 - k <= a < 8 * op.slot + 8 then Dword(op, a - 8 * op.slot) else mem[a]
  {
    if k > 0 {
      ProgAt(mem, op, k - 1, a);
    }
  }

  function Decode(mem: Memory, slot: nat): View
    requires slot < SLOTS
  {
    var d := mem[8 * slot..8 * slot + 8];
    View(Bit(d[0], 0x8000), Bit(d[0], 0x40), d[0] / 4 % 8, d[0] % 4,
         [d[0] / 0x1_0000 % 0x100, d[0] / 0x100_0000 % 0x100] + Enc32(d[1]),
         Enc32(d[2]) + Enc32(d[3]) + Enc32(d[4]) + Enc32(d[5]))
  }

  /** The key with zeros up to 16 bytes. */
  function Padded(key: seq<byte>): (k: seq<byte>)
    ensures |k| == 16 && forall j :: 0 <= j < 16 ==> k[j] == if j < |key| then key[j] else 0
  {
    seq(16, j requires 0 <= j => KeyByte(key, j))
  }

  function Shown(op: Op): View
    requires ValidOp(op) && op.Install?
  {
    View(true, op.group, op.typ % 8, op.keyidx % 4, op.peer, Padded(op.key))
  }

  lemma HeadLowFields(op: Op, high: nat)
    requires op.Install?
    ensures var d := HeadLow(op) + 0x1_0000 * high;
            Bit(d, 0x8000) && Bit(d, 0x40) == op.group && d / 4 % 8 == op.typ % 8 && d % 4 == op.keyidx % 4
  {
    var k, t, g := op.keyidx % 4, op.typ % 8, if op.group then 1 else 0;
    DivMod(4, k, t + 8 * (2 * g + 0x400 + 0x800 * high));
    DivMod(8, t, 2 * g + 0x400 + 0x800 * high);
    DivMod(0x40, k + 4 * t, g + 2 * (0x100 + 0x200 * high));
    DivMod(2, g, 0x100 + 0x200 * high);
    DivMod(0x8000, k + 4 * t + 0x40 * g, 1 + 2 * high);
    DivMod(2, 1, high);
  }

  lemma HeadFields(op: Op)
    requires ValidOp(op) && op.Install?
    ensures var d := Dword(op, 0);
            Bit(d, 0x8000) && Bit(d, 0x40) == op.group && d / 4 % 8 == op.typ % 8 && d % 4 == op.keyidx % 4
            && d / 0x1_0000 % 0x100 == op.peer[0] && d / 0x100_0000 % 0x100 == op.peer[1]
  {
    var p0, p1, low := op.peer[0] as int, op.peer[1] as int, HeadLow(op);
    assert Dword(op, 0) == low + 0x1_0000 * (p0 + 0x100 * p1);
    HeadLowFields(op, p0 + 0x100 * p1);
    DivMod(0x1_0000, low, p0 + 0x100 * p1);
    DivMod(0x100, p0, p1);
    DivMod(0x100_0000, low + 0x1_0000 * p0, p1);
  }

  lemma KeyField(key: seq<byte>, j: nat)
    requires j + 4 <= 16
    ensures Enc32(KeyWord(key, j)) == Padded(key)[j..j + 4]
  {
    var k := Padded(key);
    Enc32Word(k[j], k[j + 1], k[j + 2], k[j + 3]);
  }

  lemma KeyFields(op: Op)
    requires ValidOp(op) && op.Install?
    ensures Enc32(Dword(op, 2)) + Enc32(Dword(op, 3)) + Enc32(Dword(op, 4)) + Enc32(Dword(op, 5)) == Shown(op).key
  {
    KeyField(op.key, 0);
    KeyField(op.key, 4);
    KeyField(op.key, 8);
    KeyField(op.key, 12);
    var k := Padded(op.key);
    assert k == k[0..4] + k[4..8] + k[8..12] + k[12..16];
  }

  lemma EntryShows(mem: Memory, op: Op)
    requires ValidOp(op) && op.Install?
    requires mem[8 * op.slot..8 * op.slot + 8] == seq(8, i requires 0 <= i < 8 => Dword(op, i))
    ensures Decode(mem, op.slot) == Shown(op)
  {
    HeadFields(op);
    KeyFields(op);
    Enc32Word(op.peer[2], op.peer[3], op.peer[4], op.peer[5]);
    assert op.peer == [op.peer[0], op.peer[1]] + [op.peer[2], op.peer[3], op.peer[4], op.peer[5]];
  }

  /** Installing an entry and dumping its slot gives back every field and the key padded with
      zeros to 16 bytes; no other slot changes. */
  lemma InstallRoundTrip(mem: Memory, op: Op, slot: nat)
    requires ValidOp(op) && op.Install? && slot < SLOTS
    ensures Decode(Prog(mem, op, 8), slot) == if slot == op.slot then Shown(op) else Decode(mem, slot)
  {
    var out := Prog(mem, op, 8);
    forall a | 8 * slot <= a < 8 * slot + 8
      ensures out[a] == if slot == op.slot then Dword(op, a - 8 * slot) else mem[a]
    {
      ProgAt(mem, op, 8, a);
    }
    if slot == op.slot {
      EntryShows(out, op);
    } else {
      assert out[8 * slot..8 * slot + 8] == mem[8 * slot..8 * slot + 8];
    }
  }

  /** What a dump of the slot shows after an install, field by field and byte by byte. */
  lemma InstallShows(mem: Memory, op: Op)
    requires ValidOp(op) && op.Install?
    ensures var v := Decode(Prog(mem, op, 8), op.slot);
            && v.valid && v.group == op.group && v.typ == op.typ % 8 && v.keyidx == op.keyidx % 4 && v.mac == op.peer
            && |v.key| == 16 && forall j :: 0 <= j < 16 ==> v.key[j] == if j < |op.key| then op.key[j] else 0
  {
    InstallRoundTrip(mem, op, op.slot);
  }

  /** The operation the key-set hook makes up: in the slot of its index with no address for a group key, in slot
      4 with the AP's address for the pairwise key; AES, with the first sixteen key bytes. */
  lemma KeyOp(op: Op, group: bool, keyix: nat, bssid: seq<byte>, key: seq<byte>)
    requires |bssid| == 6 && op == InstallOp(group, keyix, bssid, key)
    ensures op.slot == (if group then keyix % 4 else 4) && op.group == group && op.typ == 4 && op.keyidx == keyix % 4
    ensures op.peer == (if group then [0, 0, 0, 0, 0, 0] else bssid)
    ensures forall j :: 0 <= j < 16 ==> (if j < |op.key| then op.key[j] else 0) == if j < |key| then key[j] else 0
  {
  }

  lemma ClearInvalidates(mem: Memory, op: Op, slot: nat)
    requires ValidOp(op) && op.Clear? && slot < SLOTS
    ensures slot == op.slot ==> !Decode(Prog(mem, op, 1), slot).valid
    ensures slot != op.slot ==> Decode(Prog(mem, op, 1), slot) == Decode(mem, slot)
  {
    var out := Prog(mem, op, 1);
    if slot != op.slot {
      assert out[8 * slot..8 * slot + 8] == mem[8 * slot..8 * slot + 8];
    }
  }

  // ---- operations one after the other, some of them cut short ----

  /** An operation of some thread that took effect with its first n dwords. */
  datatype Effect = Effect(who: nat, op: Op, n: nat)

  predicate ValidEffect(e: Effect) {
    ValidOp(e.op) && e.n <= Steps(e.op)
  }

  predicate ValidEffects(fx: seq<Effect>) {
    forall i :: 0 <= i < |fx| ==> ValidEffect(fx[i])
  }

  function Applied(mem: Memory, fx: seq<Effect>): Memory
    requires ValidEffects(fx)
  {
    if fx == [] then mem
    else
      var last := fx[|fx| - 1];
      Prog(Applied(mem, fx[..|fx| - 1]), last.op, last.n)
  }

  lemma AppliedMore(mem: Memory, fx: seq<Effect>, e: Effect)
    requires ValidEffect(e) && ValidEffects(fx)
    ensures ValidEffects(fx + [e]) && Applied(mem, fx + [e]) == Prog(Applied(mem, fx), e.op, e.n)
  {
    assert (fx + [e])[..|fx|] == fx;
  }

  /** The last operation that put a dword into a slot, if any. */
  function LastOn(fx: seq<Effect>, slot: nat): (r: Option<Effect>)
    ensures r.Some? ==> r.value in fx && r.value.op.slot == slot && r.value.n > 0
  {
    if fx == [] then None
    else if fx[|fx| - 1].op.slot == slot && fx[|fx| - 1].n > 0 then Some(fx[|fx| - 1])
    else LastOn(fx[..|fx| - 1], slot)
  }

  predicate Whole(e: Effect) {
    e.n == Steps(e.op)
  }

  /** What a slot must show: the entry last installed, nothing valid once cleared, what was there before if
      nothing was put in. An install cut short leaves the slot as valid as it was. */
  ghost predicate Shows(view: View, last: Option<Effect>, before: View)
    requires last.Some? ==> ValidEffect(last.value)
  {
    match last
    case None => view == before
    case Some(e) => Whole(e) ==> if e.op.Install? then view == Shown(e.op) else !view.valid
  }

  lemma OtherSlot(mem: Memory, op: Op, k: nat, slot: nat)
    requires ValidOp(op) && k <= Steps(op) && slot < SLOTS && slot != op.slot
    ensures Decode(Prog(mem, op, k), slot) == Decode(mem, slot)
  {
    var out := Prog(mem, op, k);
    if op.Install? {
      forall a | 8 * slot <= a < 8 * slot + 8
        ensures out[a] == mem[a]
      {
        ProgAt(mem, op, k, a);
      }
    }
    assert out[8 * slot..8 * slot + 8] == mem[8 * slot..8 * slot + 8];
  }

  /** Any operations, carried out dword by dword and some only in part: a slot shows the last one that
      touched it, if that one was carried out in full, whatever happened before and in other slots. */
  lemma {:induction false} AppliedShows(mem: Memory, fx: seq<Effect>, slot: nat)
    requires slot < SLOTS && ValidEffects(fx)
    ensures Shows(Decode(Applied(mem, fx), slot), LastOn(fx, slot), Decode(mem, slot))
  {
    if fx != [] {
      var init, last := fx[..|fx| - 1], fx[|fx| - 1];
      AppliedShows(mem, init, slot);
      if slot != last.op.slot {
        OtherSlot(Applied(mem, init), last.op, last.n, slot);
      } else if last.n > 0 && Whole(last) {
        if last.op.Install? {
          InstallRoundTrip(Applied(mem, init), last.op, slot);
        } else {
          ClearInvalidates(Applied(mem, init), last.op, slot);
        }
      }
    }
  }

  /** An install cut short before its last dword leaves the valid bit, flags and index of its slot. */
  lemma CutShortKeepsHead(mem: Memory, op: Op, k: nat)
    requires ValidOp(op) && op.Install? && k < 8
    ensures var u, v := Decode(Prog(mem, op, k), op.slot), Decode(mem, op.slot);
            u.valid == v.valid && u.group == v.group && u.typ == v.typ && u.keyidx == v.keyidx
  {
    ProgAt(mem, op, k, 8 * op.slot);
    assert Prog(mem, op, k)[8 * op.slot..8 * op.slot + 8][0] == mem[8 * op.slot..8 * op.slot + 8][0];
  }
}
