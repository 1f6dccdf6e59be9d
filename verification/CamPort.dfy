/** The CAM behind its three registers, and the routines that write, clear and dump an entry. */
module CamPort {
  import opened Bytes
  import opened Cam

  /** The chip's side: a write command commits the latched word at the commanded dword, a read
      command fetches it. Any transfer may fail; a failed one does not reach the chip. */
  class Port {
    var mem: Memory
    var writeLatch: word
    var readLatch: word
    var transfers: nat
    const fails: nat -> bool

    constructor (mem: Memory, fails: nat -> bool)
      ensures this.mem == mem && this.fails == fails
    {
      this.mem, this.fails := mem, fails;
      writeLatch, readLatch, transfers := 0, 0, 0;
    }

    method SetCamWrite(v: word) returns (ok: bool)
      modifies `writeLatch, `transfers
      ensures ok ==> writeLatch == v
    {
      ok := !fails(transfers);
      transfers := transfers + 1;
      if ok { writeLatch := v; }
    }

    method Command(write: bool, a: nat) returns (ok: bool)
      requires a < 8 * SLOTS
      modifies `mem, `readLatch, `transfers
      ensures mem == if ok && write then old(mem)[a := writeLatch] else old(mem)
      ensures ok && !write ==> readLatch == mem[a]
    {
      ok := !fails(transfers);
      transfers := transfers + 1;
      if ok {
        if write {
          var w: word := writeLatch;
          assert |mem| == 8 * SLOTS;
          mem := mem[a := w];
        } else {
          readLatch := mem[a];
        }
      }
    }

    /** Up to 16 reads of the command register; giving up is not an error, a failed read is. */
    method Poll(busy: nat) returns (ok: bool)
      modifies `transfers
    {
      for k := 0 to 16 {
        var good := !fails(transfers);
        transfers := transfers + 1;
        if !good { return false; }
        if k >= busy { return true; }
      }
      return true;
    }

    /** rtw88_cam_write_entry: dwords 7 down to 0, stopping at the first failed transfer. */
    method WriteEntry(op: Op, busy: nat) returns (ok: bool, ghost done: nat)
      requires ValidOp(op) && op.Install?
      modifies this
      ensures done <= 8 && mem == Prog(old(mem), op, done)
      ensures ok ==> done == 8
    {
      done := 0;
      for i := 8 downto 0
        invariant done == 8 - i && mem == Prog(old(mem), op, done)
      {
        ok := SetCamWrite(Dword(op, i));
        if !ok { return; }
        ok := Command(true, 8 * op.slot + i);
        if !ok { return; }
        done := done + 1;
        ok := Poll(busy);
        if !ok { return; }
      }
      ok := true;
    }

    /** rtw88_cam_clear_entry */
    method ClearEntry(slot: nat) returns (ok: bool)
      requires slot < SLOTS
      modifies this
      ensures mem == if ok then Prog(old(mem), Clear(slot), 1) else old(mem)
    {
      ok := SetCamWrite(0);
      if ok {
        ok := Command(true, 8 * slot);
      }
    }

    /** rtw88_cam_read_dword */
    method ReadDword(slot: nat, i: nat, busy: nat) returns (ok: bool, w: word)
      requires slot < SLOTS && i < 8
      modifies `readLatch, `transfers, `mem
      ensures mem == old(mem)
      ensures ok ==> w == mem[8 * slot + i]
    {
      w := 0;
      ok := Command(false, 8 * slot + i);
      if ok { ok := Poll(busy); }
      if ok {
        ok := !fails(transfers);
        transfers := transfers + 1;
        w := readLatch;
      }
    }

    /** rtw88_dump_cam_slot_sysctl: read the eight dwords, then take the entry apart. */
    method Dump(slot: nat, busy: nat) returns (ok: bool, v: View)
      requires slot < SLOTS
      modifies `readLatch, `transfers, `mem
      ensures mem == old(mem)
      ensures ok ==> v == Decode(mem, slot)
    {
      var d: seq<word> := [];
      v := View(false, false, 0, 0, [], []);
      for i := 0 to 8
        invariant mem == old(mem) && d == mem[8 * slot..8 * slot + i]
      {
        var w;
        ok, w := ReadDword(slot, i, busy);
        if !ok { return; }
        d := d + [w];
      }
      v := View(Bit(d[0], 0x8000), Bit(d[0], 0x40), d[0] / 4 % 8, d[0] % 4,
                [d[0] / 0x1_0000 % 0x100, d[0] / 0x100_0000 % 0x100] + Enc32(d[1]),
                Enc32(d[2]) + Enc32(d[3]) + Enc32(d[4]) + Enc32(d[5]));
      ok := true;
    }
  }
}
