/** Carrying table entries out on the register bus, and the table walker itself. */
module PhyBus {
  import opened Bytes
  import opened PhyTable

  datatype Kind = Mac | Bb | Agc | RfA | Unknown

  function KindOf(b: byte): Kind {
    match b
    case 1 => Mac
    case 2 => Bb
    case 3 => Agc
    case 4 => RfA
    case _ => Unknown
  }

  datatype Effect = Pause(us: nat) | Write1(reg: nat, value: nat) | Write4(reg: nat, value: nat)

  const SIPI_A := 0x0C90

  /** What rtw88_phy_apply does with an entry: None when the kind is not known. */
  function Applied(kind: Kind, e: Entry): Option<Effect> {
    match kind
    case Mac => Some(Write1(e.addr % 0x1_0000, e.data % 0x100))
    case Bb =>
      Some(match e.addr
           case 0xFE => Pause(50_000)
           case 0xFD => Pause(5_000)
           case 0xFC => Pause(1_000)
           case 0xFB => Pause(60)
           case 0xFA => Pause(5)
           case 0xF9 => Pause(1)
           case _ => Write4(e.addr % 0x1_0000, e.data))
    case Agc => Some(Write4(e.addr % 0x1_0000, e.data))
    case RfA =>
      Some(match e.addr
           case 0xFFE => Pause(50_000)
           case 0xFE => Pause(110)
           case _ => Write4(SIPI_A, e.addr % 0x100 * 0x10_0000 + e.data % 0x10_0000))
    case Unknown => None
  }

  /** What each kind of table does with an entry (a, d): MAC tables write a byte to a 16-bit address; BB tables
      pause for the six sentinel addresses and write a word for all others; AGC tables always write a word; RF
      tables pause for two sentinels and else pack eight address and twenty data bits into one word for the
      serial interface at 0xC90. */
  lemma AppliedIs(e: Entry)
    ensures Applied(KindOf(1), e) == Some(Write1(e.addr % 0x1_0000, e.data % 0x100))
    ensures var pauses := map[0xFE := 50_000, 0xFD := 5_000, 0xFC := 1_000, 0xFB := 60, 0xFA := 5, 0xF9 := 1];
            Applied(KindOf(2), e) == Some(if e.addr in pauses then Pause(pauses[e.addr])
                                          else Write4(e.addr % 0x1_0000, e.data))
    ensures Applied(KindOf(3), e) == Some(Write4(e.addr % 0x1_0000, e.data))
    ensures var pauses := map[0xFFE := 50_000, 0xFE := 110];
            var r := Applied(KindOf(4), e);
            if e.addr in pauses then r == Some(Pause(pauses[e.addr]))
            else r.Some? && r.value.Write4? && r.value.reg == 0xC90
                 && r.value.value % 0x10_0000 == e.data % 0x10_0000 && r.value.value / 0x10_0000 == e.addr % 0x100
    ensures forall k: byte :: k == 0 || k > 4 ==> Applied(KindOf(k), e) == None
  {
    DivMod(0x10_0000, e.data % 0x10_0000, e.addr % 0x100);
  }

  /** The effects of a list of entries, in order. */
  function Effects(kind: Kind, es: seq<Entry>): (r: seq<Effect>)
    requires kind != Unknown
    ensures |r| == |es| && forall i :: 0 <= i < |es| ==> Some(r[i]) == Applied(kind, es[i])
  {
    seq(|es|, i requires 0 <= i < |es| => Applied(kind, es[i]).value)
  }

  /** The register bus: a write may fail, and then has no effect. */
  class Bus {
    const chip: Chip
    const fails: nat -> bool
    var transfers: nat
    ghost var done: seq<Effect>

    constructor (chip: Chip, fails: nat -> bool)
      ensures this.chip == chip && done == []
    {
      this.chip, this.fails, transfers, done := chip, fails, 0, [];
    }

    /** rtw88_phy_apply */
    method Apply(kind: Kind, e: Entry) returns (ok: bool)
      modifies `transfers, `done
      ensures ok ==> kind != Unknown && done == old(done) + [Applied(kind, e).value]
      ensures !ok ==> done == old(done)
      ensures kind != Unknown && Applied(kind, e).value.Pause? ==> ok
    {
      var effect := Applied(kind, e);
      if effect.None? {
        return false;
      }
      ok := true;
      if !effect.value.Pause? {
        ok := !fails(transfers);
        transfers := transfers + 1;
      }
      if ok {
        done := done + [effect.value];
      }
    }

    /** rtw88_phy_walk_table. All selected entries take effect on success, those before the
        failing one on error. */
    method WalkTable(kind: Kind, ws: seq<word>) returns (ok: bool, applied: nat)
      modifies `transfers, `done
      ensures applied <= |Select(chip, START, ws)|
      ensures ok <==> applied == |Select(chip, START, ws)|
      ensures kind == Unknown ==> done == old(done) && applied == 0
      ensures kind != Unknown ==> done == old(done) + Effects(kind, Select(chip, START, ws)[..applied])
    {
      var posCond: word := 0;
      var isMatched, isSkipped := true, false;
      var i := 0;
      applied := 0;
      assert ws[0..] == ws;
      while i + 1 < |ws|
        invariant 0 <= i <= |ws| && applied <= |Select(chip, START, ws)|
        invariant Select(chip, START, ws)[applied..] == Select(chip, Vars(posCond, isMatched, isSkipped), ws[i..])
        invariant kind == Unknown ==> done == old(done) && applied == 0
        invariant kind != Unknown ==> done == old(done) + Effects(kind, Select(chip, START, ws)[..applied])
      {
        var w0, w1 := ws[i], ws[i + 1];
        assert ws[i..][2..] == ws[i + 2..];
        if w0 >= POS {
          match w0 / 0x1000_0000 % 4 {
            case 3 => isMatched, isSkipped := true, false;
            case 2 => isMatched := !isSkipped;
            case _ => posCond := w0;
          }
        } else if w0 >= NEG {
          if !isSkipped {
            isMatched := CondCheck(chip, posCond);
            isSkipped := isMatched;
          } else {
            isMatched := false;
          }
        } else if isMatched {
          ghost var all := Select(chip, START, ws);
          assert all[applied..][0] == Entry(w0, w1);
          assert all[applied..][1..] == all[applied + 1..];
          ok := Apply(kind, Entry(w0, w1));
          if !ok {
            return;
          }
          assert all[..applied + 1] == all[..applied] + [Entry(w0, w1)];
          applied := applied + 1;
        }
        i := i + 2;
      }
      ok := true;
    }
  }
}
