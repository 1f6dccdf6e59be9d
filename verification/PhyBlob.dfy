/** The table blob: a header, then tables of little-endian words; loading and replaying it. */
module PhyBlob {
  import opened Bytes
  import opened PhyTable
  import opened PhyBus

  datatype Table = Table(kind: byte, pad: seq<byte>, words: seq<word>)

  predicate ValidTable(t: Table) {
    |t.pad| == 3 && |t.words| < 0x1_0000_0000
  }

  predicate ValidTables(ts: seq<Table>) {
    forall i :: 0 <= i < |ts| ==> ValidTable(ts[i])
  }

  /** "R88T", version 1, the number of tables, two reserved bytes. */
  function Head(ntables: byte, r0: byte, r1: byte): (r: seq<byte>)
    ensures |r| == 8
  {
    [0x52, 0x38, 0x38, 0x54, 1, ntables, r0, r1]
  }

  predicate HasMagic(blob: seq<byte>) {
    |blob| >= 4 && blob[0] == 0x52 && blob[1] == 0x38 && blob[2] == 0x38 && blob[3] == 0x54
  }

  // ---- serialising ----

  function TableBytes(t: Table): (r: seq<byte>)
    requires ValidTable(t)
    ensures |r| == 8 + 4 * |t.words|
  {
    [t.kind] + t.pad + Enc32(|t.words|) + Enc32All(t.words)
  }

  function TablesBytes(ts: seq<Table>): seq<byte>
    requires ValidTables(ts)
  {
    if ts == [] then [] else TableBytes(ts[0]) + TablesBytes(ts[1..])
  }

  function Blob(ts: seq<Table>, r0: byte, r1: byte): seq<byte>
    requires ValidTables(ts) && |ts| <= 255
  {
    Head(|ts|, r0, r1) + TablesBytes(ts)
  }

  // ---- parsing ----

  function WordsOf(p: seq<byte>, n: nat): (r: seq<word>)
    requires 4 * n <= |p|
    ensures |r| == n
  {
    if n == 0 then [] else [Le32(p, 0)] + WordsOf(p[4..], n - 1)
  }

  /** The table at the head of the bytes, None when they are too short for it. */
  function HeadTable(p: seq<byte>): (r: Option<Table>)
    ensures r.Some? ==> ValidTable(r.value) && |p| >= 8 + 4 * |r.value.words|
  {
    if |p| < 8 then None
    else
      var n := Le32(p, 4);
      if 4 * n > |p| - 8 then None else Some(Table(p[0], p[1..4], WordsOf(p[8..], n)))
  }

  function Rest(p: seq<byte>): seq<byte>
    requires HeadTable(p).Some?
  {
    p[8 + 4 * |HeadTable(p).value.words|..]
  }

  datatype Parsed = Parsed(tables: seq<Table>, whole: bool)

  /** The first n tables, and whether all n are there. */
  function Parse(p: seq<byte>, n: nat): Parsed
    decreases n
  {
    if n == 0 then Parsed([], true)
    else if HeadTable(p).None? then Parsed([], false)
    else
      var r := Parse(Rest(p), n - 1);
      Parsed([HeadTable(p).value] + r.tables, r.whole)
  }

  /** The first RF_A table of whatever follows the header; `None` with true when there is none. */
  function FindRfA(p: seq<byte>): (Option<Table>, bool)
    decreases |p|
  {
    if |p| < 8 then (None, true)
    else if HeadTable(p).None? then (None, false)
    else if HeadTable(p).value.kind == 4 then (HeadTable(p), true)
    else FindRfA(Rest(p))
  }

  // ---- round trips ----

  lemma {:induction false} WordsRoundTrip(ws: seq<word>, more: seq<byte>)
    ensures WordsOf(Enc32All(ws) + more, |ws|) == ws
    decreases ws
  {
    if ws != [] {
      var p, head := Enc32All(ws) + more, Enc32(ws[0]);
      Assoc(head, Enc32All(ws[1..]), more);
      FrontOf(head, Enc32All(ws[1..]) + more);
      Drop(head, Enc32All(ws[1..]) + more);
      Le32Enc32(ws[0]);
      WordsRoundTrip(ws[1..], more);
      assert [ws[0]] + ws[1..] == ws;
    }
  }

  lemma HeadRoundTrip(t: Table, more: seq<byte>)
    requires ValidTable(t)
    ensures HeadTable(TableBytes(t) + more) == Some(t) && Rest(TableBytes(t) + more) == more
  {
    var p := TableBytes(t) + more;
    var n := Enc32(|t.words|);
    assert p[4] == n[0] && p[5] == n[1] && p[6] == n[2] && p[7] == n[3];
    Le32Enc32(|t.words|);
    assert p[1..4] == t.pad;
    assert p[8..] == Enc32All(t.words) + more;
    WordsRoundTrip(t.words, more);
  }

  lemma ParseStep(t: Table, more: seq<byte>, n: nat)
    requires ValidTable(t)
    ensures Parse(TableBytes(t) + more, n + 1) == Parsed([t] + Parse(more, n).tables, Parse(more, n).whole)
  {
    HeadRoundTrip(t, more);
  }

  lemma Assoc(a: seq<byte>, b: seq<byte>, c: seq<byte>)
    ensures (a + b) + c == a + (b + c)
  {
  }

  lemma {:induction false} ParseRoundTrip(ts: seq<Table>, more: seq<byte>)
    requires ValidTables(ts)
    ensures Parse(TablesBytes(ts) + more, |ts|).tables == ts && Parse(TablesBytes(ts) + more, |ts|).whole
    decreases ts
  {
    if ts == [] {
      assert TablesBytes(ts) + more == more;
    } else {
      var first, others := TableBytes(ts[0]), TablesBytes(ts[1..]);
      Assoc(first, others, more);
      ParseStep(ts[0], others + more, |ts| - 1);
      ParseRoundTrip(ts[1..], more);
      assert [ts[0]] + ts[1..] == ts;
      assert TablesBytes(ts) + more == first + (others + more);
    }
  }

  lemma TablesBytesLength(ts: seq<Table>, j: nat)
    requires ValidTables(ts) && 0 < j <= |ts|
    ensures |TablesBytes(ts[..j])| == |TableBytes(ts[0])| + |TablesBytes(ts[1..][..j - 1])|
  {
    assert ts[..j][1..] == ts[1..][..j - 1];
  }

  lemma CutLater(ts: seq<Table>, n: nat, j: nat)
    requires ValidTables(ts) && j + 1 < |ts|
    requires |TablesBytes(ts[1..][..j])| <= n - |TableBytes(ts[0])| < |TablesBytes(ts[1..][..j + 1])|
    ensures |TablesBytes(ts[..j + 1])| <= n < |TablesBytes(ts[..j + 2])|
  {
    TablesBytesLength(ts, j + 1);
    TablesBytesLength(ts, j + 2);
  }

  lemma Drop(a: seq<byte>, b: seq<byte>)
    ensures (a + b)[|a|..] == b
  {
  }

  lemma PrefixOfConcat(p: seq<byte>, a: seq<byte>, b: seq<byte>)
    requires p < a + b && |a| <= |p|
    ensures p == a + p[|a|..] && p[|a|..] < b
  {
    assert (a + b)[|a|..] == b;
  }

  /** Of bytes cut short, p, exactly the first j tables are whole. */
  ghost predicate WholeTables(p: seq<byte>, ts: seq<Table>, j: nat) {
    && j < |ts| && Parse(p, |ts|).tables == ts[..j] && !Parse(p, |ts|).whole
  }

  lemma TakeCons(ts: seq<Table>, j: nat)
    requires j < |ts|
    ensures [ts[0]] + ts[1..][..j] == ts[..j + 1]
  {
  }

  lemma WholeTablesStep(ts: seq<Table>, q: seq<byte>, j: nat)
    requires ts != [] && ValidTable(ts[0]) && WholeTables(q, ts[1..], j)
    ensures WholeTables(TableBytes(ts[0]) + q, ts, j + 1)
  {
    ParseStep(ts[0], q, |ts| - 1);
    TakeCons(ts, j);
  }

  lemma {:induction false} ParseTruncated(ts: seq<Table>, p: seq<byte>) returns (j: nat)
    requires ValidTables(ts) && p < TablesBytes(ts)
    ensures WholeTables(p, ts, j)
    ensures |TablesBytes(ts[..j])| <= |p| < |TablesBytes(ts[..j + 1])|
    decreases ts
  {
    var b, more := TableBytes(ts[0]), TablesBytes(ts[1..]);
    if |p| < |b| {
      j := 0;
      HeadTruncated(ts[0], p, more);
      TablesBytesLength(ts, 1);
      assert ts[..0] == [];
    } else {
      PrefixOfConcat(p, b, more);
      var j' := ParseTruncated(ts[1..], p[|b|..]);
      WholeTablesStep(ts, p[|b|..], j');
      CutLater(ts, |p|, j');
      j := j' + 1;
    }
  }

  lemma HeadTruncated(t: Table, p: seq<byte>, more: seq<byte>)
    requires ValidTable(t) && p <= TableBytes(t) + more && |p| < |TableBytes(t)|
    ensures HeadTable(p).None?
  {
    if |p| >= 8 {
      var b, n := TableBytes(t), Enc32(|t.words|);
      assert b[4] == n[0] && b[5] == n[1] && b[6] == n[2] && b[7] == n[3];
      assert p[4] == b[4] && p[5] == b[5] && p[6] == b[6] && p[7] == b[7];
      Le32Enc32(|t.words|);
    }
  }

  function FirstRfA(ts: seq<Table>): Option<Table> {
    if ts == [] then None else if ts[0].kind == 4 then Some(ts[0]) else FirstRfA(ts[1..])
  }

  /** Replay finds exactly the first RF_A table, or that there is none. */
  lemma {:induction false} FindRoundTrip(ts: seq<Table>)
    requires ValidTables(ts)
    ensures FindRfA(TablesBytes(ts)) == (FirstRfA(ts), true)
    decreases ts
  {
    if ts != [] {
      HeadRoundTrip(ts[0], TablesBytes(ts[1..]));
      FindRoundTrip(ts[1..]);
    }
  }

  /** What the search makes of bytes of which the first j tables are whole: their first RF_A table, or none,
      and then whether less than a table header is left over. */
  function FoundIn(p: seq<byte>, ts: seq<Table>, j: nat): (Option<Table>, bool)
    requires j <= |ts| && ValidTables(ts)
  {
    if FirstRfA(ts[..j]).Some? then (FirstRfA(ts[..j]), true) else (None, |p| - |TablesBytes(ts[..j])| < 8)
  }

  lemma FindStep(t: Table, q: seq<byte>)
    requires ValidTable(t)
    ensures FindRfA(TableBytes(t) + q) == if t.kind == 4 then (Some(t), true) else FindRfA(q)
  {
    HeadRoundTrip(t, q);
  }

  lemma FoundStep(ts: seq<Table>, q: seq<byte>, j: nat)
    requires ValidTables(ts) && j < |ts| && FindRfA(q) == FoundIn(q, ts[1..], j)
    ensures FindRfA(TableBytes(ts[0]) + q) == FoundIn(TableBytes(ts[0]) + q, ts, j + 1)
  {
    FindStep(ts[0], q);
    TablesBytesLength(ts, j + 1);
    assert ts[..j + 1][0] == ts[0] && ts[..j + 1][1..] == ts[1..][..j];
  }

  /** The cut falls into table j, and the search makes of p what the tables before that hold. */
  predicate FoundCut(ts: seq<Table>, p: seq<byte>, j: nat) {
    && ValidTables(ts) && j < |ts| && |TablesBytes(ts[..j])| <= |p| < |TablesBytes(ts[..j + 1])|
    && FindRfA(p) == FoundIn(p, ts, j)
  }

  lemma CutInHead(ts: seq<Table>, p: seq<byte>)
    requires ValidTables(ts) && ts != [] && p < TablesBytes(ts) && |p| < |TableBytes(ts[0])|
    ensures FoundCut(ts, p, 0)
  {
    HeadTruncated(ts[0], p, TablesBytes(ts[1..]));
    TablesBytesLength(ts, 1);
    assert ts[..0] == [];
  }

  /** Searching bytes cut short, p, finds the first RF_A table if it is whole, else none. */
  lemma {:induction false} FindTruncated(ts: seq<Table>, p: seq<byte>) returns (j: nat)
    requires ValidTables(ts) && p < TablesBytes(ts)
    ensures FoundCut(ts, p, j)
    decreases ts
  {
    var b, more := TableBytes(ts[0]), TablesBytes(ts[1..]);
    if |p| < |b| {
      j := 0;
      CutInHead(ts, p);
    } else {
      PrefixOfConcat(p, b, more);
      var later := FindTruncated(ts[1..], p[|b|..]);
      FoundStep(ts, p[|b|..], later);
      CutLater(ts, |p|, later);
      j := later + 1;
    }
  }

  /** Replaying a blob cut short inside its tables finds the first RF_A table if the cut left it whole, and
      otherwise none: no entry when less than a table header is left over, else an invalid blob. */
  lemma ReplayTruncated(ts: seq<Table>, r0: byte, r1: byte, cut: nat) returns (j: nat)
    requires ValidTables(ts) && |ts| <= 255 && cut < |TablesBytes(ts)|
    ensures j < |ts| && |TablesBytes(ts[..j])| <= cut < |TablesBytes(ts[..j + 1])|
    ensures var b := Blob(ts, r0, r1)[..8 + cut];
            HasMagic(b) && FindRfA(b[8..]) == FoundIn(b[8..], ts, j)
  {
    FramedParts(|ts|, r0, r1, TablesBytes(ts));
    var b := Blob(ts, r0, r1);
    assert b[..8 + cut][8..] == b[8..][..cut];
    j := FindTruncated(ts, TablesBytes(ts)[..cut]);
  }

  // ---- the loader ----

  datatype Error = Done | NoEntry | Invalid | Failed

  /** Everything the tables select on this chip, in order; a table of unknown kind selects nothing
      that can be applied. */
  function AllEffects(chip: Chip, ts: seq<Table>): seq<Effect> {
    if ts == [] then []
    else AllEffects(chip, ts[..|ts| - 1]) + TableEffects(chip, ts[|ts| - 1], |Selected(chip, ts[|ts| - 1])|)
  }

  function Selected(chip: Chip, t: Table): seq<Entry> {
    Select(chip, START, t.words)
  }

  function TableEffects(chip: Chip, t: Table, k: nat): seq<Effect>
    requires k <= |Selected(chip, t)|
  {
    if KindOf(t.kind) == Unknown then [] else Effects(KindOf(t.kind), Selected(chip, t)[..k])
  }

  predicate GoodHeader(blob: seq<byte>) {
    |blob| >= 8 && HasMagic(blob) && blob[4] == 1
  }

  /** The header of a blob is in its first 8 bytes, whatever follows. */
  lemma FramedParts(n: byte, r0: byte, r1: byte, t: seq<byte>)
    ensures var b := Head(n, r0, r1) + t; GoodHeader(b) && b[5] == n && b[8..] == t
  {
    var h := Head(n, r0, r1);
    FrontOf(h, t);
    Drop(h, t);
  }

  /** The loads that get past the header are exactly those of a version 1 header with anything behind it. */
  lemma GoodHeaderIff(blob: seq<byte>)
    ensures GoodHeader(blob) <==> exists n: byte, r0: byte, r1: byte, t :: blob == Head(n, r0, r1) + t
  {
    if GoodHeader(blob) {
      assert blob == Head(blob[5], blob[6], blob[7]) + blob[8..];
    }
    if n: byte, r0: byte, r1: byte, t :| blob == Head(n, r0, r1) + t {
      FramedParts(n, r0, r1, t);
    }
  }

  lemma FrontOf(a: seq<byte>, b: seq<byte>)
    ensures forall i :: 0 <= i < |a| ==> (a + b)[i] == a[i]
  {
  }

  /** A load of a serialised list of tables can only end in one of two ways: every table walked in
      order, or a register write that failed in a table after the earlier ones were walked. */
  lemma LoadRoundTrip(chip: Chip, ts: seq<Table>, r0: byte, r1: byte,
                      error: Error, walked: nat, k: nat, done: seq<Effect>)
    requires ValidTables(ts) && |ts| <= 255
    requires var b := Blob(ts, r0, r1);
             LoadResult(chip, Parse(b[8..], b[5]).tables, Parse(b[8..], b[5]).whole, error, walked, k, done)
    ensures error == Done ==> done == AllEffects(chip, ts)
    ensures error != Done ==>
              error == Failed && walked < |ts| && k < |Selected(chip, ts[walked])|
              && done == AllEffects(chip, ts[..walked]) + TableEffects(chip, ts[walked], k)
  {
    FramedParts(|ts|, r0, r1, TablesBytes(ts));
    ParseRoundTrip(ts, []);
    assert TablesBytes(ts) + [] == TablesBytes(ts);
  }

  /** A blob cut short inside a table never gets as far as that table: a load of it applies the
      whole tables before the cut, or fails in one of those. */
  lemma LoadTruncated(chip: Chip, ts: seq<Table>, r0: byte, r1: byte, cut: nat,
                      error: Error, walked: nat, k: nat, done: seq<Effect>) returns (j: nat)
    requires ValidTables(ts) && |ts| <= 255 && cut < |TablesBytes(ts)|
    requires var b := Blob(ts, r0, r1)[..8 + cut];
             LoadResult(chip, Parse(b[8..], b[5]).tables, Parse(b[8..], b[5]).whole, error, walked, k, done)
    ensures j < |ts| && |TablesBytes(ts[..j])| <= cut < |TablesBytes(ts[..j + 1])|
    ensures error == Invalid ==> done == AllEffects(chip, ts[..j])
    ensures error != Invalid ==> error == Failed && walked < j
  {
    FramedParts(|ts|, r0, r1, TablesBytes(ts));
    var b := Blob(ts, r0, r1);
    assert b[..8 + cut][8..] == b[8..][..cut] && b[..8 + cut][5] == b[5];
    j := ParseTruncated(ts, TablesBytes(ts)[..cut]);
  }

  /** Replay of a serialised blob walks its first RF_A table. */
  lemma ReplayRoundTrip(ts: seq<Table>, r0: byte, r1: byte)
    requires ValidTables(ts) && |ts| <= 255
    ensures FindRfA(Blob(ts, r0, r1)[8..]) == (FirstRfA(ts), true)
  {
    FramedParts(|ts|, r0, r1, TablesBytes(ts));
    FindRoundTrip(ts);
  }

  datatype Outcome = Walked | Truncated | ApplyFailed

  /** One turn of the loader's loop: reject a table that does not fit before applying any of it. */
  method WalkHead(bus: Bus, p: seq<byte>) returns (o: Outcome, rest: seq<byte>, ghost k: nat, ghost eff: seq<Effect>)
    modifies bus`transfers, bus`done
    ensures bus.done == old(bus.done) + eff
    ensures o == Truncated <==> HeadTable(p).None?
    ensures o == Truncated ==> eff == []
    ensures o != Truncated ==> k <= |Selected(bus.chip, HeadTable(p).value)|
                               && eff == TableEffects(bus.chip, HeadTable(p).value, k)
    ensures o == Walked ==> rest == Rest(p) && k == |Selected(bus.chip, HeadTable(p).value)|
    ensures o == ApplyFailed ==> k < |Selected(bus.chip, HeadTable(p).value)|
  {
    rest, k, eff := [], 0, [];
    if |p| < 8 {
      return Truncated, [], 0, [];
    }
    var kind, nwords := p[0], Le32(p, 4);
    if nwords * 4 > |p| - 8 {
      return Truncated, [], 0, [];
    }
    var ok, applied := bus.WalkTable(KindOf(kind), WordsOf(p[8..], nwords));
    assert kind == HeadTable(p).value.kind;
    k, eff := applied, TableEffects(bus.chip, HeadTable(p).value, applied);
    if !ok {
      return ApplyFailed, [], k, eff;
    }
    return Walked, p[8 + 4 * nwords..], k, eff;
  }

  /** Where a load can stop: everything walked, a table cut short, or a table that failed after
      k of its entries. */
  ghost predicate LoadResult(chip: Chip, ts: seq<Table>, whole: bool,
                             error: Error, walked: nat, k: nat, done: seq<Effect>) {
    match error
    case Done => whole && walked == |ts| && done == AllEffects(chip, ts)
    case Invalid => !whole && walked == |ts| && done == AllEffects(chip, ts)
    case Failed =>
      && walked < |ts| && k < |Selected(chip, ts[walked])|
      && done == AllEffects(chip, ts[..walked]) + TableEffects(chip, ts[walked], k)
    case NoEntry => false
  }

  lemma AllEffectsNext(chip: Chip, ts: seq<Table>, t: Table)
    ensures AllEffects(chip, ts + [t]) == AllEffects(chip, ts) + TableEffects(chip, t, |Selected(chip, t)|)
  {
    assert (ts + [t])[..|ts|] == ts;
  }

  lemma AssocEffects(a: seq<Effect>, b: seq<Effect>, c: seq<Effect>)
    ensures (a + b) + c == a + (b + c)
  {
  }

  lemma ParseUnfold(p: seq<byte>, n: nat)
    requires n > 0
    ensures HeadTable(p).None? ==> Parse(p, n).tables == [] && !Parse(p, n).whole
    ensures HeadTable(p).Some? ==>
              && Parse(p, n).tables == [HeadTable(p).value] + Parse(Rest(p), n - 1).tables
              && Parse(p, n).whole == Parse(Rest(p), n - 1).whole
  {
  }

  /** rtw88_phy_load_blob_locked */
  method LoadBlob(bus: Bus, blob: seq<byte>)
    returns (error: Error, ghost walked: nat, ghost k: nat, ghost done: seq<Effect>)
    modifies bus`transfers, bus`done
    ensures bus.done == old(bus.done) + done
    ensures |blob| < 8 <==> error == NoEntry
    ensures !GoodHeader(blob) ==> error in {NoEntry, Invalid} && done == []
    ensures GoodHeader(blob) ==>
              var all := Parse(blob[8..], blob[5]);
              LoadResult(bus.chip, all.tables, all.whole, error, walked, k, done)
  {
    walked, k, done := 0, 0, [];
    if |blob| < 8 {
      return NoEntry, 0, 0, [];
    }
    if !HasMagic(blob) || blob[4] != 1 {
      return Invalid, 0, 0, [];
    }
    error, walked, k, done := LoadTables(bus, blob[8..], blob[5]);
  }

  lemma FailedResult(chip: Chip, all: Parsed, walked: seq<Table>, t: Table, rest: seq<Table>, k: nat, eff: seq<Effect>)
    requires all.tables == walked + ([t] + rest)
    requires k < |Selected(chip, t)| && eff == AllEffects(chip, walked) + TableEffects(chip, t, k)
    ensures LoadResult(chip, all.tables, all.whole, Failed, |walked|, k, eff)
  {
    assert all.tables[..|walked|] == walked && all.tables[|walked|] == t;
  }

  lemma AssocTables(a: seq<Table>, t: Table, b: seq<Table>)
    ensures a + ([t] + b) == (a + [t]) + b
  {
  }

  method LoadTables(bus: Bus, start: seq<byte>, n: nat)
    returns (error: Error, ghost walked: nat, ghost k: nat, ghost done: seq<Effect>)
    modifies bus`transfers, bus`done
    ensures bus.done == old(bus.done) + done
    ensures LoadResult(bus.chip, Parse(start, n).tables, Parse(start, n).whole, error, walked, k, done)
  {
    var p := start;
    ghost var all, later := Parse(start, n), Parse(start, n);
    ghost var ts: seq<Table> := [];
    done := [];
    for i := 0 to n
      invariant |ts| == i && done == AllEffects(bus.chip, ts)
      invariant later == Parse(p, n - i)
      invariant all.tables == ts + later.tables && all.whole == later.whole
      invariant bus.done == old(bus.done) + done
    {
      ParseUnfold(p, n - i);
      var o, rest;
      ghost var eff;
      o, rest, k, eff := WalkHead(bus, p);
      if o == Truncated {
        assert ts + [] == ts;
        return Invalid, i, 0, done;
      }
      ghost var t := HeadTable(p).value;
      later := Parse(Rest(p), n - i - 1);
      AssocEffects(old(bus.done), done, eff);
      if o == ApplyFailed {
        FailedResult(bus.chip, all, ts, t, later.tables, k, done + eff);
        return Failed, i, k, done + eff;
      }
      AllEffectsNext(bus.chip, ts, t);
      AssocTables(ts, t, later.tables);
      ts, done, p := ts + [t], done + eff, rest;
    }
    assert ts + [] == ts;
    return Done, n, 0, done;
  }

  /** rtw88_phy_replay_rf_a */
  method ReplayRfA(bus: Bus, blob: seq<byte>) returns (error: Error, ghost k: nat)
    modifies bus`transfers, bus`done
    ensures |blob| < 8 ==> error == NoEntry
    ensures |blob| >= 8 && !HasMagic(blob) ==> error == Invalid
    ensures |blob| >= 8 && HasMagic(blob) ==>
              match FindRfA(blob[8..])
              case (None, whole) => error == (if whole then NoEntry else Invalid) && bus.done == old(bus.done)
              case (Some(t), _) =>
                && k <= |Selected(bus.chip, t)| && error == (if k == |Selected(bus.chip, t)| then Done else Failed)
                && bus.done == old(bus.done) + TableEffects(bus.chip, t, k)
  {
    k := 0;
    if |blob| < 8 {
      return NoEntry, 0;
    }
    if !HasMagic(blob) {
      return Invalid, 0;
    }
    var p := blob[8..];
    while |p| >= 8
      invariant FindRfA(p) == FindRfA(blob[8..]) && bus.done == old(bus.done)
      decreases |p|
    {
      var kind, nwords := p[0], Le32(p, 4);
      if nwords * 4 > |p| - 8 {
        return Invalid, 0;
      }
      if kind == 4 {
        var ok, applied := bus.WalkTable(RfA, WordsOf(p[8..], nwords));
        return if ok then Done else Failed, applied;
      }
      p := p[8 + 4 * nwords..];
    }
    error := NoEntry;
  }
}
