/** The conditional PHY register tables: the three-variable walker of flattened
    IF/ELIF/ELSE/ENDIF programs, and the block-structured programs they come from. */
module PhyTable {
  import opened Bytes

  datatype Chip = Chip(cut: nat, pkg: nat, rfe: nat)

  datatype Entry = Entry(addr: word, data: word)

  const POS := 0x8000_0000
  const NEG := 0x4000_0000
  const INTF_USB := 2

  predicate CondCheck(chip: Chip, cond: nat) {
    && (cond / 0x100_0000 % 0x10 != 0 ==> cond / 0x100_0000 % 0x10 == chip.cut)
    && (cond / 0x1000 % 0x10 != 0 ==> cond / 0x1000 % 0x10 == chip.pkg)
    && (cond / 0x100 % 0x10 != 0 ==> cond / 0x100 % 0x10 == INTF_USB)
    && cond % 0x100 == chip.rfe
  }

  // ---- the walker's variables ----

  datatype Vars = Vars(cond: word, matched: bool, skipped: bool)

  const START := Vars(0, true, false)

  /** An entry word has neither marker bit. */
  predicate IsEntry(w: word) {
    w < NEG
  }

  /** The effect of a word pair on the walker's variables. */
  function Turn(chip: Chip, v: Vars, w: word): Vars {
    if w >= POS then
      if w / 0x1000_0000 % 4 == 3 then v.(matched := true, skipped := false)
      else if w / 0x1000_0000 % 4 == 2 then v.(matched := !v.skipped)
      else v.(cond := w)
    else if w >= NEG then
      if v.skipped then v.(matched := false)
      else v.(matched := CondCheck(chip, v.cond), skipped := CondCheck(chip, v.cond))
    else v
  }

  /** The entries that the walker applies, in order; a trailing odd word is ignored. */
  function Select(chip: Chip, v: Vars, ws: seq<word>): seq<Entry>
    decreases ws
  {
    if |ws| < 2 then []
    else if IsEntry(ws[0]) && v.matched then [Entry(ws[0], ws[1])] + Select(chip, v, ws[2..])
    else Select(chip, Turn(chip, v, ws[0]), ws[2..])
  }

  function After(chip: Chip, v: Vars, ws: seq<word>): Vars
    decreases ws
  {
    if |ws| < 2 then v else After(chip, Turn(chip, v, ws[0]), ws[2..])
  }

  /** Walking is compositional over whole pairs. */
  lemma {:induction false} SelectConcat(chip: Chip, v: Vars, a: seq<word>, b: seq<word>)
    requires |a| % 2 == 0
    ensures Select(chip, v, a + b) == Select(chip, v, a) + Select(chip, After(chip, v, a), b)
    ensures After(chip, v, a + b) == After(chip, After(chip, v, a), b)
    decreases a
  {
    if a == [] {
      assert a + b == b;
    } else {
      assert (a + b)[2..] == a[2..] + b && (a + b)[0] == a[0] && (a + b)[1] == a[1];
      SelectConcat(chip, Turn(chip, v, a[0]), a[2..], b);
    }
  }

  // ---- block-structured programs ----

  /** A condition by its fields; spare: the bits between package and cut, which the driver ignores. */
  datatype Cond = Cond(rfe: nat, intf: nat, pkg: nat, spare: nat, cut: nat)

  predicate ValidCond(c: Cond) {
    c.rfe < 0x100 && c.intf < 0x10 && c.pkg < 0x10 && c.spare < 0x100 && c.cut < 0x10
  }

  /** A condition holds on the chips of its front end whose cut, package and interface are its own, zero
      standing for any; the interface is always USB. */
  predicate Holds(chip: Chip, c: Cond) {
    && c.rfe == chip.rfe
    && (c.cut == 0 || c.cut == chip.cut)
    && (c.pkg == 0 || c.pkg == chip.pkg)
    && (c.intf == 0 || c.intf == 2)
  }

  function Pack(c: Cond): (w: nat)
    requires ValidCond(c)
    ensures w < 0x1000_0000
  {
    c.rfe + 0x100 * (c.intf + 0x10 * (c.pkg + 0x10 * (c.spare + 0x100 * c.cut)))
  }

  datatype Branch = Branch(cond: Cond, body: seq<Entry>)

  datatype Item = Plain(entry: Entry) | Block(first: Branch, rest: seq<Branch>, otherwise: Option<seq<Entry>>)

  predicate ValidEntries(es: seq<Entry>) {
    forall e :: e in es ==> IsEntry(e.addr)
  }

  predicate ValidBranch(b: Branch) {
    ValidCond(b.cond) && ValidEntries(b.body)
  }

  predicate ValidBranches(bs: seq<Branch>) {
    forall i :: 0 <= i < |bs| ==> ValidBranch(bs[i])
  }

  predicate ValidItem(it: Item) {
    match it
    case Plain(e) => IsEntry(e.addr)
    case Block(first, rest, otherwise) =>
      && ValidBranch(first) && ValidBranches(rest)
      && (otherwise.Some? ==> ValidEntries(otherwise.value))
  }

  predicate ValidProgram(p: seq<Item>) {
    forall i :: 0 <= i < |p| ==> ValidItem(p[i])
  }

  /** The body of the first branch whose condition holds on this chip, else the ELSE body, else nothing. */
  function Chosen(chip: Chip, bs: seq<Branch>, otherwise: Option<seq<Entry>>): seq<Entry> {
    if bs == [] then (if otherwise.Some? then otherwise.value else [])
    else if Holds(chip, bs[0].cond) then bs[0].body
    else Chosen(chip, bs[1..], otherwise)
  }

  function ItemMeaning(chip: Chip, it: Item): seq<Entry> {
    match it
    case Plain(e) => [e]
    case Block(first, rest, otherwise) => Chosen(chip, [first] + rest, otherwise)
  }

  function Meaning(chip: Chip, p: seq<Item>): seq<Entry> {
    if p == [] then [] else ItemMeaning(chip, p[0]) + Meaning(chip, p[1..])
  }

  // ---- flattening ----

  function EntryWords(es: seq<Entry>): (r: seq<word>)
    ensures |r| == 2 * |es|
  {
    if es == [] then [] else [es[0].addr, es[0].data] + EntryWords(es[1..])
  }

  const ELIF := 0x9000_0000
  const ELSE := 0xA000_0000
  const ENDIF := 0xB000_0000

  function Header(kind: word, cond: nat): (r: seq<word>)
    requires kind == POS || kind == ELIF
    requires cond < 0x1000_0000
    ensures |r| == 4
  {
    [kind + cond, 0, NEG, 0]
  }

  function Elifs(bs: seq<Branch>): (r: seq<word>)
    requires ValidBranches(bs)
    ensures |r| % 2 == 0
  {
    if bs == [] then []
    else Header(ELIF, Pack(bs[0].cond)) + EntryWords(bs[0].body) + Elifs(bs[1..])
  }

  function Tail(otherwise: Option<seq<Entry>>): (r: seq<word>)
    ensures |r| % 2 == 0
  {
    (if otherwise.Some? then [ELSE, 0] + EntryWords(otherwise.value) else []) + [ENDIF, 0]
  }

  function ItemWords(it: Item): (r: seq<word>)
    requires ValidItem(it)
    ensures |r| % 2 == 0
  {
    match it
    case Plain(e) => [e.addr, e.data]
    case Block(first, rest, otherwise) =>
      Header(POS, Pack(first.cond)) + EntryWords(first.body) + (Elifs(rest) + Tail(otherwise))
  }

  function Compile(p: seq<Item>): seq<word>
    requires ValidProgram(p)
  {
    if p == [] then []
    else ItemWords(p[0]) + Compile(p[1..])
  }

  // ---- correctness ----

  lemma {:induction false} RunEntries(chip: Chip, v: Vars, es: seq<Entry>)
    requires ValidEntries(es)
    ensures Select(chip, v, EntryWords(es)) == (if v.matched then es else [])
    ensures After(chip, v, EntryWords(es)) == v
    decreases es
  {
    if es != [] {
      var ws := EntryWords(es);
      assert ws[2..] == EntryWords(es[1..]) && ws[0] == es[0].addr && ws[1] == es[0].data;
      assert es[0] in es && ValidEntries(es[1..]);
      RunEntries(chip, v, es[1..]);
      assert es == [es[0]] + es[1..];
    }
  }

  /** Adding a multiple of weight times range does not change the field at that weight. */
  lemma FieldKept(cond: nat, weight: nat, range: nat, k: nat)
    requires weight > 0 && range > 0
    ensures (cond + weight * (range * k)) / weight % range == cond / weight % range
  {
    var m := range * k;
    var q, wm := cond / weight, weight * m;
    Distribute(weight, q, -m);
    DivMod(weight, cond % weight, q + m);
    assert cond + wm == cond % weight + weight * (q + m);
    RemainderKept(q, range, k);
  }

  lemma RemainderKept(q: nat, range: nat, k: nat)
    requires range > 0
    ensures (q + range * k) % range == q % range
  {
    var j: int := k;
    Distribute(range, q / range, -j);
    DivMod(range, q % range, q / range + k);
  }

  lemma CondIgnoresMarkers(chip: Chip, kind: word, cond: nat)
    requires kind == POS || kind == ELIF
    requires cond < 0x1000_0000
    ensures CondCheck(chip, kind + cond) == CondCheck(chip, cond)
    ensures kind + cond >= POS && (kind + cond) / 0x1000_0000 % 4 < 2
  {
    var k := if kind == POS then 8 else 9;
    FieldKept(cond, 0x100_0000, 0x10, k);
    FieldKept(cond, 0x1000, 0x10, 0x1000 * k);
    FieldKept(cond, 0x100, 0x10, 0x1_0000 * k);
    FieldKept(cond, 1, 0x100, 0x10_0000 * k);
    DivMod(0x1000_0000, cond, k);
  }

  lemma RunHeader(chip: Chip, v: Vars, kind: word, cond: nat)
    requires kind == POS || kind == ELIF
    requires cond < 0x1000_0000
    ensures var u := After(chip, v, Header(kind, cond));
            && Select(chip, v, Header(kind, cond)) == []
            && u.matched == (!v.skipped && CondCheck(chip, cond))
            && u.skipped == (v.skipped || CondCheck(chip, cond))
  {
    CondIgnoresMarkers(chip, kind, cond);
    var ws := Header(kind, cond);
    assert ws[2..] == [NEG, 0] && ws[2..][2..] == [];
    var t := Turn(chip, v, ws[0]);
    assert t == v.(cond := kind + cond);
    assert After(chip, v, ws) == After(chip, t, [NEG, 0]);
    assert After(chip, t, [NEG, 0]) == Turn(chip, t, NEG);
    assert Select(chip, t, [NEG, 0]) == [];
  }

  /** The walker's test of a packed condition, marker bits and all, is whether the condition holds. */
  lemma PackedHolds(chip: Chip, c: Cond)
    requires ValidCond(c)
    ensures CondCheck(chip, Pack(c)) <==> Holds(chip, c)
  {
    var a := c.spare + 0x100 * c.cut;
    var b := c.pkg + 0x10 * a;
    var d := c.intf + 0x10 * b;
    DivMod(0x100, c.rfe, d);
    DivMod(0x10, c.intf, b);
    DivMod(0x10, c.pkg, a);
    PackedFields(Pack(c), c.rfe, d, c.intf, b);
    PackedCut(c);
  }

  lemma PackedFields(w: nat, rfe: nat, d: nat, intf: nat, b: nat)
    requires rfe < 0x100 && intf < 0x10 && w == rfe + 0x100 * d && d == intf + 0x10 * b
    ensures w / 0x1000 == b
  {
    DivMod(0x1000, rfe + 0x100 * intf, b);
  }

  lemma PackedCut(c: Cond)
    requires ValidCond(c)
    ensures Pack(c) / 0x100_0000 % 0x10 == c.cut
  {
    var low := c.rfe + 0x100 * c.intf + 0x1000 * c.pkg + 0x1_0000 * c.spare;
    assert Pack(c) == low + 0x100_0000 * c.cut;
    DivMod(0x100_0000, low, c.cut);
  }

  /** A whole branch issues its body exactly when no earlier branch matched and its condition holds. */
  lemma RunBranch(chip: Chip, v: Vars, kind: word, b: Branch)
    requires kind == POS || kind == ELIF
    requires ValidBranch(b)
    ensures var ws := Header(kind, Pack(b.cond)) + EntryWords(b.body);
            && Select(chip, v, ws) == (if !v.skipped && Holds(chip, b.cond) then b.body else [])
            && After(chip, v, ws).skipped == (v.skipped || Holds(chip, b.cond))
  {
    var h := Header(kind, Pack(b.cond));
    PackedHolds(chip, b.cond);
    RunHeader(chip, v, kind, Pack(b.cond));
    SelectConcat(chip, v, h, EntryWords(b.body));
    RunEntries(chip, After(chip, v, h), b.body);
  }

  predicate Ready(v: Vars) {
    v.matched && !v.skipped
  }

  lemma RunTail(chip: Chip, v: Vars, otherwise: Option<seq<Entry>>)
    requires otherwise.Some? ==> ValidEntries(otherwise.value)
    ensures Select(chip, v, Tail(otherwise)) == (if v.skipped || otherwise.None? then [] else otherwise.value)
    ensures Ready(After(chip, v, Tail(otherwise)))
  {
    var end := [ENDIF, 0];
    assert end[2..] == [];
    if otherwise.Some? {
      var u := Turn(chip, v, ELSE);
      var es := EntryWords(otherwise.value);
      var ws := Tail(otherwise);
      assert ws == [ELSE, 0] + (es + end);
      assert ws[2..] == es + end && ws[0] == ELSE;
      RunEntries(chip, u, otherwise.value);
      SelectConcat(chip, u, es, end);
      assert Select(chip, u, end) == [];
      assert After(chip, u, end) == Turn(chip, u, ENDIF);
    } else {
      assert Tail(otherwise) == end;
      assert After(chip, v, end) == Turn(chip, v, ENDIF);
    }
  }

  lemma {:induction false} RunElifs(chip: Chip, v: Vars, bs: seq<Branch>, otherwise: Option<seq<Entry>>)
    requires ValidBranches(bs)
    requires otherwise.Some? ==> ValidEntries(otherwise.value)
    ensures Select(chip, v, Elifs(bs) + Tail(otherwise)) == (if v.skipped then [] else Chosen(chip, bs, otherwise))
    ensures Ready(After(chip, v, Elifs(bs) + Tail(otherwise)))
    decreases bs
  {
    if bs == [] {
      assert Elifs(bs) + Tail(otherwise) == Tail(otherwise);
      RunTail(chip, v, otherwise);
    } else {
      var ws := Header(ELIF, Pack(bs[0].cond)) + EntryWords(bs[0].body);
      var more := Elifs(bs[1..]) + Tail(otherwise);
      assert Elifs(bs) + Tail(otherwise) == ws + more;
      RunBranch(chip, v, ELIF, bs[0]);
      SelectConcat(chip, v, ws, more);
      RunElifs(chip, After(chip, v, ws), bs[1..], otherwise);
    }
  }

  lemma RunItem(chip: Chip, v: Vars, it: Item)
    requires ValidItem(it) && Ready(v)
    ensures Select(chip, v, ItemWords(it)) == ItemMeaning(chip, it)
    ensures Ready(After(chip, v, ItemWords(it)))
  {
    match it
    case Plain(e) =>
      assert ItemWords(it)[2..] == [];
    case Block(first, rest, otherwise) =>
      var ws := Header(POS, Pack(first.cond)) + EntryWords(first.body);
      var more := Elifs(rest) + Tail(otherwise);
      RunBranch(chip, v, POS, first);
      SelectConcat(chip, v, ws, more);
      RunElifs(chip, After(chip, v, ws), rest, otherwise);
      assert ([first] + rest)[1..] == rest;
  }

  /** Walking a compiled program applies exactly the entries of its block-structured meaning, and
      leaves the walker ready for what follows. */
  lemma {:induction false} WalkIsMeaning(chip: Chip, v: Vars, p: seq<Item>)
    requires ValidProgram(p) && Ready(v)
    ensures Select(chip, v, Compile(p)) == Meaning(chip, p)
    ensures Ready(After(chip, v, Compile(p)))
    decreases p
  {
    if p != [] {
      RunItem(chip, v, p[0]);
      SelectConcat(chip, v, ItemWords(p[0]), Compile(p[1..]));
      WalkIsMeaning(chip, After(chip, v, ItemWords(p[0])), p[1..]);
    }
  }
}
