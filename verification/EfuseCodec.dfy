/** The records of an EFUSE map: what the walk makes of any list of them, and an encoder for every
    logical map. */
module EfuseCodec {
  import opened Bytes
  import opened Efuse

  datatype Pair = Pair(lo: byte, hi: byte)

  /** One block record: a one-byte (short) or two-byte (long) header, then the words present. */
  datatype Rec = Rec(long: bool, blk: nat, words: seq<Option<Pair>>)

  function Off(w: Option<Pair>): nat {
    if w.None? then 1 else 0
  }

  function Shown(ws: seq<Option<Pair>>): (f: seq<bool>)
    ensures |f| == |ws| && forall i :: 0 <= i < |ws| ==> f[i] == ws[i].Some?
  {
    seq(|ws|, i requires 0 <= i < |ws| => ws[i].Some?)
  }

  function Enable(r: Rec): (en: nat)
    requires |r.words| == 4
    ensures en < 16 && Flags(en) == Shown(r.words)
  {
    Off(r.words[0]) + 2 * Off(r.words[1]) + 4 * Off(r.words[2]) + 8 * Off(r.words[3])
  }

  /** The records that have a header of their form; an all-skipped one could read as an end mark. */
  predicate Valid(r: Rec) {
    && |r.words| == 4
    && if r.long then r.blk < 128 && !(r.blk / 8 == 15 && Enable(r) == 15)
       else r.blk < 16 && !(Enable(r) == 15 && (r.blk % 2 == 0 || r.blk == 15))
  }

  function Header(r: Rec): (h: seq<byte>)
    requires Valid(r)
    ensures |h| == if r.long then 2 else 1
  {
    if r.long then [r.blk % 8 * 0x20 + 0xF, r.blk / 8 * 0x10 + Enable(r)]
    else [r.blk * 0x10 + Enable(r)]
  }

  function WordBytes(ws: seq<Option<Pair>>): (b: seq<byte>)
    decreases ws
  {
    if ws == [] then []
    else if ws[0].None? then WordBytes(ws[1..])
    else [ws[0].value.lo, ws[0].value.hi] + WordBytes(ws[1..])
  }

  function Ser(r: Rec): (b: seq<byte>)
    requires Valid(r)
    ensures |b| >= 1
  {
    Header(r) + WordBytes(r.words)
  }

  // ---- what a record means ----

  predicate WordsIn(at: nat, ws: seq<Option<Pair>>, size: nat) {
    forall i :: 0 <= i < |ws| && ws[i].Some? ==> at + 2 * i + 1 < size
  }

  predicate InRange(r: Rec, size: nat) {
    WordsIn(8 * r.blk, r.words, size)
  }

  function PutWords(at: nat, ws: seq<Option<Pair>>, log: seq<byte>): (out: seq<byte>)
    requires WordsIn(at, ws, |log|)
    ensures |out| == |log|
    decreases ws
  {
    if ws == [] then log
    else
      assert WordsIn(at + 2, ws[1..], |log|);
      if ws[0].None? then PutWords(at + 2, ws[1..], log)
      else PutWords(at + 2, ws[1..], Put(log, at, ws[0].value.lo, ws[0].value.hi))
  }

  function PutRec(r: Rec, log: seq<byte>): (out: seq<byte>)
    requires InRange(r, |log|)
    ensures |out| == |log|
  {
    PutWords(8 * r.blk, r.words, log)
  }

  predicate AllIn(rs: seq<Rec>, size: nat) {
    forall i :: 0 <= i < |rs| ==> Valid(rs[i]) && InRange(rs[i], size)
  }

  /** The records written one after the other. */
  function Fold(rs: seq<Rec>, log: seq<byte>): (out: seq<byte>)
    requires AllIn(rs, |log|)
    ensures |out| == |log|
    decreases rs
  {
    if rs == [] then log else Fold(rs[1..], PutRec(rs[0], log))
  }

  // ---- the header round trip ----

  lemma HeaderDecodes(r: Rec, next: byte)
    requires Valid(r)
    ensures var h2 := if r.long then Header(r)[1] else next;
            var h1 := Header(r)[0];
            && !Ends(h1, h2) && HeaderLen(h1) == |Header(r)|
            && BlockOf(h1, h2) == r.blk && EnableOf(h1, h2) == Enable(r)
  {
    var en := Enable(r);
    if r.long {
      DivMod(0x20, 0xF, r.blk % 8);
      DivMod(0x10, en, r.blk / 8);
    } else {
      DivMod(0x10, en, r.blk);
      DivMod(0x20, en + 0x10 * (r.blk % 2), r.blk / 2);
    }
  }

  // ---- the walk over a record ----

  lemma {:induction false} WordsDecode(phy: seq<byte>, limit: int, at: nat, ws: seq<Option<Pair>>, idx: nat,
                                       log: seq<byte>)
    requires WordsIn(at, ws, |log|) && limit <= |phy| && Stands(phy, idx, WordBytes(ws))
    requires WordBytes(ws) == [] || idx + |WordBytes(ws)| <= limit
    ensures Words(phy, limit, at, Shown(ws), Cursor(idx, log))
            == Some(Cursor(idx + |WordBytes(ws)|, PutWords(at, ws, log)))
    decreases ws
  {
    if ws != [] {
      assert Shown(ws)[1..] == Shown(ws[1..]);
      if ws[0].None? {
        WordsDecode(phy, limit, at + 2, ws[1..], idx, log);
      } else {
        var lo, hi := ws[0].value.lo, ws[0].value.hi;
        StandsSplit(phy, idx, [lo, hi], WordBytes(ws[1..]));
        assert [lo, hi][0] == phy[idx] && [lo, hi][1] == phy[idx + 1];
        WordsDecode(phy, limit, at + 2, ws[1..], idx + 2, Put(log, at, lo, hi));
      }
    }
  }

  /** A record that starts below the limit; one with words must also end there. */
  predicate Fits(r: Rec, idx: nat, limit: int)
    requires Valid(r)
  {
    idx < limit && (WordBytes(r.words) == [] || idx + |Ser(r)| <= limit)
  }

  lemma BlockDecodes(phy: seq<byte>, limit: int, r: Rec, idx: nat, log: seq<byte>)
    requires Valid(r) && InRange(r, |log|) && limit < |phy| && Fits(r, idx, limit) && Stands(phy, idx, Ser(r))
    ensures !Ends(phy[idx], phy[idx + 1])
    ensures Block(phy, limit, Cursor(idx, log)) == Some(Cursor(idx + |Ser(r)|, PutRec(r, log)))
  {
    var h := Header(r);
    StandsSplit(phy, idx, h, WordBytes(r.words));
    assert h[0] == phy[idx] && (r.long ==> h[1] == phy[idx + 1]);
    HeaderDecodes(r, phy[idx + 1]);
    WordsDecode(phy, limit, 8 * r.blk, r.words, idx + |h|, log);
  }

  // ---- the walk over a list of records ----

  /** The records stand one after the other from idx on, each fitting, and then the walk stops. */
  ghost predicate Layout(phy: seq<byte>, limit: int, rs: seq<Rec>, idx: nat)
    requires limit < |phy|
    decreases rs
  {
    if rs == [] then idx >= limit || Ends(phy[idx], phy[idx + 1])
    else
      && Valid(rs[0]) && Fits(rs[0], idx, limit) && Stands(phy, idx, Ser(rs[0]))
      && Layout(phy, limit, rs[1..], idx + |Ser(rs[0])|)
  }

  lemma RecordWalks(phy: seq<byte>, limit: int, r: Rec, idx: nat, log: seq<byte>)
    requires Valid(r) && InRange(r, |log|) && limit < |phy| && Fits(r, idx, limit) && Stands(phy, idx, Ser(r))
    ensures WalkFrom(phy, limit, Cursor(idx, log)) == WalkFrom(phy, limit, Cursor(idx + |Ser(r)|, PutRec(r, log)))
  {
    BlockDecodes(phy, limit, r, idx, log);
  }

  lemma {:induction false} LayoutWalks(phy: seq<byte>, limit: int, rs: seq<Rec>, idx: nat, log: seq<byte>)
    requires limit < |phy| && AllIn(rs, |log|) && Layout(phy, limit, rs, idx)
    ensures WalkFrom(phy, limit, Cursor(idx, log)) == Some(Fold(rs, log))
    decreases rs
  {
    if rs != [] {
      RecordWalks(phy, limit, rs[0], idx, log);
      LayoutWalks(phy, limit, rs[1..], idx + |Ser(rs[0])|, PutRec(rs[0], log));
    }
  }

  // ---- every walk is the walk over some records ----

  lemma {:induction false} WordsGive(phy: seq<byte>, limit: int, at: nat, flags: seq<bool>, idx: nat, log: seq<byte>)
    returns (ws: seq<Option<Pair>>)
    requires limit <= |phy| && Words(phy, limit, at, flags, Cursor(idx, log)).Some?
    ensures Shown(ws) == flags && WordsIn(at, ws, |log|)
    ensures WordBytes(ws) == [] || (idx + |WordBytes(ws)| <= limit && Stands(phy, idx, WordBytes(ws)))
    decreases flags
  {
    ws := [];
    if flags != [] {
      var c := OneWord(phy, limit, at, flags[0], Cursor(idx, log)).value;
      var rest := WordsGive(phy, limit, at + 2, flags[1..], c.idx, c.log);
      var w := if flags[0] then Some(Pair(phy[idx], phy[idx + 1])) else None;
      ws := [w] + rest;
      assert ws[1..] == rest;
      assert flags == [flags[0]] + flags[1..];
      assert Shown(ws) == [w.Some?] + Shown(rest);
      forall i | 0 <= i < |ws| && ws[i].Some?
        ensures at + 2 * i + 1 < |log|
      {
        assert i > 0 ==> ws[i] == rest[i - 1];
      }
      if flags[0] {
        StandsJoin(phy, idx, [w.value.lo, w.value.hi], WordBytes(rest));
      }
    }
  }

  lemma FlagsDetermine(a: nat, b: nat)
    requires a < 16 && b < 16 && Flags(a) == Flags(b)
    ensures a == b
  {
    var f, g := Flags(a), Flags(b);
    assert f[0] == g[0] && f[1] == g[1] && f[2] == g[2] && f[3] == g[3];
  }

  lemma HeaderGives(h1: byte, h2: byte, ws: seq<Option<Pair>>)
    requires !Ends(h1, h2) && |ws| == 4 && Shown(ws) == Flags(EnableOf(h1, h2))
    ensures var r := Rec(Long(h1), BlockOf(h1, h2), ws);
            Valid(r) && Header(r) == if Long(h1) then [h1, h2] else [h1]
  {
    FlagsDetermine(Enable(Rec(Long(h1), BlockOf(h1, h2), ws)), EnableOf(h1, h2));
    if Long(h1) {
      DivMod(8, h1 / 0x20, h2 / 0x10);
    }
  }

  lemma SerStands(phy: seq<byte>, limit: int, r: Rec, idx: nat)
    requires Valid(r) && idx < limit < |phy| && Stands(phy, idx, Header(r))
    requires var words := WordBytes(r.words);
             words == [] || (idx + |Header(r)| + |words| <= limit && Stands(phy, idx + |Header(r)|, words))
    ensures Fits(r, idx, limit) && Stands(phy, idx, Ser(r))
  {
    if WordBytes(r.words) == [] {
      assert Ser(r) == Header(r);
    } else {
      StandsJoin(phy, idx, Header(r), WordBytes(r.words));
    }
  }

  lemma BlockGives(phy: seq<byte>, limit: int, idx: nat, log: seq<byte>) returns (r: Rec)
    requires idx < limit < |phy| && !Ends(phy[idx], phy[idx + 1]) && Block(phy, limit, Cursor(idx, log)).Some?
    ensures Valid(r) && InRange(r, |log|) && Fits(r, idx, limit) && Stands(phy, idx, Ser(r))
  {
    var h1, h2 := phy[idx], phy[idx + 1];
    var ws := WordsGive(phy, limit, 8 * BlockOf(h1, h2), Flags(EnableOf(h1, h2)), idx + HeaderLen(h1), log);
    HeaderGives(h1, h2, ws);
    r := Rec(Long(h1), BlockOf(h1, h2), ws);
    SerStands(phy, limit, r, idx);
  }

  lemma {:induction false} WalkGives(phy: seq<byte>, limit: int, idx: nat, log: seq<byte>) returns (rs: seq<Rec>)
    requires limit < |phy| && WalkFrom(phy, limit, Cursor(idx, log)).Some?
    ensures AllIn(rs, |log|) && Layout(phy, limit, rs, idx)
    decreases limit - idx
  {
    rs := [];
    if idx < limit && !Ends(phy[idx], phy[idx + 1]) {
      var r := BlockGives(phy, limit, idx, log);
      BlockDecodes(phy, limit, r, idx, log);
      var rest := WalkGives(phy, limit, idx + |Ser(r)|, PutRec(r, log));
      rs := [r] + rest;
      assert rs[1..] == rest;
    }
  }

  /** The walk succeeds exactly on the physical maps that hold a list of valid in-range records, and
      then yields those records written one after the other over an all-ones map. */
  lemma WalkIffRecords(phy: seq<byte>, protect: nat)
    requires 1 <= protect <= |phy|
    ensures Walk(phy, protect).Some? <==> exists rs :: AllIn(rs, |phy|) && Layout(phy, |phy| - protect, rs, 0)
    ensures forall rs :: AllIn(rs, |phy|) && Layout(phy, |phy| - protect, rs, 0) ==>
              Walk(phy, protect) == Some(Fold(rs, AllOnes(|phy|)))
  {
    var limit, log := |phy| - protect, AllOnes(|phy|);
    forall rs | AllIn(rs, |phy|) && Layout(phy, limit, rs, 0)
      ensures Walk(phy, protect) == Some(Fold(rs, log))
    {
      LayoutWalks(phy, limit, rs, 0, log);
    }
    if Walk(phy, protect).Some? {
      var rs := WalkGives(phy, limit, 0, log);
    }
  }

  // ---- the last writer wins ----

  /** The byte a record writes at position k, if it does. */
  function Writes(r: Rec, k: nat): Option<byte> {
    var j := (k - 8 * r.blk) / 2;
    if k < 8 * r.blk || j >= |r.words| || r.words[j].None? then None
    else Some(if k % 2 == 0 then r.words[j].value.lo else r.words[j].value.hi)
  }

  lemma {:induction false} PutWordsAt(at: nat, ws: seq<Option<Pair>>, log: seq<byte>, k: nat)
    requires WordsIn(at, ws, |log|) && k < |log| && at % 2 == 0
    ensures var j := (k - at) / 2;
            PutWords(at, ws, log)[k] ==
            if k < at || j >= |ws| || ws[j].None? then log[k]
            else if k % 2 == 0 then ws[j].value.lo else ws[j].value.hi
    decreases ws
  {
    if ws != [] {
      assert WordsIn(at + 2, ws[1..], |log|);
      var next := if ws[0].None? then log else Put(log, at, ws[0].value.lo, ws[0].value.hi);
      PutWordsAt(at + 2, ws[1..], next, k);
      if k >= at + 2 {
        var j := (k - at) / 2;
        assert j < |ws| ==> ws[1..][j - 1] == ws[j];
      }
    }
  }

  function LastWrite(rs: seq<Rec>, k: nat): Option<byte>
    decreases rs
  {
    if rs == [] then None
    else if LastWrite(rs[1..], k).Some? then LastWrite(rs[1..], k)
    else Writes(rs[0], k)
  }

  lemma {:induction false} LastWriterWins(rs: seq<Rec>, log: seq<byte>, k: nat)
    requires AllIn(rs, |log|) && k < |log|
    ensures Fold(rs, log)[k] == if LastWrite(rs, k).Some? then LastWrite(rs, k).value else log[k]
    decreases rs
  {
    if rs != [] {
      PutWordsAt(8 * rs[0].blk, rs[0].words, log, k);
      LastWriterWins(rs[1..], PutRec(rs[0], log), k);
    }
  }

  // ---- an encoder for every logical map ----

  /** Word i of block b, skipped when it is all ones or outside the map. */
  function WordOf(lm: seq<byte>, at: nat): Option<Pair> {
    if at + 1 < |lm| && (lm[at] != 0xFF || lm[at + 1] != 0xFF) then Some(Pair(lm[at], lm[at + 1])) else None
  }

  function RecOf(lm: seq<byte>, b: nat): Rec {
    Rec(b >= 16, b, seq(4, i requires 0 <= i => WordOf(lm, 8 * b + 2 * i)))
  }

  predicate Blank(r: Rec) {
    forall i :: 0 <= i < |r.words| ==> r.words[i].None?
  }

  function Encode(lm: seq<byte>, b: nat): seq<Rec>
    decreases |lm| - 8 * b
  {
    if 8 * b >= |lm| then []
    else if Blank(RecOf(lm, b)) then Encode(lm, b + 1)
    else [RecOf(lm, b)] + Encode(lm, b + 1)
  }

  function SerAll(rs: seq<Rec>): seq<byte>
    requires forall i :: 0 <= i < |rs| ==> Valid(rs[i])
    decreases rs
  {
    if rs == [] then [] else Ser(rs[0]) + SerAll(rs[1..])
  }

  lemma RecOfValid(lm: seq<byte>, b: nat)
    requires b < 128 && !Blank(RecOf(lm, b))
    ensures Valid(RecOf(lm, b)) && InRange(RecOf(lm, b), |lm|)
  {
    var r := RecOf(lm, b);
    var i :| 0 <= i < 4 && r.words[i].Some?;
    assert Shown(r.words)[i];
    assert Flags(Enable(r))[i];
    assert forall j :: 0 <= j < 4 ==> !Flags(15)[j];
  }

  lemma {:induction false} EncodeIn(lm: seq<byte>, b: nat)
    requires |lm| <= 1024
    ensures AllIn(Encode(lm, b), |lm|)
    decreases |lm| - 8 * b
  {
    if 8 * b < |lm| {
      EncodeIn(lm, b + 1);
      if !Blank(RecOf(lm, b)) {
        RecOfValid(lm, b);
      }
    }
  }

  /** The map up to position n, all ones above. */
  ghost predicate Upto8(lm: seq<byte>, log: seq<byte>, n: nat) {
    |log| == |lm| && forall k :: 0 <= k < |lm| ==> log[k] == if k < n then lm[k] else 0xFF
  }

  lemma RecOfWrites(lm: seq<byte>, log: seq<byte>, b: nat)
    requires |lm| % 2 == 0 && Upto8(lm, log, 8 * b) && InRange(RecOf(lm, b), |lm|)
    ensures Upto8(lm, PutRec(RecOf(lm, b), log), 8 * (b + 1))
  {
    var r := RecOf(lm, b);
    forall k | 0 <= k < |lm|
      ensures PutRec(r, log)[k] == if k < 8 * (b + 1) then lm[k] else 0xFF
    {
      PutWordsAt(8 * b, r.words, log, k);
      if 8 * b <= k < 8 * b + 8 {
        var j := (k - 8 * b) / 2;
        var at := 8 * b + 2 * j;
        assert r.words[j] == WordOf(lm, at);
        assert k == at || k == at + 1;
      }
    }
  }

  lemma BlankWrites(lm: seq<byte>, log: seq<byte>, b: nat)
    requires |lm| % 2 == 0 && Upto8(lm, log, 8 * b) && Blank(RecOf(lm, b))
    ensures Upto8(lm, log, 8 * (b + 1))
  {
    var r := RecOf(lm, b);
    forall k | 8 * b <= k < 8 * b + 8 && k < |lm|
      ensures lm[k] == 0xFF
    {
      var j := (k - 8 * b) / 2;
      var at := 8 * b + 2 * j;
      assert r.words[j] == WordOf(lm, at);
      assert k == at || k == at + 1;
    }
  }

  lemma {:induction false} EncodeFolds(lm: seq<byte>, b: nat, log: seq<byte>)
    requires |lm| % 2 == 0 && |lm| <= 1024 && Upto8(lm, log, 8 * b)
    ensures AllIn(Encode(lm, b), |log|) && Fold(Encode(lm, b), log) == lm
    decreases |lm| - 8 * b
  {
    EncodeIn(lm, b);
    if 8 * b < |lm| {
      if Blank(RecOf(lm, b)) {
        BlankWrites(lm, log, b);
        EncodeFolds(lm, b + 1, log);
      } else {
        RecOfValid(lm, b);
        RecOfWrites(lm, log, b);
        EncodeFolds(lm, b + 1, PutRec(RecOf(lm, b), log));
        assert Encode(lm, b)[1..] == Encode(lm, b + 1);
      }
    }
  }

  lemma {:induction false} SerialisedLayout(phy: seq<byte>, limit: int, rs: seq<Rec>, idx: nat)
    requires limit < |phy| && forall i :: 0 <= i < |rs| ==> Valid(rs[i])
    requires Stands(phy, idx, SerAll(rs)) && idx + |SerAll(rs)| <= limit
    requires idx + |SerAll(rs)| == limit || phy[idx + |SerAll(rs)|] == 0xFF
    ensures Layout(phy, limit, rs, idx)
    decreases rs
  {
    if rs != [] {
      StandsSplit(phy, idx, Ser(rs[0]), SerAll(rs[1..]));
      SerialisedLayout(phy, limit, rs[1..], idx + |Ser(rs[0])|);
    }
  }

  lemma SerialisedWalks(phy: seq<byte>, limit: int, rs: seq<Rec>, idx: nat, log: seq<byte>)
    requires limit < |phy| && AllIn(rs, |log|)
    requires Stands(phy, idx, SerAll(rs)) && idx + |SerAll(rs)| <= limit
    requires idx + |SerAll(rs)| == limit || phy[idx + |SerAll(rs)|] == 0xFF
    ensures WalkFrom(phy, limit, Cursor(idx, log)) == Some(Fold(rs, log))
  {
    SerialisedLayout(phy, limit, rs, idx);
    LayoutWalks(phy, limit, rs, idx, log);
  }

  lemma RecordsWalk(lm: seq<byte>, rs: seq<Rec>, phy: seq<byte>, protect: nat, start: nat)
    requires |phy| == |lm| && 1 <= protect <= |lm| && start == 0
    requires AllIn(rs, |lm|) && Fold(rs, AllOnes(|lm|)) == lm
    requires Stands(phy, start, SerAll(rs)) && |SerAll(rs)| <= |lm| - protect
    requires |SerAll(rs)| == |lm| - protect || phy[|SerAll(rs)|] == 0xFF
    ensures Walk(phy, protect) == Some(lm)
  {
    SerialisedWalks(phy, |lm| - protect, rs, start, AllOnes(|lm|));
  }

  /** The bytes that hold a logical map. */
  function Encoded(lm: seq<byte>): seq<byte>
    requires |lm| <= 1024
  {
    EncodeIn(lm, 0);
    SerAll(Encode(lm, 0))
  }

  /** Encode any logical map of even size up to 128 blocks; if the records fit below the protected
      bytes and are followed by an erased byte (or fill the space), walking gives the map back. */
  lemma EncodeRoundTrip(lm: seq<byte>, phy: seq<byte>, protect: nat)
    requires |phy| == |lm| && |lm| % 2 == 0 && |lm| <= 1024 && 1 <= protect <= |lm|
    requires Stands(phy, 0, Encoded(lm)) && |Encoded(lm)| <= |lm| - protect
    requires |Encoded(lm)| == |lm| - protect || phy[|Encoded(lm)|] == 0xFF
    ensures Walk(phy, protect) == Some(lm)
  {
    EncodeIn(lm, 0);
    EncodeFolds(lm, 0, AllOnes(|lm|));
    RecordsWalk(lm, Encode(lm, 0), phy, protect, 0);
  }
}
