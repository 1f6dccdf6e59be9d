/** EFUSE: block headers and word enables in the physical map, expanded into the logical map. */
module Efuse {
  import opened Bytes

  // ---- the walk, as a function ----

  /** A header that ends the walk. */
  predicate Ends(h1: byte, h2: byte) {
    h1 == 0xFF || (h1 % 0x20 == 0xF && h2 == 0xFF)
  }

  predicate Long(h1: byte) {
    h1 % 0x20 == 0xF
  }

  function BlockOf(h1: byte, h2: byte): nat {
    if Long(h1) then h2 / 0x10 * 8 + h1 / 0x20 else h1 / 0x10
  }

  function EnableOf(h1: byte, h2: byte): nat {
    if Long(h1) then h2 % 0x10 else h1 % 0x10
  }

  function HeaderLen(h1: byte): nat {
    if Long(h1) then 2 else 1
  }

  /** Which of the four words are present: those whose enable bit is clear. */
  function Flags(en: nat): (f: seq<bool>)
    ensures |f| == 4
  {
    [en % 2 == 0, en / 2 % 2 == 0, en / 4 % 2 == 0, en / 8 % 2 == 0]
  }

  datatype Cursor = Cursor(idx: nat, log: seq<byte>)

  function Put(log: seq<byte>, at: nat, lo: byte, hi: byte): (r: seq<byte>)
    requires at + 1 < |log|
    ensures |r| == |log|
  {
    log[at := lo][at + 1 := hi]
  }

  /** The word for log[at..at + 2]: skipped when not present, None when it does not fit. */
  function OneWord(phy: seq<byte>, limit: int, at: nat, present: bool, c: Cursor): (r: Option<Cursor>)
    requires limit <= |phy|
    ensures r.Some? ==> r.value.idx >= c.idx && |r.value.log| == |c.log|
  {
    if !present then Some(c)
    else if c.idx + 1 >= limit || at + 1 >= |c.log| then None
    else Some(Cursor(c.idx + 2, Put(c.log, at, phy[c.idx], phy[c.idx + 1])))
  }

  /** The remaining words of a block, the first of them for log[at..at + 2]. */
  function Words(phy: seq<byte>, limit: int, at: nat, flags: seq<bool>, c: Cursor): (r: Option<Cursor>)
    requires limit <= |phy|
    ensures r.Some? ==> r.value.idx >= c.idx && |r.value.log| == |c.log|
    decreases flags
  {
    if flags == [] then Some(c)
    else
      var r := OneWord(phy, limit, at, flags[0], c);
      if r.None? then None else Words(phy, limit, at + 2, flags[1..], r.value)
  }

  /** One block: its header and its words. */
  function Block(phy: seq<byte>, limit: int, c: Cursor): (r: Option<Cursor>)
    requires c.idx < limit < |phy|
    ensures r.Some? ==> r.value.idx > c.idx && |r.value.log| == |c.log|
  {
    var h1, h2 := phy[c.idx], phy[c.idx + 1];
    Words(phy, limit, 8 * BlockOf(h1, h2), Flags(EnableOf(h1, h2)), c.(idx := c.idx + HeaderLen(h1)))
  }

  /** The walk from a cursor on; None is EINVAL. */
  function WalkFrom(phy: seq<byte>, limit: int, c: Cursor): (r: Option<seq<byte>>)
    requires limit < |phy|
    ensures r.Some? ==> |r.value| == |c.log|
    decreases limit - c.idx
  {
    if c.idx >= limit || Ends(phy[c.idx], phy[c.idx + 1]) then Some(c.log)
    else
      var r := Block(phy, limit, c);
      if r.None? then None else WalkFrom(phy, limit, r.value)
  }

  function AllOnes(n: nat): (s: seq<byte>)
    ensures |s| == n
  {
    seq(n, _ => 0xFF)
  }

  /** The whole walk over the bytes below size - protect. The protected bytes are at least one, so
      that the second header byte can always be looked at. */
  function Walk(phy: seq<byte>, protect: nat): Option<seq<byte>>
    requires protect >= 1
  {
    if |phy| < protect then Some(AllOnes(|phy|))
    else WalkFrom(phy, |phy| - protect, Cursor(0, AllOnes(|phy|)))
  }

  // ---- rtw88_efuse_logical_walk ----

  method FillOnes(log: array<byte>)
    modifies log
    ensures log[..] == AllOnes(log.Length)
  {
    for k := 0 to log.Length
      invariant forall j :: 0 <= j < k ==> log[j] == 0xFF
    {
      log[k] := 0xFF;
    }
  }

  method LogicalWalk(phy: array<byte>, protect: nat, log: array<byte>) returns (ok: bool)
    requires protect >= 1 && log.Length == phy.Length && log != phy
    modifies log
    ensures ok == Walk(phy[..], protect).Some?
    ensures ok ==> log[..] == Walk(phy[..], protect).value
  {
    FillOnes(log);
    var idx := 0;
    var limit := phy.Length - protect;
    while idx < limit
      invariant limit >= 0 ==> WalkFrom(phy[..], limit, Cursor(idx, log[..])) == Walk(phy[..], protect)
      invariant limit < 0 ==> log[..] == AllOnes(phy.Length)
      decreases limit - idx
    {
      var h1, h2 := phy[idx], phy[idx + 1];
      if h1 == 0xFF {
        return true;
      }
      if h1 % 0x20 == 0xF && h2 == 0xFF {
        return true;
      }
      ok, idx := CopyBlock(phy, limit, idx, log);
      if !ok {
        return;
      }
    }
    ok := true;
  }

  method CopyBlock(phy: array<byte>, limit: int, at: nat, log: array<byte>) returns (ok: bool, idx: nat)
    requires at < limit < phy.Length && log != phy
    modifies log
    ensures Block(phy[..], limit, Cursor(at, old(log[..]))) == if ok then Some(Cursor(idx, log[..])) else None
    ensures idx > at
  {
    var blk, en, len := DecodeHeader(phy[at], phy[at + 1]);
    ok, idx := CopyWords(phy, limit, blk, en, at + len, log);
  }

  method DecodeHeader(h1: byte, h2: byte) returns (blk: nat, en: nat, len: nat)
    ensures blk == BlockOf(h1, h2) && en == EnableOf(h1, h2) && len == HeaderLen(h1)
  {
    if h1 % 0x20 == 0xF {
      blk, en, len := h2 / 0x10 * 8 + h1 / 0x20, h2 % 0x10, 2;
    } else {
      blk, en, len := h1 / 0x10, h1 % 0x10, 1;
    }
  }

  method CopyWord(phy: array<byte>, limit: int, at: nat, present: bool, start: nat, log: array<byte>)
    returns (ok: bool, idx: nat)
    requires limit < phy.Length && log != phy
    modifies log
    ensures OneWord(phy[..], limit, at, present, Cursor(start, old(log[..])))
            == if ok then Some(Cursor(idx, log[..])) else None
    ensures idx >= start
  {
    ok, idx := true, start;
    if !present {
      return;
    }
    if idx + 1 >= limit || at + 1 >= log.Length {
      return false, idx;
    }
    log[at] := phy[idx];
    log[at + 1] := phy[idx + 1];
    idx := idx + 2;
    assert log[..] == Put(old(log[..]), at, phy[start], phy[start + 1]);
  }

  method CopyWords(phy: array<byte>, limit: int, blk: nat, en: nat, start: nat, log: array<byte>)
    returns (ok: bool, idx: nat)
    requires limit < phy.Length && log != phy
    modifies log
    ensures Words(phy[..], limit, 8 * blk, Flags(en), Cursor(start, old(log[..])))
            == if ok then Some(Cursor(idx, log[..])) else None
    ensures idx >= start
  {
    idx := start;
    var present := Flags(en);
    for i := 0 to 4
      invariant idx >= start
      invariant Words(phy[..], limit, 8 * blk + 2 * i, present[i..], Cursor(idx, log[..]))
                == Words(phy[..], limit, 8 * blk, present, Cursor(start, old(log[..])))
    {
      assert present[i..][1..] == present[i + 1..];
      ok, idx := CopyWord(phy, limit, 8 * blk + 2 * i, present[i], idx, log);
      if !ok {
        return;
      }
    }
    ok := true;
  }
}
