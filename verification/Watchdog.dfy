/** The keepalive tick's stall watchdog, and the running average of the received signal strength. */
module Watchdog {
  // ---- the watchdog ----

  /** sc_fw_stall_ticks, sc_fw_stall_logged, sc_last_rx_packets and sc_stat_fw_stalls. */
  datatype Dog = Dog(ticks: nat, logged: bool, last: nat, stalls: nat)

  /** Starting the keepalive. */
  function Start(d: Dog, rx: nat): Dog {
    d.(ticks := 0, logged := false, last := rx)
  }

  /** One tick that finds the receive counter at rx. */
  function Tick(d: Dog, rx: nat): Dog {
    if rx == d.last then
      var n := if d.ticks < 255 then d.ticks + 1 else d.ticks;
      var fires := n >= 3 && !d.logged;
      d.(ticks := n, logged := d.logged || fires, stalls := d.stalls + if fires then 1 else 0)
    else d.(ticks := 0, logged := false, last := rx)
  }

  /** The ticks of a history, oldest first. */
  function Ticks(d: Dog, h: seq<nat>): Dog
    decreases h
  {
    if h == [] then d else Tick(Ticks(d, h[..|h| - 1]), h[|h| - 1])
  }

  /** Nothing was received between tick i and the one before it (or the start). */
  predicate Quiet(rx0: nat, h: seq<nat>, i: int) {
    0 <= i < |h| && h[i] == if i == 0 then rx0 else h[i - 1]
  }

  /** A maximal run of quiet ticks, three at least, starts at tick a. */
  predicate StallAt(rx0: nat, h: seq<nat>, a: int) {
    !Quiet(rx0, h, a - 1) && Quiet(rx0, h, a) && Quiet(rx0, h, a + 1) && Quiet(rx0, h, a + 2)
  }

  ghost function Stalls(rx0: nat, h: seq<nat>): set<int> {
    set a | 0 <= a < |h| && StallAt(rx0, h, a)
  }

  /** The length of the run of quiet ticks the history ends with. */
  function Tail(rx0: nat, h: seq<nat>): (n: nat)
    ensures n <= |h|
    decreases h
  {
    if Quiet(rx0, h, |h| - 1) then 1 + Tail(rx0, h[..|h| - 1]) else 0
  }

  /** What an 8-bit counter that stops at its top shows. */
  function Saturated(n: nat): nat {
    if n < 255 then n else 255
  }

  lemma QuietBefore(rx0: nat, h: seq<nat>, i: int)
    requires h != [] && i < |h| - 1
    ensures Quiet(rx0, h[..|h| - 1], i) == Quiet(rx0, h, i)
  {
  }

  lemma {:induction false} TailIs(rx0: nat, h: seq<nat>, i: int)
    requires 0 <= i <= |h|
    ensures Tail(rx0, h) > i ==> Quiet(rx0, h, |h| - 1 - i)
    ensures Tail(rx0, h) == i ==> !Quiet(rx0, h, |h| - 1 - i)
    decreases h
  {
    if h != [] && Quiet(rx0, h, |h| - 1) && i > 0 {
      TailIs(rx0, h[..|h| - 1], i - 1);
      QuietBefore(rx0, h, |h| - 1 - i);
    }
  }

  /** The new stall of a history is the run that has just become three ticks long. */
  lemma StallsGrow(rx0: nat, h: seq<nat>)
    requires h != []
    ensures Stalls(rx0, h) == Stalls(rx0, h[..|h| - 1]) + if Tail(rx0, h) == 3 then {|h| - 3} else {}
    ensures |h| - 3 !in Stalls(rx0, h[..|h| - 1])
  {
    var g, n := h[..|h| - 1], |h| - 1;
    TailIs(rx0, h, 0);
    if n >= 1 { TailIs(rx0, h, 1); }
    if n >= 2 { TailIs(rx0, h, 2); TailIs(rx0, h, 3); }
    forall a | 0 <= a < n - 2
      ensures StallAt(rx0, h, a) == StallAt(rx0, g, a)
    {
      QuietBefore(rx0, h, a - 1);
      QuietBefore(rx0, h, a);
      QuietBefore(rx0, h, a + 1);
      QuietBefore(rx0, h, a + 2);
    }
  }

  /** Over any history since the start, whatever its length, the stall counter grows by the number of
      maximal runs of three or more quiet ticks. */
  lemma {:induction false} StallsCounted(d: Dog, rx0: nat, h: seq<nat>)
    ensures var r := Ticks(Start(d, rx0), h);
            && r.stalls == d.stalls + |Stalls(rx0, h)|
            && r.last == (if h == [] then rx0 else h[|h| - 1])
            && r.ticks == Saturated(Tail(rx0, h)) && (r.logged <==> Tail(rx0, h) >= 3)
    decreases h
  {
    if h == [] {
      assert Stalls(rx0, h) == {};
    } else {
      StallsCounted(d, rx0, h[..|h| - 1]);
      StallsGrow(rx0, h);
    }
  }

  // ---- the signal strength average ----

  /** A signal in dBm, as 0 to 100. */
  function Clamped(dbm: int): (r: nat)
    ensures r <= 100
  {
    if dbm + 100 < 0 then 0 else if dbm + 100 > 100 then 100 else dbm + 100
  }

  function Blend(avg: nat, r: nat): nat {
    (avg * 7 + r) / 8
  }

  /** Under a constant sample. */
  function Settle(avg: nat, r: nat, n: nat): nat
    decreases n
  {
    if n == 0 then avg else Settle(Blend(avg, r), r, n - 1)
  }

  /** Each update lies between the old average and the sample, and leaves it alone exactly when the
      average is at the sample or up to seven below. */
  lemma BlendBetween(avg: nat, r: nat)
    ensures if avg <= r then avg <= Blend(avg, r) <= r else r <= Blend(avg, r) <= avg
    ensures Blend(avg, r) == avg <==> avg <= r <= avg + 7
  {
    var d := 7 * avg + r;
    assert Blend(avg, r) == d / 8;
  }

  lemma BlendMonotone(a: nat, b: nat, r: nat)
    requires a <= b
    ensures Blend(a, r) <= Blend(b, r)
  {
  }

  lemma BlendAtLimit(r: nat)
    requires r >= 7
    ensures Blend(r - 7, r) == r - 7
  {
  }

  /** From above, the average reaches a constant sample in no more steps than it is above it. */
  lemma {:induction false} ReachesFromAbove(avg: nat, r: nat, n: nat)
    requires avg >= r && n >= avg - r
    ensures Settle(avg, r, n) == r
    decreases n
  {
    BlendBetween(avg, r);
    if n > 0 {
      ReachesFromAbove(Blend(avg, r), r, n - 1);
    }
  }

  /** From more than seven below, it stops exactly seven below. */
  lemma {:induction false} StopsFromBelow(avg: nat, r: nat, n: nat)
    requires r >= 7 && avg <= r - 7 && n >= r - 7 - avg
    ensures Settle(avg, r, n) == r - 7
    decreases n
  {
    BlendBetween(avg, r);
    BlendMonotone(avg, r - 7, r);
    BlendAtLimit(r);
    if n > 0 {
      StopsFromBelow(Blend(avg, r), r, n - 1);
    }
  }

  /** From up to seven below, it does not move. */
  lemma {:induction false} StaysBelow(avg: nat, r: nat, n: nat)
    requires avg <= r <= avg + 7
    ensures Settle(avg, r, n) == avg
    decreases n
  {
    BlendBetween(avg, r);
    if n > 0 {
      StaysBelow(avg, r, n - 1);
    }
  }

  // ---- the driver's routine ----

  class Softc {
    var avgRssi: nat
    var avgRssiValid: bool

    constructor ()
      ensures avgRssi == 0 && !avgRssiValid
    {
      avgRssi, avgRssiValid := 0, false;
    }

    /** The averaging part of rtw88_rx_annotate; it keeps the average within 0 to 100. */
    method AverageRssi(phyStatus: bool, dbm: int)
      requires avgRssi <= 100
      modifies `avgRssi, `avgRssiValid
      ensures avgRssi <= 100 && avgRssiValid == (old(avgRssiValid) || phyStatus)
      ensures avgRssi == if !phyStatus then old(avgRssi)
                         else if old(avgRssiValid) then Blend(old(avgRssi), Clamped(dbm))
                         else Clamped(dbm)
    {
      if phyStatus {
        var r := dbm + 100;
        if r < 0 { r := 0; }
        if r > 100 { r := 100; }
        if !avgRssiValid {
          avgRssi, avgRssiValid := r, true;
        } else {
          BlendBetween(avgRssi, r);
          avgRssi := (avgRssi * 7 + r) / 8;
        }
      }
    }
  }
}
