/** The signal strength of a received frame, from the PHY status in front of it to the average and to
    net80211. */
module RxSignal {
  import opened Bytes
  import W = Watchdog

  const STATUS_SZ := 16
  const PLACEHOLDER := -75
  const FLOOR := -120

  const GAIN_0: seq<int> := [22, 8, -6, -22, -31, -40, -46, -52]
  const GAIN_1: seq<int> := [10, 6, 2, -2, -6, -10, -14, -17, -20, -24, -28, -31, -34, -37, -40, -44]

  /** The value of an int8_t that x is stored in. */
  function Int8(x: int): (r: int)
    ensures -128 <= r < 128 && (r - x) % 0x100 == 0
  {
    if x % 0x100 < 0x80 then x % 0x100 else x % 0x100 - 0x100
  }

  /** rtw88_get_cck_rx_pwr_8821c */
  function CckPower(rfe: nat, lna: nat, vga: nat): int {
    var gains := if rfe == 0 then GAIN_0 else GAIN_1;
    if lna >= |gains| then FLOOR else Int8(gains[lna] - 2 * vga)
  }

  /** The gain indices of a CCK status. */
  function Lna(info: seq<byte>): nat
    requires |info| >= STATUS_SZ
  {
    info[13] / 0x20 + if Bit(info[14], 0x80) then 8 else 0
  }

  function Vga(info: seq<byte>): nat
    requires |info| >= STATUS_SZ
  {
    info[13] % 0x20
  }

  /** In the fourth word of the status the VGA index has bits 8 to 12, the LNA index bits 13 to 15 and 23. */
  lemma GainBits(info: seq<byte>)
    requires |info| >= STATUS_SZ
    ensures var w := Le32(info, 12);
            && Vga(info) == w / 0x100 % 0x20
            && Lna(info) == w / 0x2000 % 8 + 8 * (w / 0x80_0000 % 2)
  {
    var a, b, c, d: nat := info[12], info[13], info[14], info[15];
    DivMod(0x100, a, b + 0x100 * (c + 0x100 * d));
    DivMod(0x20, b % 0x20, b / 0x20 + 8 * (c + 0x100 * d));
    DivMod(0x2000, a + 0x100 * (b % 0x20), b / 0x20 + 8 * (c + 0x100 * d));
    DivMod(8, b / 0x20, c + 0x100 * d);
    DivMod(0x80_0000, a + 0x100 * b + 0x1_0000 * (c % 0x80), c / 0x80 + 2 * d);
    DivMod(2, c / 0x80, d);
  }

  /** rtw88_query_phy_status_8821c: CCK on page 0, everything else on page 1. */
  function Measured(rfe: nat, info: seq<byte>): int
    requires |info| >= STATUS_SZ
  {
    var page := info[0] % 0x10;
    if page == 0 then CckPower(rfe, Lna(info), Vga(info))
    else if page == 1 then
      var power := Int8(Int8(info[1]) - 110);
      if power < FLOOR then FLOOR else power
    else PLACEHOLDER
  }

  /** The signal a frame is annotated with; present: its descriptor announces a PHY status. */
  function Signal(rfe: nat, present: bool, info: seq<byte>): int {
    if present && |info| >= STATUS_SZ then Measured(rfe, info) else PLACEHOLDER
  }

  /** The status is there and of a kind the driver knows. */
  predicate Known(info: seq<byte>) {
    |info| >= STATUS_SZ && info[0] % 0x10 < 2
  }

  /** Every signal lies in the range of an int8_t, at the floor or above. */
  lemma SignalRange(rfe: nat, present: bool, info: seq<byte>)
    ensures FLOOR <= Signal(rfe, present, info) < 128
  {
    if present && |info| >= STATUS_SZ && info[0] % 0x10 == 0 {
      CckNoWrap(rfe, Lna(info), Vga(info));
    }
  }

  /** A CCK power is never wrapped. */
  lemma CckNoWrap(rfe: nat, lna: nat, vga: nat)
    requires vga < 0x20
    ensures var gains := if rfe == 0 then GAIN_0 else GAIN_1;
            lna < |gains| ==> CckPower(rfe, lna, vga) == gains[lna] - 2 * vga
    ensures FLOOR <= CckPower(rfe, lna, vga) <= 22
  {
    var gains := if rfe == 0 then GAIN_0 else GAIN_1;
    assert forall i :: 0 <= i < |gains| ==> -52 <= gains[i] <= 22;
  }

  /** On page 1 the signal is the reported power less 110 exactly up to 237; above, it wraps to the bottom. */
  lemma OfdmSignalIff(rfe: nat, info: seq<byte>)
    requires |info| >= STATUS_SZ && info[0] % 0x10 == 1
    ensures Signal(rfe, true, info) == info[1] as int - 110 <==> info[1] <= 237
    ensures info[1] > 237 ==> FLOOR <= Signal(rfe, true, info) <= -111
  {
  }

  /** The RSSI handed to net80211, an int8_t of the signal above a noise of -95, is exact up to a signal of 32
      and negative above. */
  lemma RssiIff(rfe: nat, present: bool, info: seq<byte>)
    ensures var dbm := Signal(rfe, present, info);
            && (Int8(dbm + 95) == dbm + 95 <==> dbm <= 32)
            && (dbm > 32 ==> Int8(dbm + 95) < 0)
  {
    SignalRange(rfe, present, info);
  }

  /** What the average takes from a frame: only frames with an announced status count. */
  function Sample(rfe: nat, present: bool, info: seq<byte>): Option<nat> {
    if present then Some(W.Clamped(Signal(rfe, present, info))) else None
  }

  /** The sample of an announced page 1 status is its power less 10, cut to 0 to 100, exactly up to 237; the
      strongest signals count as none at all. */
  lemma OfdmSampleIff(rfe: nat, info: seq<byte>)
    requires |info| >= STATUS_SZ && info[0] % 0x10 == 1
    ensures var p: int := info[1];
            Sample(rfe, true, info) == Some(if p < 10 then 0 else if p > 110 then 100 else p - 10) <==> p <= 237
    ensures info[1] > 237 ==> Sample(rfe, true, info) == Some(0)
  {
  }

  /** Without a status of a known kind the placeholder stands, and it counts in the average exactly when a
      status was announced all the same. */
  lemma PlaceholderAveragedIff(rfe: nat, present: bool, info: seq<byte>)
    requires !Known(info)
    ensures Signal(rfe, present, info) == PLACEHOLDER
    ensures Sample(rfe, present, info) == (if present then Some(25) else None)
  {
  }
}
