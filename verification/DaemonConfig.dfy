/** The mapper daemon's configuration record (`struct config`). */
module DaemonConfig {
  const KEYTABLE := 0x300
  const ACTION_COUNT := 28

  datatype Config = Config(
    windowMs: real, curveExp: real, antiDeadzone: real,
    outerSat: real, sensCountsMs: real, debtDrain: real,
    keyAction: seq<nat>, btnAction: seq<nat>,
    burstHz: seq<real>, burstDuty: seq<real>, burstJitter: seq<real>, burstDutyJitter: seq<real>, burstSkipProb: seq<real>,
    hotkey: seq<int>,
    recoilAction: nat, recoilX: real, recoilY: real,
    adsAction: nat, adsSensScale: real, fireSensScale: real)

  /** The sizes of the arrays in the C record. */
  predicate Sized(c: Config) {
    && |c.keyAction| == KEYTABLE && |c.btnAction| == KEYTABLE
    && |c.burstHz| == ACTION_COUNT && |c.burstDuty| == ACTION_COUNT && |c.burstJitter| == ACTION_COUNT
    && |c.burstDutyJitter| == ACTION_COUNT && |c.burstSkipProb| == ACTION_COUNT
    && |c.hotkey| <= 8
  }
}
