// Configuration and enumerations of oplus_chg_comm.
module CommConfig {
  import opened Common

  const CHG_TIMEOUT_COUNT := 6000
  const BATT_SOFT_OVP_MV := 4500
  const FFC_CHG_STEP_MAX := 4

  // enum oplus_chg_temp_region; the region of a temperature is an index into these.
  const BATT_TEMP_UNKNOWN := 0
  const BATT_TEMP_COLD := 1
  const BATT_TEMP_LITTLE_COLD := 2
  const BATT_TEMP_COOL := 3
  const BATT_TEMP_LITTLE_COOL := 4
  const BATT_TEMP_WARM := 7
  const BATT_TEMP_HOT := 8
  const BATT_TEMP_INVALID := 9

  const FFC_TEMP_PRE_NORMAL := 1
  const FFC_TEMP_NORMAL := 2
  const FFC_TEMP_WARM := 3
  const FFC_TEMP_INVALID := 4

  datatype Config = Config(
    checkBattFullBySw: bool,
    fvOffsetVoltageMv: int,
    littleColdItermMa: int,
    swItermMa: int,
    fullCountSwNum: int,
    battTempThr: seq<int>,
    vbatmaxMv: seq<int>,
    ffcTempThr: seq<int>,
    wlsVbatdetMv: seq<int>,
    wlsFfcStepMax: int,
    wlsFfcFvMv: seq<int>,
    wlsFfcFvCutoffMv: seq<int>,
    wlsFfcIclMa: seq<seq<int>>,
    wlsFfcFccMa: seq<seq<int>>,
    wlsFfcFccCutoffMa: seq<seq<int>>,
    bppVchgMinMv: int, bppVchgMaxMv: int,
    eppVchgMinMv: int, eppVchgMaxMv: int,
    fastVchgMinMv: int, fastVchgMaxMv: int,
    battCurrLimitThrMv: int)
  {
    // The array bounds of struct oplus_chg_comm_config.
    ghost predicate Shaped() {
      && |battTempThr| == BATT_TEMP_INVALID - 1
      && |vbatmaxMv| == |wlsVbatdetMv| == BATT_TEMP_INVALID
      && |ffcTempThr| == FFC_TEMP_INVALID - 1
      && |wlsFfcFvMv| == |wlsFfcFvCutoffMv| == FFC_CHG_STEP_MAX
      && |wlsFfcIclMa| == |wlsFfcFccMa| == |wlsFfcFccCutoffMa| == FFC_CHG_STEP_MAX
      && forall i :: 0 <= i < FFC_CHG_STEP_MAX ==>
           |wlsFfcIclMa[i]| == |wlsFfcFccMa[i]| == |wlsFfcFccCutoffMa[i]| == FFC_TEMP_INVALID - 2
    }
  }
}
