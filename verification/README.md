# Verification of the oplus charging policy

A Dafny model of the policy layer in `oplus/kernel/charger`, with proofs about whole runs of
its state machines. `dafny verify dfyconfig.toml` checks everything.

| files | what they model |
|---|---|
| `Voter`, `VoterRefinement`, `VoterEffective`, `VoterCallback`, `VoterClient`, `Votable` | `oplus_chg_voter.c`: client table, elections, callback protocol, override and force |
| `Hysteresis`, `TempMonitor` | self-adjusting temperature thresholds of `oplus_chg_comm.c` |
| `Ffc` | the flash-full-charge phase machine |
| `BatteryFull` | debounced detection of a full battery |
| `ChargerOvp` | the charger over-voltage latch |
| `Supervisor`, `SupervisorLaw`, `SupervisorTrace`, `SupervisorFfc`, `SupervisorUpsets`, `SupervisorObject` | the heartbeat composed with the votable `WLS_NOR_OUT_DISABLE`, with the checks it drives, and with the flash-full-charge machine |
| `ModChanged` | change notification with a wakeup source in `oplus_chg_core.c` |
| `SocSections`, `CoolDown`, `UploadLimit`, `OlcConfig`, `AppStats` | accounting, limits, printer and parser, and the top-two scan in `oplus_chg_track.c` |
| `ChgTimeRef` | the reference charge time in `oplus_debug_info.c` |
| `Common`, `CommConfig` | shared types, the configuration record and the enumerations |

## How the model is built

Each stateful component is a class with the source's fields and arrays. Its methods follow the
source branch by branch and are proved equal to a step function on a datatype (`View()` before
and after); the theorems are about runs of these step functions, by induction over traces of any
length. Loops of the source are loops here. The two debug-info functions are pure and stay
functions.

What the theorems compare a step function with is written out on its own, with the limits and
tables of the source, and not through the helpers of the step function.

Every section under a mutex or spinlock is one atomic step. What a callback returns, and every
reading of a gauge, charger or clock, is an arbitrary input. A heartbeat samples each quantity
once, except wireless presence (three readings) and the online state (two), which may differ
within one heartbeat because a result depends on it. A tracker tick reads the clock once; the
upload works read it twice.

Client strings are only copied and compared, so `Name` is an enumeration of identities. C `int`
is `int32` in the voter; elsewhere integers are unbounded, since no modelled value comes near a
32-bit limit in practice (the timeout counter, for one, grows by 1 every 5 s).

## What turned out to be false, and exactly when it holds

- **Stale output disable after a timeout.** The reset of the wireless driver withdraws the votes
  of FFC, USER, STOP and UOVP, but nothing ever withdraws that of TIMEOUT_VOTER. Voters and
  conditions still agree after a reset if and only if no timeout had happened
  (`SupervisorLaw.ResetKeepsGood`). The law "output disabled exactly when done, timed out or over
  voltage" survives it if and only if that is so or a client that the reset leaves alone disables
  the output anyway (`SupervisorLaw.ResetKeepsLaw`). A run of 6001 heartbeats on the pad ends so
  (`SupervisorLaw.ResetAfterTimeoutLeavesOutputOff`).
- **Missed votes.** The supervisor sets a flag without its vote if a wired charger is present, or
  if wireless goes offline between two readings of one heartbeat. `SupervisorLaw.Misses` names
  these heartbeats. Voters and conditions agree after a heartbeat if and only if it is not one of
  them (`SupervisorLaw.HeartbeatKeepsGood`); the law survives if and only if it is not one, or
  another client, an over-voltage or a voted timeout disables the output anyway
  (`SupervisorLaw.HeartbeatKeepsLaw`). Three heartbeats with a full battery on the wire
  (`SupervisorLaw.ThreeFullBeats`) and 6001 charging ones (`SupervisorLaw.WiredTimeoutLeavesOutputOn`)
  are runs that miss a vote and break the law.
- **One voter, two masters.** The supervisor and FFC both vote as USER_VOTER and take each other's
  votes back: a recharge during an idle phase, the end of an idle phase after charging was done, and
  a driver reset during an idle phase (`SupervisorUpsets` has a run for each that breaks the law).
  Voters and conditions agree throughout a run if and only if every operation is
  `SupervisorFfc.Harmonious` (`JointRunObeysLaw`). The law needs less. While they agree, an
  operation keeps it if and only if it is `SupervisorFfc.Lawful`: harmonious, or covered by another
  reason (`StepKeepsLaw`). After any run at all the law holds if and only if another client
  disables the output, or the run leaves one of the three votes in force exactly when it leaves a
  reason (`LawAfterAnyRun`).
- **Request after a status init.** While FFC is in its fast phase the request in force is that of
  the current step, unless a status init, which clears the step and casts no vote, has come since
  the last call and the step's request was not that of the first (`Ffc.SessionRequestsStep`, an
  if-and-only-if; `Ffc.InitLeavesOldRequest` is such a session).
- **Default thresholds.** The built-in table has seven initialisers for eight slots. With it, one
  unit of temperature is enough to turn the region back (`Hysteresis.DefaultTableFlips`). Any
  table, ascending or not, gives protection if and only if each threshold is at least 20 above the
  one before (`Hysteresis.ProtectsIffGaps`).
- **Callback out of step.** Only a rejected override, an override by the value `-EINVAL`, and a
  forced value rewritten while in force separate callback and effective result
  (`VoterCallback.Benign`, an if-and-only-if). Clients that avoid all three need not look at the
  votable (`VoterCallback.PoliteHistoryInSync`).
- **Enabled but not counted.** A MIN vote of `INT_MAX` and a MAX vote of `INT_MIN` take no part in
  an election, although the comments promise the minimum or maximum of all enabled votes.
- **Stale effective client.** A vote that breaks a tie leaves the record of a client that no longer
  votes the result (`VoterClient.TieLeavesStaleRecord`). The record is right at every point of a
  history if and only if no vote takes the recorded result back without changing the result
  (`VoterClient.HistoryStaysHonest`).
- **FFC temperature guard.** In any session a fast tick in a disallowed region is caught if and only
  if its region differs from that of the last fast tick of any phase, or no wireless charge is
  active (`Ffc.GuardCatchesIffMoved`). So a second phase that turns warm at once, after one that
  the warm region ended, reads past the cutoff table (`Ffc.SecondWarmPhaseIsMissed`).
- **FFC leaves the output disabled** after an idle phase that ends with the wireless charger or the
  votable gone or a wired charger present, and after a switch called in the idle phase, which does
  not look at the phase. Its vote is on exactly during idle phases throughout a session if and only
  if neither happens (`Ffc.SessionIsBalanced`).
- **Override under force.** An override made while the votable is forced takes effect when the
  force goes, but in the name of the last override that was not
  (`VoterEffective.EffectiveClientIsHistory`).
- **"Continuously" over voltage.** The comments speak of a continuous fault, but good samples in
  between do not reset the count (`ChargerOvp.InterruptedSamplesStillLatch`).
- **Charging time per cool-down level.** The buckets account for the charging time at every point of
  a trace if and only if no skipped tick hides a change of the charging status
  (`CoolDown.AccountsIffNothingHidden`).
- **Reference time of other projects.** The speeds set for a phone that is none of the five projects
  are overwritten by negative ones (`ChgTimeRef.NeverShrinksIffProject`).

## Model

| member | source | states |
|---|---|---|
| VoterRefinement.HistoryRefines | oplus/kernel/charger/oplus_chg_voter.c:416-504 | After any history of votes, queries, overrides, forces and reruns, the slots stand for the map of last accepted votes and the cached result is the election over that map |
| VoterRefinement.OrderDoesNotMatter | oplus/kernel/charger/oplus_chg_voter.c:416-504 | With at most 32 names on each side, two histories with the same last votes have the same effective result, in whatever order and with whatever else in between |
| VoterRefinement.BallotIsLastVotes | oplus/kernel/charger/oplus_chg_voter.c:148-169 | With at most 32 names no vote is refused: the map holds the last vote of every client |
| VoterRefinement.VoteRefines | oplus/kernel/charger/oplus_chg_voter.c:416-504 | One vote updates the map at its client only, or is refused as the 33rd name and changes nothing; an ignored similar vote leaves a correct cache |
| VoterRefinement.QueryRefines | oplus/kernel/charger/oplus_chg_voter.c:232-302 | A query may register its client but changes no vote and no result |
| VoterRefinement.QueryAnswers | oplus/kernel/charger/oplus_chg_voter.c:148-169 | A query reads its client's last vote, a disabled vote if it never voted, or fails if it is the 33rd name |
| VoterRefinement.QueryIsLastVote | oplus/kernel/charger/oplus_chg_voter.c:273-288 | With at most 32 names, a query after any history reads the arguments of its client's last vote; on a SET_ANY votable the value is 1 or 0 as the vote was enabled or not, whatever value was passed |
| VoterRefinement.MinScanIsMin | oplus/kernel/charger/oplus_chg_voter.c:99-116 | The scan finds the minimum of the enabled votes below INT_MAX and a slot that casts it, or reports that there is none |
| VoterRefinement.MaxScanIsMax | oplus/kernel/charger/oplus_chg_voter.c:130-146 | The same for the maximum above INT_MIN |
| VoterRefinement.ElectIsElected | oplus/kernel/charger/oplus_chg_voter.c:73-146 | The three elections over slots are elections over the map of last votes |
| VoterRefinement.ElectedIsUnique | oplus/kernel/charger/oplus_chg_voter.c:73-146 | A map of votes has one election result |
| VoterRefinement.MinimumIffBelowMax | oplus/kernel/charger/oplus_chg_voter.c:86-116 | With enabled votes present, a MIN votable yields their minimum if and only if one is below INT_MAX |
| VoterRefinement.MaximumIffAboveMin | oplus/kernel/charger/oplus_chg_voter.c:118-146 | The same for MAX and INT_MIN |
| VoterCallback.HistoryInSync | oplus/kernel/charger/oplus_chg_voter.c:416-577 | Over every interleaving of benign operations the value last passed to the callback is the effective result |
| VoterCallback.StepInSync | oplus/kernel/charger/oplus_chg_voter.c:416-648 | One operation keeps callback and effective result in step exactly when it is benign |
| VoterCallback.FirstMishapIsHeard | oplus/kernel/charger/oplus_chg_voter.c:527-558 | The first operation of a history that is not benign puts them out of step |
| VoterCallback.PoliteHistoryInSync | oplus/kernel/charger/oplus_chg_voter.c:527-648 | Over every history in which overrides are accepted and are not -EINVAL, and the forced value is written only while not in force, the callback knows the effective result |
| VoterCallback.NoRepeatedCallback | oplus/kernel/charger/oplus_chg_voter.c:480-495 | With votes and queries alone, no two consecutive invocations of the callback carry the same value, and the last one carries the cached result |
| VoterCallback.CallNamesEffectiveClient | oplus/kernel/charger/oplus_chg_voter.c:346-358 | The client passed to the callback is the effective client, except for an override that is rejected or has the value -EINVAL; a rerun names the client that would be effective without override and force |
| VoterEffective.EffectiveIsHistory | oplus/kernel/charger/oplus_chg_voter.c:305-333 | After any history the effective result is the forced word, read as signed, while forced; else the value of the last override that was accepted or made under force; else the election over the last votes |
| VoterEffective.EffectiveClientIsHistory | oplus/kernel/charger/oplus_chg_voter.c:366-379 | The effective client under force or override, which for an override made under force is that of an earlier one |
| VoterEffective.CallsExactly | oplus/kernel/charger/oplus_chg_voter.c:416-648 | Exactly which operations invoke the callback: every rerun and force, an override unless forced, a vote that is the first or changes the result unless hidden |
| VoterEffective.CallsAndCodes | oplus/kernel/charger/oplus_chg_voter.c:416-648 | Every callback invocation carries the step argument of its operation, and the operation returns the callback's code; without one it returns 0, or -EINVAL for the 33rd client |
| VoterEffective.AnyVoterIsRecorded | oplus/kernel/charger/oplus_chg_voter.c:361-364 | A SET_ANY votable records the client whose vote was the first or changed the result |
| VoterClient.RecordStaysHonest | oplus/kernel/charger/oplus_chg_voter.c:484-488 | A vote keeps the recorded client correct if and only if it changes the result, is the first, or leaves the recorded client's vote in place |
| VoterClient.HistoryStaysHonest | oplus/kernel/charger/oplus_chg_voter.c:416-504 | From creation on, over every mix of operations, the recorded client is right at every point if and only if every vote meets that condition |
| VoterClient.TieLeavesStaleRecord | oplus/kernel/charger/oplus_chg_voter.c:484-488 | Three votes on a fresh votable after which the record names a client that votes something else |
| VotableObject.Votable.constructor | oplus/kernel/charger/oplus_chg_voter.c:747-764 | A created votable has no clients, no override, no force and the result of an empty election |
| VotableObject.Votable.GetClientId | oplus/kernel/charger/oplus_chg_voter.c:148-169 | Finds or appends a name; the used slots stay a gap-free prefix of distinct names, unused slots carry no vote |
| VotableObject.Votable.CastVote | oplus/kernel/charger/oplus_chg_voter.c:416-504 | In place: exactly the specified change of slots, cache and record, return code and callback invocation |
| VotableObject.Votable.VoteOverride | oplus/kernel/charger/oplus_chg_voter.c:527-558 | In place: the override, under force without the callback, otherwise stored only if the callback accepts it |
| VotableObject.Votable.RerunElection | oplus/kernel/charger/oplus_chg_voter.c:560-577 | Passes the effective result to the callback and changes nothing |
| VotableObject.Votable.ForceActiveSet | oplus/kernel/charger/oplus_chg_voter.c:616-648 | Switches the force and passes the new effective result to the callback |
| VotableObject.Votable.GetClientVote | oplus/kernel/charger/oplus_chg_voter.c:273-288 | The value of the client's last vote, or -EINVAL |
| VotableObject.Votable.IsClientVoteEnabled | oplus/kernel/charger/oplus_chg_voter.c:232-246 | Whether the client's last vote is enabled |
| VotableObject.Votable.Destroy | oplus/kernel/charger/oplus_chg_voter.c:821-822 | The loop that stops at the first empty slot frees every name found in any of the 32 slots, once |
| Hysteresis.TraceKeepsOneShift | oplus/kernel/charger/oplus_chg_comm.c:1006-1108 | Over any trace, at most one threshold differs from the configured one, by the hysteresis, with the sign and place fixed by the region; on an ascending table the last temperature re-evaluates to the same region |
| Hysteresis.MoveIsStable | oplus/kernel/charger/oplus_chg_comm.c:1006-1041 | Re-evaluating the same temperature after a change confirms the region |
| Hysteresis.FirstEvaluation | oplus/kernel/charger/oplus_chg_comm.c:986-1108 | The first evaluation leaves the battery table as configured, but raises the FFC threshold above the region |
| Hysteresis.RoundTripRestores | oplus/kernel/charger/oplus_chg_comm.c:1009-1041 | Crossing a threshold up and back leaves it as it was and restores every other |
| Hysteresis.RoundTripDown | oplus/kernel/charger/oplus_chg_comm.c:1009-1041 | The same down and back |
| Hysteresis.ReversalsBoundedByTravel | oplus/kernel/charger/oplus_chg_comm.c:986-1041 | Over any trace 21 times the number of reversals of the battery region is at most the total variation of the temperature |
| Hysteresis.ProtectsIffGaps | oplus/kernel/charger/oplus_chg_comm.c:959-1041 | For every table: each reversal needs a swing above 20 if and only if each threshold is at least 20 above the one before |
| Hysteresis.DefaultTableFlips | oplus/kernel/charger/oplus_chg_comm.c:107 | With the default table a fall from 500 to 499 is a reversal |
| TempMonitorObject.FloatVoltageFollowsRegion | oplus/kernel/charger/oplus_chg_comm.c:1017-1066 | Away from wireless fast charging the float voltage last voted is that of the current region |
| TempMonitorObject.VotesExactly | oplus/kernel/charger/oplus_chg_comm.c:1001-1066 | After any trace of checks, with or without fast charging, a check votes a float voltage exactly on the first evaluation, a turn of the voltage flag, or a change of region that counts; the vote is for the region found |
| TempMonitorObject.FlagsFollowReadings | oplus/kernel/charger/oplus_chg_comm.c:1043-1055 | The voltage flag is set exactly if the last reading outside the 20 mV band was above it |
| TempMonitorObject.ChecksAreObserved | oplus/kernel/charger/oplus_chg_comm.c:986-1041 | The thresholds over a trace of checks are those of the trace of temperatures |
| TempMonitorObject.TempMonitor.CheckTemp | oplus/kernel/charger/oplus_chg_comm.c:986-1069 | In place: thresholds, region, pending power change, high-voltage flag and the float-voltage vote |
| TempMonitorObject.TempMonitor.GetTempRegion | oplus/kernel/charger/oplus_chg_comm.c:959-984 | The first threshold above the temperature |
| TempMonitorObject.TempMonitor.GetFfcTempRegion | oplus/kernel/charger/oplus_chg_comm.c:1071-1108 | In place: the FFC thresholds and region |
| TempMonitorObject.TempMonitor.StatusInit | oplus/kernel/charger/oplus_chg_comm.c:926-957 | Both tables as configured, no region yet, a power change pending |
| TempMonitorObject.Shift | oplus/kernel/charger/oplus_chg_comm.c:1010-1016 | The loop shifts the crossed threshold and restores every other one |
| Ffc.SwitchReachesIdle | oplus/kernel/charger/oplus_chg_comm.c:1110-1313 | With the voltage at its cutoff the idle phase starts within 6 ticks per step, and on exactly the last of them while the current stays up |
| Ffc.IdleEndsOnTheSeventh | oplus/kernel/charger/oplus_chg_comm.c:1343-1364 | The idle phase ends on its seventh tick, whatever is read |
| Ffc.StepStaysInRange | oplus/kernel/charger/oplus_chg_comm.c:1275-1313 | A running fast phase has its step inside the tables, even after a tick that advances it twice |
| Ffc.FastTickCounts | oplus/kernel/charger/oplus_chg_comm.c:1265-1313 | A fast tick compares voltage and current with the cutoffs of the current step and region; the step advances on the sixth tick at the voltage and on each low-current tick in a row from the fourth on; the phase ends at the last step |
| Ffc.FastTickEnds | oplus/kernel/charger/oplus_chg_comm.c:1222-1341 | Exactly when, with which code and in which state a fast tick ends the phase early: bad region, charger gone, votable missing |
| Ffc.OtherTicks | oplus/kernel/charger/oplus_chg_comm.c:1204-1210 | Ticks outside the fast phase in full: counters, state, return code and the withdrawal of the vote |
| Ffc.SwitchStarts | oplus/kernel/charger/oplus_chg_comm.c:1124-1179 | A switch starts the fast phase exactly in an allowed region with wireless charging and every votable, and fails otherwise with the code of the reason |
| Ffc.IdleRequest | oplus/kernel/charger/oplus_chg_comm.c:1294-1313 | The tick that starts the idle phase requests the float voltage of the battery region and keeps the currents of the old step |
| Ffc.ChargingIsPhase | oplus/kernel/charger/oplus_chg_comm.c:939-1378 | Over any session the charging flag is set exactly in the two phases, unless a status init has come since the last switch |
| Ffc.SessionRequestsStep | oplus/kernel/charger/oplus_chg_comm.c:926-1341 | Over any session, in a fast phase the currents and the voltage in force are those of the step at the last call in the region read then; they are those of the current step if and only if no status init has followed, or that step's are those of the first |
| Ffc.InitLeavesOldRequest | oplus/kernel/charger/oplus_chg_comm.c:939-945 | A session in which a status init leaves the old request in force |
| Ffc.GuardCatchesIffMoved | oplus/kernel/charger/oplus_chg_comm.c:1188-1273 | Over any session, a fast tick in a disallowed region stays within the tables, and ends the phase, if and only if no wireless charge is active or its region differs from that of the last fast tick of any phase |
| Ffc.SessionIsBalanced | oplus/kernel/charger/oplus_chg_comm.c:1110-1378 | FFC's output-disable vote is on exactly during the idle phase, at every point of a session, if and only if every call keeps the balance |
| Ffc.DisabledExactlyWhileIdle | oplus/kernel/charger/oplus_chg_comm.c:1110-1378 | One tick or switch keeps that balance exactly when it is not a switch in the idle phase and not an end of it that cannot withdraw the vote |
| Ffc.SecondWarmPhaseIsMissed | oplus/kernel/charger/oplus_chg_comm.c:1225-1267 | A session after which a fast tick in the warm region is not caught |
| Ffc.FfcMachine.SwitchFfc | oplus/kernel/charger/oplus_chg_comm.c:1110-1180 | In place: phase, step, counters, votes and return code of the switch |
| Ffc.FfcMachine.InitStatus | oplus/kernel/charger/oplus_chg_comm.c:939-945 | In place: the step and the charging flag cleared, phase and counters kept |
| Ffc.FfcMachine.CheckFfc | oplus/kernel/charger/oplus_chg_comm.c:1182-1378 | In place: phase, step, counters, votes and return code of a tick |
| BatteryFull.CountersCount | oplus/kernel/charger/oplus_chg_comm.c:1382-1498 | Over any history the two counters are the lengths of the current qualifying runs since the last break or report, and both flags are false between calls |
| BatteryFull.FullIffReported | oplus/kernel/charger/oplus_chg_comm.c:1455-1497 | A call reports full exactly when a run reaches its limit: 5 times the configured number or 10 exceeded (software), 3 (hardware) |
| BatteryFull.ReportIsSustained | oplus/kernel/charger/oplus_chg_comm.c:1455-1497 | A report rests on an unbroken stretch with enough qualifying samples |
| BatteryFull.SustainedIsReported | oplus/kernel/charger/oplus_chg_comm.c:1455-1497 | Conversely, an unbroken stretch with more qualifying samples than the larger limit contains a report |
| BatteryFull.FullDetector.Check | oplus/kernel/charger/oplus_chg_comm.c:1382-1498 | In place: the four statics and the result |
| ChargerOvp.TurnsOnTheFourth | oplus/kernel/charger/oplus_chg_comm.c:1722-1799 | From status init, the latch sets, and clears, exactly on the fourth sample that argues for it since it last turned, over every mix of samples and wireless types |
| ChargerOvp.CountersCount | oplus/kernel/charger/oplus_chg_comm.c:1752-1797 | The flag and the counters encode the number of such samples |
| ChargerOvp.InterruptedSamplesStillLatch | oplus/kernel/charger/oplus_chg_comm.c:1753-1775 | Four bad samples with good ones in between set the latch |
| ChargerOvp.ChargerMonitor.Check | oplus/kernel/charger/oplus_chg_comm.c:1722-1799 | In place: latch, flag and counters; a pulse on the receiver-disable votable when the latch sets, a release and a temperature check when it clears |
| SupervisorLaw.WirelessChargingObeysLaw | oplus/kernel/charger/oplus_chg_comm.c:1857-1908 | From a fresh start, after every heartbeat of a wireless-only run, the output is disabled exactly when charging is done with no recharge pending, or timed out, or the battery is over voltage; a pending recharge implies done |
| SupervisorLaw.RunObeysLaw | oplus/kernel/charger/oplus_chg_comm.c:1857-1908 | The same with wired chargers, changing readings, up to 29 other voters and driver resets, over every run of harmless operations |
| SupervisorLaw.HeartbeatKeepsGood | oplus/kernel/charger/oplus_chg_comm.c:1857-1908 | A heartbeat keeps the three voters equal to their conditions exactly when it misses no vote |
| SupervisorLaw.HeartbeatKeepsLaw | oplus/kernel/charger/oplus_chg_comm.c:1857-1908 | From agreement of voters and conditions a heartbeat keeps the law exactly when it misses no vote, or another client, an over-voltage or a voted timeout disables the output anyway |
| SupervisorLaw.ChecksVote | oplus/kernel/charger/oplus_chg_comm.c:1500-1836 | From any votes at all, the three votes after the checks are those told by what the checks find, and no other client's vote changes |
| SupervisorLaw.MissedFullLeavesOutputOn | oplus/kernel/charger/oplus_chg_comm.c:1515-1527 | After a missed vote for a full battery the output stays on although charging is done |
| SupervisorLaw.ThreeFullBeats | oplus/kernel/charger/oplus_chg_comm.c:1480-1527 | Three heartbeats with a full battery on a wired charger are such a run, from a fresh start |
| SupervisorLaw.WiredTimeoutLeavesOutputOn | oplus/kernel/charger/oplus_chg_comm.c:1687-1720 | After 6000 charging heartbeats, one more with a wired charger notices the timeout without a vote, and the law fails |
| SupervisorLaw.ResetAfterTimeoutLeavesOutputOff | oplus/kernel/charger/op_wlchg_v2/oplus_chg_wls.c:1876-1891 | After a timeout on the pad and a driver reset all flags are clear and the output is disabled |
| SupervisorFfc.JointRunObeysLaw | oplus/kernel/charger/oplus_chg_comm.c:1110-1378 | Over every interleaving of heartbeats, FFC calls, other votes and driver resets, voters and conditions agree throughout if and only if every operation is harmonious; then the output is disabled exactly when charging is done without a recharge, an FFC idle phase runs, charging timed out, the battery is over voltage, or another client says so |
| SupervisorFfc.StepKeepsJointGood | oplus/kernel/charger/oplus_chg_comm.c:1857-1908 | One operation keeps that agreement exactly when it is harmonious |
| SupervisorFfc.StepKeepsLaw | oplus/kernel/charger/oplus_chg_comm.c:1110-1908 | From agreement one operation keeps the law exactly when it is lawful: a heartbeat that breaks nothing or is masked, a call that hands the vote over or is covered, a reset with both or neither of a timeout and an idle phase, or with another client's vote |
| SupervisorFfc.LawAfterAnyRun | oplus/kernel/charger/oplus_chg_comm.c:1110-1908 | After any run, harmonious or not, the votes in force are those told by the findings of its operations, and the law holds if and only if another client disables the output or some vote is in force exactly when there is a reason |
| SupervisorFfc.FreshRunObeysLaw | oplus/kernel/charger/oplus_chg_comm.c:1110-1908 | From a fresh start voters and conditions agree throughout if and only if every operation is harmonious, and then the law holds |
| SupervisorUpsets.RechargeInIdle | oplus/kernel/charger/oplus_chg_comm.c:1885-1899 | A run from a fresh start in which a recharge takes back the vote of an idle phase and breaks the law |
| SupervisorUpsets.IdleEndsWhenDone | oplus/kernel/charger/oplus_chg_comm.c:1343-1364 | A run in which the end of an idle phase takes back the vote of a finished charge and breaks the law |
| SupervisorUpsets.ResetInIdle | oplus/kernel/charger/op_wlchg_v2/oplus_chg_wls.c:1876-1891 | A run in which a driver reset takes back the vote of an idle phase and breaks the law |
| SupervisorFfc.HeartbeatAndSession | oplus/kernel/charger/oplus_chg_comm.c:1857-1908 | A heartbeat upsets the agreement of voters and conditions exactly by a missed vote, or by a recharge during an idle phase |
| SupervisorFfc.CallAndSupervisor | oplus/kernel/charger/oplus_chg_comm.c:1293-1363 | An FFC call upsets the agreement exactly if it ends an idle phase and withdraws the vote of a finished charge, or leaves its own |
| SupervisorTrace.TemperatureIsTrace | oplus/kernel/charger/oplus_chg_comm.c:1857-1908 | Over any run the thresholds, flags and last float-voltage vote are those of the trace of its temperature checks: one when the charger latch clears, one at the end of a heartbeat with a good battery, no over-voltage and no timeout |
| SupervisorTrace.HeartbeatFollowsTemperature | oplus/kernel/charger/oplus_chg_comm.c:1901-1904 | On an ascending table such a heartbeat outside an FFC session ends in the region of its temperature with every change voted; one without a check leaves the temperature alone |
| SupervisorTrace.RunTurnsSlowly | oplus/kernel/charger/oplus_chg_comm.c:1857-1908 | Over any run the temperature read by the checks travels at least 21 units per reversal of the region |
| SupervisorTrace.RunVotesFloatVoltage | oplus/kernel/charger/oplus_chg_comm.c:1057-1066 | Over any run without fast charging the float voltage in force is that of the region |
| SupervisorTrace.LatchIsTrace | oplus/kernel/charger/oplus_chg_comm.c:1722-1799 | Over any run the charger latch goes through the trace of the voltages its heartbeats sample |
| SupervisorTrace.FullIsTrace | oplus/kernel/charger/oplus_chg_comm.c:1500-1512 | Over any run, resets included, the full-battery statics go through the trace of the samples of the heartbeats that look |
| SupervisorTrace.DoneIffReported | oplus/kernel/charger/oplus_chg_comm.c:1500-1517 | After any run a heartbeat finds charging done exactly if it was, or it looks and one of the criteria has held for long enough |
| SupervisorTrace.ResetClears | oplus/kernel/charger/oplus_chg_comm.c:926-957 | A driver reset clears every flag and restores every threshold; the latch counters and the full-battery statics survive |
| SupervisorLaw.ResetKeepsGood | oplus/kernel/charger/op_wlchg_v2/oplus_chg_wls.c:1876-1891 | A driver reset keeps voters and conditions together if and only if there was no timeout; after one the output stays disabled |
| SupervisorLaw.ResetKeepsLaw | oplus/kernel/charger/op_wlchg_v2/oplus_chg_wls.c:1876-1891 | A driver reset keeps the law if and only if there was no timeout, or a client other than FFC and STOP disables the output |
| SupervisorLaw.VoteSwitchesOne | oplus/kernel/charger/oplus_chg_voter.c:416-504 | A vote by an expected client is accepted and switches that client only |
| SupervisorLaw.TermStep | oplus/kernel/charger/oplus_chg_comm.c:1500-1536 | The check for a full battery keeps USER_VOTER equal to its condition exactly when it does not miss the vote |
| SupervisorLaw.TimeoutStep | oplus/kernel/charger/oplus_chg_comm.c:1687-1720 | The timeout check keeps TIMEOUT_VOTER equal to the flag exactly when the timeout is not first noticed with a wired charger |
| SupervisorLaw.BatteryStep | oplus/kernel/charger/oplus_chg_comm.c:1801-1836 | The battery check always keeps UOVP_VOTER equal to the flag |
| SupervisorObject.ChgComm.HeartbeatWork | oplus/kernel/charger/oplus_chg_comm.c:1857-1908 | In place: all flags, statics, thresholds and the votable after one heartbeat |
| SupervisorObject.ChgComm.InitStatus | oplus/kernel/charger/oplus_chg_comm.c:926-957 | In place: flags cleared, thresholds restored, statics and votes untouched |
| SupervisorObject.ChgComm.ResetDriver | oplus/kernel/charger/op_wlchg_v2/oplus_chg_wls.c:1876-1891 | In place: four votes withdrawn, the election rerun and the status initialised |
| ModChanged.EveryInterleavingIsSafe | oplus/kernel/charger/oplus_chg_core.c:66-112 | In every interleaving: flagged implies awake, awake throughout a notification and until every call is delivered, every call flagged or claimed, and never awake with nobody left to relax |
| ModChanged.CoverageIsClaimed | oplus/kernel/charger/oplus_chg_core.c:82-89 | Every delivered call was claimed after it was made, and the notification began after the claim |
| ModChanged.NotificationsNeedCalls | oplus/kernel/charger/oplus_chg_core.c:74-98 | In every interleaving the notifications begun, and the one claimed, are at most the calls claimed; a change is flagged exactly while a call is unclaimed |
| ModChanged.ClaimedCallsAreDone | oplus/kernel/charger/oplus_chg_core.c:75-97 | A work item that finds every call claimed notifies nobody and releases the source |
| ModChanged.QuietEndsReleased | oplus/kernel/charger/oplus_chg_core.c:96-98 | When nothing is left to do the source is released and every call was notified |
| ModChanged.QuietRunsAreShort | oplus/kernel/charger/oplus_chg_core.c:66-112 | Without further calls every schedule gets there in a bounded number of steps |
| ModChanged.ChgMod.FirstSection | oplus/kernel/charger/oplus_chg_core.c:74-98 | In place: claim, or release at once when nothing is flagged |
| ModChanged.ChgMod.SecondSection | oplus/kernel/charger/oplus_chg_core.c:88-98 | In place: release unless flagged again |
| SocSections.SectionsAreExact | oplus/kernel/charger/oplus_chg_track.c:5961-6097 | Over any trace since a reset each section's time and capacity are exactly those of the charging ticks that found the tracker in it |
| SocSections.SectionsConserve | oplus/kernel/charger/oplus_chg_track.c:5961-6097 | The three sections add up to the charging ticks that found the tracker below OVER |
| SocSections.SectionMoves | oplus/kernel/charger/oplus_chg_track.c:5961-6097 | A first or non-charging tick finds the section of its state of charge; a charging tick moves at most one section towards it, and stays in the last at 90 |
| SocSections.SectionFollowsSoc | oplus/kernel/charger/oplus_chg_track.c:5961-6097 | The tracker stands in the section of the state of charge throughout, but for 90 on the way down, if and only if no charging tick passes more than one bound |
| SocSections.SectionTracker.Account | oplus/kernel/charger/oplus_chg_track.c:5961-6097 | In place: section, counters and statics of one tick |
| CoolDown.BucketsConserve | oplus/kernel/charger/oplus_chg_track.c:4984-5024 | The 32 buckets hold the time elapsed up to the last valid tick, each interval in exactly one bucket, that of the level which closes it |
| CoolDown.StatusIsLastValid | oplus/kernel/charger/oplus_chg_track.c:4984-5024 | Over any trace the level and its time are those of the last valid tick, and the effect count is the number of valid charging ticks above level 0 |
| CoolDown.AccountsIffNothingHidden | oplus/kernel/charger/oplus_chg_track.c:4984-5024 | For a clock that moves on, credited time plus the open interval is the charging time at every point of a trace if and only if no skipped tick hides a change of status |
| CoolDown.HiddenChangeMiscounts | oplus/kernel/charger/oplus_chg_track.c:4994-4997 | The first skipped tick that hides a change, after any trace, shifts the account by exactly the time since the last valid tick |
| CoolDown.CoolDownTracker.Tally | oplus/kernel/charger/oplus_chg_track.c:4984-5024 | In place: the table and the level status |
| UploadLimit.WindowIsLimited | oplus/kernel/charger/oplus_chg_track.c:7269-7297 | For a clock that does not go back no window of one period holds more than countMax + 1 uploads |
| UploadLimit.DailyUploads | oplus/kernel/charger/oplus_chg_track.c:177-181 | With the periods and counts of the source: at most 11 gauge or software reports and 51 state-of-health reports in any 24 hours |
| UploadLimit.BurstReachesLimit | oplus/kernel/charger/oplus_chg_track.c:7269-7297 | A burst reaches that bound |
| UploadLimit.GapReopens | oplus/kernel/charger/oplus_chg_track.c:1953-1986 | An idle attempt more than one period after the last upload goes through, whatever the count, and starts the count at 1 |
| UploadLimit.RefusedIffLimited | oplus/kernel/charger/oplus_chg_track.c:1953-1986 | After any trace an attempt is refused if and only if it is busy, or countMax + 1 uploads have gone through since the last gap and it does not end one |
| UploadLimit.Limiter.TryUpload | oplus/kernel/charger/oplus_chg_track.c:1953-1986 | In place: counter and stored time of one attempt |
| OlcConfig.PrintParseRoundTrip | oplus/kernel/charger/oplus_chg_track.c:1646-1708 | Printing 16 words and parsing the text restores every word over any previous configuration, and the text fits the parser's buffer |
| OlcConfig.MalformedTokenIsLocal | oplus/kernel/charger/oplus_chg_track.c:1671-1676 | A malformed token leaves its own word and no other unchanged |
| OlcConfig.WordRoundTrip | oplus/kernel/charger/oplus_chg_track.c:1671 | The parser reads back what the printer writes for a word |
| OlcConfig.ReadsIffSpelled | oplus/kernel/charger/oplus_chg_track.c:1671 | A token sets a word if and only if it spells it: optional plus, optional 0x, digits in either case, optional newline |
| OlcConfig.PrintsLower | oplus/kernel/charger/oplus_chg_track.c:1700 | Words are printed in lower case without leading zeros |
| OlcConfig.TokensSplit | oplus/kernel/charger/oplus_chg_track.c:1660-1665 | The tokens are the text between its commas |
| OlcConfig.WordIsSet | oplus/kernel/charger/oplus_chg_track.c:1660-1682 | Word by word: a word changes exactly if no token up to its own is longer than 16 characters and its own spells one |
| OlcConfig.OnlyTheFrontIsRead | oplus/kernel/charger/oplus_chg_track.c:1652-1658 | Of a text of more than 271 characters only the front is read |
| OlcConfig.Config.Set | oplus/kernel/charger/oplus_chg_track.c:1646-1685 | In place: the loop over strsep sets each word from its token |
| OlcConfig.Config.Get | oplus/kernel/charger/oplus_chg_track.c:1687-1708 | Fills the buffer with the joined words; only the last comma can be lost to the size limit |
| AppStats.FindTopTwo | oplus/kernel/charger/oplus_chg_track.c:1572-1591 | Two distinct indices, the last maximum and a maximum of the rest, for any table with two scanned entries, ties included |
| AppStats.TopTwoIsUnique | oplus/kernel/charger/oplus_chg_track.c:1572-1591 | The reported times do not depend on how ties are broken |
| ChgTimeRef.RoundsHalfUp | oplus/kernel/charger/oplus_debug_info.c:1604-1615 | For every positive current the result is division rounded half up |
| ChgTimeRef.ProjectSpeeds | oplus/kernel/charger/oplus_debug_info.c:1625-1658 | Each project's speeds are the charge of one percent divided by its four currents, to the nearest |
| ChgTimeRef.OutsideTheSum | oplus/kernel/charger/oplus_debug_info.c:1663-1709 | Where the end is not above the start the estimate is that of the start's band; outside the table it is 0 |
| ChgTimeRef.Antitone | oplus/kernel/charger/oplus_debug_info.c:1604-1615 | A larger current never takes longer |
| ChgTimeRef.NeverShrinksIffProject | oplus/kernel/charger/oplus_debug_info.c:1625-1712 | The estimate is nondecreasing in the end state of charge exactly for the five projects (or an empty battery) |
| ChgTimeRef.NeverBelowPlainSum | oplus/kernel/charger/oplus_debug_info.c:1663-1709 | The estimate is at least the sum of the per-percent times, with equality exactly within one band |
| ChgTimeRef.ReferenceTimeIsSound | oplus/kernel/charger/oplus_debug_info.c:1616-1712 | Both for a battery of any capacity and number of cells |

## Left out

- Device tree parsing, probe and remove, debugfs and sysfs plumbing, logging: no invariant.
- Gauge, wireless and PMIC operation tables: their readings are arbitrary inputs.
- The HIDL command and track-upload handshakes: they rest on completion timing.
- Report building with snprintf, string tables and the charger-break heuristics: formatting and tuning.
- Memory allocation failure, NULL arguments, invalid votable types, lookup of votables by name and reference counting.
- Signed overflow: integers outside the voter are mathematical.
- The state of the driver before its first status init, in which the region query answers NORMAL.
- The FV, ICL, FCC and receiver-disable votables of the supervisor: the votes cast on them are outputs of the methods, and only WLS_NOR_OUT_DISABLE is composed with its votable. Of the float-voltage votes the runs record the region.
- VotableObject.Votable.VoteOverride: requires a callback unless the votable is forced, because the source calls it unchecked.
- Ffc.FfcMachine.CheckFfc: requires an allowed region on a fast tick that has wireless charging active and the region of the last fast tick, because the source then reads past a table.
- OlcConfig.Config.Set: takes text without NUL; the kernel's kstrtoull is modelled from its documented behaviour.
- Other code that votes as USER_VOTER on WLS_NOR_OUT_DISABLE, such as the pulse at oplus_chg_wls.c:4004-4005: the laws are about the supervisor, FFC and the driver reset.
