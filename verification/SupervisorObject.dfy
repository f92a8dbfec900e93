// The supervisor as an object: the flags of struct oplus_chg_comm, the parts of it that
// the other files model, and the votable it votes on.
module SupervisorObject {
  import opened Common
  import opened CommConfig
  import TempMonitorObject
  import BatteryFull
  import ChargerOvp
  import VotableObject
  import opened Voter
  import opened Supervisor

  class ChgComm {
    const cfg: Config
    const temp: TempMonitorObject.TempMonitor
    const full: BatteryFull.FullDetector
    const charger: ChargerOvp.ChargerMonitor
    const outDisable: VotableObject.Votable
    var chgDone: bool
    var rechargePending: bool
    var rechargeStatus: bool
    var timeOut: bool
    var battOvp: bool
    var timeoutCount: int

    ghost predicate Valid()
      reads this, temp, temp.battDyn, temp.ffcDyn, outDisable, outDisable.clientStrs, outDisable.votes
    {
      && temp.Valid() && outDisable.Valid()
      && temp.cfg == full.cfg == charger.cfg == cfg
    }

    ghost function FlagsView(): Flags
      reads this
    {
      Flags(chgDone, rechargePending, rechargeStatus, timeOut, battOvp, timeoutCount)
    }

    ghost function View(): State
      reads this, temp, temp.battDyn, temp.ffcDyn, full, charger, outDisable
    {
      State(temp.View(), full.View(), charger.View(), FlagsView(), outDisable.View())
    }

    constructor (cfg: Config, temp: TempMonitorObject.TempMonitor, full: BatteryFull.FullDetector,
                 charger: ChargerOvp.ChargerMonitor, outDisable: VotableObject.Votable)
      requires temp.Valid() && outDisable.Valid()
      requires temp.cfg == full.cfg == charger.cfg == cfg
      ensures Valid()
      ensures this.temp == temp && this.full == full && this.charger == charger && this.outDisable == outDisable
      ensures View() == State(temp.View(), full.View(), charger.View(), CLEARED, outDisable.View())
    {
      this.cfg, this.temp, this.full, this.charger, this.outDisable := cfg, temp, full, charger, outDisable;
      chgDone, rechargePending, rechargeStatus, timeOut, battOvp, timeoutCount := false, false, false, false, false, 0;
    }

    method VoteOutDisable(name: Name, on: bool, cbRc: int32)
      requires Valid()
      modifies outDisable, outDisable.clientStrs, outDisable.votes
      ensures Valid()
      ensures View() == old(View()).(out := OutVote(old(outDisable.View()), name, on, cbRc))
    {
      var _, _ := outDisable.CastVote(name, on, BoolToInt(on), false, cbRc);
    }

    method CheckChargeTimeout(t: Tick)
      requires Valid()
      modifies this, outDisable, outDisable.clientStrs, outDisable.votes
      ensures Valid()
      ensures View() == CheckTimeout(old(View()), t)
    {
      if chgDone {
        return;
      }
      if (t.usbOnline || t.presentAtTimeout) && t.charging {
        timeoutCount := timeoutCount + 1;
      } else {
        timeoutCount := 0;
      }
      if timeoutCount > CHG_TIMEOUT_COUNT {
        if !t.usbOnline && t.presentAtTimeout {
          VoteOutDisable(TIMEOUT_VOTER, true, t.cbRc);
        }
        timeOut := true;
      }
    }

    method CheckChargerUovp(t: Tick) returns (fvVotes: seq<nat>)
      requires Valid()
      modifies temp, temp.battDyn, charger
      ensures Valid()
      ensures View() == CheckCharger(cfg, old(View()), t)
      ensures fvVotes == RecheckVotes(cfg, old(View()), t)
    {
      fvVotes := [];
      var _, recheck := charger.Check(t.vchg, true);
      if recheck {
        var vote := temp.CheckTemp(TempReading(t));
        fvVotes := One(vote);
      }
    }

    method CheckBatteryUovp(t: Tick)
      requires Valid()
      modifies this, outDisable, outDisable.clientStrs, outDisable.votes
      ensures Valid()
      ensures View() == CheckBattery(old(View()), t)
    {
      if !t.usbOnline && !t.presentAtBattery {
        return;
      }
      if t.vbatMv > BATT_SOFT_OVP_MV {
        if !battOvp {
          battOvp := true;
          VoteOutDisable(UOVP_VOTER, true, t.cbRc);
        }
      } else if battOvp && t.vbatMv < BATT_SOFT_OVP_MV - 50 {
        battOvp := false;
        VoteOutDisable(UOVP_VOTER, false, t.cbRc);
      }
    }

    method CheckTermCurrent(t: Tick)
      requires Valid()
      modifies this, full, outDisable, outDisable.clientStrs, outDisable.votes
      ensures Valid()
      ensures View() == CheckTerm(cfg, old(View()), t)
    {
      if chgDone && !rechargePending {
        return;
      }
      var region := temp.GetTempRegion(t.temp);
      var isFull := full.Check(
        BatteryFull.Sample(t.ffcIdle, t.usbOnline || t.onlineAtFull, region, t.vbatMv, t.ibatMa, t.decCv));
      if isFull {
        chgDone, rechargePending := true, false;
        if t.usbOnline {
          return;
        } else if t.onlineAtVote {
          VoteOutDisable(USER_VOTER, true, t.cbRc);
        }
      }
    }

    method CheckForRecharge(t: Tick)
      requires Valid()
      modifies this, outDisable, outDisable.clientStrs, outDisable.votes
      ensures Valid()
      ensures View() == CheckRecharge(cfg, old(View()), t)
    {
      var region := temp.GetTempRegion(t.temp);
      var vbatdetMv := cfg.wlsVbatdetMv[region] - t.decCv;
      if region <= BATT_TEMP_UNKNOWN || region >= BATT_TEMP_HOT {
        vbatdetMv := 0;
      }
      if !charger.chgOvp && chgDone && !rechargePending
        && region > BATT_TEMP_UNKNOWN && region < BATT_TEMP_HOT && vbatdetMv >= t.vbatMv {
        rechargePending, rechargeStatus := true, true;
        VoteOutDisable(USER_VOTER, false, t.cbRc);
      }
    }

    method RunChecks(t: Tick) returns (fvVotes: seq<nat>)
      requires Valid()
      modifies this, temp, temp.battDyn, full, charger, outDisable, outDisable.clientStrs, outDisable.votes
      ensures Valid()
      ensures View() == Checks(cfg, old(View()), t)
      ensures fvVotes == RecheckVotes(cfg, old(View()), t)
    {
      CheckChargeTimeout(t);
      fvVotes := CheckChargerUovp(t);
      CheckBatteryUovp(t);
      CheckTermCurrent(t);
      CheckForRecharge(t);
    }

    // oplus_chg_heartbeat_work; `again` says whether it schedules itself again, and
    // `fvVotes` are the regions that it votes a float voltage for.
    method HeartbeatWork(t: Tick) returns (again: bool, fvVotes: seq<nat>)
      requires Valid()
      modifies this, temp, temp.battDyn, full, charger, outDisable, outDisable.clientStrs, outDisable.votes
      ensures Valid()
      ensures View() == Heartbeat(cfg, old(View()), t)
      ensures fvVotes == HeartbeatVotes(cfg, old(View()), t)
      ensures again == t.present
    {
      again, fvVotes := t.present, [];
      if !t.present {
        return;
      }
      if !t.fastStarted {
        fvVotes := RunChecks(t);
      }
      if !charger.chgOvp && !timeOut && t.battGood {
        var vote := temp.CheckTemp(TempReading(t));
        fvVotes := fvVotes + One(vote);
      }
    }

    // oplus_chg_comm_status_init.
    method InitStatus()
      requires Valid()
      modifies this, temp, temp.battDyn, temp.ffcDyn, charger
      ensures Valid()
      ensures View() == StatusInit(cfg, old(View()))
    {
      rechargePending, rechargeStatus, timeOut, battOvp, timeoutCount := false, false, false, false, 0;
      chgDone := false;
      charger.StatusInit();
      temp.StatusInit();
    }

    // The part of the wireless driver's reset that concerns the output.
    method ResetDriver(cbRc: int32)
      requires Valid()
      modifies this, temp, temp.battDyn, temp.ffcDyn, charger, outDisable, outDisable.clientStrs, outDisable.votes
      ensures Valid()
      ensures View() == Reset(cfg, old(View()), cbRc)
    {
      VoteOutDisable(FFC_VOTER, false, cbRc);
      VoteOutDisable(USER_VOTER, false, cbRc);
      VoteOutDisable(STOP_VOTER, false, cbRc);
      VoteOutDisable(UOVP_VOTER, false, cbRc);
      var _, _ := outDisable.RerunElection(false, cbRc);
      InitStatus();
    }
  }
}
