/** The rate controller and the send control as the objects that events update in place. */
module BlastRateEndpoint {
  import opened Options
  import opened BlastRate
  import opened BlastRateResults

  class RateController {
    const floats: Floats
    var rateMbps: int
    const ceilingMbps: int
    var lossCeilingMbps: int
    var initialLossCeiling: bool
    var cleanAtLossCeiling: nat
    var last: Feedback
    var lastFeedbackAt: nat
    var lastProgressBytes: nat
    var lastProgressAt: nat
    var commitStallAt: Option<nat>
    var holdIncrease: nat
    var startupLossHold: nat
    var lossCandidateAt: Option<nat>
    var lossCandidatePk: nat

    function View(): Controller
      reads this
    {
      Controller(rateMbps, ceilingMbps, lossCeilingMbps, initialLossCeiling, cleanAtLossCeiling, last, lastFeedbackAt,
                 lastProgressBytes, lastProgressAt, commitStallAt, holdIncrease, startupLossHold,
                 lossCandidateAt, lossCandidatePk)
    }

    /** 1 <= rate <= loss ceiling <= ceiling, and a count below the next probe. */
    ghost predicate Valid()
      reads this
    {
      Inv(View())
    }

    constructor (floats: Floats, rate: int, ceiling: int, initialLoss: int, now: nat)
      ensures View() == New(rate, ceiling, initialLoss, now) && this.floats == floats
      ensures rate >= 1 ==> Valid()
    {
      this.floats := floats;
      var r := if rate < 0 then 0 else rate;
      var c := if ceiling < r then r else ceiling;
      rateMbps, ceilingMbps, lossCeilingMbps, initialLossCeiling := r, c, c, false;
      if 0 < initialLoss < c {
        lossCeilingMbps := if initialLoss < r then r else initialLoss;
        initialLossCeiling := true;
      }
      cleanAtLossCeiling, last, lastFeedbackAt := 0, Feedback(0, 0, 0, 0), now;
      lastProgressBytes, lastProgressAt, commitStallAt := 0, now, None;
      holdIncrease := now + (if c > 1500 && r > 0 then HighCeilingInitialHold else HoldAfterDecrease);
      startupLossHold := now + HoldAfterDecrease;
      lossCandidateAt, lossCandidatePk := None, 0;
    }

    method RememberLoss(next: int, force: bool)
      modifies this`lossCeilingMbps, this`initialLossCeiling, this`cleanAtLossCeiling
      ensures View() == RememberLossCeiling(floats, old(View()), next, force)
      ensures old(Valid()) && 1 <= next <= rateMbps ==> Inv(View().(rate := next))
    {
      if Inv(View()) && 1 <= next <= rateMbps {
        RememberKeeps(floats, View(), next, force);
      }
      hide Inv;
      if ceilingMbps <= 0 || rateMbps <= 0 {
        return;
      }
      if !force && initialLossCeiling && lossCeilingMbps > 0 && rateMbps <= lossCeilingMbps {
        cleanAtLossCeiling := 0;
        return;
      }
      initialLossCeiling := false;
      if lossCeilingMbps <= 0 || lossCeilingMbps > ceilingMbps {
        lossCeilingMbps := ceilingMbps;
      }
      var ceiling := floats.scale(rateMbps, if force then PressureCeiling else LossCeiling);
      if ceiling < next {
        ceiling := next;
      }
      if ceiling < MinRate {
        ceiling := MinRate;
      }
      if ceiling > ceilingMbps {
        ceiling := ceilingMbps;
      }
      if force || ceiling < lossCeilingMbps {
        lossCeilingMbps := ceiling;
      }
      cleanAtLossCeiling := 0;
    }

    method LowerWithCeiling(now: nat, force: bool, cap: bool)
      modifies this
      ensures View() == DecreaseWithCeiling(floats, old(View()), now, force, cap)
      ensures old(Valid()) ==> Valid() && Lowers(floats, old(View()), View(), now)
    {
      if Inv(View()) {
        DecreaseSteps(floats, View(), now, force, cap);
      }
      hide RememberLossCeiling, Inv, Lowers, Step;
      var next := floats.scale(rateMbps, if force then PressureDecrease else Decrease);
      if next < MinRate {
        next := MinRate;
      }
      if next >= rateMbps {
        next := rateMbps - 1;
      }
      if next < MinRate {
        next := MinRate;
      }
      var floor := MediumFloorOf(floats, View());
      if floor > 0 && rateMbps >= floor && next < floor {
        next := floor;
      }
      assert next == LowerRate(floats, old(View()), force);
      if cap {
        RememberLoss(next, force);
      }
      rateMbps := next;
      holdIncrease := now + (if force then PressureHold(View()) else HoldAfterDecrease);
    }

    /** `reopened` says whether the loss ceiling moved, `rateSet` whether the rate did too. */
    method MaybeReopenLossCeiling() returns (reopened: bool, rateSet: bool)
      modifies this`lossCeilingMbps, this`initialLossCeiling, this`cleanAtLossCeiling, this`rateMbps
      ensures match MaybeReopen(floats, old(View()))
              case Shut(c) => !reopened && View() == c
              case Wider(c) => reopened && !rateSet && View() == c
              case RateSet(c) => reopened && rateSet && View() == c
      ensures old(Valid()) && old(rateMbps) == old(lossCeilingMbps) < ceilingMbps ==>
              Valid() && ToGo(View()) < ToGo(old(View()))
    {
      if Inv(View()) && rateMbps == lossCeilingMbps < ceilingMbps {
        ReopenKeeps(floats, View());
        ReopenProgress(floats, View());
      }
      hide Inv, ToGo;
      if ceilingMbps <= 0 || lossCeilingMbps <= 0 || lossCeilingMbps >= ceilingMbps {
        return false, false;
      }
      cleanAtLossCeiling := cleanAtLossCeiling + 1;
      if cleanAtLossCeiling < ProbeSamples(View()) {
        return false, false;
      }
      if initialLossCeiling && ceilingMbps > 1500 {
        var nextRate := floats.scale(lossCeilingMbps, Reopen);
        if nextRate <= rateMbps {
          nextRate := rateMbps + 1;
        }
        if nextRate > ceilingMbps {
          nextRate := ceilingMbps;
        }
        lossCeilingMbps, initialLossCeiling, cleanAtLossCeiling, rateMbps := ceilingMbps, false, 0, nextRate;
        return true, true;
      }
      var next := floats.scale(lossCeilingMbps, Increase);
      if next <= lossCeilingMbps {
        next := lossCeilingMbps + 1;
      }
      if next > ceilingMbps {
        next := ceilingMbps;
      }
      lossCeilingMbps, cleanAtLossCeiling := next, 0;
      return true, false;
    }

    method RaiseRate()
      modifies this`lossCeilingMbps, this`initialLossCeiling, this`cleanAtLossCeiling, this`rateMbps
      ensures View() == IncreaseRate(floats, old(View()))
      ensures old(Valid()) ==> Valid() && old(rateMbps) <= rateMbps
      ensures old(Valid()) && old(rateMbps) < ceilingMbps ==> ToGo(View()) < ToGo(old(View()))
    {
      if Inv(View()) {
        IncreaseKeeps(floats, View());
        IncreaseProgress(floats, View());
      }
      hide MaybeReopen, Inv, ToGo;
      var ceiling := EffectiveCeiling(View());
      if ceiling <= 0 {
        return;
      }
      if rateMbps >= ceiling {
        var reopened, rateSet := MaybeReopenLossCeiling();
        if !reopened || rateSet {
          return;
        }
        ceiling := EffectiveCeiling(View());
        if rateMbps >= ceiling {
          return;
        }
      }
      var next := floats.scale(rateMbps, IncreaseMultiplier(View()));
      if next <= rateMbps {
        next := rateMbps + 1;
      }
      if next > ceiling {
        next := ceiling;
      }
      rateMbps := next;
    }

    method DeferLoss(now: nat, missing: nat, severe: bool) returns (deferred: bool)
      modifies this`lossCandidateAt, this`lossCandidatePk
      ensures var d := DeferModerateLoss(old(View()), now, missing, severe);
              deferred == d.Some? && View() == if d.Some? then d.value else old(View())
    {
      if severe || (lossCeilingMbps > 0 && ceilingMbps > 0 && lossCeilingMbps < ceilingMbps) {
        return false;
      }
      if lossCandidateAt.None? || missing < lossCandidatePk {
        lossCandidateAt, lossCandidatePk := Some(now), missing;
        return true;
      }
      if now < lossCandidateAt.value + LossConfirmDelay {
        if missing > lossCandidatePk {
          lossCandidatePk := missing;
        }
        return true;
      }
      return false;
    }

    /** Loss over budget: excused at startup, put off until it is confirmed, or acted on. */
    method HandleLoss(now: nat, missing: nat, severe: bool)
      modifies this
      ensures View() == ReactToLoss(floats, old(View()), now, missing, severe)
    {
      hide DecreaseWithCeiling, DeferModerateLoss, Inv, Lowers;
      if StartupLossHeld(View(), now) {
        lossCandidateAt, lossCandidatePk := None, 0;
        return;
      }
      var deferred := DeferLoss(now, missing, severe);
      if !deferred {
        lossCandidateAt, lossCandidatePk := None, 0;
        LowerWithCeiling(now, false, true);
      }
    }

    method ObserveFeedback(now: nat, f: Feedback)
      modifies this
      ensures View() == Observe(floats, old(View()), now, f)
      ensures old(Valid()) ==> Valid() && Step(floats, old(View()), View(), now)
      ensures old(Valid()) ==>
                if SampleDecreases(old(View()), now, f) then Lowers(floats, old(View()), View(), now)
                else Spares(old(View()), View())
    {
      hide Inv, Step, Lowers, Spares, SampleDecreases, Observe;
      ghost var before := View();
      TakeSample(now, f);
      if Inv(before) {
        ObserveSteps(floats, before, now, f);
        Stepped(floats, before, View(), now);
      }
    }

    method TakeSample(now: nat, f: Feedback)
      modifies this
      ensures View() == Observe(floats, old(View()), now, f)
    {
      hide Inv, Lowers, ToGo;
      hide DecreaseWithCeiling, IncreaseRate, ReactToLoss, RatioAtLeast, LossBudget;
      if rateMbps <= 0 || now < lastFeedbackAt + FeedbackInterval {
        return;
      }
      var sentBefore := last.sentBytes;
      var receivedDelta := Minus(f.receivedBytes, last.receivedBytes);
      var packetDelta := Minus(f.receivedPackets, last.receivedPackets);
      var missing := Missing(f);
      var missingDelta := Minus(missing, Missing(last));
      last, lastFeedbackAt := f, now;
      if f.receivedBytes > lastProgressBytes {
        lastProgressBytes, lastProgressAt, commitStallAt := f.receivedBytes, now, None;
      }
      if f.sentBytes <= sentBefore {
        return;
      }
      if CommitStalled(View(), now, f, receivedDelta) {
        LowerWithCeiling(now, true, true);
        commitStallAt := Some(now);
        return;
      }
      if missing > LossBudget(f.receivedPackets) && missingDelta > LossBudget(packetDelta) {
        var severe := RatioAtLeast(missing, f.receivedPackets, SevereLossPercent)
                      || RatioAtLeast(missingDelta, packetDelta, SevereLossPercent);
        HandleLoss(now, missing, severe);
        return;
      }
      lossCandidateAt, lossCandidatePk := None, 0;
      if receivedDelta == 0 || missing != 0 || now < holdIncrease || floats.queueTooLong(f, rateMbps) {
        return;
      }
      RaiseRate();
    }
  }

  class SendControl {
    const controller: RateController
    var repairPressureAt: Option<nat>
    var repairPressurePk: int

    function View(): Control
      reads this, controller
    {
      Control(controller.View(), repairPressureAt, repairPressurePk)
    }

    ghost predicate Valid()
      reads this, controller
    {
      controller.Valid()
    }

    constructor (controller: RateController)
      ensures this.controller == controller && View() == Control(controller.View(), None, 0)
    {
      this.controller := controller;
      repairPressureAt, repairPressurePk := None, 0;
    }

    method ObserveReplay(now: nat, retained: nat, maxBytes: nat)
      modifies controller
      ensures View() == ObserveReplayPressure(controller.floats, old(View()), now, retained, maxBytes)
      ensures old(Valid()) ==> Valid() && Step(controller.floats, old(View().controller), View().controller, now)
      ensures old(Valid()) ==>
                if Decreases(controller.floats, old(View()), Replay(now, retained, maxBytes)) then
                  Lowers(controller.floats, old(View().controller), View().controller, now)
                else Spares(old(View().controller), View().controller)
    {
      if Inv(View().controller) {
        ReactSteps(controller.floats, View(), Replay(now, retained, maxBytes));
        Stepped(controller.floats, View().controller,
                React(controller.floats, View(), Replay(now, retained, maxBytes)).controller, now);
      }
      hide Inv, Step, Lowers, Spares, Decreases;
      if maxBytes == 0 || !controller.floats.replayTooFull(retained, maxBytes) {
        return;
      }
      controller.LowerWithCeiling(now, true, true);
    }

    method ObserveRepair(now: nat, retransmits: int)
      modifies this, controller
      ensures View() == ObserveRepairPressure(controller.floats, old(View()), now, retransmits)
      ensures old(Valid()) ==> Valid() && Step(controller.floats, old(View().controller), View().controller, now)
      ensures old(Valid()) ==>
                if Decreases(controller.floats, old(View()), Repair(now, retransmits)) then
                  Lowers(controller.floats, old(View().controller), View().controller, now)
                else Spares(old(View().controller), View().controller)
    {
      if Inv(View().controller) {
        ReactSteps(controller.floats, View(), Repair(now, retransmits));
        Stepped(controller.floats, View().controller,
                React(controller.floats, View(), Repair(now, retransmits)).controller, now);
      }
      hide Inv, Step, Lowers, Spares, Decreases;
      hide DecreaseWithCeiling;
      if controller.rateMbps <= MinRate || retransmits <= 0 {
        return;
      }
      if repairPressureAt.None? || now >= repairPressureAt.value + RepairPressureEvery {
        repairPressureAt, repairPressurePk := Some(now), 0;
      }
      repairPressurePk := repairPressurePk + retransmits;
      if repairPressurePk < controller.floats.repairPackets(controller.rateMbps, controller.ceilingMbps) {
        return;
      }
      if now < controller.holdIncrease {
        repairPressureAt, repairPressurePk := Some(now), 0;
        return;
      }
      var before := controller.rateMbps;
      controller.LowerWithCeiling(now, true, controller.ceilingMbps <= 1500 || controller.initialLossCeiling);
      if controller.rateMbps != before {
        repairPressureAt, repairPressurePk := Some(now), 0;
      }
    }
  }
}
