/** The adaptive rate controller of the blast sender. Floating point enters only through a
    parameter, so that everything holds for every way of rounding. Times are milliseconds,
    rates are Mbps. */
module BlastRate {
  import opened Options

  const FeedbackInterval: nat := 100
  const HoldAfterDecrease: nat := 1500
  const HoldAfterPressureDecrease: nat := 5000
  const HighCeilingInitialHold: nat := 500
  const HighCeilingPressureHold: nat := 1000
  const LossConfirmDelay: nat := 200
  const CommitStallWindow: nat := 500
  const RepairPressureEvery: nat := 1500
  const ConservativeFloorMin: int := 300
  const LossBudgetMinPackets: nat := 64
  const SevereLossPercent: nat := 5
  const ProbeClean: nat := 30
  const MediumProbeClean: nat := 5
  const MinRate: int := 1

  datatype Multiplier =
    | Decrease | PressureDecrease | LossCeiling | PressureCeiling | MediumFloor
    | Increase | HighIncrease | LowStartHighIncrease | MediumIncrease | Reopen

  datatype Feedback = Feedback(sentBytes: nat, receivedBytes: nat, receivedPackets: nat, maxSeqPlusOne: nat)

  /** The floating-point computations: a rate times a multiplier, rounded; whether the queue
      is too long for a clean sample; how many repairs are pressure; whether the replay
      window is under pressure. */
  datatype Floats = Floats(
    scale: (int, Multiplier) -> int,
    queueTooLong: (Feedback, int) -> bool,
    repairPackets: (int, int) -> int,
    replayTooFull: (nat, nat) -> bool)

  datatype Controller = Controller(
    rate: int,
    ceiling: int,
    lossCeiling: int,
    initialLossCeiling: bool,
    cleanAtLossCeiling: nat,
    last: Feedback,
    lastFeedbackAt: nat,
    lastProgressBytes: nat,
    lastProgressAt: nat,
    commitStallAt: Option<nat>,
    holdIncrease: nat,
    startupLossHold: nat,
    lossCandidateAt: Option<nat>,
    lossCandidatePackets: nat)

  function Min(a: int, b: int): int { if a < b then a else b }

  function Max(a: int, b: int): int { if a < b then b else a }

  function Minus(a: nat, b: nat): nat { if a < b then 0 else a - b }

  function New(rate: int, ceiling: int, initialLossCeiling: int, now: nat): Controller {
    var r := Max(rate, 0);
    var c := Max(ceiling, r);
    var capped := 0 < initialLossCeiling < c;
    var hold := if c > 1500 && r > 0 then HighCeilingInitialHold else HoldAfterDecrease;
    var lossCeiling := if capped then Max(initialLossCeiling, r) else c;
    Controller(r, c, lossCeiling, capped, 0, Feedback(0, 0, 0, 0), now, 0, now, None,
               now + hold, now + HoldAfterDecrease, None, 0)
  }

  // ----- Down -----

  function PressureHold(c: Controller): nat {
    if 0 < c.ceiling <= 700 then HoldAfterDecrease
    else if c.ceiling > 1500 then HighCeilingPressureHold
    else HoldAfterPressureDecrease
  }

  function MediumFloorOf(fl: Floats, c: Controller): int {
    if c.ceiling <= 0 || c.ceiling > 700 then 0 else Max(fl.scale(c.ceiling, MediumFloor), MinRate)
  }

  /** The lower rate: at least one less if that is possible, but not through the floor. */
  function LowerRate(fl: Floats, c: Controller, force: bool): int {
    var scaled := Max(fl.scale(c.rate, if force then PressureDecrease else Decrease), MinRate);
    var next := Max(if scaled >= c.rate then c.rate - 1 else scaled, MinRate);
    var floor := MediumFloorOf(fl, c);
    if floor > 0 && c.rate >= floor && next < floor then floor else next
  }

  function RememberLossCeiling(fl: Floats, c: Controller, next: int, force: bool): Controller {
    if c.ceiling <= 0 || c.rate <= 0 then c
    else if !force && c.initialLossCeiling && c.lossCeiling > 0 && c.rate <= c.lossCeiling then
      c.(cleanAtLossCeiling := 0)
    else
      var known := if c.lossCeiling <= 0 || c.lossCeiling > c.ceiling then c.ceiling else c.lossCeiling;
      var scaled := fl.scale(c.rate, if force then PressureCeiling else LossCeiling);
      var ceiling := Min(Max(Max(scaled, next), MinRate), c.ceiling);
      c.(initialLossCeiling := false,
         lossCeiling := if force || ceiling < known then ceiling else known,
         cleanAtLossCeiling := 0)
  }

  function DecreaseWithCeiling(fl: Floats, c: Controller, now: nat, force: bool, cap: bool): Controller {
    var next := LowerRate(fl, c, force);
    var c1 := if cap then RememberLossCeiling(fl, c, next, force) else c;
    c1.(rate := next, holdIncrease := now + (if force then PressureHold(c) else HoldAfterDecrease))
  }

  // ----- Up -----

  function EffectiveCeiling(c: Controller): int {
    if c.ceiling <= 0 then 0
    else if 0 < c.lossCeiling < c.ceiling then c.lossCeiling
    else c.ceiling
  }

  function IncreaseMultiplier(c: Controller): Multiplier {
    if c.ceiling > 1500 && c.rate < 700 then LowStartHighIncrease
    else if c.ceiling > 1500 then HighIncrease
    else if 0 < c.ceiling <= 700 then MediumIncrease
    else Increase
  }

  function ProbeSamples(c: Controller): nat {
    if c.initialLossCeiling then MediumProbeClean
    else if 0 < c.ceiling <= 700 then MediumProbeClean
    else ProbeClean
  }

  datatype Reopened = Shut(c: Controller) | Wider(c: Controller) | RateSet(c: Controller)

  /** A clean sample at the loss ceiling counts towards raising it. */
  function MaybeReopen(fl: Floats, c: Controller): Reopened {
    if c.ceiling <= 0 || c.lossCeiling <= 0 || c.lossCeiling >= c.ceiling then Shut(c)
    else if c.cleanAtLossCeiling + 1 < ProbeSamples(c) then Shut(c.(cleanAtLossCeiling := c.cleanAtLossCeiling + 1))
    else if c.initialLossCeiling && c.ceiling > 1500 then
      var next := Min(Max(fl.scale(c.lossCeiling, Reopen), c.rate + 1), c.ceiling);
      RateSet(c.(lossCeiling := c.ceiling, initialLossCeiling := false, cleanAtLossCeiling := 0, rate := next))
    else
      var next := Min(Max(fl.scale(c.lossCeiling, Increase), c.lossCeiling + 1), c.ceiling);
      Wider(c.(lossCeiling := next, cleanAtLossCeiling := 0))
  }

  function Raise(fl: Floats, c: Controller): Controller {
    c.(rate := Min(Max(fl.scale(c.rate, IncreaseMultiplier(c)), c.rate + 1), EffectiveCeiling(c)))
  }

  function IncreaseRate(fl: Floats, c: Controller): Controller {
    if EffectiveCeiling(c) <= 0 then c
    else if c.rate < EffectiveCeiling(c) then Raise(fl, c)
    else
      match MaybeReopen(fl, c)
      case Shut(c') => c'
      case RateSet(c') => c'
      case Wider(c') => if c'.rate >= EffectiveCeiling(c') then c' else Raise(fl, c')
  }

  // ----- Feedback -----

  function Missing(f: Feedback): nat { Minus(f.maxSeqPlusOne, f.receivedPackets) }

  function LossBudget(received: nat): nat {
    if received / 100 < LossBudgetMinPackets then LossBudgetMinPackets else received / 100
  }

  predicate RatioAtLeast(numerator: nat, denominator: nat, percent: nat) {
    numerator > 0 && (denominator == 0 || numerator * 100 >= denominator * percent)
  }

  predicate CommitStalled(c: Controller, now: nat, f: Feedback, receivedDelta: nat) {
    && c.rate > MinRate && receivedDelta == 0 && f.sentBytes > f.receivedBytes
    && now >= c.lastProgressAt + CommitStallWindow
    && (c.commitStallAt.Some? ==> now >= c.commitStallAt.value + PressureHold(c))
  }

  predicate StartupLossHeld(c: Controller, now: nat) {
    0 < c.ceiling <= 700 && c.rate < c.ceiling && c.rate >= ConservativeFloorMin && now < c.startupLossHold
  }

  function ClearLossCandidate(c: Controller): Controller {
    c.(lossCandidateAt := None, lossCandidatePackets := 0)
  }

  /** Moderate loss is acted on only if it is still there a while later; `None` means act. */
  function DeferModerateLoss(c: Controller, now: nat, missing: nat, severe: bool): Option<Controller> {
    if severe || (c.lossCeiling > 0 && c.ceiling > 0 && c.lossCeiling < c.ceiling) then None
    else if c.lossCandidateAt.None? || missing < c.lossCandidatePackets then
      Some(c.(lossCandidateAt := Some(now), lossCandidatePackets := missing))
    else if now < c.lossCandidateAt.value + LossConfirmDelay then
      Some(if missing > c.lossCandidatePackets then c.(lossCandidatePackets := missing) else c)
    else None
  }

  function ReactToLoss(fl: Floats, c: Controller, now: nat, missing: nat, severe: bool): Controller {
    var deferred := DeferModerateLoss(c, now, missing, severe);
    if StartupLossHeld(c, now) then ClearLossCandidate(c)
    else if deferred.Some? then deferred.value
    else DecreaseWithCeiling(fl, ClearLossCandidate(c), now, false, true)
  }

  function Noted(c: Controller, now: nat, f: Feedback): Controller {
    var c1 := c.(last := f, lastFeedbackAt := now);
    if f.receivedBytes > c.lastProgressBytes then
      c1.(lastProgressBytes := f.receivedBytes, lastProgressAt := now, commitStallAt := None)
    else c1
  }

  function Observe(fl: Floats, c: Controller, now: nat, f: Feedback): Controller {
    if c.rate <= 0 || now < c.lastFeedbackAt + FeedbackInterval then c
    else
      var receivedDelta := Minus(f.receivedBytes, c.last.receivedBytes);
      var packetDelta := Minus(f.receivedPackets, c.last.receivedPackets);
      var missing := Missing(f);
      var missingDelta := Minus(missing, Missing(c.last));
      var c1 := Noted(c, now, f);
      if f.sentBytes <= c.last.sentBytes then c1
      else if CommitStalled(c1, now, f, receivedDelta) then
        DecreaseWithCeiling(fl, c1, now, true, true).(commitStallAt := Some(now))
      else if missing > LossBudget(f.receivedPackets) && missingDelta > LossBudget(packetDelta) then
        var severe := RatioAtLeast(missing, f.receivedPackets, SevereLossPercent)
                      || RatioAtLeast(missingDelta, packetDelta, SevereLossPercent);
        ReactToLoss(fl, c1, now, missing, severe)
      else
        var c2 := ClearLossCandidate(c1);
        if receivedDelta == 0 || missing != 0 || now < c2.holdIncrease || fl.queueTooLong(f, c2.rate) then c2
        else IncreaseRate(fl, c2)
  }

  // ----- Pressure -----

  datatype Control = Control(controller: Controller, repairPressureAt: Option<nat>, repairPressurePackets: int)

  function ObserveReplayPressure(fl: Floats, s: Control, now: nat, retained: nat, maxBytes: nat): Control {
    if maxBytes == 0 || !fl.replayTooFull(retained, maxBytes) then s
    else s.(controller := DecreaseWithCeiling(fl, s.controller, now, true, true))
  }

  function ObserveRepairPressure(fl: Floats, s: Control, now: nat, retransmits: int): Control {
    var c := s.controller;
    if c.rate <= MinRate || retransmits <= 0 then s
    else
      var restart := s.repairPressureAt.None? || now >= s.repairPressureAt.value + RepairPressureEvery;
      var at := if restart then now else s.repairPressureAt.value;
      var packets := (if restart then 0 else s.repairPressurePackets) + retransmits;
      if packets < fl.repairPackets(c.rate, c.ceiling) then Control(c, Some(at), packets)
      else if now < c.holdIncrease then Control(c, Some(now), 0)
      else
        var c' := DecreaseWithCeiling(fl, c, now, true, c.ceiling <= 1500 || c.initialLossCeiling);
        if c'.rate != c.rate then Control(c', Some(now), 0) else Control(c', Some(at), packets)
  }

  // ----- Runs -----

  datatype Event =
    | Sample(now: nat, feedback: Feedback)
    | Replay(now: nat, retained: nat, maxBytes: nat)
    | Repair(now: nat, retransmits: int)

  function React(fl: Floats, s: Control, e: Event): Control {
    match e
    case Sample(now, f) => s.(controller := Observe(fl, s.controller, now, f))
    case Replay(now, retained, maxBytes) => ObserveReplayPressure(fl, s, now, retained, maxBytes)
    case Repair(now, retransmits) => ObserveRepairPressure(fl, s, now, retransmits)
  }

  /** A run with a clock that does not go back. */
  ghost predicate IsRun(fl: Floats, run: seq<Control>, events: seq<Event>) {
    && |run| == |events| + 1
    && (forall n :: 0 <= n < |events| ==> run[n + 1] == React(fl, run[n], events[n]))
    && (forall m, n :: 0 <= m < n < |events| ==> events[m].now <= events[n].now)
  }
}
