/** What the rate controller guarantees, for every way of rounding. */
module BlastRateResults {
  import opened Options
  import opened BlastRate

  // ----- Bounds -----

  ghost predicate Inv(c: Controller) {
    && 1 <= c.rate <= c.lossCeiling <= c.ceiling
    && c.cleanAtLossCeiling < ProbeClean
    && (c.lossCeiling == c.ceiling ==> c.cleanAtLossCeiling == 0)
  }

  lemma NewKeeps(rate: int, ceiling: int, initialLossCeiling: int, now: nat)
    requires rate >= 1
    ensures Inv(New(rate, ceiling, initialLossCeiling, now))
  {
  }

  /** A decrease lowers the rate, but not below 1 and not through the medium floor; only a
      rate that is already there stays. */
  lemma LowerRateBounds(fl: Floats, c: Controller, force: bool)
    requires c.rate >= 1
    ensures 1 <= LowerRate(fl, c, force) <= c.rate
    ensures c.rate >= MediumFloorOf(fl, c) ==> LowerRate(fl, c, force) >= MediumFloorOf(fl, c)
    ensures LowerRate(fl, c, force) == c.rate <==> c.rate == 1 || c.rate == MediumFloorOf(fl, c)
  {
  }

  lemma RememberKeeps(fl: Floats, c: Controller, next: int, force: bool)
    requires Inv(c) && 1 <= next <= c.rate
    ensures Inv(RememberLossCeiling(fl, c, next, force).(rate := next))
  {
  }

  lemma DecreaseKeeps(fl: Floats, c: Controller, now: nat, force: bool, cap: bool)
    requires Inv(c)
    ensures var c' := DecreaseWithCeiling(fl, c, now, force, cap);
            && Inv(c') && c'.rate <= c.rate && (c.rate >= MediumFloorOf(fl, c) ==> c'.rate >= MediumFloorOf(fl, c))
            && (c'.rate == c.rate <==> c.rate == 1 || c.rate == MediumFloorOf(fl, c))
  {
    LowerRateBounds(fl, c, force);
    RememberKeeps(fl, c, LowerRate(fl, c, force), force);
    hide LowerRate, RememberLossCeiling, MediumFloorOf;
  }

  lemma RaiseKeeps(fl: Floats, c: Controller)
    requires Inv(c) && c.rate < EffectiveCeiling(c)
    ensures Inv(Raise(fl, c)) && c.rate < Raise(fl, c).rate
  {
    hide IncreaseMultiplier;
  }

  lemma ReopenKeeps(fl: Floats, c: Controller)
    requires Inv(c) && c.rate >= EffectiveCeiling(c)
    ensures Inv(MaybeReopen(fl, c).c) && c.rate <= MaybeReopen(fl, c).c.rate
  {
  }

  lemma IncreaseKeeps(fl: Floats, c: Controller)
    requires Inv(c)
    ensures Inv(IncreaseRate(fl, c)) && c.rate <= IncreaseRate(fl, c).rate
  {
    hide Raise, MaybeReopen;
    if c.rate < EffectiveCeiling(c) {
      RaiseKeeps(fl, c);
    } else {
      ReopenKeeps(fl, c);
      var r := MaybeReopen(fl, c);
      if r.Wider? && r.c.rate < EffectiveCeiling(r.c) {
        RaiseKeeps(fl, r.c);
      }
    }
  }

  // ----- One event -----

  function MinHold(ceiling: int): nat {
    if ceiling > 1500 then 1000 else 1500
  }

  /** What one event may do to a controller: keep the bounds; raise the rate, but only once
      the hold is over; hold back increases, and only further than before. */
  ghost predicate Step(fl: Floats, c: Controller, c': Controller, now: nat) {
    && Inv(c') && c'.ceiling == c.ceiling
    && (c.rate >= MediumFloorOf(fl, c) ==> c'.rate >= MediumFloorOf(fl, c))
    && (c'.rate > c.rate ==> now >= c.holdIncrease)
    && (c'.holdIncrease == c.holdIncrease || c'.holdIncrease >= now + MinHold(c.ceiling))
  }

  /** What a decrease does: the rate goes down unless it is at its floor, and in either case
      increases are held back. */
  ghost predicate Lowers(fl: Floats, c: Controller, c': Controller, now: nat) {
    && c'.rate <= c.rate && (c'.rate == c.rate <==> c.rate == 1 || c.rate == MediumFloorOf(fl, c))
    && c'.holdIncrease >= now + MinHold(c.ceiling)
  }

  /** What everything else does. */
  ghost predicate Spares(c: Controller, c': Controller) {
    c.rate <= c'.rate && c'.holdIncrease == c.holdIncrease
  }

  lemma DecreaseSteps(fl: Floats, c: Controller, now: nat, force: bool, cap: bool)
    requires Inv(c)
    ensures Step(fl, c, DecreaseWithCeiling(fl, c, now, force, cap), now)
    ensures Lowers(fl, c, DecreaseWithCeiling(fl, c, now, force, cap), now)
  {
    DecreaseKeeps(fl, c, now, force, cap);
    hide LowerRate, MediumFloorOf;
  }

  lemma IncreaseSteps(fl: Floats, c: Controller, now: nat)
    requires Inv(c) && now >= c.holdIncrease
    ensures Step(fl, c, IncreaseRate(fl, c), now) && Spares(c, IncreaseRate(fl, c))
  {
    IncreaseKeeps(fl, c);
  }

  /** Bookkeeping that no rule looks at. */
  ghost predicate SameRates(c: Controller, c': Controller) {
    && c'.rate == c.rate && c'.ceiling == c.ceiling && c'.lossCeiling == c.lossCeiling
    && c'.initialLossCeiling == c.initialLossCeiling && c'.cleanAtLossCeiling == c.cleanAtLossCeiling
    && c'.holdIncrease == c.holdIncrease
  }

  lemma StaysPut(fl: Floats, c: Controller, c': Controller, now: nat)
    requires SameRates(c, c') && Inv(c)
    ensures Step(fl, c, c', now) && Inv(c') && Spares(c, c')
  {
  }

  lemma DeferStaysPut(c: Controller, now: nat, missing: nat, severe: bool)
    ensures DeferModerateLoss(c, now, missing, severe).Some? ==>
            SameRates(c, DeferModerateLoss(c, now, missing, severe).value)
  {
  }

  /** The sample shows more loss than the budget allows, in total and since the last one. */
  predicate LossShown(c: Controller, f: Feedback) {
    && Missing(f) > LossBudget(f.receivedPackets)
    && Minus(Missing(f), Missing(c.last)) > LossBudget(Minus(f.receivedPackets, c.last.receivedPackets))
  }

  predicate SevereShown(c: Controller, f: Feedback) {
    || RatioAtLeast(Missing(f), f.receivedPackets, SevereLossPercent)
    || RatioAtLeast(Minus(Missing(f), Missing(c.last)), Minus(f.receivedPackets, c.last.receivedPackets),
                    SevereLossPercent)
  }

  /** A sample asks for a decrease: nothing has been committed for too long, or there is
      loss that is neither excused at startup nor still to be confirmed. */
  predicate SampleDecreases(c: Controller, now: nat, f: Feedback) {
    && c.rate > 0 && now >= c.lastFeedbackAt + FeedbackInterval && f.sentBytes > c.last.sentBytes
    && var c1 := Noted(c, now, f);
       || CommitStalled(c1, now, f, Minus(f.receivedBytes, c.last.receivedBytes))
       || (LossShown(c, f) && !StartupLossHeld(c1, now)
           && DeferModerateLoss(c1, now, Missing(f), SevereShown(c, f)).None?)
  }

  /** Repairs ask for a decrease: there were enough of them in the window, and the last
      decrease is long enough ago. */
  predicate RepairDecreases(fl: Floats, s: Control, now: nat, retransmits: int) {
    var restart := s.repairPressureAt.None? || now >= s.repairPressureAt.value + RepairPressureEvery;
    && s.controller.rate > MinRate && retransmits > 0 && now >= s.controller.holdIncrease
    && fl.repairPackets(s.controller.rate, s.controller.ceiling)
       <= (if restart then 0 else s.repairPressurePackets) + retransmits
  }

  predicate Decreases(fl: Floats, s: Control, e: Event) {
    match e
    case Sample(now, f) => SampleDecreases(s.controller, now, f)
    case Replay(_, retained, maxBytes) => maxBytes > 0 && fl.replayTooFull(retained, maxBytes)
    case Repair(now, retransmits) => RepairDecreases(fl, s, now, retransmits)
  }

  /** What happens to a sample once it is noted: a decrease exactly if it asks for one, else
      nothing to the rates, or an increase after the hold. */
  lemma ObserveCases(fl: Floats, c: Controller, now: nat, f: Feedback) returns (c1: Controller)
    ensures SameRates(c, c1)
    ensures var c' := Observe(fl, c, now, f);
            if SampleDecreases(c, now, f) then
              || c' == DecreaseWithCeiling(fl, c1, now, true, true).(commitStallAt := Some(now))
              || c' == DecreaseWithCeiling(fl, c1, now, false, true)
            else
              SameRates(c, c') || (c' == IncreaseRate(fl, c1) && now >= c1.holdIncrease)
  {
    var noted := Noted(c, now, f);
    DeferStaysPut(noted, now, Missing(f), SevereShown(c, f));
    hide DecreaseWithCeiling, IncreaseRate, RatioAtLeast, LossBudget, DeferModerateLoss;
    var stalled := CommitStalled(noted, now, f, Minus(f.receivedBytes, c.last.receivedBytes));
    c1 := if stalled then noted else ClearLossCandidate(noted);
  }

  lemma ObserveSteps(fl: Floats, c: Controller, now: nat, f: Feedback)
    requires Inv(c)
    ensures var c' := Observe(fl, c, now, f);
            Step(fl, c, c', now) && if SampleDecreases(c, now, f) then Lowers(fl, c, c', now) else Spares(c, c')
  {
    var c' := Observe(fl, c, now, f);
    var c1 := ObserveCases(fl, c, now, f);
    hide Observe, SampleDecreases, DecreaseWithCeiling, IncreaseRate;
    if SampleDecreases(c, now, f) {
      DecreaseSteps(fl, c1, now, true, true);
      DecreaseSteps(fl, c1, now, false, true);
    } else if SameRates(c, c') {
      StaysPut(fl, c, c', now);
    } else {
      IncreaseSteps(fl, c1, now);
    }
    hide MediumFloorOf;
    assert MediumFloorOf(fl, c1) == MediumFloorOf(fl, c) by { SameFloor(fl, c, c1); }
  }

  lemma SameFloor(fl: Floats, c: Controller, c': Controller)
    requires c.ceiling == c'.ceiling
    ensures MediumFloorOf(fl, c) == MediumFloorOf(fl, c')
  {
  }

  lemma ReactSteps(fl: Floats, s: Control, e: Event)
    requires Inv(s.controller)
    ensures var c, c' := s.controller, React(fl, s, e).controller;
            Step(fl, c, c', e.now) && if Decreases(fl, s, e) then Lowers(fl, c, c', e.now) else Spares(c, c')
  {
    hide Observe, DecreaseWithCeiling, SampleDecreases, Lowers, Spares, Step;
    match e
    case Sample(now, f) => ObserveSteps(fl, s.controller, now, f);
    case Replay(now, _, _) =>
      DecreaseSteps(fl, s.controller, now, true, true);
      StaysPut(fl, s.controller, s.controller, now);
    case Repair(now, _) =>
      DecreaseSteps(fl, s.controller, now, true, s.controller.ceiling <= 1500 || s.controller.initialLossCeiling);
      StaysPut(fl, s.controller, s.controller, now);
  }

  // ----- Whole runs -----

  /** From a rate of at least 1, every run keeps 1 <= rate <= loss ceiling <= ceiling. */
  lemma {:induction false} BoundsHold(fl: Floats, run: seq<Control>, events: seq<Event>, n: nat)
    requires IsRun(fl, run, events) && n < |run| && Inv(run[0].controller)
    ensures Inv(run[n].controller) && run[n].controller.ceiling == run[0].controller.ceiling
    ensures n < |events| ==> Step(fl, run[n].controller, run[n + 1].controller, events[n].now)
  {
    hide React, Inv, Step, Decreases, Lowers, Spares;
    if n > 0 {
      BoundsHold(fl, run, events, n - 1);
      Stepped(fl, run[n - 1].controller, run[n].controller, events[n - 1].now);
    }
    if n < |events| {
      ReactSteps(fl, run[n], events[n]);
    }
  }

  lemma Stepped(fl: Floats, c: Controller, c': Controller, now: nat)
    requires Step(fl, c, c', now)
    ensures Inv(c') && c'.ceiling == c.ceiling
  {
  }

  /** A rate that has reached the floor of a medium ceiling never falls below it. */
  lemma {:induction false} FloorHolds(fl: Floats, run: seq<Control>, events: seq<Event>, m: nat, n: nat)
    requires IsRun(fl, run, events) && m <= n < |run| && Inv(run[0].controller)
    requires run[m].controller.rate >= MediumFloorOf(fl, run[m].controller)
    ensures run[n].controller.rate >= MediumFloorOf(fl, run[m].controller)
    decreases n
  {
    hide React, Inv, MediumFloorOf, MinHold;
    assert |run| == |events| + 1;
    hide IsRun;
    if m < n {
      FloorHolds(fl, run, events, m, n - 1);
      BoundsHold(fl, run, events, m);
      BoundsHold(fl, run, events, n - 1);
      SameFloor(fl, run[m].controller, run[n - 1].controller);
    }
  }

  /** Exactly the events that ask for it lower the rate or move the hold: such an event holds
      back increases even if the rate is at its floor already. */
  lemma DecreasesExactly(fl: Floats, run: seq<Control>, events: seq<Event>, n: nat)
    requires IsRun(fl, run, events) && n < |events| && Inv(run[0].controller)
    ensures var c, c' := run[n].controller, run[n + 1].controller;
            if Decreases(fl, run[n], events[n]) then Lowers(fl, c, c', events[n].now) else Spares(c, c')
  {
    BoundsHold(fl, run, events, n);
    hide React, Inv, Step, Decreases, Lowers, Spares;
    ReactSteps(fl, run[n], events[n]);
  }

  lemma {:induction false} HoldLasts(fl: Floats, run: seq<Control>, events: seq<Event>, m: nat, n: nat)
    requires IsRun(fl, run, events) && m < n <= |events| && Inv(run[0].controller)
    requires Decreases(fl, run[m], events[m])
    ensures run[n].controller.holdIncrease >= events[m].now + MinHold(run[0].controller.ceiling)
    decreases n
  {
    hide React, Inv, MinHold, Step, Decreases;
    assert |run| == |events| + 1 && (n - 1 > m ==> events[m].now <= events[n - 1].now);
    hide IsRun;
    BoundsHold(fl, run, events, n - 1);
    if n == m + 1 {
      DecreasesExactly(fl, run, events, m);
      HoldSet(fl, run[m].controller, run[n].controller, events[m].now);
    } else {
      HoldLasts(fl, run, events, m, n - 1);
      HoldKept(fl, run[n - 1].controller, run[n].controller, events[n - 1].now, events[m].now);
    }
  }

  lemma HoldSet(fl: Floats, c: Controller, c': Controller, now: nat)
    requires Lowers(fl, c, c', now)
    ensures c'.holdIncrease >= now + MinHold(c.ceiling)
  {
  }

  lemma HoldKept(fl: Floats, c: Controller, c': Controller, now: nat, since: nat)
    requires Step(fl, c, c', now) && since <= now && c.holdIncrease >= since + MinHold(c.ceiling)
    ensures c'.holdIncrease >= since + MinHold(c.ceiling)
  {
  }

  /** No increase follows a decrease, not even one at the floor, within the shortest hold: a second for a ceiling above
      1500, one and a half otherwise. */
  lemma NoIncreaseSoon(fl: Floats, run: seq<Control>, events: seq<Event>, m: nat, n: nat)
    requires IsRun(fl, run, events) && m < n < |events| && Inv(run[0].controller)
    requires Decreases(fl, run[m], events[m]) && run[n].controller.rate < run[n + 1].controller.rate
    ensures events[n].now >= events[m].now + MinHold(run[0].controller.ceiling)
  {
    HoldLasts(fl, run, events, m, n);
    BoundsHold(fl, run, events, n);
    hide IsRun, Inv, MediumFloorOf, Decreases;
  }

  // ----- Recovery -----

  /** How many clean samples are enough: thirty for every step that the loss ceiling may
      need, one for every step that the rate may need, less those already counted. */
  function ToGo(c: Controller): int {
    30 * (c.ceiling - c.lossCeiling) + (c.ceiling - c.rate) - c.cleanAtLossCeiling
  }

  lemma ToGoBounds(c: Controller)
    requires Inv(c)
    ensures 0 <= ToGo(c) <= 31 * (c.ceiling - 1)
    ensures c.rate < c.ceiling ==> 0 < ToGo(c)
  {
  }

  lemma RaiseProgress(fl: Floats, c: Controller)
    requires Inv(c) && c.rate < EffectiveCeiling(c)
    ensures ToGo(Raise(fl, c)) < ToGo(c)
  {
    RaiseKeeps(fl, c);
    hide IncreaseMultiplier;
  }

  lemma ReopenProgress(fl: Floats, c: Controller)
    requires Inv(c) && c.rate >= EffectiveCeiling(c) && c.rate < c.ceiling
    ensures ToGo(MaybeReopen(fl, c).c) < ToGo(c)
  {
  }

  /** One clean sample: a rate below the ceiling gets closer, a rate at the ceiling stays. */
  lemma IncreaseProgress(fl: Floats, c: Controller)
    requires Inv(c)
    ensures c.rate < c.ceiling ==> ToGo(IncreaseRate(fl, c)) < ToGo(c)
    ensures c.rate == c.ceiling ==> IncreaseRate(fl, c) == c
  {
    if c.rate < EffectiveCeiling(c) {
      hide Raise;
      RaiseProgress(fl, c);
    } else if c.rate < c.ceiling {
      ReopenKeeps(fl, c);
      ReopenProgress(fl, c);
      var r := MaybeReopen(fl, c);
      hide Raise, MaybeReopen;
      if r.Wider? && r.c.rate < EffectiveCeiling(r.c) {
        RaiseProgress(fl, r.c);
      }
    }
  }

  /** A clean sample that no hold stands against. */
  predicate Clean(fl: Floats, c: Controller, e: Event) {
    && e.Sample? && e.now >= c.lastFeedbackAt + FeedbackInterval && e.now >= c.holdIncrease
    && e.feedback.sentBytes > c.last.sentBytes && e.feedback.receivedBytes > c.last.receivedBytes
    && Missing(e.feedback) == 0 && !fl.queueTooLong(e.feedback, c.rate)
  }

  lemma CleanIncreases(fl: Floats, s: Control, e: Event) returns (c1: Controller)
    requires Inv(s.controller) && Clean(fl, s.controller, e)
    ensures SameRates(s.controller, c1) && React(fl, s, e).controller == IncreaseRate(fl, c1)
  {
    hide IncreaseRate, DecreaseWithCeiling, DeferModerateLoss, RatioAtLeast;
    c1 := ClearLossCandidate(Noted(s.controller, e.now, e.feedback));
  }

  lemma CleanProgress(fl: Floats, s: Control, e: Event)
    requires Inv(s.controller) && Clean(fl, s.controller, e)
    ensures var c, c' := s.controller, React(fl, s, e).controller;
            && (c.rate < c.ceiling ==> ToGo(c') < ToGo(c))
            && (c.rate == c.ceiling ==> c'.rate == c'.ceiling)
  {
    var c1 := CleanIncreases(fl, s, e);
    hide React, IncreaseRate, Clean;
    IncreaseProgress(fl, c1);
  }

  /** From every state of a run, enough clean samples in a row bring the rate to the ceiling
      that was configured. */
  lemma {:induction false} Recovers(fl: Floats, run: seq<Control>, events: seq<Event>, m: nat, n: nat)
    requires IsRun(fl, run, events) && m <= n <= |events| && Inv(run[0].controller)
    requires forall k :: m <= k < n ==> Clean(fl, run[k].controller, events[k])
    requires ToGo(run[m].controller) <= n - m
    ensures run[n].controller.rate == run[n].controller.ceiling == run[0].controller.ceiling
  {
    CloserEachTime(fl, run, events, m, n);
    BoundsHold(fl, run, events, n);
    ToGoBounds(run[n].controller);
  }

  lemma {:induction false} CloserEachTime(fl: Floats, run: seq<Control>, events: seq<Event>, m: nat, n: nat)
    requires IsRun(fl, run, events) && m <= n <= |events| && Inv(run[0].controller)
    requires forall k :: m <= k < n ==> Clean(fl, run[k].controller, events[k])
    ensures var c := run[n].controller;
            c.rate == c.ceiling || ToGo(c) <= ToGo(run[m].controller) - (n - m)
    decreases n
  {
    hide React, Clean, ToGo;
    assert |run| == |events| + 1 && (n > 0 ==> run[n] == React(fl, run[n - 1], events[n - 1]));
    hide IsRun;
    if m < n {
      CloserEachTime(fl, run, events, m, n - 1);
      BoundsHold(fl, run, events, n - 1);
      CleanProgress(fl, run[n - 1], events[n - 1]);
    }
  }
}
