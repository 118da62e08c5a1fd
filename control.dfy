/**
 * The confinement controller: the accumulation detector and the
 * Normal / TurbulencePulse state machine that `update` runs before transport.
 */
module Control {
  import opened Options
  import opened Config

  /** Mode plus the two optional timestamps the controller keeps. */
  datatype ControlState = ControlState(
    mode: ConfinementMode,
    pulseStart: Option<real>,     // set on entering a pulse, cleared on leaving
    lastPulseEnd: Option<real>)   // set on leaving a pulse, read by the cooldown

  /** The state built by `new`: Normal, no pulse started or ended yet. */
  const Initial: ControlState := ControlState(Normal, None, None)

  /** A pulse start time is recorded exactly while a pulse runs. */
  predicate Consistent(c: ControlState) {
    c.pulseStart.Some? <==> c.mode == TurbulencePulse
  }

  /**
   * `delta / elapsed > threshold` under IEEE division: a zero elapsed time
   * turns a positive delta into +inf (exceeds), a negative one into -inf and
   * a zero one into NaN (neither exceeds).
   */
  function RateExceeds(delta: real, elapsed: real, threshold: real): (exceeds: bool)
    ensures elapsed > 0.0 ==> (exceeds <==> delta > threshold * elapsed)
    ensures elapsed < 0.0 ==> (exceeds <==> delta < threshold * elapsed)
    ensures elapsed == 0.0 ==> (exceeds <==> delta > 0.0)
  {
    if elapsed == 0.0 then delta > 0.0
    else
      RateScaling(delta, elapsed, threshold);
      delta / elapsed > threshold
  }

  lemma RateScaling(delta: real, elapsed: real, threshold: real)
    requires elapsed != 0.0
    ensures elapsed > 0.0 ==> (delta / elapsed > threshold <==> delta > threshold * elapsed)
    ensures elapsed < 0.0 ==> (delta / elapsed > threshold <==> delta < threshold * elapsed)
  {
    var q := delta / elapsed;
    assert q * elapsed == delta;
    assert q * elapsed - threshold * elapsed == (q - threshold) * elapsed;
    if elapsed > 0.0 {
      assert q > threshold ==> (q - threshold) * elapsed > 0.0;
      assert q <= threshold ==> (threshold - q) * elapsed >= 0.0;
    } else {
      assert q > threshold ==> (q - threshold) * (-elapsed) > 0.0;
      assert q <= threshold ==> (threshold - q) * (-elapsed) >= 0.0;
    }
  }

  /**
   * `detect_impurity_accumulation`: fires on the absolute centre threshold;
   * otherwise, only once the history holds more than `lookback` entries, on
   * the growth rate between the newest entry and the one `lookback` before it.
   */
  function Detect(p: Params, center: real, centerHistory: seq<real>, timeHistory: seq<real>): (fires: bool)
    requires |centerHistory| <= |timeHistory|
    ensures center > p.centerThreshold ==> fires
    ensures |centerHistory| <= p.lookback ==> (fires <==> center > p.centerThreshold)
    ensures center <= p.centerThreshold && |centerHistory| > p.lookback ==>
      var last := |centerHistory| - 1;
      (fires <==> RateExceeds(centerHistory[last] - centerHistory[last - p.lookback],
                              timeHistory[last] - timeHistory[last - p.lookback], p.rateThreshold))
  {
    if center > p.centerThreshold then true
    else if |centerHistory| > p.lookback then
      var last := |centerHistory| - 1;
      var prev := last - p.lookback;
      RateExceeds(centerHistory[last] - centerHistory[prev], timeHistory[last] - timeHistory[prev], p.rateThreshold)
    else false
  }

  /** The cooldown gate: no pulse has ended yet, or the last one ended long enough ago. */
  function CanPulse(p: Params, c: ControlState, time: real): (can: bool)
    ensures c.lastPulseEnd.None? || p.cooldown.None? ==> can
    ensures c.lastPulseEnd.Some? && p.cooldown.Some? ==>
      (can <==> time - c.lastPulseEnd.value > p.cooldown.value)
  {
    match c.lastPulseEnd
    case None => true
    case Some(lastEnd) =>
      match p.cooldown
      case None => true
      case Some(cooldown) => time - lastEnd > cooldown
  }

  /**
   * The control decision at the start of `update`, at the pre-step `time`,
   * with `accumulating` the detector's verdict on the pre-step state.
   */
  function Step(p: Params, c: ControlState, time: real, accumulating: bool): (c': ControlState)
    ensures Consistent(c) ==> Consistent(c')
    ensures c' == c || c'.mode != c.mode
    ensures c.mode == Normal ==> (c'.mode == TurbulencePulse <==> CanPulse(p, c, time) && accumulating)
    ensures c.mode == Normal && c'.mode == TurbulencePulse ==>
      c'.pulseStart == Some(time) && c'.lastPulseEnd == c.lastPulseEnd
    ensures c.mode == TurbulencePulse && c.pulseStart.Some? ==>
      (c'.mode == Normal <==> time - c.pulseStart.value > p.pulseDuration)
    ensures c.mode == TurbulencePulse && c'.mode == Normal ==>
      c'.pulseStart == None && c'.lastPulseEnd == Some(time)
    ensures c'.lastPulseEnd != c.lastPulseEnd ==>
      c.mode == TurbulencePulse && c'.mode == Normal && c'.lastPulseEnd == Some(time)
  {
    match c.mode
    case Normal =>
      if CanPulse(p, c, time) && accumulating then
        ControlState(TurbulencePulse, Some(time), c.lastPulseEnd)
      else c
    case TurbulencePulse =>
      match c.pulseStart
      case Some(start) =>
        if time - start > p.pulseDuration then ControlState(Normal, None, Some(time)) else c
      case None => c
  }

  /** The event a step reports: the console message of a transition. */
  datatype Notice = Quiet | PulseStarted(at: real) | PulseEnded(at: real)

  function NoticeOf(before: ControlState, after: ControlState, time: real): (n: Notice)
    ensures n == Quiet <==> before.mode == after.mode
    ensures n.PulseStarted? ==> before.mode == Normal && after.mode == TurbulencePulse && n.at == time
    ensures n.PulseEnded? ==> before.mode == TurbulencePulse && after.mode == Normal && n.at == time
  {
    match (before.mode, after.mode)
    case (Normal, TurbulencePulse) => PulseStarted(time)
    case (TurbulencePulse, Normal) => PulseEnded(time)
    case _ => Quiet
  }

  /**
   * A pulse that has run longer than its duration at the start of a step is
   * over after that step; one that has not keeps its start time.
   */
  lemma PulseDuration(p: Params, c: ControlState, time: real, accumulating: bool)
    requires Consistent(c) && c.mode == TurbulencePulse
    ensures var c' := Step(p, c, time, accumulating);
      (time - c.pulseStart.value > p.pulseDuration ==> c'.mode == Normal && c'.lastPulseEnd == Some(time))
      && (time - c.pulseStart.value <= p.pulseDuration ==> c' == c)
  {
  }

  /** Within the cooldown after a pulse the mode stays Normal, whatever the detector says. */
  lemma CooldownBlocks(p: Params, c: ControlState, time: real, accumulating: bool)
    requires p.cooldown.Some? && c.mode == Normal
    requires c.lastPulseEnd.Some? && time - c.lastPulseEnd.value <= p.cooldown.value
    ensures Step(p, c, time, accumulating) == c
  {
  }

  /**
   * Without a cooldown (the first version) the recorded end of the last
   * pulse never influences the mode or the pulse start: a controller that
   * does not keep that field behaves the same.
   */
  lemma NoCooldownIgnoresLastEnd(p: Params, c: ControlState, lastEnd: Option<real>, time: real, accumulating: bool)
    requires p.cooldown.None?
    ensures var c1, c2 := Step(p, c, time, accumulating), Step(p, c.(lastPulseEnd := lastEnd), time, accumulating);
      c1.mode == c2.mode && c1.pulseStart == c2.pulseStart
  {
  }

  /** A run of control steps: states[k+1] is the step from states[k] at times[k]. */
  ghost predicate IsRun(p: Params, states: seq<ControlState>, times: seq<real>, detections: seq<bool>) {
    |states| == |times| + 1 && |detections| == |times|
    && forall k :: 0 <= k < |times| ==> states[k + 1] == Step(p, states[k], times[k], detections[k])
  }

  ghost predicate Nondecreasing(times: seq<real>) {
    forall a, b :: 0 <= a <= b < |times| ==> times[a] <= times[b]
  }

  /** Step times that never decrease and none of which lies after `now`. */
  ghost predicate TimesUpTo(times: seq<real>, now: real) {
    Nondecreasing(times) && forall k :: 0 <= k < |times| ==> times[k] <= now
  }

  /** Recording the current time and then advancing the clock by dt >= 0 keeps the times in order. */
  lemma TimesAppend(times: seq<real>, now: real, dt: real)
    requires TimesUpTo(times, now) && dt >= 0.0
    ensures TimesUpTo(times + [now], now + dt)
  {
    var times' := times + [now];
    forall a, b | 0 <= a <= b < |times'| ensures times'[a] <= times'[b] {
      if b < |times| {
        assert times'[a] == times[a] && times'[b] == times[b];
      } else {
        assert a < |times| ==> times'[a] == times[a];
      }
    }
  }

  /** A run extended by one more step is still a run. */
  lemma {:induction false} RunExtends(p: Params, states: seq<ControlState>, times: seq<real>, detections: seq<bool>,
                                      time: real, accumulating: bool)
    requires IsRun(p, states, times, detections)
    ensures var next := Step(p, states[|states| - 1], time, accumulating);
      IsRun(p, states + [next], times + [time], detections + [accumulating])
  {
    var next := Step(p, states[|states| - 1], time, accumulating);
    var states', times', detections' := states + [next], times + [time], detections + [accumulating];
    forall k | 0 <= k < |times'|
      ensures states'[k + 1] == Step(p, states'[k], times'[k], detections'[k])
    {
      if k < |times| {
        assert states'[k + 1] == states[k + 1] && states'[k] == states[k];
        assert times'[k] == times[k] && detections'[k] == detections[k];
      }
    }
  }

  /** The state invariant holds along every run that starts consistent. */
  lemma {:induction false} RunConsistent(p: Params, states: seq<ControlState>, times: seq<real>, detections: seq<bool>, k: nat)
    requires IsRun(p, states, times, detections) && Consistent(states[0])
    requires k < |states|
    ensures Consistent(states[k])
  {
    if k > 0 {
      RunConsistent(p, states, times, detections, k - 1);
      assert states[k] == Step(p, states[k - 1], times[k - 1], detections[k - 1]);
    }
  }

  /**
   * After the pulse that ends at step j, every later state remembers an end
   * time no earlier than times[j].
   */
  lemma {:induction false} EndRemembered(p: Params, states: seq<ControlState>, times: seq<real>, detections: seq<bool>, j: nat, m: nat)
    requires IsRun(p, states, times, detections) && Nondecreasing(times)
    requires j < m < |states|
    requires states[j].mode == TurbulencePulse && states[j + 1].mode == Normal
    ensures states[m].lastPulseEnd.Some? && states[m].lastPulseEnd.value >= times[j]
  {
    if m == j + 1 {
      assert states[j + 1] == Step(p, states[j], times[j], detections[j]);
    } else {
      EndRemembered(p, states, times, detections, j, m - 1);
      assert states[m] == Step(p, states[m - 1], times[m - 1], detections[m - 1]);
      assert times[j] <= times[m - 1];
    }
  }

  /**
   * The cooldown guarantee over a whole run: when a pulse ends at step j,
   * no pulse starts at a later step k unless more than the cooldown has
   * elapsed since times[j].
   */
  lemma CooldownBetweenPulses(p: Params, states: seq<ControlState>, times: seq<real>, detections: seq<bool>, j: nat, k: nat)
    requires p.cooldown.Some?
    requires IsRun(p, states, times, detections) && Nondecreasing(times)
    requires j < k < |times|
    requires states[j].mode == TurbulencePulse && states[j + 1].mode == Normal
    requires states[k].mode == Normal && states[k + 1].mode == TurbulencePulse
    ensures times[k] - times[j] > p.cooldown.value
  {
    EndRemembered(p, states, times, detections, j, k);
    assert states[k + 1] == Step(p, states[k], times[k], detections[k]);
  }

  /** From the initial state, a centre density above the threshold starts a pulse at once. */
  lemma FirstTrigger(p: Params, center: real, time: real)
    requires center > p.centerThreshold
    ensures Step(p, Initial, time, Detect(p, center, [], [])) == ControlState(TurbulencePulse, Some(time), None)
  {
  }
}
