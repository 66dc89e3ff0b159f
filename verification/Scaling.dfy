/** The controller's replica decisions: pressure streaks, sample sizes, the scale-down gate and the
    cooldowns (controller.ts, controller-rebalance-state.ts). */
module Scaling {
  import opened Options

  datatype ScalingConfig = ScalingConfig(scaleUpSampleSize: nat, scaleDownSampleSize: nat, scaleUpCooldownMs: nat, scaleDownCooldownMs: nat)

  /** `cooldownRemainingMs`; a change at time 0 counts as none. */
  function CooldownRemaining(lastChangeAt: Option<int>, cooldownMs: nat, now: int): nat {
    if lastChangeAt.None? || lastChangeAt.value == 0 || cooldownMs == 0 then 0
    else if lastChangeAt.value + cooldownMs > now then lastChangeAt.value + cooldownMs - now
    else 0
  }

  function OrZero(t: Option<int>): int {
    if t.Some? then t.value else 0
  }

  datatype State = State(upStreak: nat, downStreak: nat, lastUpAt: Option<int>, lastDownAt: Option<int>)

  /** One evaluation: `gateAllows` is what the scale-down gate would answer if asked. */
  datatype Evaluation = Evaluation(suggested: int, current: int, startup: bool, gateAllows: bool, now: int)

  // ---- the specification ----------------------------------------------------------------------------------------

  function Streaks(st: State, ev: Evaluation): State {
    st.(upStreak := if ev.suggested > ev.current then st.upStreak + 1 else 0,
        downStreak := if ev.suggested < ev.current then st.downStreak + 1 else 0)
  }

  function LastCapacityChange(st: State): Option<int> {
    var up, down := OrZero(st.lastUpAt), OrZero(st.lastDownAt);
    var latest := if up > down then up else down;
    if latest > 0 then Some(latest) else None
  }

  /** Enough samples to scale down. */
  predicate DownReached(cfg: ScalingConfig, st: State, ev: Evaluation) {
    ev.suggested < ev.current && Streaks(st, ev).downStreak >= cfg.scaleDownSampleSize
  }

  predicate ScalesUp(cfg: ScalingConfig, st: State, ev: Evaluation) {
    && !ev.startup && ev.suggested > ev.current
    && Streaks(st, ev).upStreak >= cfg.scaleUpSampleSize
    && CooldownRemaining(st.lastUpAt, cfg.scaleUpCooldownMs, ev.now) == 0
  }

  /** A scale-down that goes through gate and cooldown and is recorded. */
  predicate ScalesDown(cfg: ScalingConfig, st: State, ev: Evaluation) {
    && !ev.startup && DownReached(cfg, st, ev) && ev.gateAllows
    && CooldownRemaining(LastCapacityChange(st), cfg.scaleDownCooldownMs, ev.now) == 0
  }

  function Decision(cfg: ScalingConfig, st: State, ev: Evaluation): int {
    if ev.startup then
      if DownReached(cfg, st, ev) && !ev.gateAllows then ev.current else ev.suggested
    else if ev.suggested > ev.current then
      if ScalesUp(cfg, st, ev) then ev.suggested else ev.current
    else if DownReached(cfg, st, ev) then
      if ScalesDown(cfg, st, ev) then ev.suggested else ev.current
    else ev.suggested
  }

  function Next(cfg: ScalingConfig, st: State, ev: Evaluation): State {
    Streaks(st, ev).(
      lastUpAt := if ScalesUp(cfg, st, ev) then Some(ev.now) else st.lastUpAt,
      lastDownAt := if ScalesDown(cfg, st, ev) then Some(ev.now) else st.lastDownAt)
  }

  // ---- the controller ---------------------------------------------------------------------------------------------

  class ReplicaController {
    const config: ScalingConfig
    var scaleUpPressureStreak: nat
    var scaleDownPressureStreak: nat
    var lastScaleUpAt: Option<int>
    var lastScaleDownAt: Option<int>

    ghost function Contents(): State
      reads this
    {
      State(scaleUpPressureStreak, scaleDownPressureStreak, lastScaleUpAt, lastScaleDownAt)
    }

    constructor (config: ScalingConfig)
      ensures this.config == config && Contents() == State(0, 0, None, None)
    {
      this.config := config;
      scaleUpPressureStreak, scaleDownPressureStreak := 0, 0;
      lastScaleUpAt, lastScaleDownAt := None, None;
    }

    method ScaleDownTargetReplicas(suggested: int, current: int) returns (target: int)
      modifies this`scaleUpPressureStreak, this`scaleDownPressureStreak
      ensures scaleUpPressureStreak == if suggested > current then old(scaleUpPressureStreak) + 1 else 0
      ensures scaleDownPressureStreak == if suggested < current then old(scaleDownPressureStreak) + 1 else 0
      ensures target == if suggested < current && scaleDownPressureStreak >= config.scaleDownSampleSize then suggested else current
    {
      if suggested > current {
        scaleUpPressureStreak := scaleUpPressureStreak + 1;
      } else {
        scaleUpPressureStreak := 0;
      }
      if suggested < current {
        scaleDownPressureStreak := scaleDownPressureStreak + 1;
      } else {
        scaleDownPressureStreak := 0;
      }
      target := if suggested < current && scaleDownPressureStreak >= config.scaleDownSampleSize then suggested else current;
    }

    method LastCapacityChangeAt() returns (at: Option<int>)
      ensures at == LastCapacityChange(Contents())
    {
      var up, down := OrZero(lastScaleUpAt), OrZero(lastScaleDownAt);
      var latest := if up > down then up else down;
      at := if latest > 0 then Some(latest) else None;
    }

    /** `#desiredReplicas`, after the streaks are up to date. */
    method DesiredReplicas(ev: Evaluation, target: int, allowScaleDown: bool, ghost before: State) returns (desired: int)
      requires Contents() == Streaks(before, ev)
      requires target == if DownReached(config, before, ev) then ev.suggested else ev.current
      requires allowScaleDown == (target < ev.current ==> ev.gateAllows)
      modifies this`lastScaleUpAt, this`lastScaleDownAt
      ensures desired == Decision(config, before, ev)
      ensures Contents() == Next(config, before, ev)
    {
      if ev.startup {
        if ev.suggested < ev.current && !allowScaleDown {
          return ev.current;
        }
        return ev.suggested;
      }
      if ev.suggested > ev.current {
        var upTarget := if scaleUpPressureStreak >= config.scaleUpSampleSize then ev.suggested else ev.current;
        if upTarget <= ev.current {
          return ev.current;
        }
        if CooldownRemaining(lastScaleUpAt, config.scaleUpCooldownMs, ev.now) > 0 {
          return ev.current;
        }
        lastScaleUpAt := Some(ev.now);
        return upTarget;
      }
      if target < ev.current {
        if !allowScaleDown {
          return ev.current;
        }
        var lastChange := LastCapacityChangeAt();
        if CooldownRemaining(lastChange, config.scaleDownCooldownMs, ev.now) > 0 {
          return ev.current;
        }
        lastScaleDownAt := Some(ev.now);
        return target;
      }
      return if ev.suggested > ev.current then ev.current else ev.suggested;
    }

    /** One evaluation; the gate is asked only when the target is below the current count. */
    method Evaluate(ev: Evaluation) returns (desired: int)
      modifies this
      ensures desired == Decision(config, old(Contents()), ev)
      ensures Contents() == Next(config, old(Contents()), ev)
    {
      ghost var before := Contents();
      var target := ScaleDownTargetReplicas(ev.suggested, ev.current);
      var allowScaleDown := true;
      if target < ev.current {
        allowScaleDown := ev.gateAllows;
      }
      desired := DesiredReplicas(ev, target, allowScaleDown, before);
    }
  }

  // ---- runs --------------------------------------------------------------------------------------------------------

  function After(cfg: ScalingConfig, evs: seq<Evaluation>): State {
    if evs == [] then State(0, 0, None, None)
    else Next(cfg, After(cfg, evs[..|evs| - 1]), evs[|evs| - 1])
  }

  /** The decision taken at evaluation `i` of a run. */
  function DecisionAt(cfg: ScalingConfig, evs: seq<Evaluation>, i: nat): int
    requires i < |evs|
  {
    Decision(cfg, After(cfg, evs[..i]), evs[i])
  }

  /** The clock never goes back and is past the epoch. */
  ghost predicate Clocked(evs: seq<Evaluation>) {
    && (forall i :: 0 <= i < |evs| ==> evs[i].now > 0)
    && (forall i, j :: 0 <= i < j < |evs| ==> evs[i].now <= evs[j].now)
  }

  lemma AfterSnoc(cfg: ScalingConfig, evs: seq<Evaluation>, i: nat)
    requires i < |evs|
    ensures After(cfg, evs[..i + 1]) == Next(cfg, After(cfg, evs[..i]), evs[i])
  {
    assert evs[..i + 1][..i] == evs[..i];
  }

  /** Every interval decision is the suggestion or no change. */
  lemma DecisionIsSuggestedOrCurrent(cfg: ScalingConfig, evs: seq<Evaluation>, i: nat)
    requires i < |evs|
    ensures var d := DecisionAt(cfg, evs, i); d == evs[i].suggested || d == evs[i].current
    ensures !evs[i].startup ==> (DecisionAt(cfg, evs, i) > evs[i].current <==> ScalesUp(cfg, After(cfg, evs[..i]), evs[i]))
  {
  }

  /** The last `m` evaluations all suggest more (`LastUp`) or less (`LastDown`) than is running. */
  predicate LastUp(evs: seq<Evaluation>, m: nat) {
    m <= |evs| && forall k :: |evs| - m <= k < |evs| ==> evs[k].suggested > evs[k].current
  }

  predicate LastDown(evs: seq<Evaluation>, m: nat) {
    m <= |evs| && forall k :: |evs| - m <= k < |evs| ==> evs[k].suggested < evs[k].current
  }

  lemma LastSplit(evs: seq<Evaluation>, m: nat)
    requires evs != [] && m > 0
    ensures var init, last := evs[..|evs| - 1], evs[|evs| - 1];
      && (LastUp(evs, m) <==> LastUp(init, m - 1) && last.suggested > last.current)
      && (LastDown(evs, m) <==> LastDown(init, m - 1) && last.suggested < last.current)
  {
    var init := evs[..|evs| - 1];
    if m <= |evs| {
      assert forall k :: |evs| - m <= k < |evs| - 1 ==> init[k] == evs[k];
    }
  }

  /** A streak of at least `m` means exactly that. */
  lemma {:induction false} StreakMeans(cfg: ScalingConfig, evs: seq<Evaluation>, m: nat)
    ensures After(cfg, evs).upStreak >= m <==> LastUp(evs, m)
    ensures After(cfg, evs).downStreak >= m <==> LastDown(evs, m)
    decreases |evs|
  {
    if evs != [] && m > 0 {
      LastSplit(evs, m);
      StreakMeans(cfg, evs[..|evs| - 1], m - 1);
    }
  }

  /** An interval decision above the current count needs `scaleUpSampleSize` evaluations in a row that
      suggest more, this one included. */
  lemma ScaleUpNeedsStreak(cfg: ScalingConfig, evs: seq<Evaluation>, i: nat)
    requires i < |evs| && !evs[i].startup && DecisionAt(cfg, evs, i) > evs[i].current
    ensures cfg.scaleUpSampleSize <= i + 1
    ensures forall k :: i + 1 - cfg.scaleUpSampleSize <= k <= i ==> evs[k].suggested > evs[k].current
  {
    AfterSnoc(cfg, evs, i);
    StreakMeans(cfg, evs[..i + 1], cfg.scaleUpSampleSize);
    assert LastUp(evs[..i + 1], cfg.scaleUpSampleSize);
    forall k | i + 1 - cfg.scaleUpSampleSize <= k <= i ensures evs[k].suggested > evs[k].current {
      assert evs[..i + 1][k] == evs[k];
    }
  }

  predicate UpAt(cfg: ScalingConfig, evs: seq<Evaluation>, i: nat)
    requires i < |evs|
  {
    ScalesUp(cfg, After(cfg, evs[..i]), evs[i])
  }

  predicate DownAt(cfg: ScalingConfig, evs: seq<Evaluation>, i: nat)
    requires i < |evs|
  {
    ScalesDown(cfg, After(cfg, evs[..i]), evs[i])
  }

  /** The recorded times are never older than a change that happened. */
  lemma {:induction false} ChangeIsRemembered(cfg: ScalingConfig, evs: seq<Evaluation>, i: nat, j: nat)
    requires i < j <= |evs| && Clocked(evs)
    ensures UpAt(cfg, evs, i) ==> After(cfg, evs[..j]).lastUpAt.Some? && After(cfg, evs[..j]).lastUpAt.value >= evs[i].now
    ensures DownAt(cfg, evs, i) ==> After(cfg, evs[..j]).lastDownAt.Some? && After(cfg, evs[..j]).lastDownAt.value >= evs[i].now
    decreases j
  {
    AfterSnoc(cfg, evs, j - 1);
    if i < j - 1 {
      ChangeIsRemembered(cfg, evs, i, j - 1);
    }
  }

  /** Interval scale-ups are at least the scale-up cooldown apart. */
  lemma ScaleUpsApart(cfg: ScalingConfig, evs: seq<Evaluation>, i: nat, j: nat)
    requires i < j < |evs| && Clocked(evs)
    requires UpAt(cfg, evs, i) && UpAt(cfg, evs, j)
    ensures evs[j].now - evs[i].now >= cfg.scaleUpCooldownMs
  {
    ChangeIsRemembered(cfg, evs, i, j);
  }

  /** A recorded scale-down had the gate's leave, came after `scaleDownSampleSize` evaluations in a row
      that suggest less, and is at least the scale-down cooldown after every earlier recorded change. */
  lemma ScaleDownIsGuarded(cfg: ScalingConfig, evs: seq<Evaluation>, i: nat, j: nat)
    requires j < |evs| && Clocked(evs) && DownAt(cfg, evs, j)
    ensures evs[j].gateAllows && cfg.scaleDownSampleSize <= j + 1
    ensures forall k :: j + 1 - cfg.scaleDownSampleSize <= k <= j ==> evs[k].suggested < evs[k].current
    ensures i < j && (UpAt(cfg, evs, i) || DownAt(cfg, evs, i)) ==> evs[j].now - evs[i].now >= cfg.scaleDownCooldownMs
  {
    AfterSnoc(cfg, evs, j);
    StreakMeans(cfg, evs[..j + 1], cfg.scaleDownSampleSize);
    assert LastDown(evs[..j + 1], cfg.scaleDownSampleSize);
    forall k | j + 1 - cfg.scaleDownSampleSize <= k <= j ensures evs[k].suggested < evs[k].current {
      assert evs[..j + 1][k] == evs[k];
    }
    if i < j {
      ChangeIsRemembered(cfg, evs, i, j);
    }
  }

  /** Exactly when an interval decision goes below the current count: with the streak reached it needs
      gate and cooldown, and before that it needs neither. */
  lemma ScalesBelowIff(cfg: ScalingConfig, evs: seq<Evaluation>, i: nat)
    requires i < |evs| && !evs[i].startup
    ensures var st := After(cfg, evs[..i]);
      DecisionAt(cfg, evs, i) < evs[i].current
      <==> evs[i].suggested < evs[i].current && (st.downStreak + 1 < cfg.scaleDownSampleSize || DownAt(cfg, evs, i))
  {
  }

  /** The first low suggestion scales down at once, gate closed, when the sample size is above one. */
  lemma UngatedScaleDown(cfg: ScalingConfig, now: int)
    requires cfg.scaleDownSampleSize > 1
    ensures DecisionAt(cfg, [Evaluation(1, 5, false, false, now)], 0) == 1
  {
    assert [Evaluation(1, 5, false, false, now)][..0] == [];
  }

  // ---- the decision log -------------------------------------------------------------------------------------------------

  /** `content` is every compared field of a logged decision. */
  datatype Logged = Logged(timestamp: string, content: seq<int>)

  /** `appendDecision`. */
  function AppendDecision(log: seq<Logged>, next: Logged, maxEntries: nat): seq<Logged> {
    if log != [] && log[|log| - 1].content == next.content then log
    else
      var grown := log + [next];
      if |grown| > maxEntries then grown[|grown| - maxEntries..] else grown
  }

  function LogOf(decisions: seq<Logged>, maxEntries: nat): seq<Logged> {
    if decisions == [] then []
    else AppendDecision(LogOf(decisions[..|decisions| - 1], maxEntries), decisions[|decisions| - 1], maxEntries)
  }

  /** Whatever is logged, the log stays short, never repeats itself and ends with the newest decision. */
  lemma {:induction false} LogStaysBounded(decisions: seq<Logged>, maxEntries: nat)
    requires maxEntries > 0
    ensures var log := LogOf(decisions, maxEntries);
      && |log| <= maxEntries
      && (forall i :: 0 <= i < |log| - 1 ==> log[i].content != log[i + 1].content)
      && (decisions != [] ==> log != [] && log[|log| - 1].content == decisions[|decisions| - 1].content)
    decreases |decisions|
  {
    if decisions != [] {
      LogStaysBounded(decisions[..|decisions| - 1], maxEntries);
    }
  }

  /** The decisions whose content differs from the one before. */
  function Changes(decisions: seq<Logged>): seq<Logged> {
    if decisions == [] then []
    else
      var init, last := decisions[..|decisions| - 1], decisions[|decisions| - 1];
      if init != [] && init[|init| - 1].content == last.content then Changes(init) else Changes(init) + [last]
  }

  function LastOf(s: seq<Logged>, n: nat): seq<Logged> {
    if |s| > n then s[|s| - n..] else s
  }

  lemma {:induction false} ChangesEnd(decisions: seq<Logged>)
    ensures decisions != [] ==> Changes(decisions) != [] && Changes(decisions)[|Changes(decisions)| - 1].content == decisions[|decisions| - 1].content
    decreases |decisions|
  {
    if decisions != [] {
      ChangesEnd(decisions[..|decisions| - 1]);
    }
  }

  lemma SlideLast(s: seq<Logged>, x: Logged, n: nat)
    requires n > 0
    ensures LastOf(LastOf(s, n) + [x], n) == LastOf(s + [x], n)
  {
  }

  lemma AppendSlides(changes: seq<Logged>, next: Logged, n: nat)
    requires n > 0
    ensures AppendDecision(LastOf(changes, n), next, n)
         == LastOf(if changes != [] && changes[|changes| - 1].content == next.content then changes else changes + [next], n)
  {
    SlideLast(changes, next, n);
  }

  /** The log is the last `maxEntries` changes. */
  lemma {:induction false} LogIsLastChanges(decisions: seq<Logged>, maxEntries: nat)
    requires maxEntries > 0
    ensures LogOf(decisions, maxEntries) == LastOf(Changes(decisions), maxEntries)
    decreases |decisions|
  {
    if decisions != [] {
      var init, last := decisions[..|decisions| - 1], decisions[|decisions| - 1];
      LogIsLastChanges(init, maxEntries);
      ChangesEnd(init);
      AppendSlides(Changes(init), last, maxEntries);
    }
  }
}
