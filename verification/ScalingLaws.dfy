/** When the controller changes the replica count, said of the evaluations and earlier decisions alone. */
module ScalingLaws {
  import opened Options
  import opened Scaling

  /** The `m` evaluations up to `i` all suggest more than is running. */
  ghost predicate RisingFor(evs: seq<Evaluation>, i: nat, m: nat)
    requires i < |evs|
  {
    m <= i + 1 && forall k :: i + 1 - m <= k <= i ==> evs[k].suggested > evs[k].current
  }

  ghost predicate FallingFor(evs: seq<Evaluation>, i: nat, m: nat)
    requires i < |evs|
  {
    m <= i + 1 && forall k :: i + 1 - m <= k <= i ==> evs[k].suggested < evs[k].current
  }

  lemma StreakReached(cfg: ScalingConfig, evs: seq<Evaluation>, i: nat, m: nat)
    requires i < |evs|
    ensures Streaks(After(cfg, evs[..i]), evs[i]).upStreak >= m <==> RisingFor(evs, i, m)
    ensures Streaks(After(cfg, evs[..i]), evs[i]).downStreak >= m <==> FallingFor(evs, i, m)
  {
    AfterSnoc(cfg, evs, i);
    StreakMeans(cfg, evs[..i + 1], m);
    assert forall k :: 0 <= k <= i ==> evs[..i + 1][k] == evs[k];
    assert LastUp(evs[..i + 1], m) <==> RisingFor(evs, i, m);
    assert LastDown(evs[..i + 1], m) <==> FallingFor(evs, i, m);
  }

  /** An interval decision above the current count. */
  predicate WentUp(cfg: ScalingConfig, evs: seq<Evaluation>, i: nat)
    requires i < |evs|
  {
    !evs[i].startup && DecisionAt(cfg, evs, i) > evs[i].current
  }

  /** An interval decision below the current count at the end of a full streak. */
  ghost predicate WentDown(cfg: ScalingConfig, evs: seq<Evaluation>, i: nat)
    requires i < |evs|
  {
    !evs[i].startup && DecisionAt(cfg, evs, i) < evs[i].current && FallingFor(evs, i, cfg.scaleDownSampleSize)
  }

  lemma WentUpIff(cfg: ScalingConfig, evs: seq<Evaluation>, i: nat)
    requires i < |evs|
    ensures WentUp(cfg, evs, i) <==> UpAt(cfg, evs, i)
  {
  }

  lemma WentDownIff(cfg: ScalingConfig, evs: seq<Evaluation>, i: nat)
    requires i < |evs|
    ensures WentDown(cfg, evs, i) <==> DownAt(cfg, evs, i)
  {
    StreakReached(cfg, evs, i, cfg.scaleDownSampleSize);
  }

  /** The remembered times are those of changes that happened. */
  lemma {:induction false} RememberedHappened(cfg: ScalingConfig, evs: seq<Evaluation>, i: nat)
    requires i <= |evs|
    ensures var t := After(cfg, evs[..i]).lastUpAt; t.Some? ==> exists j :: 0 <= j < i && UpAt(cfg, evs, j) && evs[j].now == t.value
    ensures var t := After(cfg, evs[..i]).lastDownAt; t.Some? ==> exists j :: 0 <= j < i && DownAt(cfg, evs, j) && evs[j].now == t.value
  {
    if i > 0 {
      AfterSnoc(cfg, evs, i - 1);
      RememberedHappened(cfg, evs, i - 1);
    }
  }

  /** Every earlier scale-up is at least the cooldown ago. */
  ghost predicate UpCooled(cfg: ScalingConfig, evs: seq<Evaluation>, i: nat)
    requires i < |evs|
  {
    forall j :: 0 <= j < i && WentUp(cfg, evs, j) ==> evs[i].now - evs[j].now >= cfg.scaleUpCooldownMs
  }

  /** Every earlier change, up or down, is at least the scale-down cooldown ago. */
  ghost predicate DownCooled(cfg: ScalingConfig, evs: seq<Evaluation>, i: nat)
    requires i < |evs|
  {
    forall j :: 0 <= j < i && (WentUp(cfg, evs, j) || WentDown(cfg, evs, j)) ==> evs[i].now - evs[j].now >= cfg.scaleDownCooldownMs
  }

  lemma UpCooledIff(cfg: ScalingConfig, evs: seq<Evaluation>, i: nat)
    requires i < |evs| && Clocked(evs)
    ensures CooldownRemaining(After(cfg, evs[..i]).lastUpAt, cfg.scaleUpCooldownMs, evs[i].now) == 0 <==> UpCooled(cfg, evs, i)
  {
    RememberedHappened(cfg, evs, i);
    forall j | 0 <= j < i
      ensures WentUp(cfg, evs, j) <==> UpAt(cfg, evs, j)
      ensures UpAt(cfg, evs, j) ==> After(cfg, evs[..i]).lastUpAt.Some? && After(cfg, evs[..i]).lastUpAt.value >= evs[j].now
    {
      ChangeIsRemembered(cfg, evs, j, i);
    }
  }

  lemma DownCooledIff(cfg: ScalingConfig, evs: seq<Evaluation>, i: nat)
    requires i < |evs| && Clocked(evs)
    ensures CooldownRemaining(LastCapacityChange(After(cfg, evs[..i])), cfg.scaleDownCooldownMs, evs[i].now) == 0 <==> DownCooled(cfg, evs, i)
  {
    RememberedHappened(cfg, evs, i);
    var st := After(cfg, evs[..i]);
    forall j | 0 <= j < i
      ensures WentUp(cfg, evs, j) <==> UpAt(cfg, evs, j)
      ensures WentDown(cfg, evs, j) <==> DownAt(cfg, evs, j)
      ensures UpAt(cfg, evs, j) ==> st.lastUpAt.Some? && st.lastUpAt.value >= evs[j].now
      ensures DownAt(cfg, evs, j) ==> st.lastDownAt.Some? && st.lastDownAt.value >= evs[j].now
    {
      WentDownIff(cfg, evs, j);
      ChangeIsRemembered(cfg, evs, j, i);
    }
  }

  /** An interval decision goes above the current count, and then to the suggestion, if and only if the sample
      size of evaluations up to this one suggest more and every earlier scale-up has cooled down. */
  lemma ScalesAboveIff(cfg: ScalingConfig, evs: seq<Evaluation>, i: nat)
    requires i < |evs| && Clocked(evs) && !evs[i].startup
    ensures DecisionAt(cfg, evs, i) > evs[i].current
       <==> evs[i].suggested > evs[i].current && RisingFor(evs, i, cfg.scaleUpSampleSize) && UpCooled(cfg, evs, i)
    ensures DecisionAt(cfg, evs, i) > evs[i].current ==> DecisionAt(cfg, evs, i) == evs[i].suggested
  {
    StreakReached(cfg, evs, i, cfg.scaleUpSampleSize);
    UpCooledIff(cfg, evs, i);
  }

  /** It goes below, and then to the suggestion, if and only if less is suggested and the streak is not yet
      full, or it is full, the gate is open and every earlier change has cooled down. */
  lemma ScalesDownIff(cfg: ScalingConfig, evs: seq<Evaluation>, i: nat)
    requires i < |evs| && Clocked(evs) && !evs[i].startup
    ensures DecisionAt(cfg, evs, i) < evs[i].current
       <==> evs[i].suggested < evs[i].current
            && (FallingFor(evs, i, cfg.scaleDownSampleSize) ==> evs[i].gateAllows && DownCooled(cfg, evs, i))
    ensures DecisionAt(cfg, evs, i) < evs[i].current ==> DecisionAt(cfg, evs, i) == evs[i].suggested
  {
    StreakReached(cfg, evs, i, cfg.scaleDownSampleSize);
    DownCooledIff(cfg, evs, i);
  }

  /** At startup the suggestion is taken at once, unless it is lower, the streak is full and the gate is closed. */
  lemma StartupDecides(cfg: ScalingConfig, evs: seq<Evaluation>, i: nat)
    requires i < |evs| && evs[i].startup
    ensures DecisionAt(cfg, evs, i) ==
      if evs[i].suggested < evs[i].current && FallingFor(evs, i, cfg.scaleDownSampleSize) && !evs[i].gateAllows
      then evs[i].current else evs[i].suggested
  {
    StreakReached(cfg, evs, i, cfg.scaleDownSampleSize);
  }
}
