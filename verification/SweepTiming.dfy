/** The spacing of observation sweeps. Times are whole seconds; a sweep starts at a tick of an interval
    that, after a late tick, returns to its grid (`MissedTickBehavior::Skip`). */
module SweepTiming {
  import opened Prelude

  const HANDSHAKE_TIMEOUT := 3
  const OBSERVATION_TIMEOUT := 2 * HANDSHAKE_TIMEOUT
  const MIN_PEER_RECONNECTION_DELAY := 119
  const MIN_SWEEP_INTERVAL := MIN_PEER_RECONNECTION_DELAY + OBSERVATION_TIMEOUT
  const FALLBACK_SPACING := 75

  /** `sweep_interval`; a target spacing that is no valid duration is replaced by 75 seconds. */
  function SweepInterval(targetSpacing: int): (period: nat)
    ensures period >= MIN_SWEEP_INTERVAL == 125 && period >= targetSpacing
    ensures period == 125 || period == targetSpacing
  {
    Max(if targetSpacing < 0 then FALLBACK_SPACING else targetSpacing, MIN_SWEEP_INTERVAL)
  }

  /** One turn of the loop: when its tick was due, when the sweep started, when its body was done. */
  datatype Timing = Timing(due: int, start: int, done: int)

  /** The first tick is due at once; each later one at the first grid point after the previous start,
      and the sweep starts then or as soon as the loop is back. */
  ghost predicate AreTicks(period: nat, turns: seq<Timing>) {
    && period > 0
    && (forall k | 0 <= k < |turns| :: turns[k].due <= turns[k].start <= turns[k].done)
    && (forall k | 0 <= k < |turns| - 1 :: Follows(period, turns[k], turns[k + 1]))
  }

  ghost predicate Follows(period: nat, t: Timing, u: Timing)
    requires period > 0
  {
    && u.due == t.start + period - (t.start - t.due) % period
    && u.start == Max(u.due, t.done)
  }

  /** Two consecutive sweeps start at least one period apart exactly when the first started on the grid
      or its body took a whole period: only a sweep that started late can be followed too soon. */
  lemma SpacingHoldsIff(period: nat, t: Timing, u: Timing)
    requires period > 0 && t.due <= t.start <= t.done && Follows(period, t, u)
    ensures u.start - t.start >= period <==> (t.start - t.due) % period == 0 || t.done - t.start >= period
  {
  }

  lemma OnTimeStaysOnTime(period: nat, t: Timing, u: Timing)
    requires period > 0 && t.due == t.start <= t.done <= t.start + period && Follows(period, t, u)
    ensures u.start == u.due == t.start + period
  {
  }

  /** Every body is done by the time the next tick is due. */
  ghost predicate AreTimely(period: nat, turns: seq<Timing>) {
    forall k | 0 <= k < |turns| :: turns[k].done <= turns[k].start + period
  }

  /** When bodies are timely the sweeps keep to the grid, so n of them span n - 1 whole periods. */
  lemma {:induction false} TimelySweepsKeepSpacing(period: nat, turns: seq<Timing>, i: nat, j: nat)
    requires AreTicks(period, turns) && AreTimely(period, turns)
    requires i <= j < |turns| && turns[0].start == turns[0].due
    ensures turns[j].start == turns[j].due
    ensures turns[j].start == turns[i].start + (j - i) * period
    decreases j
  {
    if i < j {
      TimelySweepsKeepSpacing(period, turns, i, j - 1);
      assert Follows(period, turns[j - 1], turns[j]);
      OnTimeStaysOnTime(period, turns[j - 1], turns[j]);
    } else if j > 0 {
      TimelySweepsKeepSpacing(period, turns, 0, j - 1);
      assert Follows(period, turns[j - 1], turns[j]);
      OnTimeStaysOnTime(period, turns[j - 1], turns[j]);
    }
  }

  // Acceptances

  /** A peer may accept a probe of a sweep at any time until the observation timeout of 6 s. */
  ghost predicate MayAccept(t: Timing, time: int) {
    t.start <= time <= t.start + 6
  }

  /** Any acceptance in `t` and any in `u` are at least the reconnection delay of 119 s apart. */
  ghost predicate AreApart(t: Timing, u: Timing) {
    forall earlier, later | MayAccept(t, earlier) && MayAccept(u, later) ::
      later - earlier >= 119
  }

  lemma ApartIffStartsAre(t: Timing, u: Timing)
    ensures AreApart(t, u) <==> u.start - t.start >= MIN_SWEEP_INTERVAL
  {
    assert MayAccept(t, t.start + OBSERVATION_TIMEOUT) && MayAccept(u, u.start);
    assert MIN_SWEEP_INTERVAL - OBSERVATION_TIMEOUT == MIN_PEER_RECONNECTION_DELAY;
  }

  /** The sweep started late by no more than the period has to spare, or its body took that long. */
  ghost predicate KeepsDelay(period: nat, t: Timing)
    requires period > 0
  {
    (t.start - t.due) % period <= period - MIN_SWEEP_INTERVAL || t.done - t.start >= MIN_SWEEP_INTERVAL
  }

  lemma KeptDelaysAddUp(period: nat, turns: seq<Timing>, i: nat, j: nat)
    requires AreTicks(period, turns) && i < j < |turns|
    requires forall k | 0 <= k < |turns| - 1 :: KeepsDelay(period, turns[k])
    ensures turns[j].start - turns[i].start >= MIN_SWEEP_INTERVAL
    decreases j
  {
    assert Follows(period, turns[j - 1], turns[j]) && KeepsDelay(period, turns[j - 1]);
    if i < j - 1 {
      KeptDelaysAddUp(period, turns, i, j - 1);
    }
  }

  /** The exact condition for a whole run: the reconnection delay is respected between any two sweeps
      exactly when every sweep but the last keeps it on its own, by starting close enough to the grid
      or by taking long enough. */
  lemma DelayIsRespectedIff(period: nat, turns: seq<Timing>)
    requires period >= MIN_SWEEP_INTERVAL && AreTicks(period, turns)
    ensures (forall i, j | 0 <= i < j < |turns| :: AreApart(turns[i], turns[j])) <==>
            forall k | 0 <= k < |turns| - 1 :: KeepsDelay(period, turns[k])
  {
    if forall k | 0 <= k < |turns| - 1 :: KeepsDelay(period, turns[k]) {
      forall i, j | 0 <= i < j < |turns| ensures AreApart(turns[i], turns[j]) {
        KeptDelaysAddUp(period, turns, i, j);
        ApartIffStartsAre(turns[i], turns[j]);
      }
    }
    if forall i, j | 0 <= i < j < |turns| :: AreApart(turns[i], turns[j]) {
      forall k | 0 <= k < |turns| - 1 ensures KeepsDelay(period, turns[k]) {
        assert AreApart(turns[k], turns[k + 1]) && Follows(period, turns[k], turns[k + 1]);
        ApartIffStartsAre(turns[k], turns[k + 1]);
      }
    }
  }

  /** When bodies are timely the condition is met, whatever the target spacing. */
  lemma AcceptancesRespectReconnectionDelay(targetSpacing: int, turns: seq<Timing>, i: nat, j: nat)
    requires AreTicks(SweepInterval(targetSpacing), turns) && AreTimely(SweepInterval(targetSpacing), turns)
    requires i < j < |turns| && turns[0].start == turns[0].due
    ensures AreApart(turns[i], turns[j])
  {
    var period := SweepInterval(targetSpacing);
    forall k | 0 <= k < |turns| - 1 ensures KeepsDelay(period, turns[k]) {
      TimelySweepsKeepSpacing(period, turns, k, k);
    }
    DelayIsRespectedIff(period, turns);
  }

  /** Five turns in which the third body, which opens the gate, waits 174 seconds for a write that then
      fails. */
  function StalledWrite(): seq<Timing> {
    [Timing(0, 0, 6), Timing(125, 125, 131), Timing(250, 250, 430), Timing(375, 430, 436), Timing(500, 500, 506)]
  }

  lemma FiveTurns(period: nat, a: Timing, b: Timing, c: Timing, d: Timing, e: Timing)
    requires period > 0
    requires a.due <= a.start <= a.done && b.due <= b.start <= b.done && c.due <= c.start <= c.done
    requires d.due <= d.start <= d.done && e.due <= e.start <= e.done
    requires Follows(period, a, b) && Follows(period, b, c) && Follows(period, c, d) && Follows(period, d, e)
    ensures AreTicks(period, [a, b, c, d, e])
  {
  }

  /** Without timely bodies the delay can be violated: after a stalled write the fourth sweep starts
      late, and the fifth is back on the grid 70 seconds after it. */
  lemma LateSweepBreaksSpacing()
    ensures AreTicks(125, StalledWrite())
    ensures !AreApart(StalledWrite()[3], StalledWrite()[4])
  {
    FiveTurns(125, Timing(0, 0, 6), Timing(125, 125, 131), Timing(250, 250, 430), Timing(375, 430, 436),
              Timing(500, 500, 506));
    ApartIffStartsAre(Timing(375, 430, 436), Timing(500, 500, 506));
  }
}
