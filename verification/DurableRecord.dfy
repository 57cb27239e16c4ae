/** Durable before visible: over every run, a raised tip has a record behind it. */
module DurableRecord {
  import opened Prelude
  import opened ActivationTarget
  import opened ActivationGate
  import opened ObserverLoop
  import opened ActivationProtocol
  import RecordText

  /** At state `j` the process of state `i` was about to be started, and its record was read. */
  ghost predicate LoadedAt(states: seq<State>, events: seq<Event>, j: nat, i: nat)
    requires |states| == |events| + 1 && j < i <= |events|
  {
    events[j].Start? && Loads(states[j], events[j].readSucceeds) && states[j + 1].lives == states[i].lives
  }

  /** At state `j`, in the same process and before its tip rose, the record was on disk. */
  ghost predicate WrittenAt(states: seq<State>, j: nat, i: nat)
    requires j <= i < |states|
  {
    && states[j].process.Alive? && states[j].lives == states[i].lives
    && states[j].process.life.tip < states[j].network.activationHeight
    && RecordMatches(states[j])
  }

  ghost predicate IsDurableCause(states: seq<State>, events: seq<Event>, j: nat, i: nat)
    requires |states| == |events| + 1 && j <= i <= |events|
  {
    && states[j].network == states[i].network
    && ((j < i && LoadedAt(states, events, j, i)) || WrittenAt(states, j, i))
  }

  ghost predicate HasDurableCause(states: seq<State>, events: seq<Event>, i: nat)
    requires |states| == |events| + 1 && i <= |events|
  {
    exists j: nat | j <= i :: IsDurableCause(states, events, j, i)
  }

  /** How a process comes to be raising or finished: it started confirmed, it just had its record
      written, or it was so before. */
  lemma RaisingStep(s: State, e: Event, t: State)
    requires TipInvariant(s) && StepsTo(s, e, t)
    requires t.process.Alive? && t.network.activationHeight > 0
    requires t.process.life.phase == Raising || t.process.life.phase == Finished
    ensures t.network == s.network
    ensures || (e.Start? && Loads(s, e.readSucceeds))
            || (RecordMatches(t) && t.process.life.tip < t.network.activationHeight)
            || (t.lives == s.lives && s.process.Alive?
                && (s.process.life.phase == Raising || s.process.life.phase == Finished))
  {
  }

  lemma {:induction false} RaisingHasCause(states: seq<State>, events: seq<Event>, i: nat) returns (j: nat)
    requires IsRun(states, events) && i <= |events|
    requires states[i].process.Alive? && states[i].network.activationHeight > 0
    requires states[i].process.life.phase == Raising || states[i].process.life.phase == Finished
    ensures j <= i && IsDurableCause(states, events, j, i)
  {
    RunKeepsTipInvariant(states, events, i - 1);
    assert StepsTo(states[i - 1], events[i - 1], states[i]);
    RaisingStep(states[i - 1], events[i - 1], states[i]);
    if events[i - 1].Start? && Loads(states[i - 1], events[i - 1].readSucceeds) {
      j := i - 1;
    } else if WrittenAt(states, i, i) {
      j := i;
    } else {
      j := RaisingHasCause(states, events, i - 1);
    }
  }

  /** Whenever a live tip stands at its activation height, the matching record was either loaded when
      this process started, or on disk in this life while the tip was still below. The activation
      height must be positive; `ZeroHeightNeedsNoRecord` shows why. */
  lemma DurableBeforeVisible(states: seq<State>, events: seq<Event>, i: nat)
    requires IsRun(states, events) && i <= |events|
    requires states[i].process.Alive?
    requires states[i].process.life.tip >= states[i].network.activationHeight > 0
    ensures HasDurableCause(states, events, i)
  {
    RunKeepsTipInvariant(states, events, i);
    var j := RaisingHasCause(states, events, i);
  }

  /** A startup stands confirmed exactly when the file could be read and holds, character for character,
      the record of the compiled target, or when the activation height is zero. */
  lemma StartIsConfirmedIff(s: State, text: Option<string>, readSucceeds: bool)
    requires Enabled(s, Start(readSucceeds)) && s.record == Recorded(text)
    ensures Next(s, Start(readSucceeds)).process.life.tip >= s.network.activationHeight <==>
            || s.network.activationHeight == 0
            || (s.cacheEnabled && readSucceeds && text.Some? && ConfirmsNetwork(text.value, s.network))
  {
    if text.Some? {
      MatchIsNumeric(Latest(s.network), text.value);
      RecordConfirmsNetwork(s.network, text.value);
    }
  }

  // What an operator and a crash can do

  /** Deleting the record forces fresh observation: the next process starts below its activation with
      nothing counted, whether or not it can read. */
  lemma DeletionForcesObservation(s: State, readSucceeds: bool)
    requires s.process.Dead? && s.network.activationHeight > 0
    ensures Next(Next(s, Delete), Start(readSucceeds)).process ==
            Alive(Life(s.network.activationHeight - 1, Sampling, 0, []))
  {
  }

  /** An attestation confirms the next start exactly when its three numbers are the compiled ones, unless
      the record had confirmed it before. */
  lemma AttestationConfirmsIff(s: State, asserted: RecordText.Fields)
    requires s.process.Dead? && s.cacheEnabled && s.network.activationHeight > 0
    ensures var t := Next(Next(s, Attest(s.network, asserted, true)), Start(true));
            t.process.life.tip == s.network.activationHeight <==>
            AssertsNetwork(s.network, asserted) || RecordMatches(s)
  {
    TargetInNumbers(s.network);
  }

  /** A crash while the record is being written: the write already handed over decides whether the next
      process starts confirmed. */
  lemma PendingWriteOutlivesCrash(s: State, writeCompletes: bool)
    requires s.process.Alive? && s.process.life.phase == Persisting && s.cacheEnabled
    requires s.network.activationHeight > 0
    ensures var t := Next(Next(s, Crash(writeCompletes)), Start(true));
            t.process.life.tip == s.network.activationHeight <==> writeCompletes || RecordMatches(s)
  {
  }

  /** With activation at height zero every process starts at the activation height, record or not. */
  lemma ZeroHeightNeedsNoRecord(network: Network)
    requires network.activationHeight == 0
    ensures var s := State(network, true, None, Dead, 0);
            var states := [s, Next(s, Start(true))];
            && IsRun(states, [Start(true)])
            && states[1].process.life.tip >= network.activationHeight
            && !HasDurableCause(states, [Start(true)], 1)
  {
    var s := State(network, true, None, Dead, 0);
    var states := [s, Next(s, Start(true))];
    assert states[1].record == None;
  }

  /** Without a cache directory nothing raises the tip, whatever the peers report. */
  lemma {:induction false} NoCacheNoRaise(states: seq<State>, events: seq<Event>, i: nat)
    requires IsRun(states, events) && i <= |events|
    requires states[i].process.Alive? && !states[i].cacheEnabled && states[i].network.activationHeight > 0
    ensures states[i].process.life.tip == Latest(states[i].network).preActivationHeight
    ensures states[i].process.life.phase == Sampling || states[i].process.life.phase == Persisting
  {
    RunKeepsTipInvariant(states, events, i);
    assert StepsTo(states[i - 1], events[i - 1], states[i]);
    if !events[i - 1].Start? {
      NoCacheNoRaise(states, events, i - 1);
    }
  }

  // The state machine and the loop

  ghost predicate AreBounded(results: seq<SweepResult>) {
    forall k | 0 <= k < |results| ::
      results[k].evidence.readyGroups <= results[k].evidence.totalGroups <= 64
  }

  /** The machine steps one pass of the observer's loop makes. */
  ghost function PassEvents(s: State, r: SweepResult): seq<Event>
    requires s.process.Alive?
  {
    if GateStep(s.process.life.counter, r.evidence) < REQUIRED_QUALIFYING_SWEEPS then [Sweep(r.evidence)]
    else if s.cacheEnabled && r.writeSucceeds then [Sweep(r.evidence), WriteSucceeds, Raise]
    else [Sweep(r.evidence), WriteFails]
  }

  /** Steps from `s`, stopping where one is not enabled. */
  ghost function Steps(s: State, events: seq<Event>): State
    decreases |events|
  {
    if events == [] || !Enabled(s, events[0]) then s else Steps(Next(s, events[0]), events[1..])
  }

  /** What the loop sees of a state that waits for its next sweep: what its gate was shown, and the
      two things a pass may change. */
  ghost predicate Waits(t: State, s: State, evidences: seq<SweepEvidence>) {
    && t.network == s.network && t.cacheEnabled == s.cacheEnabled
    && t.process.Alive? && t.process.life.phase == Sampling
    && t.record == s.record
    && t.process.life.tip == Latest(s.network).preActivationHeight < s.network.activationHeight
    && t.process.life.counter == Min(U8_MAX, QualifyingSuffix(evidences))
    && EvidencesOf(t.process.life.sweeps) == evidences
  }

  ghost predicate Confirmed(t: State, s: State, sweeps: nat) {
    && t.network == s.network && t.cacheEnabled == s.cacheEnabled
    && t.process.Alive? && t.process.life.phase == Finished
    && RecordMatches(t) && t.process.life.tip == s.network.activationHeight
    && |t.process.life.sweeps| == sweeps
  }

  /** An unconfirmed start waits for its first sweep. */
  lemma UnconfirmedStartWaits(s: State, readSucceeds: bool)
    requires s.process.Dead? && s.network.activationHeight > 0 && !Loads(s, readSucceeds)
    ensures var t := Next(s, Start(readSucceeds)); Waits(t, t, [])
  {
  }

  lemma PassFollowsLoop(t: State, s: State, evidences: seq<SweepEvidence>, r: SweepResult)
    requires Waits(t, s, evidences)
    requires r.evidence.readyGroups <= r.evidence.totalGroups <= 64
    ensures var u := Steps(t, PassEvents(t, r));
            if LastThreeQualify(evidences + [r.evidence]) && s.cacheEnabled && r.writeSucceeds
            then Confirmed(u, s, |evidences| + 1)
            else Waits(u, s, evidences + [r.evidence])
  {
    var swept := Next(t, Sweep(r.evidence));
    StepFollowsHistory(evidences, r.evidence);
    assert EvidencesOf(swept.process.life.sweeps) == evidences + [r.evidence];
    assert |swept.process.life.sweeps| == |EvidencesOf(swept.process.life.sweeps)|;
    if swept.process.life.phase != Persisting {
      OneStep(t, Sweep(r.evidence));
    } else if t.cacheEnabled && r.writeSucceeds {
      ThreeSteps(t, Sweep(r.evidence), WriteSucceeds, Raise);
    } else {
      TwoSteps(t, Sweep(r.evidence), WriteFails);
      assert EvidencesOf(Next(swept, WriteFails).process.life.sweeps) == EvidencesOf(swept.process.life.sweeps);
    }
  }

  lemma OneStep(s: State, e: Event)
    requires Enabled(s, e)
    ensures Steps(s, [e]) == Next(s, e)
  {
  }

  lemma TwoSteps(s: State, e: Event, f: Event)
    requires Enabled(s, e) && Enabled(Next(s, e), f)
    ensures Steps(s, [e, f]) == Next(Next(s, e), f)
  {
    assert [e, f][1..] == [f];
    OneStep(Next(s, e), f);
  }

  lemma ThreeSteps(s: State, e: Event, f: Event, g: Event)
    requires Enabled(s, e) && Enabled(Next(s, e), f) && Enabled(Next(Next(s, e), f), g)
    ensures Steps(s, [e, f, g]) == Next(Next(Next(s, e), f), g)
  {
    assert [e, f, g][1..] == [f, g];
    TwoSteps(Next(s, e), f, g);
  }

  /** The machine driven by the results of a life's sweeps, until it is finished. */
  ghost function Driven(s: State, results: seq<SweepResult>): State {
    if results == [] then s
    else
      var t := Driven(s, results[..|results| - 1]);
      if t.process.Alive? && t.process.life.phase == Sampling
      then Steps(t, PassEvents(t, results[|results| - 1])) else t
  }

  /** Without crashes or outside events the machine does what the loop of `ObserveActivation` does:
      it confirms at the same sweep or at none, with the same tip and the same record. */
  lemma {:induction false} MachineFollowsLoop(s: State, results: seq<SweepResult>)
    requires Waits(s, s, []) && AreBounded(results)
    ensures match ConfirmingSweep(s.cacheEnabled, results)
            case None => Waits(Driven(s, results), s, EvidencesIn(results))
            case Some(k) => Confirmed(Driven(s, results), s, k + 1)
  {
    if results == [] {
      assert EvidencesIn(results) == [];
    } else {
      var n := |results| - 1;
      var front, r := results[..n], results[n];
      MachineFollowsLoop(s, front);
      if ConfirmingSweep(s.cacheEnabled, front).None? {
        ConfirmingSweepNext(s.cacheEnabled, results, n);
        assert results[..n + 1] == results;
        PassFollowsLoop(Driven(s, front), s, EvidencesIn(front), r);
      }
    }
  }

  lemma {:induction false} FinishedStays(t: State, results: seq<SweepResult>)
    requires t.process.Alive? && t.process.life.phase == Finished
    ensures Driven(t, results) == t
  {
    if results != [] {
      FinishedStays(t, results[..|results| - 1]);
    }
  }

  /** The same from a real startup, as `RunNetworkCrawler` has it: a process that loads its record, or has
      nothing to wait for, stays as it started; any other raises its tip at the sweep at which the
      loop confirms, with the record written, or goes on waiting. */
  lemma StartedMachineFollowsLoop(s: State, readSucceeds: bool, results: seq<SweepResult>)
    requires s.process.Dead? && AreBounded(results)
    ensures var t := Next(s, Start(readSucceeds));
            if Loads(s, readSucceeds) || s.network.activationHeight == 0
            then Driven(t, results) == t && t.process.life.tip == s.network.activationHeight
            else match ConfirmingSweep(s.cacheEnabled, results)
                 case None => Waits(Driven(t, results), t, EvidencesIn(results))
                 case Some(k) => Confirmed(Driven(t, results), t, k + 1)
  {
    var t := Next(s, Start(readSucceeds));
    if Loads(s, readSucceeds) || s.network.activationHeight == 0 {
      FinishedStays(t, results);
    } else {
      UnconfirmedStartWaits(s, readSucceeds);
      MachineFollowsLoop(t, results);
    }
  }
}
