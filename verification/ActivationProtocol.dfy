/** The activation protocol as a state machine over the record file and one process, with crashes,
    failed reads and writes, restarts, attestations, deletions and new builds in any order. */
module ActivationProtocol {
  import opened Prelude
  import opened ActivationTarget
  import opened ActivationGate
  import opened ChainTip
  import RecordText

  /** Where the observer of a live process stands: waiting for a sweep, waiting for the record to be
      written, about to raise the tip, or finished. */
  datatype Phase = Sampling | Persisting | Raising | Finished

  /** What came of a sweep: nothing to persist, a write still under way, a failed write, or a record
      on disk. */
  datatype Attempt = NotTried | InFlight | Failed | Written

  datatype SweepLog = SweepLog(evidence: SweepEvidence, attempt: Attempt)

  datatype Life = Life(tip: u32, phase: Phase, counter: u8, sweeps: seq<SweepLog>)

  datatype Process = Dead | Alive(life: Life)

  /** What a record file amounts to: the three numbers its text parses to, if it is there and parses.
      `MatchIsNumeric` makes this all that a startup can learn from it. */
  function Recorded(text: Option<string>): Option<RecordText.Fields> {
    if text.None? then None else RecordText.Parse(text.value)
  }

  /** `lives` counts the processes started so far, so it tells one process from the next. */
  datatype State = State(
    network: Network, cacheEnabled: bool, record: Option<RecordText.Fields>, process: Process, lives: nat)

  datatype Event =
    | Start(readSucceeds: bool)
    | Sweep(evidence: SweepEvidence)
    | WriteSucceeds
    | WriteFails
    | Raise
    | Crash(writeCompletes: bool)
    | Attest(build: Network, asserted: RecordText.Fields, writeSucceeds: bool)
    | Delete
    | Install(build: Network, cacheEnabled: bool)

  ghost predicate RecordMatches(s: State) {
    s.record == Some(RecordFields(Latest(s.network)))
  }

  /** `load_confirmation` at startup. */
  ghost predicate Loads(s: State, readSucceeds: bool) {
    s.cacheEnabled && readSucceeds && RecordMatches(s)
  }

  // Steps

  ghost predicate Enabled(s: State, e: Event) {
    match e
    case Start(_) => s.process.Dead?
    case Sweep(evidence) =>
      s.process.Alive? && s.process.life.phase == Sampling
      && evidence.readyGroups <= evidence.totalGroups <= 64
    case WriteSucceeds => s.process.Alive? && s.process.life.phase == Persisting && s.cacheEnabled
    case WriteFails => s.process.Alive? && s.process.life.phase == Persisting
    case Raise => s.process.Alive? && s.process.life.phase == Raising
    case Crash(_) => s.process.Alive?
    case Attest(_, _, _) => true
    case Delete => true
    case Install(_, _) => s.process.Dead?
  }

  /** `spawn_network_crawler`: load the record, build the tip; the observer leaves at once when the
      tip already stands at the activation height. */
  ghost function Started(s: State, readSucceeds: bool): Life {
    var tip := StartHeight(Latest(s.network), Loads(s, readSucceeds));
    Life(tip, if tip >= s.network.activationHeight then Finished else Sampling, 0, [])
  }

  /** The gate's reading of one sweep, as in `Gate.Observe`. */
  ghost function Swept(l: Life, evidence: SweepEvidence): Life {
    var counter := GateStep(l.counter, evidence);
    if counter >= REQUIRED_QUALIFYING_SWEEPS
    then l.(counter := counter, phase := Persisting, sweeps := l.sweeps + [SweepLog(evidence, InFlight)])
    else l.(counter := counter, sweeps := l.sweeps + [SweepLog(evidence, NotTried)])
  }

  ghost function Settled(l: Life, phase: Phase, attempt: Attempt): Life {
    if l.sweeps == [] then l.(phase := phase)
    else l.(phase := phase,
            sweeps := l.sweeps[|l.sweeps| - 1 := l.sweeps[|l.sweeps| - 1].(attempt := attempt)])
  }

  ghost function Next(s: State, e: Event): State
    requires Enabled(s, e)
  {
    var written := Some(RecordFields(Latest(s.network)));
    match e
    case Start(readSucceeds) => s.(process := Alive(Started(s, readSucceeds)), lives := s.lives + 1)
    case Sweep(evidence) => s.(process := Alive(Swept(s.process.life, evidence)))
    case WriteSucceeds => s.(record := written, process := Alive(Settled(s.process.life, Raising, Written)))
    case WriteFails => s.(process := Alive(Settled(s.process.life, Sampling, Failed)))
    case Raise =>
      var l := s.process.life;
      s.(process := Alive(l.(tip := Max(l.tip, s.network.activationHeight), phase := Finished)))
    case Crash(writeCompletes) =>
      // A write handed to the blocking pool may still complete after its task is gone.
      var landed := writeCompletes && s.cacheEnabled && s.process.life.phase == Persisting;
      s.(record := if landed then written else s.record, process := Dead)
    case Attest(build, asserted, writeSucceeds) =>
      if asserted == RecordFields(Latest(build)) && writeSucceeds
      then s.(record := Some(RecordFields(Latest(build)))) else s
    case Delete => s.(record := None)
    case Install(build, cacheEnabled) => s.(network := build, cacheEnabled := cacheEnabled)
  }

  ghost predicate StepsTo(s: State, e: Event, t: State) { Enabled(s, e) && t == Next(s, e) }

  /** A run from a state with no live process; the record file may hold anything. */
  ghost predicate IsRun(states: seq<State>, events: seq<Event>) {
    && |states| == |events| + 1
    && states[0].process.Dead?
    && forall k {:trigger events[k]} | 0 <= k < |events| :: StepsTo(states[k], events[k], states[k + 1])
  }

  // What holds in every reachable state

  ghost function EvidencesOf(sweeps: seq<SweepLog>): seq<SweepEvidence> {
    seq(|sweeps|, k requires 0 <= k < |sweeps| => sweeps[k].evidence)
  }

  /** Sweep `k` of this life and the two before it qualify. */
  ghost predicate OpensGate(sweeps: seq<SweepLog>, k: nat)
    requires k < |sweeps|
  {
    LastThreeQualify(EvidencesOf(sweeps[..k + 1]))
  }

  /** Of the first `n` sweeps, those that opened the gate had their write fail, and no other tried. */
  ghost predicate Settles(sweeps: seq<SweepLog>, n: nat)
    requires n <= |sweeps|
  {
    forall k | 0 <= k < n ::
      sweeps[k].attempt == if OpensGate(sweeps, k) then Failed else NotTried
  }

  /** The phase and the tip are functions of this life's sweeps and of how their writes went. */
  ghost predicate LifeInvariant(network: Network, l: Life) {
    var target, n := Latest(network), |l.sweeps|;
    && l.counter == Min(U8_MAX, QualifyingSuffix(EvidencesOf(l.sweeps)))
    && (l.phase != Finished ==> l.tip == target.preActivationHeight < target.activationHeight)
    && (l.phase == Finished ==> l.tip == target.activationHeight)
    && match l.phase
       case Sampling => Settles(l.sweeps, n)
       case Persisting => n > 0 && Settles(l.sweeps, n - 1) && l.sweeps[n - 1].attempt == InFlight
                          && OpensGate(l.sweeps, n - 1)
       case Raising => n > 0 && Settles(l.sweeps, n - 1) && l.sweeps[n - 1].attempt == Written
                       && OpensGate(l.sweeps, n - 1)
       case Finished => n > 0 ==> Settles(l.sweeps, n - 1) && l.sweeps[n - 1].attempt == Written
                                  && OpensGate(l.sweeps, n - 1)
  }

  ghost predicate Invariant(s: State) {
    s.process.Alive? ==> LifeInvariant(s.network, s.process.life)
  }

  lemma OneMoreSweep(sweeps: seq<SweepLog>, log: SweepLog)
    ensures EvidencesOf(sweeps + [log]) == EvidencesOf(sweeps) + [log.evidence]
    ensures OpensGate(sweeps + [log], |sweeps|) <==> LastThreeQualify(EvidencesOf(sweeps) + [log.evidence])
    ensures Settles(sweeps + [log], |sweeps|) <==> Settles(sweeps, |sweeps|)
  {
    var after := sweeps + [log];
    forall k | 0 <= k < |sweeps| ensures OpensGate(after, k) == OpensGate(sweeps, k) {
      assert after[..k + 1] == sweeps[..k + 1];
    }
    assert after[..|after|] == after;
    assert EvidencesOf(after) == EvidencesOf(sweeps) + [log.evidence];
  }

  lemma LastSweepSettles(sweeps: seq<SweepLog>, attempt: Attempt)
    requires sweeps != []
    ensures var n := |sweeps| - 1;
            var after := sweeps[n := sweeps[n].(attempt := attempt)];
            && EvidencesOf(after) == EvidencesOf(sweeps)
            && (OpensGate(after, n) <==> OpensGate(sweeps, n))
            && (Settles(after, n) <==> Settles(sweeps, n))
  {
    var n := |sweeps| - 1;
    var after := sweeps[n := sweeps[n].(attempt := attempt)];
    forall k | 0 <= k <= n ensures OpensGate(after, k) == OpensGate(sweeps, k) {
      assert EvidencesOf(after[..k + 1]) == EvidencesOf(sweeps[..k + 1]);
    }
  }

  lemma SettlesOneMore(sweeps: seq<SweepLog>, n: nat)
    requires n < |sweeps| && Settles(sweeps, n)
    requires sweeps[n].attempt == if OpensGate(sweeps, n) then Failed else NotTried
    ensures Settles(sweeps, n + 1)
  {
  }

  lemma SweptKeepsInvariant(network: Network, l: Life, evidence: SweepEvidence)
    requires LifeInvariant(network, l) && l.phase == Sampling
    ensures LifeInvariant(network, Swept(l, evidence))
  {
    StepFollowsHistory(EvidencesOf(l.sweeps), evidence);
    if GateStep(l.counter, evidence) >= REQUIRED_QUALIFYING_SWEEPS {
      OneMoreSweep(l.sweeps, SweepLog(evidence, InFlight));
    } else {
      OneMoreSweep(l.sweeps, SweepLog(evidence, NotTried));
      SettlesOneMore(l.sweeps + [SweepLog(evidence, NotTried)], |l.sweeps|);
    }
  }

  lemma WrittenKeepsInvariant(network: Network, l: Life)
    requires LifeInvariant(network, l) && l.phase == Persisting
    ensures LifeInvariant(network, Settled(l, Raising, Written))
  {
    LastSweepSettles(l.sweeps, Written);
  }

  lemma FailedKeepsInvariant(network: Network, l: Life)
    requires LifeInvariant(network, l) && l.phase == Persisting
    ensures LifeInvariant(network, Settled(l, Sampling, Failed))
  {
    LastSweepSettles(l.sweeps, Failed);
    SettlesOneMore(Settled(l, Sampling, Failed).sweeps, |l.sweeps| - 1);
  }

  lemma StepKeepsInvariant(s: State, e: Event)
    requires Invariant(s) && Enabled(s, e)
    ensures Invariant(Next(s, e))
  {
    match e
    case Start(readSucceeds) => assert EvidencesOf([]) == [];
    case Sweep(evidence) => SweptKeepsInvariant(s.network, s.process.life, evidence);
    case WriteSucceeds => WrittenKeepsInvariant(s.network, s.process.life);
    case WriteFails => FailedKeepsInvariant(s.network, s.process.life);
    case Raise =>
    case Crash(_) =>
    case Attest(_, _, _) =>
    case Delete =>
    case Install(_, _) =>
  }

  lemma {:induction false} RunKeepsInvariant(states: seq<State>, events: seq<Event>, i: nat)
    requires IsRun(states, events) && i < |states|
    ensures Invariant(states[i])
  {
    if i > 0 {
      RunKeepsInvariant(states, events, i - 1);
      assert StepsTo(states[i - 1], events[i - 1], states[i]);
      StepKeepsInvariant(states[i - 1], events[i - 1]);
    }
  }

  /** Sweep `k` closes three qualifying sweeps of this life, and no earlier one that did was written. */
  ghost predicate IsFirstWritten(sweeps: seq<SweepLog>, k: nat) {
    && 2 <= k < |sweeps|
    && sweeps[k].attempt == Written
    && Qualifies(sweeps[k].evidence) && Qualifies(sweeps[k - 1].evidence) && Qualifies(sweeps[k - 2].evidence)
    && forall l | 0 <= l < k :: sweeps[l].attempt == if OpensGate(sweeps, l) then Failed else NotTried
  }

  lemma OpenGateQualifies(sweeps: seq<SweepLog>, k: nat)
    requires k < |sweeps|
    ensures OpensGate(sweeps, k) <==>
            2 <= k && Qualifies(sweeps[k].evidence) && Qualifies(sweeps[k - 1].evidence)
            && Qualifies(sweeps[k - 2].evidence)
  {
    var evidences := EvidencesOf(sweeps[..k + 1]);
    assert evidences[k] == sweeps[k].evidence;
    if k >= 2 {
      assert evidences[k - 1] == sweeps[k - 1].evidence && evidences[k - 2] == sweeps[k - 2].evidence;
    }
  }

  lemma WrittenSweepIsLast(network: Network, l: Life)
    requires LifeInvariant(network, l) && l.sweeps != []
    ensures l.phase == Raising || l.phase == Finished <==> l.sweeps[|l.sweeps| - 1].attempt == Written
    ensures l.sweeps[|l.sweeps| - 1].attempt == Written ==> IsFirstWritten(l.sweeps, |l.sweeps| - 1)
    ensures forall k | 0 <= k < |l.sweeps| - 1 :: l.sweeps[k].attempt != Written
  {
    OpenGateQualifies(l.sweeps, |l.sweeps| - 1);
  }

  /** The part of the invariant about the tip: raised exactly when the observer is finished. */
  ghost predicate TipInvariant(s: State) {
    s.process.Alive? ==>
      if s.process.life.phase == Finished then s.process.life.tip == s.network.activationHeight
      else s.process.life.tip == Latest(s.network).preActivationHeight < s.network.activationHeight
  }

  lemma RunKeepsTipInvariant(states: seq<State>, events: seq<Event>, i: nat)
    requires IsRun(states, events) && i < |states|
    ensures TipInvariant(states[i])
  {
    RunKeepsInvariant(states, events, i);
  }

  /** In any run, in any life: the tip stands at its activation height exactly when the observer is
      finished, and once there has been a sweep, the record is on disk exactly when the last sweep was
      written. That sweep then closes three qualifying sweeps of this same life, and every earlier one
      that closed three had its write fail. So the tip rises at the first such sweep whose write
      succeeds: a failed write does not cost the count, a crash does. */
  lemma TipRisesAtFirstWrittenSweep(states: seq<State>, events: seq<Event>, i: nat)
    requires IsRun(states, events) && i < |states|
    requires states[i].process.Alive?
    ensures var l := states[i].process.life;
            && (l.phase == Finished <==> l.tip >= states[i].network.activationHeight)
            && (l.sweeps != [] ==>
                  (l.phase == Raising || l.phase == Finished <==> IsFirstWritten(l.sweeps, |l.sweeps| - 1)))
            && forall k | 0 <= k < |l.sweeps| - 1 :: !IsFirstWritten(l.sweeps, k)
  {
    RunKeepsInvariant(states, events, i);
    var l := states[i].process.life;
    if l.sweeps != [] {
      WrittenSweepIsLast(states[i].network, l);
    }
  }
}
