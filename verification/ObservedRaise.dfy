/** What a raise by the observer is worth, in network prefixes and reported heights. */
module ObservedRaise {
  import opened Prelude
  import opened Permutations
  import opened Addresses
  import opened Prefixes
  import opened ActivationTarget
  import opened ActivationGate
  import opened Probes
  import opened ObserverLoop
  import opened ActivationProtocol
  import opened DurableRecord
  import opened SybilBound

  /** The sampled positions whose peer reported the activation. */
  ghost function ReportingAt(network: Network, turn: Turn): set<nat> {
    set i | i in Below(|turn.probes|) && ReportsActivation(network, turn.probes[i])
  }

  /** The IPv4 /16s and IPv6 /32s whose peer reported the activation. */
  ghost function ReportingPrefixes(network: Network, turn: Turn): set<Prefix>
    requires ValidTurn(network, turn)
  {
    PrefixesAt(TurnSample(network, turn), ReportingAt(network, turn))
  }

  /** Twelve prefixes took part, and three quarters of them reported the activation. */
  ghost predicate HasQuorum(network: Network, turn: Turn)
    requires ValidTurn(network, turn)
  {
    var sampled := PrefixSet(TurnSample(network, turn));
    |sampled| >= 12 && 4 * |ReportingPrefixes(network, turn)| >= 3 * |sampled|
  }

  /** A sweep qualifies exactly when it has a quorum of prefixes; then nine different ones reported. */
  lemma QualifiesIffQuorum(network: Network, turn: Turn)
    requires ValidTurn(network, turn)
    ensures Qualifies(TurnEvidence(network, turn)) <==> HasQuorum(network, turn)
    ensures Qualifies(TurnEvidence(network, turn)) ==> |ReportingPrefixes(network, turn)| >= 9
  {
    var sample, reporting := TurnSample(network, turn), ReportingAt(network, turn);
    SweepCountsGroups(network, turn);
    ReportingPositions(network, turn.probes);
    AllPositions(sample);
    PrefixesCountGroups(sample, reporting);
    assert ReadyGroups(sample, turn.probes, Latest(network)) == GroupsAt(sample, reporting);
  }

  // Over whole runs

  ghost predicate ComesFromTurn(network: Network, evidence: SweepEvidence) {
    exists turn :: ValidTurn(network, turn) && TurnEvidence(network, turn) == evidence
  }

  /** Every sweep of the run is what some book, shuffles and probes came to. */
  ghost predicate SweepsComeFromTurns(states: seq<State>, events: seq<Event>)
    requires |states| == |events| + 1
  {
    forall k {:trigger events[k]} | 0 <= k < |events| && events[k].Sweep? ::
      ComesFromTurn(states[k].network, events[k].evidence)
  }

  /** Some turn with a quorum of prefixes came to this evidence. */
  ghost predicate ShowsQuorum(network: Network, evidence: SweepEvidence) {
    exists turn :: ValidTurn(network, turn) && TurnEvidence(network, turn) == evidence && HasQuorum(network, turn)
  }

  lemma QualifyingTurnShowsQuorum(network: Network, evidence: SweepEvidence)
    requires ComesFromTurn(network, evidence) && Qualifies(evidence)
    ensures ShowsQuorum(network, evidence)
  {
    var turn :| ValidTurn(network, turn) && TurnEvidence(network, turn) == evidence;
    QualifiesIffQuorum(network, turn);
  }

  ghost predicate AllAre(network: Network, sweeps: seq<SweepLog>, good: (Network, SweepEvidence) -> bool) {
    forall k | 0 <= k < |sweeps| :: good(network, sweeps[k].evidence)
  }

  lemma StepKeepsSweeps(s: State, e: Event, t: State, good: (Network, SweepEvidence) -> bool)
    requires StepsTo(s, e, t) && t.process.Alive?
    requires s.process.Alive? ==> AllAre(s.network, s.process.life.sweeps, good)
    requires e.Sweep? ==> good(s.network, e.evidence)
    ensures AllAre(t.network, t.process.life.sweeps, good)
  {
  }

  /** What holds of the evidence of every sweep event holds of the sweeps a life remembers. */
  lemma {:induction false} LifeKeepsSweeps(
      states: seq<State>, events: seq<Event>, i: nat, good: (Network, SweepEvidence) -> bool)
    requires IsRun(states, events) && i <= |events| && states[i].process.Alive?
    requires forall k {:trigger events[k]} | 0 <= k < |events| && events[k].Sweep? ::
               good(states[k].network, events[k].evidence)
    ensures AllAre(states[i].network, states[i].process.life.sweeps, good)
  {
    assert StepsTo(states[i - 1], events[i - 1], states[i]);
    if states[i - 1].process.Alive? {
      LifeKeepsSweeps(states, events, i - 1, good);
    }
    StepKeepsSweeps(states[i - 1], events[i - 1], states[i], good);
  }

  ghost predicate AllQualify(
      network: Network, evidences: seq<SweepEvidence>, good: (Network, SweepEvidence) -> bool)
  {
    || evidences == []
    || (good(network, evidences[0]) && Qualifies(evidences[0]) && AllQualify(network, evidences[1..], good))
  }

  lemma ThreeQualify(network: Network, a: SweepEvidence, b: SweepEvidence, c: SweepEvidence,
                     good: (Network, SweepEvidence) -> bool)
    requires good(network, a) && good(network, b) && good(network, c)
    requires Qualifies(a) && Qualifies(b) && Qualifies(c)
    ensures AllQualify(network, [a, b, c], good)
  {
    assert [a, b, c][1..] == [b, c] && [b, c][1..] == [c];
    assert AllQualify(network, [c], good);
    assert AllQualify(network, [b, c], good);
  }

  /** The three sweeps that opened the gate of a raised tip. */
  lemma OpeningSweeps(states: seq<State>, events: seq<Event>, i: nat, good: (Network, SweepEvidence) -> bool)
    returns (three: seq<SweepEvidence>)
    requires IsRun(states, events) && i <= |events| && states[i].process.Alive?
    requires states[i].process.life.tip >= states[i].network.activationHeight
    requires states[i].process.life.sweeps != []
    requires forall k {:trigger events[k]} | 0 <= k < |events| && events[k].Sweep? ::
               good(states[k].network, events[k].evidence)
    ensures var sweeps := states[i].process.life.sweeps;
            && |sweeps| >= 3
            && three == [sweeps[|sweeps| - 3].evidence, sweeps[|sweeps| - 2].evidence, sweeps[|sweeps| - 1].evidence]
    ensures AllQualify(states[i].network, three, good)
  {
    TipRisesAtFirstWrittenSweep(states, events, i);
    LifeKeepsSweeps(states, events, i, good);
    var sweeps := states[i].process.life.sweeps;
    var a, b, c := sweeps[|sweeps| - 3].evidence, sweeps[|sweeps| - 2].evidence, sweeps[|sweeps| - 1].evidence;
    three := [a, b, c];
    ThreeQualify(states[i].network, a, b, c, good);
  }

  lemma UnsweptStep(s: State, e: Event, t: State)
    requires Invariant(s) && StepsTo(s, e, t)
    requires t.process.Alive? && t.process.life.phase == Finished && t.process.life.sweeps == []
    requires t.network.activationHeight > 0
    ensures t.network == s.network
    ensures || (e.Start? && Loads(s, e.readSucceeds))
            || (t.lives == s.lives && s.process.Alive? && s.process.life.phase == Finished
                && s.process.life.sweeps == [])
  {
  }

  lemma {:induction false} UnsweptWasLoaded(states: seq<State>, events: seq<Event>, i: nat) returns (j: nat)
    requires IsRun(states, events) && i <= |events|
    requires states[i].process.Alive? && states[i].network.activationHeight > 0
    requires states[i].process.life.phase == Finished && states[i].process.life.sweeps == []
    ensures j < i && LoadedAt(states, events, j, i) && states[j].network == states[i].network
  {
    RunKeepsInvariant(states, events, i - 1);
    assert StepsTo(states[i - 1], events[i - 1], states[i]);
    UnsweptStep(states[i - 1], events[i - 1], states[i]);
    if events[i - 1].Start? {
      j := i - 1;
    } else {
      j := UnsweptWasLoaded(states, events, i - 1);
    }
  }

  ghost predicate AllShowQuorum(network: Network, evidences: seq<SweepEvidence>) {
    evidences == [] || (ShowsQuorum(network, evidences[0]) && AllShowQuorum(network, evidences[1..]))
  }

  /** Every sweep with this property is one of some turn. */
  ghost predicate MeansTurn(good: (Network, SweepEvidence) -> bool) {
    forall network, evidence :: good(network, evidence) ==> ComesFromTurn(network, evidence)
  }

  lemma {:induction false} QualifyingSweepsShowQuorum(
      network: Network, evidences: seq<SweepEvidence>, good: (Network, SweepEvidence) -> bool)
    requires AllQualify(network, evidences, good) && MeansTurn(good)
    ensures AllShowQuorum(network, evidences)
  {
    if evidences != [] {
      QualifyingTurnShowsQuorum(network, evidences[0]);
      QualifyingSweepsShowQuorum(network, evidences[1..], good);
    }
  }

  /** Behind every raised tip, over every run: either this process loaded its network's record when it
      started, or its last three sweeps each had at least twelve prefixes taking part, three quarters of
      which reported a full node of the required version at least 1000 blocks past the activation. */
  lemma RaiseHadThreeQuorums(states: seq<State>, events: seq<Event>, i: nat)
    requires IsRun(states, events) && i <= |events| && SweepsComeFromTurns(states, events)
    requires states[i].process.Alive?
    requires states[i].process.life.tip >= states[i].network.activationHeight > 0
    ensures var network, sweeps := states[i].network, states[i].process.life.sweeps;
            if sweeps == []
            then exists j: nat | j < i :: LoadedAt(states, events, j, i) && states[j].network == network
            else |sweeps| >= 3
                 && AllShowQuorum(network, [sweeps[|sweeps| - 3].evidence, sweeps[|sweeps| - 2].evidence,
                                            sweeps[|sweeps| - 1].evidence])
  {
    if states[i].process.life.sweeps == [] {
      RunKeepsTipInvariant(states, events, i);
      var j := UnsweptWasLoaded(states, events, i);
    } else {
      var good := (network, evidence) => ComesFromTurn(network, evidence);
      var three := OpeningSweeps(states, events, i, good);
      QualifyingSweepsShowQuorum(states[i].network, three, good);
    }
  }

  // An operator of few prefixes

  /** Sampled peers outside these prefixes report no height 1000 blocks past the activation. */
  ghost predicate OthersAreBelow(network: Network, turn: Turn, prefixes: set<Prefix>)
    requires ValidTurn(network, turn)
  {
    forall i | 0 <= i < |turn.probes| ::
      turn.probes[i].Answered? && PrefixOf(TurnSample(network, turn)[i]) !in prefixes
      ==> turn.probes[i].remote.startHeight < Min(network.activationHeight + 1000, 4_294_967_295)
  }

  ghost predicate ComesFromPrefixes(network: Network, evidence: SweepEvidence, prefixes: set<Prefix>) {
    exists turn ::
      ValidTurn(network, turn) && TurnEvidence(network, turn) == evidence && OthersAreBelow(network, turn, prefixes)
  }

  lemma FewPrefixesDoNotQualify(network: Network, evidence: SweepEvidence, prefixes: set<Prefix>)
    requires ComesFromPrefixes(network, evidence, prefixes) && |prefixes| < 9
    ensures !Qualifies(evidence)
  {
    var turn :| ValidTurn(network, turn) && TurnEvidence(network, turn) == evidence
                && OthersAreBelow(network, turn, prefixes);
    QualifiesIffQuorum(network, turn);
    assert ReportingPrefixes(network, turn) <= prefixes;
    SubsetIsSmaller(ReportingPrefixes(network, turn), prefixes);
  }

  ghost predicate IsHeldByPrefixes(s: State, e: Event, prefixes: set<Prefix>) {
    match e
    case Sweep(evidence) => ComesFromPrefixes(s.network, evidence, prefixes)
    case _ => KeepsUnconfirmed(s, e)
  }

  /** Whoever operates fewer than nine prefixes, with any number of addresses in each, confirms nothing
      alone: over every run, if all others stay below the height, the tip is never raised and the record
      never written. */
  lemma FewPrefixesNeverConfirm(states: seq<State>, events: seq<Event>, prefixes: set<Prefix>, i: nat)
    requires IsRun(states, events) && i <= |events| && |prefixes| < 9
    requires states[0].network.activationHeight > 0 && !RecordMatches(states[0])
    requires forall k {:trigger events[k]} | 0 <= k < |events| :: IsHeldByPrefixes(states[k], events[k], prefixes)
    ensures states[i].network == states[0].network && IsUnconfirmed(states[i])
    ensures states[i].process.Alive? ==> states[i].process.life.tip < states[i].network.activationHeight
  {
    forall k {:trigger events[k]} | 0 <= k < |events| ensures KeepsUnconfirmed(states[k], events[k]) {
      assert IsHeldByPrefixes(states[k], events[k], prefixes);
      if events[k].Sweep? {
        FewPrefixesDoNotQualify(states[k].network, events[k].evidence, prefixes);
      }
    }
    NoQualifyingSweepNeverConfirms(states, events, i);
  }
}
