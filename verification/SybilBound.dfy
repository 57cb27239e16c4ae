/** How much a set of network groups can achieve, however many addresses it puts in the book. */
module SybilBound {
  import opened Prelude
  import opened Permutations
  import opened Addresses
  import opened ActivationTarget
  import opened ActivationGate
  import opened GroupSampling
  import opened Probes
  import opened PreferredFill
  import opened ObserverLoop
  import opened ActivationProtocol

  /** No probed peer outside `b` reports a height 1000 blocks past the activation. */
  ghost predicate OutsideIsBelow(network: Network, turn: Turn, b: set<NetworkGroup>)
    requires ValidTurn(network, turn)
  {
    forall i | 0 <= i < |turn.probes| ::
      turn.probes[i].Answered? && GroupOf(TurnSample(network, turn)[i]) !in b
      ==> turn.probes[i].remote.startHeight < Min(network.activationHeight + 1000, 4_294_967_295)
  }

  ghost function SampledGroups(network: Network, turn: Turn): set<NetworkGroup>
    requires CanSample(network, turn)
  {
    GroupSet(TurnSample(network, turn))
  }

  /** The groups of `b` are less than three quarters of the sampled ones, or those are too few. */
  ghost predicate IsMinorShare(sampled: set<NetworkGroup>, b: set<NetworkGroup>) {
    4 * |sampled * b| < 3 * |sampled| || |sampled| < 12
  }

  ghost predicate HasMinorShare(network: Network, turn: Turn, b: set<NetworkGroup>)
    requires CanSample(network, turn)
  {
    IsMinorShare(SampledGroups(network, turn), b)
  }

  /** A sweep qualifies exactly when at least twelve groups took part and three quarters of them had
      their elected peer ready; addresses beyond the elected one have no say. */
  lemma SweepCountsGroups(network: Network, turn: Turn)
    requires ValidTurn(network, turn)
    ensures var ready := ReadyGroups(TurnSample(network, turn), turn.probes, Latest(network));
            && ready <= SampledGroups(network, turn)
            && (Qualifies(TurnEvidence(network, turn)) <==>
                |SampledGroups(network, turn)| >= 12
                && 4 * |ready| >= 3 * |SampledGroups(network, turn)|)
  {
    EvidenceCountsGroups(TurnSample(network, turn), turn.probes, Latest(network));
    QuorumIsExact(TurnEvidence(network, turn));
  }

  lemma ReadyGroupsWithin(sample: seq<PeerAddr>, probes: seq<Probe>, target: Target, b: set<NetworkGroup>)
    requires |probes| == |sample|
    requires forall i | 0 <= i < |probes| && GroupOf(sample[i]) !in b :: !IsReady(probes[i], target)
    ensures ReadyGroups(sample, probes, target) <= b
  {
  }

  lemma ReadyGroupsCover(sample: seq<PeerAddr>, probes: seq<Probe>, target: Target, b: set<NetworkGroup>)
    requires |probes| == |sample|
    requires forall i | 0 <= i < |probes| && GroupOf(sample[i]) in b :: IsReady(probes[i], target)
    ensures GroupSet(sample) * b <= ReadyGroups(sample, probes, target)
  {
    forall g | g in GroupSet(sample) * b ensures g in ReadyGroups(sample, probes, target) {
      var i :| 0 <= i < |sample| && GroupOf(sample[i]) == g;
      assert i in ReadyPositions(probes, target);
    }
  }

  /** A minority of groups cannot make a sweep qualify. */
  lemma MinorShareNeverQualifies(network: Network, turn: Turn, b: set<NetworkGroup>)
    requires ValidTurn(network, turn)
    requires OutsideIsBelow(network, turn, b) && HasMinorShare(network, turn, b)
    ensures !Qualifies(TurnEvidence(network, turn))
  {
    SweepCountsGroups(network, turn);
    var sample, target := TurnSample(network, turn), Latest(network);
    forall i | 0 <= i < |turn.probes| && GroupOf(sample[i]) !in b ensures !IsReady(turn.probes[i], target) {
      ReadyIffReportsActivation(network, turn.probes[i]);
    }
    ReadyGroupsWithin(sample, turn.probes, target, b);
    SubsetIsSmaller(ReadyGroups(sample, turn.probes, target), SampledGroups(network, turn) * b);
  }

  /** The bound is tight: groups that do hold three quarters of a large enough sample make the sweep
      qualify by having their elected peers answer as ready. */
  lemma MajorShareCanQualify(network: Network, turn: Turn, b: set<NetworkGroup>)
    requires ValidTurn(network, turn) && !HasMinorShare(network, turn, b)
    requires forall i | 0 <= i < |turn.probes| && GroupOf(TurnSample(network, turn)[i]) in b ::
               IsReady(turn.probes[i], Latest(network))
    ensures Qualifies(TurnEvidence(network, turn))
  {
    SweepCountsGroups(network, turn);
    var sample, target := TurnSample(network, turn), Latest(network);
    ReadyGroupsCover(sample, turn.probes, target, b);
    SubsetIsSmaller(SampledGroups(network, turn) * b, ReadyGroups(sample, turn.probes, target));
  }

  /** When the book has no more groups than a sweep may probe, every group is probed, so the share in
      the sample is the share in the book. */
  lemma SmallBookIsSampledWhole(network: Network, turn: Turn)
    requires CanSample(network, turn)
    requires |GroupSet(ObserverCandidates(turn.book, network))| <= 64
    ensures SampledGroups(network, turn) == GroupSet(ObserverCandidates(turn.book, network))
  {
    var candidates := ObserverCandidates(turn.book, network);
    SampleGroups(candidates, turn.electShuffle, turn.mapOrder, turn.capShuffle);
    DistinctSize(turn.mapOrder);
    PermutedElements(turn.mapOrder, turn.capShuffle);
    assert GroupsOf(TurnSample(network, turn)) == Permuted(turn.mapOrder, turn.capShuffle);
    GroupSetIsElements(TurnSample(network, turn));
  }

  lemma GroupSetIsElements(peers: seq<PeerAddr>)
    ensures GroupSet(peers) == Elements(GroupsOf(peers))
  {
    forall g | g in GroupSet(peers) ensures g in Elements(GroupsOf(peers)) {
      var i :| 0 <= i < |peers| && GroupOf(peers[i]) == g;
      assert GroupsOf(peers)[i] == g;
    }
  }

  // From the sample to the book

  /** Even if a sample took every group of `b` it has room for, `b` would have a minor share. */
  ghost predicate IsMinorInBook(candidates: seq<PeerAddr>, b: set<NetworkGroup>) {
    var n := Min(64, |GroupSet(candidates)|);
    4 * |GroupSet(candidates) * b| < 3 * n || n < 12
  }

  ghost function MemberOf(candidates: seq<PeerAddr>, group: NetworkGroup): (a: PeerAddr)
    requires group in GroupSet(candidates)
    ensures a in candidates && GroupOf(a) == group
  {
    var a :| a in candidates && GroupOf(a) == group; a
  }

  /** Groups of `b` first: a prefix of this order has as many of them as fit. */
  lemma HeaviestOrder(groups: set<NetworkGroup>, b: set<NetworkGroup>) returns (order: seq<NetworkGroup>, m: nat)
    ensures Distinct(order) && Elements(order) == groups
    ensures m == |groups * b| <= |order| && forall i | 0 <= i < m :: order[i] in b
  {
    var inside := SomeOrder(groups * b);
    var outside := SomeOrder(groups - b);
    forall g | g in inside ensures g !in outside {
      assert g in Elements(inside) && g !in Elements(outside);
    }
    DisjointConcatenation(inside, outside);
    order := inside + outside;
    assert Elements(order) == Elements(inside) + Elements(outside);
    DistinctSize(inside);
    m := |inside|;
    forall i | 0 <= i < m ensures order[i] in b {
      assert inside[i] in Elements(inside);
    }
  }

  lemma PrefixIsHeavy(order: seq<NetworkGroup>, b: set<NetworkGroup>, m: nat, n: nat)
    requires Distinct(order) && m <= |order| && n <= |order| && forall i | 0 <= i < m :: order[i] in b
    ensures |Elements(order[..n]) * b| >= Min(n, m)
  {
    var first := order[..Min(n, m)];
    DistinctSize(first);
    forall g | g in Elements(first) ensures g in Elements(order[..n]) * b {
      var i :| 0 <= i < |first| && first[i] == g;
      assert order[..n][i] == g;
    }
    SubsetIsSmaller(Elements(first), Elements(order[..n]) * b);
  }

  /** A proper sample with as many groups of `b` as fit. */
  lemma HeaviestSample(candidates: seq<PeerAddr>, b: set<NetworkGroup>) returns (sampled: seq<PeerAddr>)
    ensures IsProper(candidates, sampled)
    ensures |GroupSet(sampled) * b| >= Min(|sampled|, |GroupSet(candidates) * b|)
  {
    var order, m := HeaviestOrder(GroupSet(candidates), b);
    DistinctSize(order);
    var n := Min(MAX_NETWORK_GROUPS_PER_SWEEP, |order|);
    forall i | 0 <= i < n ensures order[i] in GroupSet(candidates) {
      assert order[i] in Elements(order);
    }
    sampled := seq(n, i requires 0 <= i < n => MemberOf(candidates, order[i]));
    assert GroupsOf(sampled) == order[..n];
    GroupSetIsElements(sampled);
    PrefixIsHeavy(order, b, m, n);
  }

  lemma ProperSampleIsMinor(candidates: seq<PeerAddr>, sampled: seq<PeerAddr>, b: set<NetworkGroup>)
    requires IsProper(candidates, sampled) && IsMinorInBook(candidates, b)
    ensures IsMinorShare(GroupSet(sampled), b)
  {
    GroupSetIsElements(sampled);
    DistinctSize(GroupsOf(sampled));
    assert GroupSet(sampled) <= GroupSet(candidates);
    SubsetIsSmaller(GroupSet(sampled) * b, GroupSet(candidates) * b);
  }

  /** The exact bound on the book: whatever the shuffles, every sample gives `b` a minor share, exactly
      when `b` is a minority of the groups a sample of this book has room for. */
  lemma MinorInEverySampleIff(candidates: seq<PeerAddr>, b: set<NetworkGroup>)
    ensures (forall sampled | IsDrawn(candidates, sampled) :: IsMinorShare(GroupSet(sampled), b))
            <==> IsMinorInBook(candidates, b)
  {
    if IsMinorInBook(candidates, b) {
      forall sampled | IsDrawn(candidates, sampled) ensures IsMinorShare(GroupSet(sampled), b) {
        BothOrdersReachTheSameSamples(candidates, sampled);
        GroupFirstIsProper(candidates, sampled);
        ProperSampleIsMinor(candidates, sampled, b);
      }
    } else {
      var sampled := HeaviestSample(candidates, b);
      BothOrdersReachTheSameSamples(candidates, sampled);
      GroupFirstIsProper(candidates, sampled);
      GroupSetIsElements(sampled);
      DistinctSize(GroupsOf(sampled));
      assert IsDrawn(candidates, sampled) && !IsMinorShare(GroupSet(sampled), b);
    }
  }

  // Over whole runs

  /** The sweep is the evidence of some valid turn in which `b` has a minor share and nobody else
      reports a height 1000 blocks past activation. */
  ghost predicate ComesFromMinority(network: Network, evidence: SweepEvidence, b: set<NetworkGroup>) {
    exists turn ::
      && ValidTurn(network, turn) && TurnEvidence(network, turn) == evidence
      && OutsideIsBelow(network, turn, b) && HasMinorShare(network, turn, b)
  }

  /** No sweep qualifies, no attestation writes this build's record, and the build stays. */
  ghost predicate KeepsUnconfirmed(s: State, e: Event) {
    match e
    case Sweep(evidence) => !Qualifies(evidence)
    case Attest(build, asserted, writeSucceeds) =>
      asserted == RecordFields(Latest(build)) && writeSucceeds
      ==> RecordFields(Latest(build)) != RecordFields(Latest(s.network))
    case Install(build, _) => build == s.network
    case _ => true
  }

  ghost predicate IsUnconfirmed(s: State) {
    && !RecordMatches(s)
    && (s.process.Alive? ==> s.process.life.phase == Sampling)
  }

  lemma StepStaysUnconfirmed(s: State, e: Event)
    requires IsUnconfirmed(s) && Enabled(s, e) && KeepsUnconfirmed(s, e) && s.network.activationHeight > 0
    ensures IsUnconfirmed(Next(s, e)) && Next(s, e).network == s.network
  {
  }

  /** Over every run, with crashes, restarts and foreign attestations anywhere in it: as long as no sweep
      qualifies the tip is not raised and the record not written. */
  lemma {:induction false} NoQualifyingSweepNeverConfirms(states: seq<State>, events: seq<Event>, i: nat)
    requires IsRun(states, events) && i <= |events|
    requires states[0].network.activationHeight > 0 && !RecordMatches(states[0])
    requires forall k {:trigger events[k]} | 0 <= k < |events| :: KeepsUnconfirmed(states[k], events[k])
    ensures states[i].network == states[0].network && IsUnconfirmed(states[i])
    ensures states[i].process.Alive? ==> states[i].process.life.tip < states[i].network.activationHeight
  {
    RunKeepsTipInvariant(states, events, i);
    if i > 0 {
      NoQualifyingSweepNeverConfirms(states, events, i - 1);
      assert StepsTo(states[i - 1], events[i - 1], states[i]);
      StepStaysUnconfirmed(states[i - 1], events[i - 1]);
    }
  }

  /** Every sweep owes its evidence to no more than a minority, and nothing else confirms. */
  ghost predicate IsContained(s: State, e: Event, b: set<NetworkGroup>) {
    match e
    case Sweep(evidence) => ComesFromMinority(s.network, evidence, b)
    case _ => KeepsUnconfirmed(s, e)
  }

  /** If the record does not match at the beginning and the groups `b` stay a minority of each sample
      while nobody else reports the confirmation height, no run raises the tip or writes the record. */
  lemma MinorityNeverConfirms(states: seq<State>, events: seq<Event>, b: set<NetworkGroup>, i: nat)
    requires IsRun(states, events) && i <= |events|
    requires states[0].network.activationHeight > 0 && !RecordMatches(states[0])
    requires forall k {:trigger events[k]} | 0 <= k < |events| :: IsContained(states[k], events[k], b)
    ensures states[i].network == states[0].network && IsUnconfirmed(states[i])
    ensures states[i].process.Alive? ==> states[i].process.life.tip < states[i].network.activationHeight
  {
    forall k {:trigger events[k]} | 0 <= k < |events| ensures KeepsUnconfirmed(states[k], events[k]) {
      assert IsContained(states[k], events[k], b);
      if events[k].Sweep? {
        MinoritySweepDoesNotQualify(states[k].network, events[k].evidence, b);
      }
    }
    NoQualifyingSweepNeverConfirms(states, events, i);
  }

  lemma MinoritySweepDoesNotQualify(network: Network, evidence: SweepEvidence, b: set<NetworkGroup>)
    requires ComesFromMinority(network, evidence, b)
    ensures !Qualifies(evidence)
  {
    var turn :| ValidTurn(network, turn) && TurnEvidence(network, turn) == evidence
                && OutsideIsBelow(network, turn, b) && HasMinorShare(network, turn, b);
    MinorShareNeverQualifies(network, turn, b);
  }

  /** The sweep is the evidence of some turn on a book in which `b` is a minority, whatever was sampled. */
  ghost predicate ComesFromMinorityBook(network: Network, evidence: SweepEvidence, b: set<NetworkGroup>) {
    exists turn ::
      && ValidTurn(network, turn) && TurnEvidence(network, turn) == evidence
      && OutsideIsBelow(network, turn, b) && IsMinorInBook(ObserverCandidates(turn.book, network), b)
  }

  ghost predicate IsContainedByBook(s: State, e: Event, b: set<NetworkGroup>) {
    match e
    case Sweep(evidence) => ComesFromMinorityBook(s.network, evidence, b)
    case _ => IsContained(s, e, b)
  }

  lemma MinorityBookIsMinority(network: Network, evidence: SweepEvidence, b: set<NetworkGroup>)
    requires ComesFromMinorityBook(network, evidence, b)
    ensures ComesFromMinority(network, evidence, b)
  {
    var turn :| ValidTurn(network, turn) && TurnEvidence(network, turn) == evidence
                && OutsideIsBelow(network, turn, b) && IsMinorInBook(ObserverCandidates(turn.book, network), b);
    var candidates := ObserverCandidates(turn.book, network);
    SampleIsSound(candidates, turn.electShuffle, turn.mapOrder, turn.capShuffle);
    ProperSampleIsMinor(candidates, TurnSample(network, turn), b);
  }

  /** The same bound with a hypothesis about the books alone: if `b` is a minority of each sweep's book,
      no outcome of the shuffles, in any sweep of any run, gets the tip raised or the record written. */
  lemma MinorityOfBooksNeverConfirms(states: seq<State>, events: seq<Event>, b: set<NetworkGroup>, i: nat)
    requires IsRun(states, events) && i <= |events|
    requires states[0].network.activationHeight > 0 && !RecordMatches(states[0])
    requires forall k {:trigger events[k]} | 0 <= k < |events| :: IsContainedByBook(states[k], events[k], b)
    ensures states[i].network == states[0].network && IsUnconfirmed(states[i])
    ensures states[i].process.Alive? ==> states[i].process.life.tip < states[i].network.activationHeight
  {
    forall k | 0 <= k < |events| ensures IsContained(states[k], events[k], b) {
      assert IsContainedByBook(states[k], events[k], b);
      if events[k].Sweep? {
        MinorityBookIsMinority(states[k].network, events[k].evidence, b);
      }
    }
    MinorityNeverConfirms(states, events, b, i);
  }
}
