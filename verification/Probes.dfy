/** Probing the sampled peers and counting the ready ones. */
module Probes {
  import opened Prelude
  import opened Permutations
  import opened Addresses
  import opened ActivationTarget
  import opened ActivationGate

  datatype ProbeOutcome =
    | Ready
    | ConnectFailed
    | HandshakeClosed
    | HandshakeTimeout
    | HandshakeFailed
    | BelowConfirmationHeight
    | OutdatedVersion
    | NotFullNode
    | ProbeTaskFailed

  /** The error of a failed handshake: the inner timer, one of zebra-network's handshake errors, a
      connection error, or anything else. */
  datatype HandshakeError =
    | TimerElapsed
    | Timeout
    | ConnectionClosed
    | HandshakeIo
    | ObsoleteVersion(version: u32)
    | UnexpectedMessage
    | RemoteNonceReuse
    | LocalDuplicateNonce
    | Serialization
    | MissingRequiredServices
    | ConnectIo
    | Unrecognized

  /** What a remote peer reported in a completed handshake. */
  datatype Remote = Remote(startHeight: u32, version: u32, nodeNetwork: bool)

  /** How one probe ended: its own task was lost, the observation timer ran out, the handshake
      failed, or the peer answered. */
  datatype Probe =
    | TaskLost
    | ObservationElapsed
    | Failed(error: HandshakeError)
    | Answered(remote: Remote)

  /** `ProbeOutcome::of_handshake_error`. */
  function OfHandshakeError(error: HandshakeError): ProbeOutcome {
    match error
    case TimerElapsed | Timeout => HandshakeTimeout
    case ConnectionClosed | HandshakeIo => HandshakeClosed
    case ObsoleteVersion(_) => OutdatedVersion
    case UnexpectedMessage | RemoteNonceReuse | LocalDuplicateNonce | Serialization
      | MissingRequiredServices => HandshakeFailed
    case ConnectIo => ConnectFailed
    case Unrecognized => HandshakeFailed
  }

  /** `ProbeOutcome::of_handshake`: the first unmet condition. */
  function OfHandshake(remote: Remote, target: Target): ProbeOutcome {
    if remote.startHeight < target.confirmationHeight then BelowConfirmationHeight
    else if remote.version < target.requiredVersion then OutdatedVersion
    else if !remote.nodeNetwork then NotFullNode
    else Ready
  }

  /** `observe_peer` and the join of its task. */
  function OutcomeOf(probe: Probe, target: Target): ProbeOutcome {
    match probe
    case TaskLost => ProbeTaskFailed
    case ObservationElapsed => HandshakeTimeout
    case Failed(error) => OfHandshakeError(error)
    case Answered(remote) => OfHandshake(remote, target)
  }

  predicate IsReady(probe: Probe, target: Target) { OutcomeOf(probe, target) == Ready }

  /** Only a complete answer meeting all three conditions counts, and an answer that misses some is
      reported under the first it misses: height, then version, then service. */
  lemma ReadyMeansAllConditions(probe: Probe, target: Target)
    ensures probe.Answered? ==>
              && (OutcomeOf(probe, target) == BelowConfirmationHeight
                  <==> probe.remote.startHeight < target.confirmationHeight)
              && (OutcomeOf(probe, target) == OutdatedVersion
                  <==> probe.remote.version < target.requiredVersion
                       && probe.remote.startHeight >= target.confirmationHeight)
              && (OutcomeOf(probe, target) == NotFullNode
                  <==> !probe.remote.nodeNetwork && probe.remote.startHeight >= target.confirmationHeight
                       && probe.remote.version >= target.requiredVersion)
    ensures IsReady(probe, target) <==>
            && probe.Answered?
            && probe.remote.startHeight >= target.confirmationHeight
            && probe.remote.version >= target.requiredVersion
            && probe.remote.nodeNetwork
  {
    match probe
    case TaskLost =>
    case ObservationElapsed =>
    case Failed(error) => assert OfHandshakeError(error) != Ready;
    case Answered(remote) =>
  }

  /** The peer answered as a full node at least 1000 blocks past the network's activation, with the
      version required from the activation on. */
  ghost predicate ReportsActivation(network: Network, probe: Probe) {
    && probe.Answered?
    && probe.remote.startHeight >= Min(network.activationHeight + 1000, 4_294_967_295)
    && probe.remote.version >= network.minRemote(network.activationHeight)
    && probe.remote.nodeNetwork
  }

  /** That is what counts as ready for the compiled target. */
  lemma ReadyIffReportsActivation(network: Network, probe: Probe)
    ensures IsReady(probe, Latest(network)) <==> ReportsActivation(network, probe)
  {
    TargetInNumbers(network);
    ReadyMeansAllConditions(probe, Latest(network));
  }

  /** The sampled peers, by position, whose probe is ready. */
  ghost function ReadyPositions(probes: seq<Probe>, target: Target): set<nat> {
    set i | i in Below(|probes|) && IsReady(probes[i], target)
  }

  lemma ReadyPositionsAre(probes: seq<Probe>, target: Target)
    ensures ReadyPositions(probes, target) ==
            set i | i in Below(|probes|) && probes[i].Answered?
                    && probes[i].remote.startHeight >= target.confirmationHeight
                    && probes[i].remote.version >= target.requiredVersion && probes[i].remote.nodeNetwork
  {
    forall i | i in Below(|probes|)
      ensures IsReady(probes[i], target) <==>
              probes[i].Answered? && probes[i].remote.startHeight >= target.confirmationHeight
              && probes[i].remote.version >= target.requiredVersion && probes[i].remote.nodeNetwork
    {
      ReadyMeansAllConditions(probes[i], target);
    }
  }

  lemma ReadyPositionsSize(probes: seq<Probe>, target: Target)
    ensures |ReadyPositions(probes, target)| <= |probes|
  {
    SubsetIsSmaller(ReadyPositions(probes, target), Below(|probes|));
  }

  /** The evidence of a sweep in which sampled peer `i` was probed with result `probes[i]`. */
  ghost function EvidenceOf(probes: seq<Probe>, target: Target): SweepEvidence
    requires |probes| <= USIZE_MAX
  {
    ReadyPositionsSize(probes, target);
    SweepEvidence(|probes|, |ReadyPositions(probes, target)|)
  }

  lemma JoiningOneMore(joined: set<nat>, ready: set<nat>, i: nat)
    requires i !in joined
    ensures |(joined + {i}) * ready| == |joined * ready| + if i in ready then 1 else 0
  {
    assert (joined + {i}) * ready == if i in ready then joined * ready + {i} else joined * ready;
  }

  lemma JoiningAll(joined: set<nat>, ready: set<nat>, joinOrder: seq<nat>)
    requires IsPermutation(joinOrder, |joinOrder|) && ready <= Below(|joinOrder|)
    requires forall l | 0 <= l < |joinOrder| :: joinOrder[l] in joined
    ensures joined * ready == ready
  {
    forall i | i in ready ensures i in joined {
      PermutationIsOnto(joinOrder, |joinOrder|, i);
    }
  }

  /** `observe_sweep`: every sampled peer is probed, the tasks finish in any order `joinOrder`, and
      a peer that fails in any way stays in the denominator. */
  method ObserveSweep(sampledPeers: seq<PeerAddr>, probes: seq<Probe>, joinOrder: seq<nat>, target: Target)
    returns (evidence: SweepEvidence)
    requires |probes| == |sampledPeers| <= USIZE_MAX
    requires IsPermutation(joinOrder, |probes|)
    ensures evidence.totalGroups == |sampledPeers|
    ensures evidence.readyGroups ==
            |set i | i in Below(|probes|) && probes[i].Answered?
                     && probes[i].remote.startHeight >= target.confirmationHeight
                     && probes[i].remote.version >= target.requiredVersion && probes[i].remote.nodeNetwork|
    ensures evidence == EvidenceOf(probes, target)
  {
    var totalGroups := |sampledPeers|;
    var readyGroups := 0;
    ghost var ready := ReadyPositions(probes, target);
    ghost var joined: set<nat> := {};
    for k := 0 to |joinOrder|
      invariant forall l | 0 <= l < |joinOrder| :: joinOrder[l] in joined <==> l < k
      invariant readyGroups == |joined * ready| <= k
    {
      var outcome := OutcomeOf(probes[joinOrder[k]], target);
      if outcome == Ready {
        readyGroups := readyGroups + 1;
      }
      JoiningOneMore(joined, ready, joinOrder[k]);
      joined := joined + {joinOrder[k]};
    }
    JoiningAll(joined, ready, joinOrder);
    ReadyPositionsAre(probes, target);
    evidence := SweepEvidence(totalGroups, readyGroups);
  }

  // Ready groups

  /** The groups whose elected peer was ready. */
  ghost function ReadyGroups(sampledPeers: seq<PeerAddr>, probes: seq<Probe>, target: Target): set<NetworkGroup>
    requires |probes| == |sampledPeers|
  {
    set i | i in ReadyPositions(probes, target) :: GroupOf(sampledPeers[i])
  }

  /** With one peer per group, the evidence counts groups: the total is the number of sampled groups
      and the ready count the number of groups whose peer was ready. */
  lemma EvidenceCountsGroups(sampledPeers: seq<PeerAddr>, probes: seq<Probe>, target: Target)
    requires |probes| == |sampledPeers| <= USIZE_MAX && Distinct(GroupsOf(sampledPeers))
    ensures EvidenceOf(probes, target).totalGroups == |GroupSet(sampledPeers)|
    ensures EvidenceOf(probes, target).readyGroups == |ReadyGroups(sampledPeers, probes, target)|
    ensures ReadyGroups(sampledPeers, probes, target) <= GroupSet(sampledPeers)
  {
    GroupsAtPositions(sampledPeers, ReadyPositions(probes, target));
    GroupsAtPositions(sampledPeers, Below(|sampledPeers|));
    assert GroupSet(sampledPeers) == set i | i in Below(|sampledPeers|) :: GroupOf(sampledPeers[i]);
  }

  lemma GroupsAtPositions(peers: seq<PeerAddr>, positions: set<nat>)
    requires Distinct(GroupsOf(peers)) && forall i | i in positions :: i < |peers|
    ensures |set i | i in positions :: GroupOf(peers[i])| == |positions|
  {
    var groups := GroupsOf(peers);
    ImageSize(groups, positions);
    assert (set i | i in positions :: GroupOf(peers[i])) == set i | i in positions :: groups[i];
  }
}
