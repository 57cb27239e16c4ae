/** The activation observer of one process: sample, probe, feed the gate, and on confirmation make
    the record durable before raising the tip. */
module ObserverLoop {
  import opened Prelude
  import opened Permutations
  import opened Addresses
  import opened Prefixes
  import opened ActivationTarget
  import opened ActivationGate
  import opened GroupSampling
  import opened Probes
  import opened ChainTip
  import opened Servability
  import opened PreferredFill
  import RecordText

  // The confirmation record

  /** An operator's three numbers are the ones compiled in for the network. */
  ghost predicate AssertsNetwork(network: Network, asserted: RecordText.Fields) {
    && asserted.activationHeight == network.activationHeight
    && asserted.confirmationHeight == Min(network.activationHeight + 1000, 4_294_967_295)
    && asserted.minimumVersion == network.minRemote(network.activationHeight)
  }

  datatype AttestError = Mismatch | CacheDisabled | WriteFailed

  /** The record file beside the peer cache. A write is atomic: it replaces the text or fails. */
  class ConfirmationFile {
    const cacheEnabled: bool
    var record: Option<string>

    constructor (cacheEnabled: bool, record: Option<string>)
      ensures this.cacheEnabled == cacheEnabled && this.record == record
    {
      this.cacheEnabled := cacheEnabled;
      this.record := record;
    }

    /** `persist_confirmation`. */
    method Persist(target: Target, writeSucceeds: bool) returns (ok: bool)
      modifies this
      ensures ok <==> cacheEnabled && writeSucceeds
      ensures ok ==> record.Some?
                     && RecordText.HoldsLines(record.value, target.activationHeight, target.confirmationHeight,
                                              target.requiredVersion)
      ensures record == if ok then Some(ConfirmationRecord(target)) else old(record)
    {
      if !cacheEnabled {
        return false;
      }
      RecordText.RenderHoldsLines(target.activationHeight, target.confirmationHeight, target.requiredVersion,
                                  ConfirmationRecord(target));
      if writeSucceeds {
        record := Some(ConfirmationRecord(target));
      }
      ok := writeSucceeds;
    }

    /** `load_confirmation`: only a readable text whose three lines are the target's numbers confirms. */
    method Load(target: Target, readSucceeds: bool) returns (confirmed: bool)
      ensures confirmed <==> cacheEnabled && readSucceeds && record.Some?
                             && RecordText.HoldsLines(record.value, target.activationHeight,
                                                      target.confirmationHeight, target.requiredVersion)
      ensures confirmed <==> cacheEnabled && readSucceeds && record.Some?
                             && RecordText.Parse(record.value) == Some(RecordFields(target))
    {
      if !cacheEnabled || !readSucceeds || record.None? {
        return false;
      }
      MatchIsNumeric(target, record.value);
      RecordText.RenderHoldsLines(target.activationHeight, target.confirmationHeight, target.requiredVersion,
                                  record.value);
      confirmed := MatchesConfirmationRecord(target, record.value);
    }

    /** `attest_confirmation`: the three asserted numbers must be the network's activation height, the
        height 1000 blocks past it and the version required there; then the record holds them. */
    method Attest(network: Network, asserted: RecordText.Fields, writeSucceeds: bool)
      returns (result: Result<(), AttestError>)
      modifies this
      ensures result == Err(Mismatch) <==> !AssertsNetwork(network, asserted)
      ensures result == Err(CacheDisabled) <==> AssertsNetwork(network, asserted) && !cacheEnabled
      ensures result.Ok? <==> AssertsNetwork(network, asserted) && cacheEnabled && writeSucceeds
      ensures result.Ok? ==> record.Some? && ConfirmsNetwork(record.value, network)
      ensures result.Ok? ==> record == Some(ConfirmationRecord(Latest(network)))
      ensures result.Err? ==> record == old(record)
    {
      var target := Latest(network);
      var assertedRecord := RecordText.Render(asserted);
      RecordText.RenderIsInjective(asserted, RecordFields(target));
      TargetInNumbers(network);
      RecordConfirmsNetwork(network, ConfirmationRecord(target));
      if !MatchesConfirmationRecord(target, assertedRecord) {
        return Err(Mismatch);
      }
      if !cacheEnabled {
        return Err(CacheDisabled);
      }
      var ok := Persist(target, writeSucceeds);
      result := if ok then Ok(()) else Err(WriteFailed);
    }
  }

  // One turn of the loop

  /** Everything outside the program's control in one turn: the book when it is locked, the shuffles
      and map order, how each probe ends and in which order the tasks join, and whether a write
      would succeed. */
  datatype Turn = Turn(
    book: seq<PeerMeta>,
    electShuffle: seq<nat>,
    mapOrder: seq<NetworkGroup>,
    capShuffle: seq<nat>,
    probes: seq<Probe>,
    joinOrder: seq<nat>,
    writeSucceeds: bool)

  ghost predicate CanSample(network: Network, turn: Turn) {
    && IsPermutation(turn.electShuffle, |ObserverCandidates(turn.book, network)|)
    && IsMapOrder(turn.mapOrder, ObserverCandidates(turn.book, network))
    && IsPermutation(turn.capShuffle, |turn.mapOrder|)
  }

  ghost function TurnSample(network: Network, turn: Turn): (r: seq<PeerAddr>)
    requires CanSample(network, turn)
    ensures Distinct(GroupsOf(r)) && |r| <= MAX_NETWORK_GROUPS_PER_SWEEP
  {
    SampleIsSound(ObserverCandidates(turn.book, network), turn.electShuffle, turn.mapOrder, turn.capShuffle);
    Sample(ObserverCandidates(turn.book, network), turn.electShuffle, turn.mapOrder, turn.capShuffle)
  }

  ghost predicate ValidTurn(network: Network, turn: Turn) {
    && CanSample(network, turn)
    && |turn.probes| == |TurnSample(network, turn)|
    && IsPermutation(turn.joinOrder, |turn.probes|)
  }

  ghost function TurnEvidence(network: Network, turn: Turn): (e: SweepEvidence)
    requires ValidTurn(network, turn)
    ensures e.readyGroups <= e.totalGroups <= 64
  {
    ReadyPositionsSize(turn.probes, Latest(network));
    EvidenceOf(turn.probes, Latest(network))
  }

  lemma ReportingPositions(network: Network, probes: seq<Probe>)
    ensures ReadyPositions(probes, Latest(network)) ==
            set i | i in Below(|probes|) && ReportsActivation(network, probes[i])
  {
    forall i | i in Below(|probes|)
      ensures IsReady(probes[i], Latest(network)) <==> ReportsActivation(network, probes[i])
    {
      ReadyIffReportsActivation(network, probes[i]);
    }
  }

  /** One sweep: `sample_network_groups`, then `observe_sweep` on what it returns. */
  method SweepOnce(network: Network, turn: Turn) returns (evidence: SweepEvidence)
    requires ValidTurn(network, turn)
    ensures evidence.totalGroups == Min(64, |PrefixSet(ObserverCandidates(turn.book, network))|)
    ensures evidence.readyGroups ==
            |set i | i in Below(|turn.probes|) && ReportsActivation(network, turn.probes[i])|
    ensures evidence == TurnEvidence(network, turn)
  {
    var candidates := ObserverCandidates(turn.book, network);
    var sampledPeers := SampleNetworkGroupCandidates(
      candidates, turn.electShuffle, turn.mapOrder, turn.capShuffle);
    assert sampledPeers == TurnSample(network, turn);
    ReportingPositions(network, turn.probes);
    evidence := ObserveSweep(sampledPeers, turn.probes, turn.joinOrder, Latest(network));
  }

  ghost predicate ValidTurns(network: Network, turns: seq<Turn>) {
    forall k | 0 <= k < |turns| :: ValidTurn(network, turns[k])
  }

  /** What one turn comes to: its evidence, and whether a write would have succeeded. */
  datatype SweepResult = SweepResult(evidence: SweepEvidence, writeSucceeds: bool)

  ghost function ResultsOf(network: Network, turns: seq<Turn>): seq<SweepResult>
    requires ValidTurns(network, turns)
  {
    seq(|turns|, k requires 0 <= k < |turns| =>
      SweepResult(TurnEvidence(network, turns[k]), turns[k].writeSucceeds))
  }

  function EvidencesIn(results: seq<SweepResult>): seq<SweepEvidence> {
    seq(|results|, k requires 0 <= k < |results| => results[k].evidence)
  }

  /** Sweep `k` could end the loop: the last three sweeps up to it qualify and the record can be
      written. */
  ghost predicate Confirms(cacheEnabled: bool, results: seq<SweepResult>, k: nat)
    requires k < |results|
  {
    LastThreeQualify(EvidencesIn(results[..k + 1])) && cacheEnabled && results[k].writeSucceeds
  }

  /** The sweep at which the loop ends, if any. */
  ghost function ConfirmingSweep(cacheEnabled: bool, results: seq<SweepResult>): (r: Option<nat>)
    ensures r.Some? ==> r.value < |results|
  {
    if results == [] then None
    else
      var earlier := ConfirmingSweep(cacheEnabled, results[..|results| - 1]);
      if earlier.Some? then earlier
      else if Confirms(cacheEnabled, results, |results| - 1) then Some(|results| - 1)
      else None
  }

  /** The loop ends at the first sweep that confirms, and runs on exactly when none does. A failed
      write in between does not start the count again. */
  lemma {:induction false} ConfirmingSweepIsFirst(cacheEnabled: bool, results: seq<SweepResult>)
    ensures var r := ConfirmingSweep(cacheEnabled, results);
            && (r.None? <==> forall k | 0 <= k < |results| :: !Confirms(cacheEnabled, results, k))
            && (r.Some? ==> Confirms(cacheEnabled, results, r.value)
                            && forall k | 0 <= k < r.value :: !Confirms(cacheEnabled, results, k))
  {
    if results != [] {
      var front := results[..|results| - 1];
      ConfirmingSweepIsFirst(cacheEnabled, front);
      forall k | 0 <= k < |front|
        ensures Confirms(cacheEnabled, results, k) == Confirms(cacheEnabled, front, k)
      {
        assert front[..k + 1] == results[..k + 1];
      }
    }
  }

  lemma ConfirmingSweepNext(cacheEnabled: bool, results: seq<SweepResult>, k: nat)
    requires k < |results| && ConfirmingSweep(cacheEnabled, results[..k]).None?
    ensures EvidencesIn(results[..k + 1]) == EvidencesIn(results[..k]) + [results[k].evidence]
    ensures ConfirmingSweep(cacheEnabled, results[..k + 1]) ==
            if && LastThreeQualify(EvidencesIn(results[..k]) + [results[k].evidence])
               && cacheEnabled && results[k].writeSucceeds then Some(k) else None
  {
    assert results[..k + 1][..k] == results[..k];
    assert results[..k + 1][..k + 1] == results[..k + 1];
    assert EvidencesIn(results[..k + 1]) == EvidencesIn(results[..k]) + [results[k].evidence];
  }

  lemma {:induction false} ConfirmingSweepStands(cacheEnabled: bool, results: seq<SweepResult>, n: nat)
    requires n <= |results| && ConfirmingSweep(cacheEnabled, results[..n]).Some?
    ensures ConfirmingSweep(cacheEnabled, results) == ConfirmingSweep(cacheEnabled, results[..n])
    decreases |results|
  {
    if n == |results| {
      assert results[..n] == results;
    } else {
      var front := results[..|results| - 1];
      assert front[..n] == results[..n];
      ConfirmingSweepStands(cacheEnabled, front, n);
    }
  }

  /** One pass through the loop body; `done` is its `break`. */
  method TakeTurn(network: Network, tip: SeederChainTip, file: ConfirmationFile, gate: Gate, turn: Turn)
    returns (done: bool)
    requires ValidTurn(network, turn) && gate.Valid()
    requires tip.activationHeight == network.activationHeight
    modifies tip.cell, file, gate
    ensures gate.Valid() && gate.history == old(gate.history) + [TurnEvidence(network, turn)]
    ensures done <==> LastThreeQualify(gate.history) && file.cacheEnabled && turn.writeSucceeds
    ensures tip.cell.height == if done then Max(old(tip.cell.height), network.activationHeight)
                               else old(tip.cell.height)
    ensures file.record == if done then Some(ConfirmationRecord(Latest(network))) else old(file.record)
  {
    var evidence := SweepOnce(network, turn);
    var confirmed := gate.Observe(evidence);
    if !confirmed {
      return false;
    }
    var persisted := file.Persist(Latest(network), turn.writeSucceeds);
    if !persisted {
      return false;
    }
    tip.ConfirmActivation();
    done := true;
  }

  /** The body of `activation::spawn`, run for as many turns as the process lives. The tip is raised
      at the confirming turn, with the record already written; otherwise nothing changes. */
  method ObserveActivation(network: Network, tip: SeederChainTip, file: ConfirmationFile, turns: seq<Turn>)
    returns (confirmedAt: Option<nat>)
    requires ValidTurns(network, turns)
    requires tip.activationHeight == network.activationHeight
    modifies tip.cell, file
    ensures confirmedAt == if old(tip.cell.height) >= network.activationHeight then None
                           else ConfirmingSweep(file.cacheEnabled, ResultsOf(network, turns))
    ensures confirmedAt.None? ==> tip.cell.height == old(tip.cell.height) && file.record == old(file.record)
    ensures confirmedAt.Some? ==> tip.cell.height == network.activationHeight
                                  && file.record == Some(ConfirmationRecord(Latest(network)))
  {
    var alreadyConfirmed := tip.IsActivationConfirmed();
    if alreadyConfirmed {
      return None;
    }
    ghost var results := ResultsOf(network, turns);
    var gate := new Gate();
    for k := 0 to |turns|
      invariant fresh(gate) && gate.Valid() && gate.history == EvidencesIn(results[..k])
      invariant tip.cell.height == old(tip.cell.height) && file.record == old(file.record)
      invariant ConfirmingSweep(file.cacheEnabled, results[..k]).None?
    {
      var done := TakeTurn(network, tip, file, gate, turns[k]);
      ConfirmingSweepNext(file.cacheEnabled, results, k);
      if done {
        ConfirmingSweepStands(file.cacheEnabled, results, k + 1);
        return Some(k);
      }
    }
    assert results[..|turns|] == results;
    confirmedAt := None;
  }

  /** The startup steps of `spawn_network_crawler`, then the observer: load the record, build the tip at
      the height it allows, hand a clone to the cache, observe. `cacheTip` is that clone: what the observer
      confirms is seen through it, and a raised tip always leaves a matching record behind it. */
  method RunNetworkCrawler(network: Network, file: ConfirmationFile, readSucceeds: bool, turns: seq<Turn>)
    returns (cacheTip: SeederChainTip, confirmedAt: Option<nat>)
    requires ValidTurns(network, turns)
    modifies file
    ensures var loaded := file.cacheEnabled && readSucceeds
                          && old(file.record).Some? && ConfirmsNetwork(old(file.record).value, network);
            && (confirmedAt.Some? <==>
                !loaded && network.activationHeight > 0
                && ConfirmingSweep(file.cacheEnabled, ResultsOf(network, turns)).Some?)
            && (cacheTip.cell.height == network.activationHeight <==>
                loaded || confirmedAt.Some? || network.activationHeight == 0)
    ensures cacheTip.cell.height != network.activationHeight ==>
              cacheTip.cell.height == network.activationHeight - 1
    ensures cacheTip.cell.height == network.activationHeight > 0 ==>
              file.record.Some? && ConfirmsNetwork(file.record.value, network)
    ensures confirmedAt.None? ==> file.record == old(file.record)
  {
    var confirmed := file.Load(Latest(network), readSucceeds);
    if file.record.Some? {
      MatchIsNumeric(Latest(network), file.record.value);
      RecordConfirmsNetwork(network, file.record.value);
    }
    RecordConfirmsNetwork(network, ConfirmationRecord(Latest(network)));
    TargetInNumbers(network);
    var tip := new SeederChainTip(Latest(network), confirmed);
    cacheTip := new SeederChainTip.Clone(tip);
    confirmedAt := ObserveActivation(network, tip, file, turns);
  }
}
