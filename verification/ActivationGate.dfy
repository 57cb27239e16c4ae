/** The fixed-quorum gate: a saturating counter of consecutive qualifying sweeps. */
module ActivationGate {
  import opened Prelude

  const MIN_NETWORK_GROUPS: usize := 12
  const QUORUM_NUMERATOR: usize := 3
  const QUORUM_DENOMINATOR: usize := 4
  const REQUIRED_QUALIFYING_SWEEPS: u8 := 3

  /** One completed sweep, reduced to what the gate reads. */
  datatype SweepEvidence = SweepEvidence(totalGroups: usize, readyGroups: usize)

  predicate Qualifies(e: SweepEvidence) {
    && e.totalGroups >= MIN_NETWORK_GROUPS
    && SaturatingMul(e.readyGroups, QUORUM_DENOMINATOR) >= SaturatingMul(e.totalGroups, QUORUM_NUMERATOR)
  }

  /** Saturation misjudges the quorum exactly when fewer than three quarters are ready and yet the
      ready side alone reaches the top of the range. */
  lemma SaturationOnlyMattersAtTheTop(e: SweepEvidence)
    ensures Qualifies(e) <==>
            e.totalGroups >= 12
            && (4 * e.readyGroups >= 3 * e.totalGroups || 4 * e.readyGroups >= USIZE_MAX)
  {
  }

  /** For the sizes a sweep can have the comparison is exact, and nine groups at least are ready. */
  lemma QuorumIsExact(e: SweepEvidence)
    requires e.readyGroups <= e.totalGroups <= 64
    ensures Qualifies(e) <==> e.totalGroups >= 12 && 4 * e.readyGroups >= 3 * e.totalGroups
    ensures Qualifies(e) ==> e.readyGroups >= 9
  {
    SaturationOnlyMattersAtTheTop(e);
  }

  /** The counter after one more sweep. */
  function GateStep(counter: u8, e: SweepEvidence): u8 {
    if Qualifies(e) then Min(counter + 1, U8_MAX) else 0
  }

  // Histories of sweeps

  /** The number of sweeps at the end of the history that qualify without a gap. */
  function QualifyingSuffix(history: seq<SweepEvidence>): (n: nat)
    ensures n <= |history|
  {
    if history == [] || !Qualifies(history[|history| - 1]) then 0
    else QualifyingSuffix(history[..|history| - 1]) + 1
  }

  predicate LastThreeQualify(history: seq<SweepEvidence>) {
    && |history| >= 3
    && Qualifies(history[|history| - 1])
    && Qualifies(history[|history| - 2])
    && Qualifies(history[|history| - 3])
  }

  /** The suffix is qualifying throughout, and no longer suffix is. */
  lemma {:induction false} QualifyingSuffixIsLongest(history: seq<SweepEvidence>, n: nat)
    requires n <= |history|
    ensures (forall i | |history| - n <= i < |history| :: Qualifies(history[i]))
            <==> n <= QualifyingSuffix(history)
  {
    if n > 0 && Qualifies(history[|history| - 1]) {
      var front := history[..|history| - 1];
      QualifyingSuffixIsLongest(front, n - 1);
      if forall i | |front| - (n - 1) <= i < |front| :: Qualifies(front[i]) {
        forall i | |history| - n <= i < |history| ensures Qualifies(history[i]) {
          if i < |front| { assert front[i] == history[i]; }
        }
      }
    }
  }

  lemma ThreeIsEnough(history: seq<SweepEvidence>)
    ensures LastThreeQualify(history) <==> QualifyingSuffix(history) >= 3
  {
    if |history| >= 3 {
      QualifyingSuffixIsLongest(history, 3);
    }
  }

  /** The counter always is the length of the longest qualifying suffix, held at 255, and it says
      "confirmed" exactly when the last three sweeps qualify. */
  lemma StepFollowsHistory(history: seq<SweepEvidence>, e: SweepEvidence)
    ensures GateStep(Min(U8_MAX, QualifyingSuffix(history)), e)
            == Min(U8_MAX, QualifyingSuffix(history + [e]))
    ensures GateStep(Min(U8_MAX, QualifyingSuffix(history)), e) >= REQUIRED_QUALIFYING_SWEEPS
            <==> LastThreeQualify(history + [e])
  {
    assert (history + [e])[..|history|] == history;
    ThreeIsEnough(history + [e]);
  }

  /** `ActivationGate`. The ghost field records every sweep the gate was shown. */
  class Gate {
    var qualifyingSweeps: u8
    ghost var history: seq<SweepEvidence>

    ghost predicate Valid()
      reads this
    {
      qualifyingSweeps == Min(U8_MAX, QualifyingSuffix(history))
    }

    constructor ()
      ensures Valid() && history == []
    {
      qualifyingSweeps := 0;
      history := [];
    }

    method Observe(evidence: SweepEvidence) returns (confirmed: bool)
      requires Valid()
      modifies this
      ensures Valid() && history == old(history) + [evidence]
      ensures qualifyingSweeps == GateStep(old(qualifyingSweeps), evidence)
      ensures confirmed <==> LastThreeQualify(history)
    {
      var hasEnoughGroups := evidence.totalGroups >= MIN_NETWORK_GROUPS;
      var hasFixedQuorum := SaturatingMul(evidence.readyGroups, QUORUM_DENOMINATOR)
                            >= SaturatingMul(evidence.totalGroups, QUORUM_NUMERATOR);
      history := history + [evidence];
      StepFollowsHistory(old(history), evidence);
      if !hasEnoughGroups || !hasFixedQuorum {
        qualifyingSweeps := 0;
        return false;
      }
      qualifyingSweeps := Min(qualifyingSweeps + 1, U8_MAX);
      confirmed := qualifyingSweeps >= REQUIRED_QUALIFYING_SWEEPS;
    }
  }
}
