/** The protocol-version floor over whole histories of crashes, restarts, attestations and new builds. */
module FloorHistory {
  import opened Prelude
  import opened ActivationTarget
  import opened ChainTip
  import opened ActivationProtocol

  /** The floor a live process enforces. */
  ghost function Floor(s: State): u32
    requires s.process.Alive?
  {
    s.network.minRemote(s.process.life.tip)
  }

  /** The floor a process started now would enforce, if it can read the record. */
  ghost function RestartFloor(s: State): u32 {
    s.network.minRemote(StartHeight(Latest(s.network), Loads(s, true)))
  }

  /** Whatever may happen to an instance whose operator keeps its cache volume: startups can read it,
      the record is neither deleted nor replaced by another build's, and builds only move forward. */
  ghost predicate KeepsCache(s: State, e: Event) {
    match e
    case Start(readSucceeds) => readSucceeds
    case Delete => false
    case Attest(build, asserted, writeSucceeds) =>
      asserted == RecordFields(Latest(build)) && writeSucceeds
      ==> RecordFields(Latest(build)) == RecordFields(Latest(s.network))
    case Install(build, cacheEnabled) =>
      (build == s.network || Extends(build, s.network)) && (s.cacheEnabled ==> cacheEnabled)
    case _ => true
  }

  ghost predicate KeepsCacheThroughout(states: seq<State>, events: seq<Event>)
    requires |states| == |events| + 1
  {
    forall k {:trigger events[k]} | 0 <= k < |events| :: KeepsCache(states[k], events[k])
  }

  /** A confirmed process has its record on disk. */
  ghost predicate IsBacked(s: State) {
    && TipInvariant(s) && IsMonotone(s.network)
    && (s.process.Alive? && s.network.activationHeight > 0
        && (s.process.life.phase == Raising || s.process.life.phase == Finished)
        ==> s.cacheEnabled && RecordMatches(s))
  }

  lemma LiveFloorIsAtMostRestartFloor(s: State)
    requires IsBacked(s) && s.process.Alive?
    ensures Floor(s) <= RestartFloor(s)
  {
    assert IsInOrder(s.network, s.process.life.tip, StartHeight(Latest(s.network), Loads(s, true)));
  }

  lemma InstallKeepsRestartFloor(s: State, build: Network, cacheEnabled: bool)
    requires IsMonotone(s.network) && s.process.Dead? && KeepsCache(s, Install(build, cacheEnabled))
    ensures RestartFloor(s) <= RestartFloor(Next(s, Install(build, cacheEnabled)))
  {
    var before := StartHeight(Latest(s.network), Loads(s, true));
    var after := StartHeight(Latest(build), Loads(Next(s, Install(build, cacheEnabled)), true));
    if build != s.network {
      // At most the old activation height, so the tables agree and the new start lies above.
      assert before <= s.network.activationHeight <= Latest(build).preActivationHeight;
      assert HaveSameFloor(build, s.network, before);
    }
    assert IsInOrder(build, before, after);
  }

  lemma StepStaysBacked(s: State, e: Event, t: State)
    requires IsBacked(s) && StepsTo(s, e, t) && KeepsCache(s, e)
    ensures IsBacked(t)
  {
  }

  lemma StepKeepsRestartFloor(s: State, e: Event, t: State)
    requires IsBacked(s) && StepsTo(s, e, t) && KeepsCache(s, e)
    ensures RestartFloor(s) <= RestartFloor(t)
  {
    if e.Install? {
      InstallKeepsRestartFloor(s, e.build, e.cacheEnabled);
    } else {
      assert IsInOrder(s.network, StartHeight(Latest(s.network), Loads(s, true)),
                       StartHeight(Latest(s.network), Loads(t, true)));
    }
  }

  lemma StepKeepsLiveFloor(s: State, e: Event, t: State)
    requires IsBacked(s) && StepsTo(s, e, t) && KeepsCache(s, e) && t.process.Alive?
    ensures (if s.process.Alive? then Floor(s) else RestartFloor(s)) <= Floor(t)
  {
    if s.process.Alive? {
      assert IsInOrder(s.network, s.process.life.tip, t.process.life.tip);
    }
  }

  /** The floor `floor` is in force, or would be again at the next start. */
  ghost predicate Upholds(s: State, floor: u32) {
    floor <= RestartFloor(s) && (s.process.Alive? ==> floor <= Floor(s))
  }

  lemma StepUpholds(s: State, e: Event, t: State, floor: u32)
    requires IsBacked(s) && StepsTo(s, e, t) && KeepsCache(s, e) && Upholds(s, floor)
    ensures Upholds(t, floor)
  {
    StepKeepsRestartFloor(s, e, t);
    if t.process.Alive? {
      StepKeepsLiveFloor(s, e, t);
    }
  }

  lemma {:induction false} RunIsBacked(states: seq<State>, events: seq<Event>, i: nat)
    requires IsRun(states, events) && i <= |events| && IsMonotone(states[0].network)
    requires KeepsCacheThroughout(states, events)
    ensures IsBacked(states[i])
  {
    if i > 0 {
      RunIsBacked(states, events, i - 1);
      assert StepsTo(states[i - 1], events[i - 1], states[i]);
      StepStaysBacked(states[i - 1], events[i - 1], states[i]);
    }
  }

  /** The floor never drops: not within a process, not across crashes and restarts, and not when a
      newer build takes over, which ignores the old record. */
  lemma FloorNeverDrops(states: seq<State>, events: seq<Event>, i: nat, j: nat)
    requires IsRun(states, events) && i <= j <= |events| && IsMonotone(states[0].network)
    requires KeepsCacheThroughout(states, events)
    requires states[i].process.Alive? && states[j].process.Alive?
    ensures Floor(states[i]) <= Floor(states[j])
  {
    RunIsBacked(states, events, i);
    LiveFloorIsAtMostRestartFloor(states[i]);
    RunUpholds(states, events, i, j, Floor(states[i]));
  }

  lemma {:induction false} RunUpholds(states: seq<State>, events: seq<Event>, i: nat, j: nat, floor: u32)
    requires IsRun(states, events) && i <= j <= |events| && IsMonotone(states[0].network)
    requires KeepsCacheThroughout(states, events)
    requires Upholds(states[i], floor)
    ensures Upholds(states[j], floor)
    decreases j
  {
    if i < j {
      RunUpholds(states, events, i, j - 1, floor);
      RunIsBacked(states, events, j - 1);
      assert StepsTo(states[j - 1], events[j - 1], states[j]);
      StepUpholds(states[j - 1], events[j - 1], states[j], floor);
    }
  }

  // Exactly when the floor is lost

  /** The floor at the activation lies above the one just before it. */
  ghost predicate FloorsDiffer(network: Network) {
    && network.activationHeight > 0
    && network.minRemote(network.activationHeight - 1) < network.minRemote(network.activationHeight)
  }

  /** Whatever happened to the record and the cache since a process was alive: a startup of the same
      build lowers the floor exactly when it loads no record, the tip had been raised and the two floors
      differ. Loading fails when the record is absent, mismatched or unreadable, or the cache is off. */
  lemma StartLowersFloorIff(s: State, dead: State, readSucceeds: bool)
    requires TipInvariant(s) && IsMonotone(s.network) && s.process.Alive?
    requires dead.process.Dead? && dead.network == s.network
    ensures Floor(Next(dead, Start(readSucceeds))) < Floor(s) <==>
            && !Loads(dead, readSucceeds)
            && s.process.life.tip == s.network.activationHeight
            && FloorsDiffer(s.network)
  {
    assert IsInOrder(s.network, Latest(s.network).preActivationHeight, s.network.activationHeight);
  }

  /** In particular for a crash and restart, in every run and whatever the record file holds. */
  lemma RestartLowersFloorIff(
      states: seq<State>, events: seq<Event>, i: nat, writeCompletes: bool, readSucceeds: bool)
    requires IsRun(states, events) && i <= |events|
    requires states[i].process.Alive? && IsMonotone(states[i].network)
    ensures var s := states[i];
            var crashed := Next(s, Crash(writeCompletes));
            Floor(Next(crashed, Start(readSucceeds))) < Floor(s) <==>
            && !Loads(crashed, readSucceeds)
            && s.process.life.tip == s.network.activationHeight
            && FloorsDiffer(s.network)
  {
    RunKeepsTipInvariant(states, events, i);
    StartLowersFloorIff(states[i], Next(states[i], Crash(writeCompletes)), readSucceeds);
  }

  /** With a kept record the failed read is the only cause left. */
  lemma KeptRecordFailsOnlyByRead(s: State, writeCompletes: bool, readSucceeds: bool)
    requires IsBacked(s) && s.process.Alive?
    ensures var restarted := Next(Next(s, Crash(writeCompletes)), Start(readSucceeds));
            Floor(restarted) < Floor(s) <==>
            && !readSucceeds
            && s.process.life.tip == s.network.activationHeight
            && FloorsDiffer(s.network)
  {
    StartLowersFloorIff(s, Next(s, Crash(writeCompletes)), readSucceeds);
  }

  /** That can happen, on any network whose two floors differ: attested and started, the floor is the
      target's; after a crash and a startup that cannot read the record it is the old one again, with
      the record still on disk. */
  lemma FailedReadLowersFloor(network: Network)
    requires FloorsDiffer(network)
    ensures exists states: seq<State> ::
              && IsRun(states, [Attest(network, RecordFields(Latest(network)), true), Start(true),
                                Crash(false), Start(false)])
              && states[0].network == network && states[0].record == None
              && states[2].process.Alive? && states[4].process.Alive?
              && Floor(states[4]) < Floor(states[2])
              && RecordMatches(states[4])
  {
    var s0 := State(network, true, None, Dead, 0);
    var s1 := Next(s0, Attest(network, RecordFields(Latest(network)), true));
    var s2 := Next(s1, Start(true));
    var s3 := Next(s2, Crash(false));
    var s4 := Next(s3, Start(false));
    var states := [s0, s1, s2, s3, s4];
    assert IsRun(states, [Attest(network, RecordFields(Latest(network)), true), Start(true),
                          Crash(false), Start(false)]);
    assert Floor(states[4]) < Floor(states[2]);
  }

  /** A build with the same activation height starts from the old record exactly when it requires the
      same version; otherwise it goes back to its pre-activation floor. */
  lemma RetunedBuildKeepsConfirmationIff(s: State, build: Network)
    requires s.process.Dead? && RecordMatches(s)
    requires build.activationHeight == s.network.activationHeight > 0
    ensures var restarted := Next(Next(s, Install(build, true)), Start(true));
            restarted.process.life.tip ==
            if build.minRemote(build.activationHeight) == s.network.minRemote(s.network.activationHeight)
            then build.activationHeight else build.activationHeight - 1
  {
  }

  /** A build installed with the cache disabled starts unconfirmed, whatever the record holds. */
  lemma DisabledCacheForgets(s: State, build: Network, readSucceeds: bool)
    requires s.process.Dead? && build.activationHeight > 0
    ensures Next(Next(s, Install(build, false)), Start(readSucceeds)).process.life.tip == build.activationHeight - 1
  {
  }
}
