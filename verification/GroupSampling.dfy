/** Choosing the peers of one observation sweep: one representative per network group, elected
    by the first shuffle, and at most `MAX_NETWORK_GROUPS_PER_SWEEP` groups, kept by the second.

    Both shuffles are arbitrary permutations and the hash map may be iterated in any order, so
    what is proved for every `electShuffle`, `mapOrder` and `capShuffle` holds for every run. */
module GroupSampling {
  import opened Prelude
  import opened Permutations
  import opened Addresses
  import opened Prefixes

  const MAX_NETWORK_GROUPS_PER_SWEEP := 64

  // The election

  /** The index in `candidates` of the first peer of `group`, reading them in the order `p`. */
  function Elected(candidates: seq<PeerAddr>, p: seq<nat>, group: NetworkGroup): (r: Option<nat>)
    requires forall k | 0 <= k < |p| :: p[k] < |candidates|
  {
    if p == [] then None
    else if GroupOf(candidates[p[0]]) == group then Some(p[0])
    else Elected(candidates, p[1..], group)
  }

  /** The election, stated without recursion: someone wins exactly when the group is present,
      and the winner is the group's first peer in shuffle order. */
  lemma {:induction false} ElectedIsFirst(candidates: seq<PeerAddr>, p: seq<nat>, group: NetworkGroup)
    requires forall k | 0 <= k < |p| :: p[k] < |candidates|
    ensures Elected(candidates, p, group).None? <==>
            forall k | 0 <= k < |p| :: GroupOf(candidates[p[k]]) != group
    ensures Elected(candidates, p, group).Some? ==>
              exists k :: 0 <= k < |p| && Elected(candidates, p, group) == Some(p[k])
                          && GroupOf(candidates[p[k]]) == group
                          && forall l | 0 <= l < k :: GroupOf(candidates[p[l]]) != group
  {
    if p != [] && GroupOf(candidates[p[0]]) != group {
      var rest := p[1..];
      ElectedIsFirst(candidates, rest, group);
      if Elected(candidates, rest, group).Some? {
        var k :| 0 <= k < |rest| && Elected(candidates, rest, group) == Some(rest[k])
                 && GroupOf(candidates[rest[k]]) == group
                 && forall l | 0 <= l < k :: GroupOf(candidates[rest[l]]) != group;
        assert p[k + 1] == rest[k];
        forall l | 0 <= l < k + 1 ensures GroupOf(candidates[p[l]]) != group {
          if l > 0 { assert p[l] == rest[l - 1]; }
        }
      } else {
        forall k | 0 <= k < |p| ensures GroupOf(candidates[p[k]]) != group {
          if k > 0 { assert p[k] == rest[k - 1]; }
        }
      }
    }
  }

  /** `mapOrder` lists each group that has a candidate exactly once. */
  ghost predicate IsMapOrder(mapOrder: seq<NetworkGroup>, candidates: seq<PeerAddr>) {
    Distinct(mapOrder) && Elements(mapOrder) == GroupSet(candidates)
  }

  lemma PresentGroupElects(candidates: seq<PeerAddr>, p: seq<nat>, group: NetworkGroup)
    requires IsPermutation(p, |candidates|) && group in GroupSet(candidates)
    ensures Elected(candidates, p, group).Some?
    ensures Elected(candidates, p, group).value < |candidates|
    ensures GroupOf(candidates[Elected(candidates, p, group).value]) == group
  {
    ElectedIsFirst(candidates, p, group);
    var i :| 0 <= i < |candidates| && GroupOf(candidates[i]) == group;
    PermutationIsOnto(p, |candidates|, i);
  }

  function Representative(candidates: seq<PeerAddr>, p: seq<nat>, group: NetworkGroup): (r: PeerAddr)
    requires IsPermutation(p, |candidates|) && group in GroupSet(candidates)
    ensures GroupOf(r) == group && r in candidates
  {
    PresentGroupElects(candidates, p, group);
    candidates[Elected(candidates, p, group).value]
  }

  /** The representatives, in the order the hash map yields its values. */
  function Representatives(candidates: seq<PeerAddr>, p: seq<nat>, mapOrder: seq<NetworkGroup>): seq<PeerAddr>
    requires IsPermutation(p, |candidates|) && IsMapOrder(mapOrder, candidates)
  {
    seq(|mapOrder|, i requires 0 <= i < |mapOrder| => Representative(candidates, p, mapOrder[i]))
  }

  /** The sweep sample determined by the two shuffles and the map order. */
  function Sample(candidates: seq<PeerAddr>, electShuffle: seq<nat>, mapOrder: seq<NetworkGroup>,
                  capShuffle: seq<nat>): seq<PeerAddr>
    requires IsPermutation(electShuffle, |candidates|) && IsMapOrder(mapOrder, candidates)
    requires IsPermutation(capShuffle, |mapOrder|)
  {
    Truncated(Permuted(Representatives(candidates, electShuffle, mapOrder), capShuffle),
              MAX_NETWORK_GROUPS_PER_SWEEP)
  }

  /** `sample_network_group_candidates`: shuffle, insert each address unless its group is taken,
      collect the map's values, shuffle again and truncate. */
  method SampleNetworkGroupCandidates(
      candidates: seq<PeerAddr>, electShuffle: seq<nat>, mapOrder: seq<NetworkGroup>, capShuffle: seq<nat>)
    returns (sampled: seq<PeerAddr>)
    requires IsPermutation(electShuffle, |candidates|) && IsMapOrder(mapOrder, candidates)
    requires IsPermutation(capShuffle, |mapOrder|)
    ensures HaveDistinctPrefixes(sampled) && |sampled| == Min(64, |PrefixSet(candidates)|)
    ensures forall a | a in sampled :: a in candidates
    ensures sampled == Sample(candidates, electShuffle, mapOrder, capShuffle)
  {
    var shuffled := Permuted(candidates, electShuffle);
    var representativeByGroup: map<NetworkGroup, PeerAddr> := map[];
    for i := 0 to |shuffled|
      invariant forall g :: g in representativeByGroup <==>
                  Elected(candidates, electShuffle[..i], g).Some?
      invariant forall g | g in representativeByGroup ::
                  var winner := Elected(candidates, electShuffle[..i], g);
                  winner.value < |candidates| && representativeByGroup[g] == candidates[winner.value]
    {
      var addr := shuffled[i];
      forall g: NetworkGroup {
        ElectedByPrefix(candidates, electShuffle, i, g);
      }
      if GroupOf(addr) !in representativeByGroup {
        representativeByGroup := representativeByGroup[GroupOf(addr) := addr];
      }
    }
    assert electShuffle[..|shuffled|] == electShuffle;
    var values: seq<PeerAddr> := [];
    for i := 0 to |mapOrder|
      invariant values == Representatives(candidates, electShuffle, mapOrder)[..i]
    {
      assert mapOrder[i] in Elements(mapOrder);
      PresentGroupElects(candidates, electShuffle, mapOrder[i]);
      values := values + [representativeByGroup[mapOrder[i]]];
    }
    sampled := Permuted(values, capShuffle);
    sampled := Truncated(sampled, MAX_NETWORK_GROUPS_PER_SWEEP);
    assert sampled == Sample(candidates, electShuffle, mapOrder, capShuffle);
    SampleIsSound(candidates, electShuffle, mapOrder, capShuffle);
  }

  lemma {:induction false} ElectedByPrefix(candidates: seq<PeerAddr>, p: seq<nat>, i: nat, group: NetworkGroup)
    requires forall k | 0 <= k < |p| :: p[k] < |candidates|
    requires i < |p|
    ensures Elected(candidates, p[..i + 1], group) ==
            if Elected(candidates, p[..i], group).Some? then Elected(candidates, p[..i], group)
            else if GroupOf(candidates[p[i]]) == group then Some(p[i]) else None
    decreases |p|
  {
    if i == 0 {
      assert p[..1] == [p[0]];
    } else {
      ElectedByPrefix(candidates, p[1..], i - 1, group);
      assert p[1..][..i - 1] == p[..i][1..];
      assert p[1..][..i] == p[..i + 1][1..];
    }
  }

  // Soundness

  /** The groups of a sample are the second shuffle of the group list, cut at the limit. The
      first shuffle, and so the number of addresses a group put forward, has no part in it. */
  lemma SampleGroups(candidates: seq<PeerAddr>, electShuffle: seq<nat>, mapOrder: seq<NetworkGroup>,
                     capShuffle: seq<nat>)
    requires IsPermutation(electShuffle, |candidates|) && IsMapOrder(mapOrder, candidates)
    requires IsPermutation(capShuffle, |mapOrder|)
    ensures GroupsOf(Sample(candidates, electShuffle, mapOrder, capShuffle)) ==
            Truncated(Permuted(mapOrder, capShuffle), MAX_NETWORK_GROUPS_PER_SWEEP)
  {
    var reps := Representatives(candidates, electShuffle, mapOrder);
    forall i | 0 <= i < |mapOrder| ensures GroupOf(reps[i]) == mapOrder[i] {
      assert mapOrder[i] in Elements(mapOrder);
    }
    assert GroupsOf(Permuted(reps, capShuffle)) == Permuted(mapOrder, capShuffle);
  }

  /** Every sample has one candidate per group, no group twice, and as many groups as the limit of 64
      and the book allow. In the bits of the addresses: no two peers share an IPv4 /16 or an IPv6 /32,
      and there are as many of them as the book has such prefixes, up to 64. */
  lemma SampleIsSound(candidates: seq<PeerAddr>, electShuffle: seq<nat>, mapOrder: seq<NetworkGroup>,
                      capShuffle: seq<nat>)
    requires IsPermutation(electShuffle, |candidates|) && IsMapOrder(mapOrder, candidates)
    requires IsPermutation(capShuffle, |mapOrder|)
    ensures var sampled := Sample(candidates, electShuffle, mapOrder, capShuffle);
            && Distinct(GroupsOf(sampled))
            && HaveDistinctPrefixes(sampled)
            && |sampled| == Min(64, |GroupSet(candidates)|) == Min(64, |PrefixSet(candidates)|)
            && forall a | a in sampled :: a in candidates
  {
    SampleGroups(candidates, electShuffle, mapOrder, capShuffle);
    DistinctSize(mapOrder);
    DistinctGroupsAreDistinctPrefixes(Sample(candidates, electShuffle, mapOrder, capShuffle));
    AllPositions(candidates);
    var reps := Representatives(candidates, electShuffle, mapOrder);
    forall i | 0 <= i < |reps| ensures reps[i] in candidates {
      assert mapOrder[i] in Elements(mapOrder);
    }
  }

  // Completeness

  ghost predicate IsProper(candidates: seq<PeerAddr>, wanted: seq<PeerAddr>) {
    && Distinct(GroupsOf(wanted))
    && |wanted| == Min(MAX_NETWORK_GROUPS_PER_SWEEP, |GroupSet(candidates)|)
    && forall a | a in wanted :: a in candidates
  }

  /** Every proper choice of groups and representatives is reachable: one electing shuffle works
      for all map orders, and each map order then has its own second shuffle. */
  lemma EverySampleIsReachable(candidates: seq<PeerAddr>, wanted: seq<PeerAddr>)
    requires IsProper(candidates, wanted)
    ensures exists electShuffle | IsPermutation(electShuffle, |candidates|) ::
              forall mapOrder | IsMapOrder(mapOrder, candidates) ::
                exists capShuffle | IsPermutation(capShuffle, |mapOrder|) ::
                  Sample(candidates, electShuffle, mapOrder, capShuffle) == wanted
  {
    var electShuffle := ElectingShuffle(candidates, wanted);
    forall mapOrder | IsMapOrder(mapOrder, candidates)
      ensures exists capShuffle | IsPermutation(capShuffle, |mapOrder|) ::
                Sample(candidates, electShuffle, mapOrder, capShuffle) == wanted
    {
      var capShuffle := CappingShuffle(candidates, wanted, electShuffle, mapOrder);
    }
  }

  lemma {:induction false} SomeOrder(groups: set<NetworkGroup>) returns (order: seq<NetworkGroup>)
    ensures Distinct(order) && Elements(order) == groups
  {
    if groups == {} {
      order := [];
    } else {
      var g :| g in groups;
      var rest := SomeOrder(groups - {g});
      order := rest + [g];
      assert forall x | x in rest :: x in Elements(rest);
      assert Elements(order) == Elements(rest) + {g};
    }
  }

  /** As many groups of the book as a sweep takes, in some order. */
  ghost predicate IsGroupList(candidates: seq<PeerAddr>, groups: seq<NetworkGroup>) {
    && Distinct(groups) && Elements(groups) <= GroupSet(candidates)
    && |groups| == Min(MAX_NETWORK_GROUPS_PER_SWEEP, |GroupSet(candidates)|)
  }

  /** Sampling as it is documented: the groups are chosen first, as many as the limit and the book
      allow, and then one peer of each. */
  ghost predicate IsGroupFirstSample(candidates: seq<PeerAddr>, sampled: seq<PeerAddr>) {
    exists groups: seq<NetworkGroup> ::
      && IsGroupList(candidates, groups) && |sampled| == |groups|
      && forall i | 0 <= i < |groups| :: sampled[i] in candidates && GroupOf(sampled[i]) == groups[i]
  }

  ghost predicate IsDrawn(candidates: seq<PeerAddr>, sampled: seq<PeerAddr>) {
    exists electShuffle, mapOrder, capShuffle ::
      && IsPermutation(electShuffle, |candidates|) && IsMapOrder(mapOrder, candidates)
      && IsPermutation(capShuffle, |mapOrder|)
      && Sample(candidates, electShuffle, mapOrder, capShuffle) == sampled
  }

  lemma GroupFirstIsProper(candidates: seq<PeerAddr>, sampled: seq<PeerAddr>)
    ensures IsGroupFirstSample(candidates, sampled) <==> IsProper(candidates, sampled)
  {
    if IsProper(candidates, sampled) {
      var groups := GroupsOf(sampled);
      forall g | g in groups ensures g in GroupSet(candidates) {
        var i :| 0 <= i < |groups| && groups[i] == g;
        assert sampled[i] in candidates;
      }
      assert forall i | 0 <= i < |groups| :: sampled[i] in sampled;
    }
  }

  /** Electing a peer of every group before the groups are drawn, as the code does, reaches the same
      samples as drawing the groups first, as it is documented. */
  lemma BothOrdersReachTheSameSamples(candidates: seq<PeerAddr>, sampled: seq<PeerAddr>)
    ensures IsDrawn(candidates, sampled) <==> IsGroupFirstSample(candidates, sampled)
  {
    GroupFirstIsProper(candidates, sampled);
    if IsDrawn(candidates, sampled) {
      var electShuffle, mapOrder, capShuffle :|
        && IsPermutation(electShuffle, |candidates|) && IsMapOrder(mapOrder, candidates)
        && IsPermutation(capShuffle, |mapOrder|)
        && Sample(candidates, electShuffle, mapOrder, capShuffle) == sampled;
      SampleIsSound(candidates, electShuffle, mapOrder, capShuffle);
    }
    if IsProper(candidates, sampled) {
      var electShuffle := ElectingShuffle(candidates, sampled);
      var mapOrder := SomeOrder(GroupSet(candidates));
      var capShuffle := CappingShuffle(candidates, sampled, electShuffle, mapOrder);
    }
  }

  lemma ElectingShuffle(candidates: seq<PeerAddr>, wanted: seq<PeerAddr>) returns (p: seq<nat>)
    requires Distinct(GroupsOf(wanted)) && forall a | a in wanted :: a in candidates
    ensures IsPermutation(p, |candidates|)
    ensures forall i | 0 <= i < |wanted| ::
              GroupOf(wanted[i]) in GroupSet(candidates)
              && Representative(candidates, p, GroupOf(wanted[i])) == wanted[i]
  {
    var q := seq(|wanted|, i requires 0 <= i < |wanted| => PositionIn(candidates, wanted[i]));
    forall i, j | 0 <= i < j < |q| ensures q[i] != q[j] {
      assert GroupsOf(wanted)[i] != GroupsOf(wanted)[j];
    }
    p := ExtendToPermutation(q, |candidates|);
    forall i | 0 <= i < |wanted|
      ensures GroupOf(wanted[i]) in GroupSet(candidates)
              && Representative(candidates, p, GroupOf(wanted[i])) == wanted[i]
    {
      var g := GroupOf(wanted[i]);
      assert wanted[i] in candidates;
      PresentGroupElects(candidates, p, g);
      ElectedIsFirst(candidates, p, g);
      assert p[i] == q[i];
      var k :| 0 <= k < |p| && Elected(candidates, p, g) == Some(p[k])
               && GroupOf(candidates[p[k]]) == g
               && forall l | 0 <= l < k :: GroupOf(candidates[p[l]]) != g;
      assert k <= i;
      assert p[k] == q[k] && GroupsOf(wanted)[k] == g == GroupsOf(wanted)[i];
    }
  }

  lemma CappingShuffle(candidates: seq<PeerAddr>, wanted: seq<PeerAddr>, electShuffle: seq<nat>,
                       mapOrder: seq<NetworkGroup>) returns (capShuffle: seq<nat>)
    requires IsPermutation(electShuffle, |candidates|) && IsMapOrder(mapOrder, candidates)
    requires IsProper(candidates, wanted)
    requires forall i | 0 <= i < |wanted| ::
               GroupOf(wanted[i]) in GroupSet(candidates)
               && Representative(candidates, electShuffle, GroupOf(wanted[i])) == wanted[i]
    ensures IsPermutation(capShuffle, |mapOrder|)
    ensures Sample(candidates, electShuffle, mapOrder, capShuffle) == wanted
  {
    forall i | 0 <= i < |wanted| ensures GroupOf(wanted[i]) in mapOrder {
      assert GroupOf(wanted[i]) in Elements(mapOrder);
    }
    var q := seq(|wanted|, i requires 0 <= i < |wanted| => PositionIn(mapOrder, GroupOf(wanted[i])));
    forall i, j | 0 <= i < j < |q| ensures q[i] != q[j] {
      assert GroupsOf(wanted)[i] != GroupsOf(wanted)[j];
    }
    capShuffle := ExtendToPermutation(q, |mapOrder|);
    DistinctSize(mapOrder);
    var reps := Representatives(candidates, electShuffle, mapOrder);
    forall i | 0 <= i < |wanted| ensures Permuted(reps, capShuffle)[i] == wanted[i] {
      assert capShuffle[i] == q[i];
    }
  }

  // Symmetry

  /** Exchanging two candidates of one group in the electing shuffle exchanges their fortunes and
      changes nothing else: whoever was elected, in any group, is elected up to the exchange. */
  lemma {:induction false} ElectionIsSymmetric(candidates: seq<PeerAddr>, p: seq<nat>, i: nat, j: nat,
                                               group: NetworkGroup)
    requires forall k | 0 <= k < |p| :: p[k] < |candidates|
    requires i < |candidates| && j < |candidates| && GroupOf(candidates[i]) == GroupOf(candidates[j])
    ensures Elected(candidates, Exchanged(p, i, j), group) ==
            match Elected(candidates, p, group)
            case None => None
            case Some(k) => Some(Exchange(k, i, j))
  {
    if p != [] {
      assert Exchanged(p, i, j)[1..] == Exchanged(p[1..], i, j);
      ElectionIsSymmetric(candidates, p[1..], i, j, group);
    }
  }

  ghost function ShufflesElecting(candidates: seq<PeerAddr>, i: nat): set<seq<nat>>
    requires i < |candidates|
  {
    set p | p in AllPermutations(|candidates|) && Elected(candidates, p, GroupOf(candidates[i])) == Some(i)
  }

  /** One candidate each, by index, of different groups. */
  ghost predicate IsChoice(candidates: seq<PeerAddr>, chosen: seq<nat>) {
    && (forall k | 0 <= k < |chosen| :: chosen[k] < |candidates|)
    && forall k, l | 0 <= k < l < |chosen| :: GroupOf(candidates[chosen[k]]) != GroupOf(candidates[chosen[l]])
  }

  /** The shuffles under which all of these candidates are elected together. */
  ghost function ShufflesElectingAll(candidates: seq<PeerAddr>, chosen: seq<nat>): set<seq<nat>>
    requires IsChoice(candidates, chosen)
  {
    set p | p in AllPermutations(|candidates|)
            && forall k | 0 <= k < |chosen| ::
                 Elected(candidates, p, GroupOf(candidates[chosen[k]])) == Some(chosen[k])
  }

  lemma ChoiceIsExchanged(candidates: seq<PeerAddr>, chosen: seq<nat>, m: nat, j: nat, p: seq<nat>)
    requires IsChoice(candidates, chosen) && m < |chosen| && j < |candidates|
    requires GroupOf(candidates[j]) == GroupOf(candidates[chosen[m]])
    requires p in ShufflesElectingAll(candidates, chosen)
    ensures IsPermutation(p, |candidates|)
    ensures IsChoice(candidates, chosen[m := j])
    ensures Exchanged(p, chosen[m], j) in ShufflesElectingAll(candidates, chosen[m := j])
  {
    var i, next := chosen[m], chosen[m := j];
    ExchangeIsInvolution(p, |candidates|, i, j);
    AllPermutationsMember(Exchanged(p, i, j), |candidates|);
    forall k | 0 <= k < |next|
      ensures Elected(candidates, Exchanged(p, i, j), GroupOf(candidates[next[k]])) == Some(next[k])
    {
      ElectionIsSymmetric(candidates, p, i, j, GroupOf(candidates[chosen[k]]));
    }
  }

  lemma OneChoiceIsFair(candidates: seq<PeerAddr>, chosen: seq<nat>, m: nat, j: nat)
    requires IsChoice(candidates, chosen) && m < |chosen| && j < |candidates|
    requires GroupOf(candidates[j]) == GroupOf(candidates[chosen[m]])
    ensures IsChoice(candidates, chosen[m := j])
    ensures |ShufflesElectingAll(candidates, chosen)| == |ShufflesElectingAll(candidates, chosen[m := j])|
  {
    var i, next := chosen[m], chosen[m := j];
    var a, b := ShufflesElectingAll(candidates, chosen), ShufflesElectingAll(candidates, next);
    forall p | p in a ensures IsPermutation(p, |candidates|) && Exchanged(p, i, j) in b {
      ChoiceIsExchanged(candidates, chosen, m, j, p);
    }
    assert next[m := i] == chosen;
    forall p | p in b ensures IsPermutation(p, |candidates|) && Exchanged(p, i, j) in a {
      ChoiceIsExchanged(candidates, next, m, i, p);
      assert Exchanged(p, j, i) == Exchanged(p, i, j);
    }
    ExchangedSetsMatch(|candidates|, a, b, i, j);
  }

  /** The election is fair to all groups at once: any two choices of representatives for the same
      distinct groups are elected together by equally many shuffles, whatever the groups' sizes. The
      choices agree on their first `m` representatives. */
  lemma {:induction false} ChoicesAreFair(candidates: seq<PeerAddr>, chosen: seq<nat>, other: seq<nat>, m: nat)
    requires IsChoice(candidates, chosen) && IsChoice(candidates, other) && |chosen| == |other|
    requires forall k | 0 <= k < |chosen| ::
               GroupOf(candidates[chosen[k]]) == GroupOf(candidates[other[k]])
    requires m <= |chosen| && chosen[..m] == other[..m]
    ensures |ShufflesElectingAll(candidates, chosen)| == |ShufflesElectingAll(candidates, other)|
    decreases |chosen| - m
  {
    if m == |chosen| {
      assert chosen == other;
    } else {
      var next := chosen[m := other[m]];
      OneChoiceIsFair(candidates, chosen, m, other[m]);
      assert next[..m + 1] == other[..m + 1] by {
        assert next[..m] == chosen[..m];
      }
      ChoicesAreFair(candidates, next, other, m + 1);
    }
  }

  lemma ElectingOne(candidates: seq<PeerAddr>, i: nat)
    requires i < |candidates|
    ensures ShufflesElecting(candidates, i) == ShufflesElectingAll(candidates, [i])
  {
    assert [i][0] == i;
    forall p | p in ShufflesElectingAll(candidates, [i]) ensures p in ShufflesElecting(candidates, i) {
      assert Elected(candidates, p, GroupOf(candidates[[i][0]])) == Some([i][0]);
    }
  }

  /** Within a group the election is fair: two candidates of one group are elected by equally many
      of the shuffles, whatever their addresses are and however many the group has. */
  lemma ElectionIsFair(candidates: seq<PeerAddr>, i: nat, j: nat)
    requires i < |candidates| && j < |candidates| && GroupOf(candidates[i]) == GroupOf(candidates[j])
    ensures |ShufflesElecting(candidates, i)| == |ShufflesElecting(candidates, j)|
  {
    ChoicesAreFair(candidates, [i], [j], 0);
    ElectingOne(candidates, i);
    ElectingOne(candidates, j);
  }

  /** The group at place `g` of the map order is among the first `limit` after the shuffle `p`. */
  ghost predicate Survives(p: seq<nat>, limit: nat, g: nat) {
    exists k :: 0 <= k < |p| && k < limit && p[k] == g
  }

  ghost function ShufflesKeeping(n: nat, limit: nat, g: nat): set<seq<nat>> {
    set p | p in AllPermutations(n) && Survives(p, limit, g)
  }

  lemma KeepingIsExchanged(p: seq<nat>, n: nat, limit: nat, g: nat, h: nat)
    requires IsPermutation(p, n) && g < n && h < n && Survives(p, limit, g)
    ensures Exchanged(p, g, h) in ShufflesKeeping(n, limit, h)
  {
    ExchangeIsInvolution(p, n, g, h);
    AllPermutationsMember(Exchanged(p, g, h), n);
    var k :| 0 <= k < |p| && k < limit && p[k] == g;
    assert Exchanged(p, g, h)[k] == h;
  }

  /** Any two places survive the truncation under equally many shuffles. */
  lemma PlacesAreFair(n: nat, limit: nat, g: nat, h: nat)
    requires g < n && h < n
    ensures |ShufflesKeeping(n, limit, g)| == |ShufflesKeeping(n, limit, h)|
  {
    var keepingG, keepingH := ShufflesKeeping(n, limit, g), ShufflesKeeping(n, limit, h);
    forall p | p in keepingG ensures IsPermutation(p, n) && Exchanged(p, g, h) in keepingH {
      KeepingIsExchanged(p, n, limit, g, h);
    }
    forall p | p in keepingH ensures IsPermutation(p, n) && Exchanged(p, g, h) in keepingG {
      KeepingIsExchanged(p, n, limit, h, g);
      assert Exchanged(p, h, g) == Exchanged(p, g, h);
    }
    ExchangedSetsMatch(n, keepingG, keepingH, g, h);
  }

  /** A group is sampled exactly when its place in the map order survives the truncation. */
  lemma SampledIsSurviving(candidates: seq<PeerAddr>, electShuffle: seq<nat>, mapOrder: seq<NetworkGroup>,
                           capShuffle: seq<nat>, g: nat)
    requires IsPermutation(electShuffle, |candidates|) && IsMapOrder(mapOrder, candidates)
    requires IsPermutation(capShuffle, |mapOrder|) && g < |mapOrder|
    ensures mapOrder[g] in GroupsOf(Sample(candidates, electShuffle, mapOrder, capShuffle)) <==>
            Survives(capShuffle, MAX_NETWORK_GROUPS_PER_SWEEP, g)
  {
    SampleGroups(candidates, electShuffle, mapOrder, capShuffle);
    var kept := Truncated(Permuted(mapOrder, capShuffle), MAX_NETWORK_GROUPS_PER_SWEEP);
    if Survives(capShuffle, MAX_NETWORK_GROUPS_PER_SWEEP, g) {
      var k :| 0 <= k < |capShuffle| && k < MAX_NETWORK_GROUPS_PER_SWEEP && capShuffle[k] == g;
      assert kept[k] == mapOrder[g];
    }
    if mapOrder[g] in kept {
      var k :| 0 <= k < |kept| && kept[k] == mapOrder[g];
      assert capShuffle[k] == g;
    }
  }

  /** The second shuffles under which some peer of this group is sampled. */
  ghost function ShufflesSampling(candidates: seq<PeerAddr>, electShuffle: seq<nat>, mapOrder: seq<NetworkGroup>,
                                  group: NetworkGroup): set<seq<nat>>
    requires IsPermutation(electShuffle, |candidates|) && IsMapOrder(mapOrder, candidates)
  {
    set p | p in AllPermutations(|mapOrder|)
            && group in GroupsOf(Sample(candidates, electShuffle, mapOrder, p))
  }

  /** Truncation is fair between groups: any two groups of the book are sampled under equally many of
      the second shuffles, so a prefix with many addresses has no more weight than one with a single
      address. */
  lemma TruncationIsFair(candidates: seq<PeerAddr>, electShuffle: seq<nat>, mapOrder: seq<NetworkGroup>,
                         group: NetworkGroup, other: NetworkGroup)
    requires IsPermutation(electShuffle, |candidates|) && IsMapOrder(mapOrder, candidates)
    requires group in GroupSet(candidates) && other in GroupSet(candidates)
    ensures |ShufflesSampling(candidates, electShuffle, mapOrder, group)| ==
            |ShufflesSampling(candidates, electShuffle, mapOrder, other)|
  {
    var g := SamplingIsKeeping(candidates, electShuffle, mapOrder, group);
    var h := SamplingIsKeeping(candidates, electShuffle, mapOrder, other);
    PlacesAreFair(|mapOrder|, MAX_NETWORK_GROUPS_PER_SWEEP, g, h);
  }

  lemma SamplingIsKeeping(candidates: seq<PeerAddr>, electShuffle: seq<nat>, mapOrder: seq<NetworkGroup>,
                          group: NetworkGroup) returns (g: nat)
    requires IsPermutation(electShuffle, |candidates|) && IsMapOrder(mapOrder, candidates)
    requires group in GroupSet(candidates)
    ensures g < |mapOrder|
    ensures ShufflesSampling(candidates, electShuffle, mapOrder, group) ==
            ShufflesKeeping(|mapOrder|, MAX_NETWORK_GROUPS_PER_SWEEP, g)
  {
    assert group in Elements(mapOrder);
    g := PositionIn(mapOrder, group);
    forall p | p in AllPermutations(|mapOrder|)
      ensures group in GroupsOf(Sample(candidates, electShuffle, mapOrder, p)) <==>
              Survives(p, MAX_NETWORK_GROUPS_PER_SWEEP, g)
    {
      SampledIsSurviving(candidates, electShuffle, mapOrder, p, g);
    }
  }

  /** The second shuffles under which exactly these groups are sampled, in this order. */
  ghost function ShufflesDrawing(candidates: seq<PeerAddr>, electShuffle: seq<nat>, mapOrder: seq<NetworkGroup>,
                                 groups: seq<NetworkGroup>): set<seq<nat>>
    requires IsPermutation(electShuffle, |candidates|) && IsMapOrder(mapOrder, candidates)
  {
    set p | p in AllPermutations(|mapOrder|)
            && GroupsOf(Sample(candidates, electShuffle, mapOrder, p)) == groups
  }

  lemma DrawingIsBeginning(candidates: seq<PeerAddr>, electShuffle: seq<nat>, mapOrder: seq<NetworkGroup>,
                           groups: seq<NetworkGroup>) returns (q: seq<nat>)
    requires IsPermutation(electShuffle, |candidates|) && IsMapOrder(mapOrder, candidates)
    requires IsGroupList(candidates, groups)
    ensures |q| == |groups| && IsBeginning(q, |mapOrder|)
    ensures ShufflesDrawing(candidates, electShuffle, mapOrder, groups) == ShufflesBeginning(|mapOrder|, q)
  {
    DistinctSize(mapOrder);
    forall i | 0 <= i < |groups| ensures groups[i] in mapOrder {
      assert groups[i] in Elements(groups) && groups[i] in Elements(mapOrder);
    }
    q := seq(|groups|, i requires 0 <= i < |groups| => PositionIn(mapOrder, groups[i]));
    forall p | p in AllPermutations(|mapOrder|)
      ensures GroupsOf(Sample(candidates, electShuffle, mapOrder, p)) == groups <==> q <= p
    {
      SampleGroups(candidates, electShuffle, mapOrder, p);
      BeginsWithPlaces(mapOrder, groups, q, p);
    }
  }

  lemma BeginsWithPlaces(mapOrder: seq<NetworkGroup>, groups: seq<NetworkGroup>, q: seq<nat>, p: seq<nat>)
    requires Distinct(mapOrder) && IsPermutation(p, |mapOrder|)
    requires |q| == |groups| == Min(MAX_NETWORK_GROUPS_PER_SWEEP, |mapOrder|)
    requires forall i | 0 <= i < |q| :: q[i] < |mapOrder| && mapOrder[q[i]] == groups[i]
    ensures Truncated(Permuted(mapOrder, p), MAX_NETWORK_GROUPS_PER_SWEEP) == groups <==> q <= p
  {
    var kept := Truncated(Permuted(mapOrder, p), MAX_NETWORK_GROUPS_PER_SWEEP);
    assert |kept| == |groups| && forall i | 0 <= i < |kept| :: kept[i] == mapOrder[p[i]];
    if kept == groups {
      forall i | 0 <= i < |q| ensures q[i] == p[i] {
        assert mapOrder[q[i]] == kept[i] == mapOrder[p[i]];
      }
    }
  }

  /** The draw of the groups is uniform: any two full lists of groups of the book are sampled, in their
      order, under equally many second shuffles, whatever the election and the map order. */
  lemma GroupListsAreFair(candidates: seq<PeerAddr>, electShuffle: seq<nat>, mapOrder: seq<NetworkGroup>,
                          groups: seq<NetworkGroup>, others: seq<NetworkGroup>)
    requires IsPermutation(electShuffle, |candidates|) && IsMapOrder(mapOrder, candidates)
    requires IsGroupList(candidates, groups) && IsGroupList(candidates, others)
    ensures |ShufflesDrawing(candidates, electShuffle, mapOrder, groups)| ==
            |ShufflesDrawing(candidates, electShuffle, mapOrder, others)|
  {
    var q := DrawingIsBeginning(candidates, electShuffle, mapOrder, groups);
    var r := DrawingIsBeginning(candidates, electShuffle, mapOrder, others);
    BeginningsAreFair(|mapOrder|, q, r, 0);
  }

  /** The two shuffles decide a sample separately: it comes out exactly when the second shuffle draws
      its groups and the first elects its peers. */
  lemma ShufflesDecideSeparately(candidates: seq<PeerAddr>, electShuffle: seq<nat>, mapOrder: seq<NetworkGroup>,
                                 capShuffle: seq<nat>, sampled: seq<PeerAddr>)
    requires IsPermutation(electShuffle, |candidates|) && IsMapOrder(mapOrder, candidates)
    requires IsPermutation(capShuffle, |mapOrder|)
    requires forall i | 0 <= i < |sampled| :: GroupOf(sampled[i]) in GroupSet(candidates)
    ensures Sample(candidates, electShuffle, mapOrder, capShuffle) == sampled <==>
            && Truncated(Permuted(mapOrder, capShuffle), MAX_NETWORK_GROUPS_PER_SWEEP) == GroupsOf(sampled)
            && forall i | 0 <= i < |sampled| ::
                 Representative(candidates, electShuffle, GroupOf(sampled[i])) == sampled[i]
  {
    SampleGroups(candidates, electShuffle, mapOrder, capShuffle);
    var drawn := Sample(candidates, electShuffle, mapOrder, capShuffle);
    forall i | 0 <= i < |drawn|
      ensures GroupOf(drawn[i]) in GroupSet(candidates)
      ensures drawn[i] == Representative(candidates, electShuffle, GroupOf(drawn[i]))
    {
      var g := mapOrder[capShuffle[i]];
      assert g in Elements(mapOrder);
      assert drawn[i] == Representative(candidates, electShuffle, g);
    }
    if GroupsOf(drawn) == GroupsOf(sampled)
       && forall i | 0 <= i < |sampled| ::
            Representative(candidates, electShuffle, GroupOf(sampled[i])) == sampled[i]
    {
      assert |drawn| == |GroupsOf(drawn)| == |sampled|;
      forall i | 0 <= i < |sampled| ensures drawn[i] == sampled[i] {
        assert GroupsOf(drawn)[i] == GroupsOf(sampled)[i];
      }
    }
  }

  /** Two books with the same groups, however many addresses each group has in either, give samples
      with the same groups in the same order under the same map order and second shuffle. */
  lemma AddressCountsDoNotChangeGroups(
      few: seq<PeerAddr>, many: seq<PeerAddr>, fewShuffle: seq<nat>, manyShuffle: seq<nat>,
      mapOrder: seq<NetworkGroup>, capShuffle: seq<nat>)
    requires GroupSet(few) == GroupSet(many)
    requires IsPermutation(fewShuffle, |few|) && IsPermutation(manyShuffle, |many|)
    requires IsMapOrder(mapOrder, few) && IsPermutation(capShuffle, |mapOrder|)
    ensures IsMapOrder(mapOrder, many)
    ensures GroupsOf(Sample(few, fewShuffle, mapOrder, capShuffle)) ==
            GroupsOf(Sample(many, manyShuffle, mapOrder, capShuffle))
  {
    SampleGroups(few, fewShuffle, mapOrder, capShuffle);
    SampleGroups(many, manyShuffle, mapOrder, capShuffle);
  }
}
