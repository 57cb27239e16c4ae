/** Which answers one refresh may publish for a family, without mentioning shuffles, and what a
    floor raise does to them. */
module PreferredFill {
  import opened Prelude
  import opened Permutations
  import opened Addresses
  import opened ActivationTarget
  import opened Servability
  import opened AddressCache

  /** Some pair of shuffles publishes `answer`. */
  ghost predicate Publishable(target: seq<PeerAddr>, fallback: seq<PeerAddr>, answer: seq<PeerAddr>) {
    exists p, q :: IsPermutation(p, |target|) && IsPermutation(q, |fallback|)
                   && Fill(target, fallback, p, q) == answer
  }

  /** Some shuffle of `s` begins with `beginning`. */
  lemma ShuffleBeginningWith(s: seq<PeerAddr>, beginning: seq<PeerAddr>) returns (p: seq<nat>)
    requires Distinct(beginning) && forall a | a in beginning :: a in s
    ensures IsPermutation(p, |s|) && beginning <= Permuted(s, p)
  {
    var places := seq(|beginning|, i requires 0 <= i < |beginning| => PositionIn(s, beginning[i]));
    p := ExtendToPermutation(places, |s|);
    assert forall i | 0 <= i < |beginning| :: p[i] == places[i];
    InjectiveIsShort(places, |s|);
  }

  lemma CoveringIsLong(s: seq<PeerAddr>, t: seq<PeerAddr>)
    requires Distinct(s) && Elements(s) <= Elements(t)
    ensures |s| <= |t|
  {
    var places := seq(|s|, i requires 0 <= i < |s| =>
      assert s[i] in Elements(s); assert s[i] in Elements(t); PositionIn(t, s[i]));
    InjectiveIsShort(places, |t|);
  }

  /** No fallback peer appears before position `|target|`. */
  lemma TargetsComeFirst(target: seq<PeerAddr>, fallback: seq<PeerAddr>, answer: seq<PeerAddr>, k: nat)
    requires Distinct(target) && IsPreferring(target, fallback, answer)
    requires k < |answer| && k < |target|
    ensures answer[k] in target
  {
    if answer[k] in fallback {
      CoveringIsLong(target, answer[..k]);
      assert false;
    }
  }

  lemma PreferringIsPublished(target: seq<PeerAddr>, fallback: seq<PeerAddr>, answer: seq<PeerAddr>)
    requires Distinct(target + fallback) && IsPreferring(target, fallback, answer)
    ensures Publishable(target, fallback, answer)
  {
    PartsAreDistinct(target, fallback);
    var cut := Min(|target|, |answer|);
    var first, second := answer[..cut], answer[cut..];
    forall k | 0 <= k < cut ensures answer[k] in target {
      TargetsComeFirst(target, fallback, answer, k);
    }
    forall k | cut <= k < |answer| ensures answer[k] in fallback {
      RestIsFallback(target, fallback, answer, k);
    }
    var p := ShuffleBeginningWith(target, first);
    var q := ShuffleBeginningWith(fallback, second);
    PartsMakeFill(target, fallback, p, q, first, second);
    assert first + second == answer;
  }

  lemma RestIsFallback(target: seq<PeerAddr>, fallback: seq<PeerAddr>, answer: seq<PeerAddr>, k: nat)
    requires Distinct(target + fallback) && IsPreferring(target, fallback, answer)
    requires |target| <= k < |answer|
    ensures answer[k] in fallback
  {
    PartsAreDistinct(target, fallback);
    var first := answer[..|target|];
    forall i | 0 <= i < |target| ensures first[i] in target {
      TargetsComeFirst(target, fallback, answer, i);
    }
    CoveringIsWhole(first, target);
    assert forall i | 0 <= i < |target| :: first[i] == answer[i] != answer[k];
    assert answer[k] !in Elements(first) && answer[k] !in Elements(target);
  }

  lemma PartsMakeFill(target: seq<PeerAddr>, fallback: seq<PeerAddr>, p: seq<nat>, q: seq<nat>,
                      first: seq<PeerAddr>, second: seq<PeerAddr>)
    requires IsPermutation(p, |target|) && IsPermutation(q, |fallback|)
    requires first <= Permuted(target, p) && second <= Permuted(fallback, q)
    requires |first| < |target| ==> second == []
    requires |first + second| == Min(MAX_DNS_RESPONSE_PEERS, |target| + |fallback|)
    ensures Fill(target, fallback, p, q) == first + second
  {
  }

  lemma CoveringIsWhole(s: seq<PeerAddr>, t: seq<PeerAddr>)
    requires Distinct(s) && Distinct(t) && |s| == |t| && forall x | x in s :: x in t
    ensures Elements(s) == Elements(t)
  {
    var p := ShuffleBeginningWith(t, s);
    assert Permuted(t, p) == s;
    PermutedElements(t, p);
  }

  /** The publishable answers are exactly the preferring ones: nothing else can be published, and the
      shuffles reach every one of them. */
  lemma PublishableIsPreferring(target: seq<PeerAddr>, fallback: seq<PeerAddr>, answer: seq<PeerAddr>)
    requires Distinct(target + fallback)
    ensures Publishable(target, fallback, answer) <==> IsPreferring(target, fallback, answer)
  {
    if IsPreferring(target, fallback, answer) {
      PreferringIsPublished(target, fallback, answer);
    }
    if Publishable(target, fallback, answer) {
      var p, q :| IsPermutation(p, |target|) && IsPermutation(q, |fallback|)
                  && Fill(target, fallback, p, q) == answer;
      PublishedIsPreferring(target, fallback, p, q);
    }
  }

  // A floor raise

  /** The versions a refresh works with after reading the tip. */
  function CacheFloors(network: Network, tip: u32): Floors {
    Floors(network.defaultPort, network.minRemote(tip), Latest(network).requiredVersion)
  }

  /** On the same book and clock, raising the floor to the target version keeps both target tiers
      unchanged and empties both fallback tiers. */
  lemma {:induction false} RaiseRemovesFallbackTier(book: seq<PeerMeta>, f: Floors, v4: bool)
    requires f.minimum <= f.target
    ensures Tier(book, f.(minimum := f.target), v4, true) == Tier(book, f, v4, true)
    ensures Tier(book, f.(minimum := f.target), v4, false) == []
  {
    if book != [] {
      var last := book[|book| - 1];
      RaiseRemovesFallbackTier(book[..|book| - 1], f, v4);
      RaisingTheFloor(last, f.defaultPort, f.minimum, f.target);
    }
  }

  ghost predicate FamilyAnswer(book: seq<PeerMeta>, f: Floors, v4: bool, answer: seq<PeerAddr>) {
    Publishable(Tier(book, f, v4, true), Tier(book, f, v4, false), answer)
  }

  /** The raise leaves a family's publishable answers as they were exactly when the family had a full
      answer of target peers, or no fallback peers at all. */
  lemma RaiseKeepsAnswersIff(book: seq<PeerMeta>, f: Floors, v4: bool)
    requires UniqueAddresses(book) && f.minimum <= f.target
    ensures (forall answer :: FamilyAnswer(book, f, v4, answer)
                              <==> FamilyAnswer(book, f.(minimum := f.target), v4, answer))
            <==> |Tier(book, f, v4, true)| >= 25 || Tier(book, f, v4, false) == []
  {
    var target, fallback := Tier(book, f, v4, true), Tier(book, f, v4, false);
    RaiseRemovesFallbackTier(book, f, v4);
    TiersAreDisjoint(book, f, v4);
    PartsAreDistinct(target, fallback);
    assert target + [] == target;
    forall answer
      ensures FamilyAnswer(book, f, v4, answer) <==> IsPreferring(target, fallback, answer)
      ensures FamilyAnswer(book, f.(minimum := f.target), v4, answer) <==> IsPreferring(target, [], answer)
    {
      PublishableIsPreferring(target, fallback, answer);
      PublishableIsPreferring(target, [], answer);
    }
    if |target| >= MAX_DNS_RESPONSE_PEERS {
      forall answer ensures IsPreferring(target, fallback, answer) <==> IsPreferring(target, [], answer) {
        if IsPreferring(target, fallback, answer) {
          forall k | 0 <= k < |answer| ensures answer[k] in target {
            TargetsComeFirst(target, fallback, answer, k);
          }
        }
      }
    } else if fallback != [] {
      IdentityIsPermutation(|target|);
      var answer := Fill(target, [], Identity(|target|), []);
      assert FamilyAnswer(book, f.(minimum := f.target), v4, answer);
      assert |answer| == |target|;
      assert !IsPreferring(target, fallback, answer);
    }
  }

  /** What a confirmation does to the answers of a family, for the floors the two tips give: on the same
      book and clock the target tier stays, the fallback tier goes, and the publishable answers stay as
      they were exactly when there were 25 target peers or no fallback peer. */
  lemma ConfirmationKeepsAnswersIff(book: seq<PeerMeta>, network: Network, v4: bool)
    requires UniqueAddresses(book) && IsMonotone(network)
    ensures var before := CacheFloors(network, Latest(network).preActivationHeight);
            var after := CacheFloors(network, network.activationHeight);
            && Tier(book, after, v4, true) == Tier(book, before, v4, true)
            && Tier(book, after, v4, false) == []
            && ((forall answer :: FamilyAnswer(book, before, v4, answer) <==> FamilyAnswer(book, after, v4, answer))
                <==> |Tier(book, before, v4, true)| >= 25 || Tier(book, before, v4, false) == [])
  {
    var before := CacheFloors(network, Latest(network).preActivationHeight);
    assert IsInOrder(network, Latest(network).preActivationHeight, network.activationHeight);
    assert CacheFloors(network, network.activationHeight) == before.(minimum := before.target);
    RaiseRemovesFallbackTier(book, before, v4);
    RaiseKeepsAnswersIff(book, before, v4);
  }

  function Identity(n: nat): seq<nat> { seq(n, i => i) }

  lemma IdentityIsPermutation(n: nat)
    ensures IsPermutation(Identity(n), n)
  {
  }

  // Observer and cache

  /** The candidates of an observation sweep: every peer servable at the floor, in book order. */
  function Candidates(book: seq<PeerMeta>, defaultPort: u16, minimumVersion: u32): seq<PeerAddr> {
    if book == [] then []
    else
      var last := book[|book| - 1];
      Candidates(book[..|book| - 1], defaultPort, minimumVersion)
      + if IsServable(last, defaultPort, minimumVersion) then [last.addr] else []
  }

  /** `sample_network_groups` filters at the pre-activation floor, whatever the tip says. */
  function ObserverCandidates(book: seq<PeerMeta>, network: Network): seq<PeerAddr> {
    Candidates(book, network.defaultPort, network.minRemote(Latest(network).preActivationHeight))
  }

  /** While the tip stands at the pre-activation height, observer and cache agree: the observer's
      candidates are the cache's four tiers together, entry for entry. */
  lemma ObserverAndCacheAgree(book: seq<PeerMeta>, network: Network, tip: u32)
    requires tip == Latest(network).preActivationHeight
    ensures var f := CacheFloors(network, tip);
            multiset(ObserverCandidates(book, network)) ==
            multiset(Tier(book, f, true, true)) + multiset(Tier(book, f, true, false))
            + multiset(Tier(book, f, false, true)) + multiset(Tier(book, f, false, false))
  {
    TiersMakeUpCandidates(book, CacheFloors(network, tip));
  }

  lemma {:induction false} TiersMakeUpCandidates(book: seq<PeerMeta>, f: Floors)
    ensures multiset(Candidates(book, f.defaultPort, f.minimum)) ==
            multiset(Tier(book, f, true, true)) + multiset(Tier(book, f, true, false))
            + multiset(Tier(book, f, false, true)) + multiset(Tier(book, f, false, false))
  {
    if book != [] {
      var last := book[|book| - 1];
      TiersMakeUpCandidates(book[..|book| - 1], f);
      if IsServable(last, f.defaultPort, f.minimum) {
        assert InTier(last, f, last.addr.ip.V4?, VersionAtLeast(last, f.target));
      }
    }
  }
}
