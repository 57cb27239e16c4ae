/** The servable-peer cache: one pass over the book into four tiers and a histogram, and a capped
    answer per address family that prefers the compiled target version. */
module AddressCache {
  import opened Prelude
  import opened Permutations
  import opened Addresses
  import opened Servability

  const MAX_DNS_RESPONSE_PEERS := 25

  datatype ServablePeers = ServablePeers(ipv4: seq<PeerAddr>, ipv6: seq<PeerAddr>)

  /** The versions one pass works with: the floor read from the tip and the compiled target. */
  datatype Floors = Floors(defaultPort: u16, minimum: u32, target: u32)

  // Tiers

  predicate InTier(meta: PeerMeta, f: Floors, v4: bool, atTarget: bool) {
    && IsServable(meta, f.defaultPort, f.minimum)
    && meta.addr.ip.V4? == v4
    && VersionAtLeast(meta, f.target) == atTarget
  }

  /** The addresses of one tier, in book order. */
  function Tier(book: seq<PeerMeta>, f: Floors, v4: bool, atTarget: bool): seq<PeerAddr> {
    if book == [] then []
    else
      var last := book[|book| - 1];
      Tier(book[..|book| - 1], f, v4, atTarget) + if InTier(last, f, v4, atTarget) then [last.addr] else []
  }

  /** How many entries get this verdict. */
  function CountOf(book: seq<PeerMeta>, f: Floors, verdict: Verdict): nat {
    if book == [] then 0
    else
      CountOf(book[..|book| - 1], f, verdict)
      + if Classify(book[|book| - 1], f.defaultPort, f.minimum) == verdict then 1 else 0
  }

  /** The positions at which the flag is set. */
  ghost function Marked(flags: seq<bool>): set<nat> {
    set i: nat | i < |flags| && flags[i]
  }

  lemma OneMoreFlag(flags: seq<bool>, flag: bool)
    ensures |Marked(flags + [flag])| == |Marked(flags)| + if flag then 1 else 0
  {
    var n: nat := |flags|;
    assert Marked(flags + [flag]) == if flag then Marked(flags) + {n} else Marked(flags);
  }

  ghost function FirstReasonFlags(book: seq<PeerMeta>, f: Floors, reason: UnservableReason): seq<bool> {
    seq(|book|, i requires 0 <= i < |book| => IsFirstReason(reason, book[i], f.defaultPort, f.minimum))
  }

  /** The entries whose first applicable reason this is. */
  ghost function PositionsWith(book: seq<PeerMeta>, f: Floors, reason: UnservableReason): set<nat> {
    set i: nat | i < |book| && IsFirstReason(reason, book[i], f.defaultPort, f.minimum)
  }

  lemma {:induction false} CountIsFlags(book: seq<PeerMeta>, f: Floors, reason: UnservableReason)
    ensures CountOf(book, f, Err(reason)) == |Marked(FirstReasonFlags(book, f, reason))|
  {
    if book != [] {
      var front, last := book[..|book| - 1], book[|book| - 1];
      CountIsFlags(front, f, reason);
      ReportedIsFirstReason(last, f.defaultPort, f.minimum, reason);
      var flag := IsFirstReason(reason, last, f.defaultPort, f.minimum);
      OneMoreFlag(FirstReasonFlags(front, f, reason), flag);
      assert FirstReasonFlags(book, f, reason) == FirstReasonFlags(front, f, reason) + [flag];
    }
  }

  lemma CountIsPositions(book: seq<PeerMeta>, f: Floors, reason: UnservableReason)
    ensures CountOf(book, f, Err(reason)) == |PositionsWith(book, f, reason)|
  {
    CountIsFlags(book, f, reason);
    assert PositionsWith(book, f, reason) == Marked(FirstReasonFlags(book, f, reason));
  }

  ghost function ServableFlags(book: seq<PeerMeta>, f: Floors, v4: bool): seq<bool> {
    seq(|book|, i requires 0 <= i < |book| =>
      book[i].addr.ip.V4? == v4 && MayBeServed(book[i], f.defaultPort, f.minimum))
  }

  /** The entries of one family that may be served at the floor. */
  ghost function ServablePositions(book: seq<PeerMeta>, f: Floors, v4: bool): set<nat> {
    set i: nat | i < |book| && book[i].addr.ip.V4? == v4 && MayBeServed(book[i], f.defaultPort, f.minimum)
  }

  lemma {:induction false} TiersCountFlags(book: seq<PeerMeta>, f: Floors, v4: bool)
    ensures |Tier(book, f, v4, true)| + |Tier(book, f, v4, false)| == |Marked(ServableFlags(book, f, v4))|
  {
    if book != [] {
      var front, last := book[..|book| - 1], book[|book| - 1];
      TiersCountFlags(front, f, v4);
      ServableIff(last, f.defaultPort, f.minimum);
      var flag := last.addr.ip.V4? == v4 && MayBeServed(last, f.defaultPort, f.minimum);
      OneMoreFlag(ServableFlags(front, f, v4), flag);
      assert ServableFlags(book, f, v4) == ServableFlags(front, f, v4) + [flag];
    }
  }

  lemma TiersCountServable(book: seq<PeerMeta>, f: Floors, v4: bool)
    ensures |Tier(book, f, v4, true)| + |Tier(book, f, v4, false)| == |ServablePositions(book, f, v4)|
  {
    TiersCountFlags(book, f, v4);
    assert ServablePositions(book, f, v4) == Marked(ServableFlags(book, f, v4));
  }

  function CountedIn(unservable: map<UnservableReason, nat>, reason: UnservableReason): nat {
    if reason in unservable then unservable[reason] else 0
  }

  /** The four shuffles of one pass. */
  datatype Shuffles = Shuffles(target4: seq<nat>, fallback4: seq<nat>, target6: seq<nat>, fallback6: seq<nat>)

  ghost predicate ValidShuffles(book: seq<PeerMeta>, f: Floors, shuffles: Shuffles) {
    && IsPermutation(shuffles.target4, |Tier(book, f, true, true)|)
    && IsPermutation(shuffles.fallback4, |Tier(book, f, true, false)|)
    && IsPermutation(shuffles.target6, |Tier(book, f, false, true)|)
    && IsPermutation(shuffles.fallback6, |Tier(book, f, false, false)|)
  }

  /** `shuffled_version_preferred_peers` as a function of the two shuffles. */
  function Fill(target: seq<PeerAddr>, fallback: seq<PeerAddr>, p: seq<nat>, q: seq<nat>): seq<PeerAddr>
    requires IsPermutation(p, |target|) && IsPermutation(q, |fallback|)
  {
    Truncated(Permuted(target, p) + Permuted(fallback, q), MAX_DNS_RESPONSE_PEERS)
  }

  /** The snapshot determined by a book, the versions and the shuffles. */
  ghost function Snapshot(book: seq<PeerMeta>, f: Floors, shuffles: Shuffles): ServablePeers
    requires ValidShuffles(book, f, shuffles)
  {
    ServablePeers(
      Fill(Tier(book, f, true, true), Tier(book, f, true, false), shuffles.target4, shuffles.fallback4),
      Fill(Tier(book, f, false, true), Tier(book, f, false, false), shuffles.target6, shuffles.fallback6))
  }

  // What filling promises

  /** A full answer without repetition that spends fallback peers only after every target peer. */
  ghost predicate IsPreferring(target: seq<PeerAddr>, fallback: seq<PeerAddr>, answer: seq<PeerAddr>) {
    && Distinct(answer)
    && |answer| == Min(25, |target| + |fallback|)
    && (forall a | a in answer :: a in target || a in fallback)
    && (forall k | 0 <= k < |answer| && answer[k] in fallback :: Elements(target) <= Elements(answer[..k]))
  }

  lemma PartsAreDistinct<T>(s: seq<T>, t: seq<T>)
    requires Distinct(s + t)
    ensures Distinct(s) && Distinct(t) && forall x | x in s :: x !in t
  {
    forall i, j | 0 <= i < j < |s| ensures s[i] != s[j] {
      assert (s + t)[i] != (s + t)[j];
    }
    forall i, j | 0 <= i < j < |t| ensures t[i] != t[j] {
      assert (s + t)[|s| + i] != (s + t)[|s| + j];
    }
    forall i, j | 0 <= i < |s| && 0 <= j < |t| ensures s[i] != t[j] {
      assert (s + t)[i] != (s + t)[|s| + j];
    }
  }

  /** Whatever the shuffles, the fill prefers target peers. */
  lemma PublishedIsPreferring(target: seq<PeerAddr>, fallback: seq<PeerAddr>, p: seq<nat>, q: seq<nat>)
    requires Distinct(target + fallback)
    requires IsPermutation(p, |target|) && IsPermutation(q, |fallback|)
    ensures IsPreferring(target, fallback, Fill(target, fallback, p, q))
  {
    var first, second := Permuted(target, p), Permuted(fallback, q);
    var answer := Fill(target, fallback, p, q);
    PartsAreDistinct(target, fallback);
    PermutedElements(target, p);
    PermutedElements(fallback, q);
    forall x | x in first ensures x !in second {
      assert x in Elements(first) && x in target;
      assert x !in Elements(fallback) && x !in Elements(second);
    }
    DisjointConcatenation(first, second);
    forall i | 0 <= i < |first| ensures first[i] in target {
      assert first[i] in Elements(first);
    }
    forall a | a in answer ensures a in target || a in fallback {
      assert a in first + second;
      assert a in Elements(first) || a in Elements(second);
    }
    forall k | 0 <= k < |answer| && answer[k] in fallback
      ensures Elements(target) <= Elements(answer[..k])
    {
      assert answer[k] == (first + second)[k];
      assert k >= |first|;
      assert answer[..k][..|first|] == first;
      forall x | x in target ensures x in answer[..k] {
        assert x in Elements(first);
        var i :| 0 <= i < |first| && first[i] == x;
        assert answer[..k][i] == x;
      }
    }
  }

  /** `shuffled_version_preferred_peers`: for tiers that share nothing, a full answer without repetition
      in which no fallback peer stands before a target peer. */
  method ShuffledVersionPreferredPeers(
      target: seq<PeerAddr>, fallback: seq<PeerAddr>, p: seq<nat>, q: seq<nat>)
    returns (peers: seq<PeerAddr>)
    requires IsPermutation(p, |target|) && IsPermutation(q, |fallback|)
    ensures Distinct(target + fallback) ==> IsPreferring(target, fallback, peers)
    ensures peers == Fill(target, fallback, p, q)
  {
    if Distinct(target + fallback) {
      PublishedIsPreferring(target, fallback, p, q);
    }
    var targetVersion := Permuted(target, p);
    var fallbackVersion := Permuted(fallback, q);
    targetVersion := targetVersion + fallbackVersion;
    peers := Truncated(targetVersion, MAX_DNS_RESPONSE_PEERS);
  }

  /** `servable_peers`: classify every entry once, sort it into its tier or count its reason, then
      fill each family. */
  method ComputeServablePeers(book: seq<PeerMeta>, f: Floors, shuffles: Shuffles)
    returns (peers: ServablePeers, servable4: nat, servable6: nat, unservable: map<UnservableReason, nat>)
    requires ValidShuffles(book, f, shuffles)
    ensures peers == Snapshot(book, f, shuffles)
    ensures servable4 == |ServablePositions(book, f, true)|
    ensures servable6 == |ServablePositions(book, f, false)|
    ensures forall reason :: CountedIn(unservable, reason) == |PositionsWith(book, f, reason)|
  {
    var target4, fallback4, target6, fallback6: seq<PeerAddr> := [], [], [], [];
    unservable := map[];
    for i := 0 to |book|
      invariant target4 == Tier(book[..i], f, true, true)
      invariant fallback4 == Tier(book[..i], f, true, false)
      invariant target6 == Tier(book[..i], f, false, true)
      invariant fallback6 == Tier(book[..i], f, false, false)
      invariant forall reason :: CountedIn(unservable, reason) == CountOf(book[..i], f, Err(reason))
    {
      var meta := book[i];
      assert book[..i + 1][..i] == book[..i];
      match Classify(meta, f.defaultPort, f.minimum) {
        case Ok(_) =>
          var isTargetVersion := VersionAtLeast(meta, f.target);
          if meta.addr.ip.V4? {
            if isTargetVersion { target4 := target4 + [meta.addr]; }
            else { fallback4 := fallback4 + [meta.addr]; }
          } else {
            if isTargetVersion { target6 := target6 + [meta.addr]; }
            else { fallback6 := fallback6 + [meta.addr]; }
          }
        case Err(reason) =>
          unservable := unservable[reason := CountedIn(unservable, reason) + 1];
      }
    }
    assert book[..|book|] == book;
    forall reason ensures CountOf(book, f, Err(reason)) == |PositionsWith(book, f, reason)| {
      CountIsPositions(book, f, reason);
    }
    TiersCountServable(book, f, true);
    TiersCountServable(book, f, false);
    servable4 := |target4| + |fallback4|;
    servable6 := |target6| + |fallback6|;
    var ipv4 := ShuffledVersionPreferredPeers(target4, fallback4, shuffles.target4, shuffles.fallback4);
    var ipv6 := ShuffledVersionPreferredPeers(target6, fallback6, shuffles.target6, shuffles.fallback6);
    peers := ServablePeers(ipv4, ipv6);
  }

  /** Nothing in the book is lost or counted twice: the two servable gauges and the seven reasons
      add up to the entries iterated. */
  lemma {:induction false} EveryEntryIsCountedOnce(book: seq<PeerMeta>, f: Floors)
    ensures |Tier(book, f, true, true)| + |Tier(book, f, true, false)|
            + |Tier(book, f, false, true)| + |Tier(book, f, false, false)|
            + CountOf(book, f, Err(NotRoutable)) + CountOf(book, f, Err(WrongPort))
            + CountOf(book, f, Err(NotRecentlyLive)) + CountOf(book, f, Err(OutdatedVersion))
            + CountOf(book, f, Err(NotFullNode)) + CountOf(book, f, Err(Inbound))
            + CountOf(book, f, Err(Misbehaving))
            == |book|
  {
    if book != [] {
      EveryEntryIsCountedOnce(book[..|book| - 1], f);
    }
  }

  // What a tier contains

  /** What it takes to be in a tier, on the attributes of the entry. */
  ghost predicate BelongsTo(meta: PeerMeta, f: Floors, v4: bool, atTarget: bool) {
    && MayBeServed(meta, f.defaultPort, f.minimum) && meta.addr.ip.V4? == v4
    && (meta.negotiatedVersion.value >= f.target) == atTarget
  }

  lemma InTierIff(meta: PeerMeta, f: Floors, v4: bool, atTarget: bool)
    ensures InTier(meta, f, v4, atTarget) <==> BelongsTo(meta, f, v4, atTarget)
  {
    ServableIff(meta, f.defaultPort, f.minimum);
  }

  lemma {:induction false} TierMember(book: seq<PeerMeta>, f: Floors, v4: bool, atTarget: bool, a: PeerAddr)
    ensures a in Tier(book, f, v4, atTarget) <==>
            exists i :: 0 <= i < |book| && book[i].addr == a && BelongsTo(book[i], f, v4, atTarget)
  {
    if book != [] {
      var front, n := book[..|book| - 1], |book| - 1;
      TierMember(front, f, v4, atTarget, a);
      InTierIff(book[n], f, v4, atTarget);
      if a in Tier(front, f, v4, atTarget) {
        var i :| 0 <= i < |front| && front[i].addr == a && BelongsTo(front[i], f, v4, atTarget);
        assert book[i] == front[i];
      }
      if i :| 0 <= i < |book| && book[i].addr == a && BelongsTo(book[i], f, v4, atTarget) {
        if i < n { assert front[i] == book[i]; }
      }
    }
  }

  /** zebra-network keys its book by address. */
  ghost predicate UniqueAddresses(book: seq<PeerMeta>) {
    forall i, j | 0 <= i < j < |book| :: book[i].addr != book[j].addr
  }

  lemma {:induction false} TierIsDistinct(book: seq<PeerMeta>, f: Floors, v4: bool, atTarget: bool)
    requires UniqueAddresses(book)
    ensures Distinct(Tier(book, f, v4, atTarget))
  {
    if book != [] {
      var front, last := book[..|book| - 1], book[|book| - 1];
      TierIsDistinct(front, f, v4, atTarget);
      TierMember(front, f, v4, atTarget, last.addr);
    }
  }

  lemma TiersAreDisjoint(book: seq<PeerMeta>, f: Floors, v4: bool)
    requires UniqueAddresses(book)
    ensures Distinct(Tier(book, f, v4, true) + Tier(book, f, v4, false))
  {
    var target, fallback := Tier(book, f, v4, true), Tier(book, f, v4, false);
    TierIsDistinct(book, f, v4, true);
    TierIsDistinct(book, f, v4, false);
    forall a | a in target && a in fallback ensures false {
      TierMember(book, f, v4, true, a);
      TierMember(book, f, v4, false, a);
    }
    DisjointConcatenation(target, fallback);
  }
}
