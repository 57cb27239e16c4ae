/** Whether a crawled peer may be served. Entries are seen as they stand under one address-book
    lock at one clock reading: `recentlyLive` and `misbehaviorScore` are the book's answers then. */
module Servability {
  import opened Prelude
  import opened Addresses
  import opened Prefixes

  datatype UnservableReason =
    | NotRoutable
    | WrongPort
    | NotRecentlyLive
    | OutdatedVersion
    | NotFullNode
    | Inbound
    | Misbehaving

  /** `UnservableReason::ALL`. */
  const ALL_REASONS: seq<UnservableReason> :=
    [NotRoutable, WrongPort, NotRecentlyLive, OutdatedVersion, NotFullNode, Inbound, Misbehaving]

  datatype PeerMeta = PeerMeta(
    addr: PeerAddr,
    recentlyLive: bool,
    negotiatedVersion: Option<u32>,
    nodeNetwork: bool,
    inbound: bool,
    misbehaviorScore: u32)

  type Verdict = Result<(), UnservableReason>

  predicate VersionAtLeast(meta: PeerMeta, version: u32) {
    meta.negotiatedVersion.Some? && meta.negotiatedVersion.value >= version
  }

  /** `classify`, on the attributes `classify_peer` extracts. */
  function Classify(meta: PeerMeta, defaultPort: u16, minimumVersion: u32): Verdict {
    if meta.addr.ip.IsLoopback() || meta.addr.ip.IsUnspecified() || meta.addr.ip.IsMulticast()
    then Err(NotRoutable)
    else if meta.addr.port != defaultPort then Err(WrongPort)
    else if !meta.recentlyLive then Err(NotRecentlyLive)
    else if meta.negotiatedVersion.None? || meta.negotiatedVersion.value < minimumVersion
    then Err(OutdatedVersion)
    else if !meta.nodeNetwork then Err(NotFullNode)
    else if meta.inbound then Err(Inbound)
    else if meta.misbehaviorScore != 0 then Err(Misbehaving)
    else Ok(())
  }

  predicate IsServable(meta: PeerMeta, defaultPort: u16, minimumVersion: u32) {
    Classify(meta, defaultPort, minimumVersion).Ok?
  }

  /** The condition each reason stands for, on its own. */
  ghost predicate Applies(reason: UnservableReason, meta: PeerMeta, defaultPort: u16, minimumVersion: u32) {
    match reason
    case NotRoutable => IsUnroutable(meta.addr.ip)
    case WrongPort => meta.addr.port != defaultPort
    case NotRecentlyLive => !meta.recentlyLive
    case OutdatedVersion => !VersionAtLeast(meta, minimumVersion)
    case NotFullNode => !meta.nodeNetwork
    case Inbound => meta.inbound
    case Misbehaving => meta.misbehaviorScore > 0
  }

  /** What a peer must be to be served, on the attributes of its entry. */
  ghost predicate MayBeServed(meta: PeerMeta, defaultPort: u16, minimumVersion: u32) {
    && !IsUnroutable(meta.addr.ip) && meta.addr.port == defaultPort
    && meta.recentlyLive
    && meta.negotiatedVersion.Some? && meta.negotiatedVersion.value >= minimumVersion
    && meta.nodeNetwork && !meta.inbound && meta.misbehaviorScore == 0
  }

  lemma ServableIff(meta: PeerMeta, defaultPort: u16, minimumVersion: u32)
    ensures IsServable(meta, defaultPort, minimumVersion) <==> MayBeServed(meta, defaultPort, minimumVersion)
  {
    UnroutableRanges(meta.addr.ip);
  }

  /** The reason is the first in the order of `UnservableReason::ALL` whose condition the entry meets. */
  ghost predicate IsFirstReason(reason: UnservableReason, meta: PeerMeta, defaultPort: u16, minimumVersion: u32) {
    exists k :: 0 <= k < |ALL_REASONS| && ALL_REASONS[k] == reason
                && Applies(reason, meta, defaultPort, minimumVersion)
                && forall l | 0 <= l < k :: !Applies(ALL_REASONS[l], meta, defaultPort, minimumVersion)
  }

  /** The reported reason is the first of `ALL_REASONS` that applies, and a peer is servable exactly
      when none does. */
  lemma FirstApplicableReason(meta: PeerMeta, defaultPort: u16, minimumVersion: u32, k: nat)
    requires k < |ALL_REASONS|
    ensures Classify(meta, defaultPort, minimumVersion) == Err(ALL_REASONS[k]) <==>
            && Applies(ALL_REASONS[k], meta, defaultPort, minimumVersion)
            && forall l | 0 <= l < k :: !Applies(ALL_REASONS[l], meta, defaultPort, minimumVersion)
    ensures IsServable(meta, defaultPort, minimumVersion) <==>
            forall reason :: !Applies(reason, meta, defaultPort, minimumVersion)
  {
    UnroutableRanges(meta.addr.ip);
    if !IsServable(meta, defaultPort, minimumVersion) {
      assert Applies(Classify(meta, defaultPort, minimumVersion).error, meta, defaultPort, minimumVersion);
    }
    // The conditions before the seventh, by name.
    assert ALL_REASONS[0] == NotRoutable && ALL_REASONS[1] == WrongPort;
    assert ALL_REASONS[2] == NotRecentlyLive && ALL_REASONS[3] == OutdatedVersion;
    assert ALL_REASONS[4] == NotFullNode && ALL_REASONS[5] == Inbound;
  }

  lemma ReportedIsFirstReason(meta: PeerMeta, defaultPort: u16, minimumVersion: u32, reason: UnservableReason)
    ensures Classify(meta, defaultPort, minimumVersion) == Err(reason) <==>
            IsFirstReason(reason, meta, defaultPort, minimumVersion)
  {
    var k := match reason
             case NotRoutable => 0 case WrongPort => 1 case NotRecentlyLive => 2 case OutdatedVersion => 3
             case NotFullNode => 4 case Inbound => 5 case Misbehaving => 6;
    assert ALL_REASONS[k] == reason;
    FirstApplicableReason(meta, defaultPort, minimumVersion, k);
    forall l | 0 <= l < |ALL_REASONS| && ALL_REASONS[l] == reason ensures l == k {
    }
  }

  /** Raising the floor removes exactly the accepted peers below the new floor, and changes no
      verdict to acceptance. */
  lemma RaisingTheFloor(meta: PeerMeta, defaultPort: u16, low: u32, high: u32)
    requires low <= high
    ensures IsServable(meta, defaultPort, high) <==>
            IsServable(meta, defaultPort, low) && VersionAtLeast(meta, high)
  {
  }
}
