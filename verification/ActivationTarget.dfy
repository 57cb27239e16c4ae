/** The compiled activation target and the record that confirms it. */
module ActivationTarget {
  import opened Prelude
  import RecordText

  /** Blocks Zebra may roll back; a confirmation waits this long after activation. */
  const MAX_BLOCK_REORG_HEIGHT: u32 := 1000

  /** What a build knows about its network: the newest activation height it was compiled with, the
      default port, and the minimum peer version it derives from a chain height
      (`Version::min_remote_for_height`). */
  datatype Network = Network(activationHeight: u32, defaultPort: u16, minRemote: u32 -> u32)

  ghost predicate IsInOrder(network: Network, low: u32, high: u32) {
    network.minRemote(low) <= network.minRemote(high)
  }

  /** The only thing assumed of the version table: a higher tip never lowers the floor. */
  ghost predicate IsMonotone(network: Network) {
    forall low: u32, high: u32 | low <= high :: IsInOrder(network, low, high)
  }

  ghost predicate HaveSameFloor(newer: Network, older: Network, height: u32) {
    newer.minRemote(height) == older.minRemote(height)
  }

  /** A build for a later activation whose version table extends the older one. */
  ghost predicate Extends(newer: Network, older: Network) {
    && IsMonotone(newer)
    && older.activationHeight < newer.activationHeight
    && forall height: u32 | height < newer.activationHeight :: HaveSameFloor(newer, older, height)
  }

  datatype Target = Target(
    activationHeight: u32,
    confirmationHeight: u32,
    preActivationHeight: u32,
    requiredVersion: u32)

  /** `ActivationTarget::latest`. */
  function Latest(network: Network): Target {
    Target(
      network.activationHeight,
      SaturatingAdd(network.activationHeight, MAX_BLOCK_REORG_HEIGHT),
      if network.activationHeight == 0 then 0 else network.activationHeight - 1,
      network.minRemote(network.activationHeight))
  }

  function RecordFields(t: Target): RecordText.Fields {
    RecordText.Fields(t.activationHeight, t.confirmationHeight, t.requiredVersion)
  }

  /** `confirmation_record`. */
  function ConfirmationRecord(t: Target): string { RecordText.Render(RecordFields(t)) }

  /** `matches_confirmation_record`. */
  predicate MatchesConfirmationRecord(t: Target, record: string) { record == ConfirmationRecord(t) }

  /** The height a peer must report before the network counts as active: 1000 blocks past activation,
      held within 32 bits. */
  lemma TargetInNumbers(network: Network)
    ensures Latest(network).activationHeight == network.activationHeight
    ensures Latest(network).confirmationHeight == Min(network.activationHeight + 1000, 4_294_967_295)
    ensures network.activationHeight > 0 ==> Latest(network).preActivationHeight == network.activationHeight - 1
    ensures network.activationHeight == 0 ==> Latest(network).preActivationHeight == 0
    ensures Latest(network).requiredVersion == network.minRemote(network.activationHeight)
    ensures RecordFields(Latest(network)) ==
            RecordText.Fields(network.activationHeight, Min(network.activationHeight + 1000, 4_294_967_295),
                              network.minRemote(network.activationHeight))
  {
  }

  /** The record this network's build writes and accepts, line by line. */
  ghost predicate ConfirmsNetwork(text: string, network: Network) {
    RecordText.HoldsLines(text, network.activationHeight, Min(network.activationHeight + 1000, 4_294_967_295),
                          network.minRemote(network.activationHeight))
  }

  lemma RecordConfirmsNetwork(network: Network, text: string)
    ensures ConfirmsNetwork(text, network) <==> text == ConfirmationRecord(Latest(network))
  {
    TargetInNumbers(network);
    RecordText.RenderHoldsLines(network.activationHeight, Min(network.activationHeight + 1000, 4_294_967_295),
                                network.minRemote(network.activationHeight), text);
  }

  /** A text confirms a target exactly when it parses to the target's three numbers. */
  lemma MatchIsNumeric(t: Target, record: string)
    ensures MatchesConfirmationRecord(t, record) <==>
            RecordText.Parse(record) == Some(RecordFields(t))
  {
    RecordText.RenderParseRoundTrip(RecordFields(t), record);
  }

  /** Between compiled targets, the record of one confirms the other exactly when the two are the
      same target, and for that the activation height and the version decide: the other two heights
      are functions of the activation height. */
  lemma MatchIsSameTarget(mine: Network, other: Network)
    ensures MatchesConfirmationRecord(Latest(mine), ConfirmationRecord(Latest(other)))
            <==> Latest(mine) == Latest(other)
    ensures Latest(mine) == Latest(other) <==>
            mine.activationHeight == other.activationHeight
            && Latest(mine).requiredVersion == Latest(other).requiredVersion
  {
    RecordText.RenderIsInjective(RecordFields(Latest(mine)), RecordFields(Latest(other)));
  }
}
