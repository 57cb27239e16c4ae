/** The three components together: what a DNS client is told, traced back to the book, the tip and the
    record behind it. */
module ServedAnswers {
  import opened Prelude
  import opened Addresses
  import opened AddressCache
  import opened DomainNames
  import opened ZoneConfig
  import opened RequestHandler
  import opened SeederRun
  import Observer = ActivationProtocol
  import Cache = CacheRefresh

  /** With disjoint zones a query inside a zone is answered by that zone, authoritatively. */
  lemma RoutedResponse(counting: LabelCounting, zones: seq<SeedZone>, query: Query, j: nat)
    requires AreHandlerZones(zones) && j < |zones| && ZoneOf(zones[j].domain, Lower(query.name))
    ensures ResponseTo(counting, zones, query) ==
            Response(true, NoError, ZoneResponse(counting, zones[j], Lower(query.name), query.recordType))
  {
    OnlyZoneIsRoute(counting, DomainsOfZones(zones), Lower(query.name), j);
  }

  /** For any state of any interleaving of refreshes and confirmations: an address query answered from
      that state's feed gets an authoritative response with records of its own type only, at most 25 of
      them, each for a peer that met every condition of being served at the floor of the tip that the
      refresh had read. */
  lemma ServedAddressesAreVouched(
      states: seq<Cache.State>, events: seq<Cache.Event>, i: nat,
      counting: LabelCounting, zones: seq<SeedZone>, j: nat, query: Query)
    requires Cache.IsRun(states, events) && i <= |events|
    requires query.recordType.TypeA? || query.recordType.TypeAAAA?
    requires AreHandlerZones(zones) && j < |zones| && ZoneOf(zones[j].domain, Lower(query.name))
    requires zones[j].servablePeers == Cache.FeedAt(states, events, i)
    ensures var response := ResponseTo(counting, zones, query);
            var answers := response.records.answers;
            && response.authoritative
            && |answers| <= 25
            && forall k | 0 <= k < |answers| ::
                 && (if query.recordType.TypeA? then answers[k].data.A? else answers[k].data.AAAA?)
                 && states[i].published.Some?
                 && exists a: PeerAddr :: a.ip == answers[k].data.ip
                                && Cache.IsVouched(states[i].network, states[i].published.value,
                                                   query.recordType.TypeA?, a)
  {
    RoutedResponse(counting, zones, query, j);
    ZoneAddressesAreVouched(states, events, i, counting, zones[j], Lower(query.name), query.recordType);
  }

  lemma ZoneAddressesAreVouched(
      states: seq<Cache.State>, events: seq<Cache.Event>, i: nat,
      counting: LabelCounting, zone: SeedZone, name: Name, recordType: RecordType)
    requires Cache.IsRun(states, events) && i <= |events|
    requires recordType.TypeA? || recordType.TypeAAAA?
    requires ZoneOf(zone.domain, name) && IsZoneMetadata(zone)
    requires zone.servablePeers == Cache.FeedAt(states, events, i)
    ensures var answers := ZoneResponse(counting, zone, name, recordType).answers;
            && |answers| <= 25
            && forall k | 0 <= k < |answers| ::
                 && (if recordType.TypeA? then answers[k].data.A? else answers[k].data.AAAA?)
                 && states[i].published.Some?
                 && exists a: PeerAddr :: a.ip == answers[k].data.ip
                                && Cache.IsVouched(states[i].network, states[i].published.value,
                                                   recordType.TypeA?, a)
  {
    var answers := ZoneResponse(counting, zone, name, recordType).answers;
    var peers := FamilyAsked(zone, recordType);
    Cache.AnswersAreVouched(states, events, i, recordType.TypeA?);
    AddressAnswers(counting, zone, name, recordType);
    MetadataAnswers(counting, zone, name, recordType);
    if answers != [] {
      forall k | 0 <= k < |answers|
        ensures (if recordType.TypeA? then answers[k].data.A? else answers[k].data.AAAA?)
        ensures states[i].published.Some?
        ensures exists a: PeerAddr :: a.ip == answers[k].data.ip
                            && Cache.IsVouched(states[i].network, states[i].published.value,
                                               recordType.TypeA?, a)
      {
        assert peers[k] in Cache.Answer(states[i], recordType.TypeA?);
        assert peers[k].ip == answers[k].data.ip;
      }
    }
  }

  /** Every address record of a zone is for a peer of one of the zone's two families. */
  lemma AddressRecordsComeFromFeed(
      counting: LabelCounting, zone: SeedZone, name: Name, recordType: RecordType, r: Record)
    returns (a: PeerAddr)
    requires ZoneOf(zone.domain, name) && IsZoneMetadata(zone)
    requires r in ZoneResponse(counting, zone, name, recordType).answers && IsAddress(r)
    ensures a.ip == r.data.ip && (a in zone.servablePeers.ipv4 || a in zone.servablePeers.ipv6)
  {
    AddressAnswers(counting, zone, name, recordType);
    var answers, peers := ZoneResponse(counting, zone, name, recordType).answers, FamilyAsked(zone, recordType);
    var k :| 0 <= k < |answers| && answers[k] == r;
    a := peers[k];
    assert a in peers;
  }

  /** A raise, seen by a DNS client: from the second publication after it on, every response of the zone
      is authoritative and every address in it belongs to a peer that met the target version when its
      book was locked; and the record behind the raise was durable before the tip rose. */
  lemma RaiseReachesClients(
      states: seq<State>, events: seq<Event>, raise: nat, first: nat, second: nat, i: nat,
      counting: LabelCounting, zones: seq<SeedZone>, j: nat, query: Query)
    requires IsRun(states, events) && raise < first < second < i <= |events|
    requires events[raise] == ObserverStep(Observer.Raise) && LivesThrough(events, raise, i)
    requires events[first] == CacheStep(Cache.Publish) && events[second] == CacheStep(Cache.Publish)
    requires states[raise].observer.network.activationHeight > 0
    requires AreHandlerZones(zones) && j < |zones| && ZoneOf(zones[j].domain, Lower(query.name))
    requires states[i].observer.process.Alive? && zones[j].servablePeers == Feed(states, events, i)
    ensures HasRecordBehind(states, events, i)
    ensures var response := ResponseTo(counting, zones, query);
            && response.authoritative
            && forall r | r in response.records.answers && IsAddress(r) ::
                 exists a: PeerAddr :: a.ip == r.data.ip && MetTarget(states[i], a)
  {
    RaisedSnapshotIsServed(states, events, raise, first, second, i);
    RoutedResponse(counting, zones, query, j);
    var name := Lower(query.name);
    forall r | r in ZoneResponse(counting, zones[j], name, query.recordType).answers && IsAddress(r)
      ensures exists a: PeerAddr :: a.ip == r.data.ip && MetTarget(states[i], a)
    {
      var a := AddressRecordsComeFromFeed(counting, zones[j], name, query.recordType, r);
      RaiseReachesAnswers(states, events, raise, first, second, i, a);
    }
  }

  // Configured zones

  /** The zones built from settings with disjoint domains, which `Validate` ensures. */
  ghost predicate AreConfigured(parse: Parser, settings: Settings, zones: seq<SeedZone>) {
    && AreDisjoint(DomainsOf(parse, settings)) && |zones| == |settings.zones|
    && forall k | 0 <= k < |zones| ::
         IsBuiltFrom(parse, settings.zones[k].0, settings.zones[k].1, zones[k].servablePeers, zones[k])
  }

  lemma ConfiguredZonesAreHandlerZones(parse: Parser, settings: Settings, zones: seq<SeedZone>)
    requires AreConfigured(parse, settings, zones)
    ensures AreHandlerZones(zones)
  {
    forall k | 0 <= k < |zones|
      ensures DomainsOfZones(zones)[k] == DomainsOf(parse, settings)[k] && IsZoneMetadata(zones[k])
    {
      BuiltZoneHasMetadata(parse, settings.zones[k].0, settings.zones[k].1, zones[k].servablePeers, zones[k]);
    }
    assert DomainsOfZones(zones) == DomainsOf(parse, settings);
  }

  /** What `Validate` promises of the settings, carried to the zones `NewSeedZone` builds from them and
      to every query: a name is routed to the one zone containing it, and the responses partition the
      queries. */
  lemma ConfiguredZonesPartition(
      parse: Parser, settings: Settings, zones: seq<SeedZone>, counting: LabelCounting, query: Query)
    requires AreConfigured(parse, settings, zones)
    ensures Partitions(counting, zones, query, ResponseTo(counting, zones, query))
    ensures forall j | 0 <= j < |zones| ::
              ZoneOf(zones[j].domain, Lower(query.name)) <==>
              MatchingZone(counting, DomainsOfZones(zones), Lower(query.name)) == Some(j)
  {
    ConfiguredZonesAreHandlerZones(parse, settings, zones);
    AnswerPartition(counting, zones, query);
    forall j | 0 <= j < |zones|
      ensures ZoneOf(zones[j].domain, Lower(query.name)) <==>
              MatchingZone(counting, DomainsOfZones(zones), Lower(query.name)) == Some(j)
    {
      OnlyZoneIsRoute(counting, DomainsOfZones(zones), Lower(query.name), j);
    }
  }
}
