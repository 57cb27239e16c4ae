/** Seed zones and the answers they give. */
module RequestHandler {
  import opened Prelude
  import opened Addresses
  import opened AddressCache
  import opened DomainNames
  import opened ZoneConfig

  const SOA_SERIAL: u32 := 1
  const SOA_REFRESH_SECONDS := 3_600
  const SOA_RETRY_SECONDS := 600
  const SOA_EXPIRE_SECONDS := 86_400
  const MAILBOX_LABEL := "hostmaster"

  datatype RData =
    | A(ip: IpAddr)
    | AAAA(ip: IpAddr)
    | NS(nameserver: Name)
    | SOA(mname: Name, rname: Name, serial: u32, refresh: int, retry: int, expire: int, minimum: u32)

  datatype Record = Record(owner: Name, ttl: u32, data: RData)

  datatype ZoneRecords = ZoneRecords(soa: Record, nameservers: seq<Record>)

  /** A served zone. `servablePeers` is what its feed holds when the query is answered. */
  datatype SeedZone = SeedZone(
    network: ZcashNetwork,
    domain: Name,
    records: ZoneRecords,
    ttl: u32,
    servablePeers: ServablePeers)

  // Building a zone

  function NameserverRecord(domain: Name, ttl: u32, nameserver: Name): Record {
    Record(domain, ttl, NS(nameserver))
  }

  /** `ZoneRecords::new`. */
  function ZoneRecordsFor(domain: Name, nameservers: seq<Name>, ttl: u32): ZoneRecords
    requires |nameservers| > 0
  {
    ZoneRecords(
      Record(domain, ttl, SOA(nameservers[0], [MAILBOX_LABEL] + domain, SOA_SERIAL, SOA_REFRESH_SECONDS,
                              SOA_RETRY_SECONDS, SOA_EXPIRE_SECONDS, ttl)),
      seq(|nameservers|, i requires 0 <= i < |nameservers| => NameserverRecord(domain, ttl, nameservers[i])))
  }

  /** These are the names the texts parse to, as far as they go. */
  ghost predicate ParseTo(parse: Parser, texts: seq<string>, names: seq<Name>) {
    |names| <= |texts| && forall i | 0 <= i < |names| :: parse(texts[i]) == Some(names[i])
  }

  /** The nameserver loop of `SeedZone::new`, for the lower-cased domain and all nameservers. */
  method CollectNameservers(parse: Parser, domain: Name, texts: seq<string>)
    returns (result: Result<seq<Name>, ZoneError>)
    ensures match FirstFault(parse, domain, texts, |texts|)
            case Some(error) => result == Err(error)
            case None => result.Ok? && |result.value| == |texts| && ParseTo(parse, texts, result.value)
  {
    var nameserverNames: seq<Name> := [];
    var uniqueNameservers: set<Name> := {};
    for index := 0 to |texts|
      invariant FirstFault(parse, domain, texts, index).None?
      invariant Collects(parse, texts, index, uniqueNameservers)
      invariant |nameserverNames| == index && ParseTo(parse, texts, nameserverNames)
    {
      NextFaultDecides(parse, domain, texts, index);
      var nameserverName := parse(texts[index]);
      if nameserverName.None? {
        return Err(BadNameserver(index));
      }
      CollectedFault(parse, domain, texts, index, uniqueNameservers);
      var nameserverLower := Lower(nameserverName.value);
      if ZoneOf(domain, nameserverLower) {
        return Err(InsideZone(index));
      }
      if nameserverLower in uniqueNameservers {
        return Err(Duplicate(index));
      }
      uniqueNameservers := uniqueNameservers + {nameserverLower};
      nameserverNames := nameserverNames + [nameserverName.value];
    }
    result := Ok(nameserverNames);
  }

  /** `SeedZone::new`. Whether the library accepts the synthesized SOA mailbox is a parameter. */
  method NewSeedZone(parse: Parser, network: ZcashNetwork, zone: ZoneSettings, mailboxIsValid: bool,
                     servablePeers: ServablePeers)
    returns (result: Result<SeedZone, ZoneError>)
    ensures Verdict(parse, zone).Some? ==> result == Err(Verdict(parse, zone).value)
    ensures Verdict(parse, zone).None? && !mailboxIsValid ==> result == Err(BadMailbox)
    ensures Verdict(parse, zone).None? && mailboxIsValid ==>
              && parse(zone.domain).Some?
              && result.Ok?
              && IsBuiltFrom(parse, network, zone, servablePeers, result.value)
    ensures result.Ok? <==> IsAcceptable(parse, zone) && mailboxIsValid
  {
    AcceptedMeansAllGood(parse, zone);
    var parsed := parse(zone.domain);
    if parsed.None? {
      return Err(BadDomain);
    }
    var seedDomain := parsed.value;
    var nameserverNames := CollectNameservers(parse, Lower(seedDomain), NameserverTexts(zone));
    if nameserverNames.Err? {
      return Err(nameserverNames.error);
    }
    if !mailboxIsValid {
      return Err(BadMailbox);
    }
    RecordsFromNames(parse, zone, nameserverNames.value);
    result := Ok(SeedZone(network, Lower(seedDomain),
                          ZoneRecordsFor(seedDomain, nameserverNames.value, zone.ttl),
                          zone.ttl, servablePeers));
  }

  /** Record 0 names the primary, and record k + 1 the additional nameserver k. */
  ghost predicate HasNameservers(parse: Parser, zone: ZoneSettings, nameservers: seq<Record>) {
    var additional := zone.additionalNameservers;
    && parse(zone.domain).Some? && parse(zone.nameserver).Some?
    && |nameservers| == 1 + |additional|
    && nameservers[0] == Record(parse(zone.domain).value, zone.ttl, NS(parse(zone.nameserver).value))
    && forall k | 0 <= k < |additional| ::
         parse(additional[k]).Some?
         && nameservers[k + 1] == Record(parse(zone.domain).value, zone.ttl, NS(parse(additional[k]).value))
  }

  /** The SOA names the primary and the synthesized mailbox, and has the fixed serial and timers. */
  ghost predicate HasSoa(parse: Parser, zone: ZoneSettings, soa: Record) {
    && parse(zone.domain).Some? && parse(zone.nameserver).Some?
    && soa == Record(parse(zone.domain).value, zone.ttl,
                     SOA(parse(zone.nameserver).value, ["hostmaster"] + parse(zone.domain).value,
                         1, 3600, 600, 86400, zone.ttl))
  }

  /** The zone of these settings: its NS set is the primary followed by the additional nameservers in
      order, and the primary is the SOA's MNAME. */
  ghost predicate IsBuiltFrom(parse: Parser, network: ZcashNetwork, zone: ZoneSettings,
                              servablePeers: ServablePeers, built: SeedZone)
  {
    && parse(zone.domain).Some?
    && built.network == network && built.ttl == zone.ttl && built.servablePeers == servablePeers
    && built.domain == Lower(parse(zone.domain).value)
    && HasNameservers(parse, zone, built.records.nameservers)
    && HasSoa(parse, zone, built.records.soa)
  }

  lemma RecordsFromNames(parse: Parser, zone: ZoneSettings, names: seq<Name>)
    requires parse(zone.domain).Some? && |names| == |NameserverTexts(zone)|
    requires ParseTo(parse, NameserverTexts(zone), names)
    ensures var records := ZoneRecordsFor(parse(zone.domain).value, names, zone.ttl);
            HasNameservers(parse, zone, records.nameservers) && HasSoa(parse, zone, records.soa)
  {
    var records, additional :=
      ZoneRecordsFor(parse(zone.domain).value, names, zone.ttl), zone.additionalNameservers;
    assert NameserverTexts(zone)[0] == zone.nameserver;
    forall k | 0 <= k < |additional|
      ensures parse(additional[k]) == Some(names[k + 1])
      ensures records.nameservers[k + 1] == NameserverRecord(parse(zone.domain).value, zone.ttl, names[k + 1])
    {
      assert NameserverTexts(zone)[k + 1] == additional[k];
    }
  }

  predicate IsAddress(r: Record) { r.data.A? || r.data.AAAA? }

  /** The zone's own records are no addresses, and it has a nameserver. */
  ghost predicate IsZoneMetadata(zone: SeedZone) {
    && !IsAddress(zone.records.soa)
    && |zone.records.nameservers| > 0
    && forall r | r in zone.records.nameservers :: !IsAddress(r)
  }

  lemma BuiltZoneHasMetadata(parse: Parser, network: ZcashNetwork, zone: ZoneSettings,
                             servablePeers: ServablePeers, built: SeedZone)
    requires IsBuiltFrom(parse, network, zone, servablePeers, built)
    ensures IsZoneMetadata(built)
  {
    forall i | 0 <= i < |built.records.nameservers| ensures !IsAddress(built.records.nameservers[i]) {
      if i > 0 { assert parse(zone.additionalNameservers[i - 1]).Some?; }
    }
  }

  /** Validation and construction agree: for the same settings they refuse with the same error, and
      what validation accepts is built unless the synthesized mailbox is refused, the one check that
      only construction makes. A nameserver never appears twice in an NS set. */
  method ConfigAndConstructionAgree(parse: Parser, network: ZcashNetwork, zone: ZoneSettings,
                                    mailboxIsValid: bool, servablePeers: ServablePeers)
    returns (validated: Result<Name, ZoneError>, built: Result<SeedZone, ZoneError>)
    ensures built.Ok? <==> validated.Ok? && mailboxIsValid
    ensures validated.Ok? <==> IsAcceptable(parse, zone)
    ensures validated.Err? ==> built == Err(validated.error)
    ensures validated.Ok? && !mailboxIsValid ==> built == Err(BadMailbox)
    ensures built.Ok? ==> built.value.domain == validated.value && IsZoneMetadata(built.value)
    ensures built.Ok? ==>
              forall i, j | 0 <= i < j < |built.value.records.nameservers| ::
                built.value.records.nameservers[i].data.NS? && built.value.records.nameservers[j].data.NS?
                && !EqualUpToCase(built.value.records.nameservers[i].data.nameserver,
                                  built.value.records.nameservers[j].data.nameserver)
  {
    validated := ValidatedDomain(parse, zone);
    built := NewSeedZone(parse, network, zone, mailboxIsValid, servablePeers);
    AcceptedMeansAllTextsGood(parse, zone);
    if built.Ok? {
      BuiltZoneHasMetadata(parse, network, zone, servablePeers, built.value);
      var texts, nameservers := NameserverTexts(zone), built.value.records.nameservers;
      forall i | 0 <= i < |texts|
        ensures parse(texts[i]).Some? && nameservers[i].data == NS(parse(texts[i]).value)
      {
        if i > 0 { assert texts[i] == zone.additionalNameservers[i - 1]; }
      }
      forall i, j | 0 <= i < j < |texts|
        ensures !EqualUpToCase(nameservers[i].data.nameserver, nameservers[j].data.nameserver)
      {
        assert !SameName(parse, texts[i], texts[j]);
      }
    }
  }

  // Answering

  datatype RecordType = TypeA | TypeAAAA | TypeNS | TypeSOA | TypeOther(code: u16)

  datatype ZoneAnswer = NoData | Nameserver | StartOfAuthority | PeerAddresses(peers: seq<PeerAddr>)

  function ResolvePeerAnswer(peers: seq<PeerAddr>): ZoneAnswer {
    if peers == [] then NoData else PeerAddresses(peers)
  }

  /** `resolve_answer`. */
  function ResolveAnswer(counting: LabelCounting, zone: SeedZone, name: Name, recordType: RecordType): ZoneAnswer {
    if NumLabels(counting, name) != NumLabels(counting, zone.domain) then NoData
    else ApexAnswer(zone, recordType)
  }

  function ApexAnswer(zone: SeedZone, recordType: RecordType): ZoneAnswer {
    match recordType
    case TypeA => ResolvePeerAnswer(zone.servablePeers.ipv4)
    case TypeAAAA => ResolvePeerAnswer(zone.servablePeers.ipv6)
    case TypeNS => Nameserver
    case TypeSOA => StartOfAuthority
    case TypeOther(_) => NoData
  }

  datatype ResponseRecords = ResponseRecords(answers: seq<Record>, authorities: seq<Record>)

  function AddressRecord(name: Name, ttl: u32, addr: PeerAddr): Record {
    Record(name, ttl, if addr.ip.V4? then A(addr.ip) else AAAA(addr.ip))
  }

  /** `response_records_for_answer`. */
  function ResponseRecordsFor(zone: SeedZone, name: Name, answer: ZoneAnswer): ResponseRecords {
    match answer
    case NoData => ResponseRecords([], [zone.records.soa])
    case Nameserver => ResponseRecords(zone.records.nameservers, [])
    case StartOfAuthority => ResponseRecords([zone.records.soa], [])
    case PeerAddresses(peers) =>
      ResponseRecords(seq(|peers|, i requires 0 <= i < |peers| => AddressRecord(name, zone.ttl, peers[i])), [])
  }

  function ZoneResponse(counting: LabelCounting, zone: SeedZone, name: Name, recordType: RecordType): ResponseRecords {
    ResponseRecordsFor(zone, name, ResolveAnswer(counting, zone, name, recordType))
  }

  /** The family an address query asks for. */
  function FamilyAsked(zone: SeedZone, recordType: RecordType): seq<PeerAddr> {
    match recordType
    case TypeA => zone.servablePeers.ipv4
    case TypeAAAA => zone.servablePeers.ipv6
    case _ => []
  }

  /** The name is the zone's own, or what the label count mistakes for it. */
  ghost predicate IsApex(counting: LabelCounting, domain: Name, name: Name) {
    || name == domain
    || (counting.WithoutWildcard? && !IsWild(domain) && name == [WILDCARD] + domain)
  }

  /** Exactly the peers, in order, each under the queried name and of the type its address calls for. */
  ghost predicate ArePeerRecords(answers: seq<Record>, zone: SeedZone, name: Name, peers: seq<PeerAddr>) {
    && |answers| == |peers|
    && forall i | 0 <= i < |peers| ::
         answers[i].owner == name && answers[i].ttl == zone.ttl
         && IsAddress(answers[i]) && answers[i].data.ip == peers[i].ip
         && (answers[i].data.A? <==> peers[i].ip.V4?)
  }

  lemma PeerRecords(zone: SeedZone, name: Name, peers: seq<PeerAddr>)
    requires peers != []
    ensures var answers := ResponseRecordsFor(zone, name, PeerAddresses(peers)).answers;
            && ArePeerRecords(answers, zone, name, peers)
            && exists a :: a in answers && IsAddress(a)
  {
    var answers := ResponseRecordsFor(zone, name, PeerAddresses(peers)).answers;
    assert answers[0] in answers && IsAddress(answers[0]);
  }

  /** Address records appear if and only if the name is the apex, an address type is asked and that
      family has peers; then they are exactly that family, in order, under the queried name, each of
      the type its address calls for. */
  lemma AddressAnswers(counting: LabelCounting, zone: SeedZone, name: Name, recordType: RecordType)
    requires ZoneOf(zone.domain, name) && IsZoneMetadata(zone)
    ensures (exists a :: a in ZoneResponse(counting, zone, name, recordType).answers && IsAddress(a))
            <==> IsApex(counting, zone.domain, name) && FamilyAsked(zone, recordType) != []
    ensures IsApex(counting, zone.domain, name) && FamilyAsked(zone, recordType) != [] ==>
              ArePeerRecords(ZoneResponse(counting, zone, name, recordType).answers, zone, name,
                             FamilyAsked(zone, recordType))
  {
    ResolvesAtApexOnly(counting, zone, name, recordType);
    ApexAnswerByType(zone, recordType);
    if FamilyAsked(zone, recordType) != [] {
      PeerRecords(zone, name, FamilyAsked(zone, recordType));
    }
  }

  /** The rest of the partition: the zone's own records at the apex, and otherwise no answer and exactly
      the SOA, which accompanies nothing else. */
  lemma MetadataAnswers(counting: LabelCounting, zone: SeedZone, name: Name, recordType: RecordType)
    requires ZoneOf(zone.domain, name) && IsZoneMetadata(zone)
    ensures IsApex(counting, zone.domain, name) && recordType.TypeNS? ==>
              ZoneResponse(counting, zone, name, recordType) == ResponseRecords(zone.records.nameservers, [])
    ensures IsApex(counting, zone.domain, name) && recordType.TypeSOA? ==>
              ZoneResponse(counting, zone, name, recordType) == ResponseRecords([zone.records.soa], [])
    ensures ZoneResponse(counting, zone, name, recordType).answers == [] <==>
            || !IsApex(counting, zone.domain, name)
            || (FamilyAsked(zone, recordType) == [] && !recordType.TypeNS? && !recordType.TypeSOA?)
    ensures ZoneResponse(counting, zone, name, recordType).authorities ==
            if ZoneResponse(counting, zone, name, recordType).answers == [] then [zone.records.soa] else []
  {
    ResolvesAtApexOnly(counting, zone, name, recordType);
    ApexAnswerByType(zone, recordType);
    if FamilyAsked(zone, recordType) != [] {
      PeerRecords(zone, name, FamilyAsked(zone, recordType));
    }
  }

  lemma ResolvesAtApexOnly(counting: LabelCounting, zone: SeedZone, name: Name, recordType: RecordType)
    requires ZoneOf(zone.domain, name)
    ensures ResolveAnswer(counting, zone, name, recordType) ==
            if IsApex(counting, zone.domain, name) then ApexAnswer(zone, recordType) else NoData
  {
    EqualCountIsApex(counting, zone.domain, name);
  }

  lemma ApexAnswerByType(zone: SeedZone, recordType: RecordType)
    ensures ApexAnswer(zone, recordType) ==
            if FamilyAsked(zone, recordType) != [] then PeerAddresses(FamilyAsked(zone, recordType))
            else if recordType.TypeNS? then Nameserver
            else if recordType.TypeSOA? then StartOfAuthority
            else NoData
  {
  }

  // The handler

  datatype Query = Query(name: Name, recordType: RecordType)

  datatype ResponseCode = NoError | Refused

  datatype Response = Response(authoritative: bool, code: ResponseCode, records: ResponseRecords)

  datatype Metadata = Metadata(authoritative: bool, code: ResponseCode)

  function DomainsOfZones(zones: seq<SeedZone>): seq<Name> {
    seq(|zones|, i requires 0 <= i < |zones| => zones[i].domain)
  }

  /** The response to one query by a handler that is not limiting its client. */
  function ResponseTo(counting: LabelCounting, zones: seq<SeedZone>, query: Query): Response {
    var name := Lower(query.name);
    match MatchingZone(counting, DomainsOfZones(zones), name)
    case None => Response(true, Refused, ResponseRecords([], []))
    case Some(i) => Response(true, NoError, ZoneResponse(counting, zones[i], name, query.recordType))
  }

  ghost predicate IsServed(zones: seq<SeedZone>, name: Name) {
    exists i :: 0 <= i < |zones| && ZoneOf(zones[i].domain, name)
  }

  /** The zone has addresses to give for this query. */
  ghost predicate HasAddresses(counting: LabelCounting, zone: SeedZone, name: Name, recordType: RecordType) {
    IsApex(counting, zone.domain, name) && FamilyAsked(zone, recordType) != []
  }

  ghost predicate AreHandlerZones(zones: seq<SeedZone>) {
    && AreDisjoint(DomainsOfZones(zones))
    && forall i | 0 <= i < |zones| :: IsZoneMetadata(zones[i])
  }

  /** The partition of all queries, said of the response alone: always authoritative; refused, without
      any record, exactly when no zone contains the name; addresses exactly when some zone has them for
      this query, and then they are that family's; the zone's NS set or SOA for those types at its apex;
      and for everything else inside a zone no answer and that zone's SOA alone. */
  ghost predicate Partitions(counting: LabelCounting, zones: seq<SeedZone>, query: Query, response: Response) {
    var name, answers := Lower(query.name), response.records.answers;
    && response.authoritative
    && (response.code == Refused <==> !IsServed(zones, name))
    && (response.code == Refused ==> response.records == ResponseRecords([], []))
    && ((exists a :: a in answers && IsAddress(a)) <==>
        exists i :: 0 <= i < |zones| && HasAddresses(counting, zones[i], name, query.recordType))
    && forall i | 0 <= i < |zones| && ZoneOf(zones[i].domain, name) ::
         PartitionsInZone(counting, zones[i], name, query.recordType, response.records)
  }

  ghost predicate PartitionsInZone(
      counting: LabelCounting, zone: SeedZone, name: Name, recordType: RecordType, records: ResponseRecords)
  {
    if HasAddresses(counting, zone, name, recordType)
    then ArePeerRecords(records.answers, zone, name, FamilyAsked(zone, recordType)) && records.authorities == []
    else if IsApex(counting, zone.domain, name) && recordType.TypeNS?
    then records == ResponseRecords(zone.records.nameservers, [])
    else if IsApex(counting, zone.domain, name) && recordType.TypeSOA?
    then records == ResponseRecords([zone.records.soa], [])
    else records == ResponseRecords([], [zone.records.soa])
  }

  lemma ApexLiesInZone(counting: LabelCounting, domain: Name, name: Name)
    requires IsApex(counting, domain, name)
    ensures ZoneOf(domain, name)
  {
  }

  lemma ZonePartition(counting: LabelCounting, zone: SeedZone, name: Name, recordType: RecordType)
    requires ZoneOf(zone.domain, name) && IsZoneMetadata(zone)
    ensures PartitionsInZone(counting, zone, name, recordType, ZoneResponse(counting, zone, name, recordType))
  {
    AddressAnswers(counting, zone, name, recordType);
    MetadataAnswers(counting, zone, name, recordType);
  }

  /** With disjoint zones the responses partition all queries, whatever the name and the type. When all
      labels are counted, addresses are given exactly for an A query of a zone's own name with IPv4 peers
      or an AAAA query of one with IPv6 peers. */
  lemma AnswerPartition(counting: LabelCounting, zones: seq<SeedZone>, query: Query)
    requires AreHandlerZones(zones)
    ensures Partitions(counting, zones, query, ResponseTo(counting, zones, query))
    ensures counting.Plain? ==>
              ((exists a :: a in ResponseTo(counting, zones, query).records.answers && IsAddress(a)) <==>
               exists i :: 0 <= i < |zones| && zones[i].domain == Lower(query.name)
                           && ((query.recordType.TypeA? && zones[i].servablePeers.ipv4 != [])
                               || (query.recordType.TypeAAAA? && zones[i].servablePeers.ipv6 != [])))
  {
    PartitionOfQueries(counting, zones, query);
    if counting.Plain? {
      forall i | 0 <= i < |zones|
        ensures HasAddresses(counting, zones[i], Lower(query.name), query.recordType) <==>
                zones[i].domain == Lower(query.name)
                && ((query.recordType.TypeA? && zones[i].servablePeers.ipv4 != [])
                    || (query.recordType.TypeAAAA? && zones[i].servablePeers.ipv6 != []))
      {
      }
    }
  }

  lemma PartitionOfQueries(counting: LabelCounting, zones: seq<SeedZone>, query: Query)
    requires AreHandlerZones(zones)
    ensures Partitions(counting, zones, query, ResponseTo(counting, zones, query))
  {
    var name, domains := Lower(query.name), DomainsOfZones(zones);
    assert IsRoute(counting, domains, name, MatchingZone(counting, domains, name));
    forall i | 0 <= i < |zones|
      ensures ZoneOf(zones[i].domain, name) <==> MatchingZone(counting, domains, name) == Some(i)
      ensures HasAddresses(counting, zones[i], name, query.recordType) ==> ZoneOf(zones[i].domain, name)
    {
      assert domains[i] == zones[i].domain;
      OnlyZoneIsRoute(counting, domains, name, i);
      if HasAddresses(counting, zones[i], name, query.recordType) {
        ApexLiesInZone(counting, zones[i].domain, name);
      }
    }
    if IsServed(zones, name) {
      var i :| 0 <= i < |zones| && ZoneOf(zones[i].domain, name);
      ZonePartition(counting, zones[i], name, query.recordType);
      AddressAnswers(counting, zones[i], name, query.recordType);
    }
  }

  /** The case of a query's letters has no influence on anything in the response. */
  lemma ResponseIgnoresCase(counting: LabelCounting, zones: seq<SeedZone>, query: Query, name: Name)
    requires EqualUpToCase(query.name, name)
    ensures ResponseTo(counting, zones, query) == ResponseTo(counting, zones, query.(name := name))
  {
    LowerForgetsCase(query.name, name);
  }

  /** `answer_request`: nothing at all for a limited client; otherwise the first query is answered,
      and with disjoint zones the responses partition the queries. */
  method AnswerRequest(counting: LabelCounting, zones: seq<SeedZone>, limiterAllows: bool, queries: seq<Query>)
    returns (response: Option<Response>)
    ensures response.None? <==> !limiterAllows
    ensures response.Some? ==> response.value.authoritative
    ensures limiterAllows && queries == [] ==>
              response == Some(Response(true, NoError, ResponseRecords([], [])))
    ensures limiterAllows && queries != [] && AreHandlerZones(zones) ==>
              Partitions(counting, zones, queries[0], response.value)
    ensures limiterAllows && queries != [] ==> response == Some(ResponseTo(counting, zones, queries[0]))
  {
    if queries != [] && AreHandlerZones(zones) {
      AnswerPartition(counting, zones, queries[0]);
    }
    var metadata := Metadata(true, NoError);
    if !limiterAllows {
      return None;
    }
    var records := ResponseRecords([], []);
    if |queries| > 0 {
      var query := queries[0];
      var name := Lower(query.name);
      match MatchingZone(counting, DomainsOfZones(zones), name) {
        case None => metadata := metadata.(code := Refused);
        case Some(i) =>
          var answer := ResolveAnswer(counting, zones[i], name, query.recordType);
          records := ResponseRecordsFor(zones[i], name, answer);
      }
    }
    response := Some(Response(metadata.authoritative, metadata.code, records));
  }
}
