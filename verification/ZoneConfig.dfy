/** Validation of the configured zones. The DNS library's name parser is not part of this model: it is
    the parameter `parse`, and both places that parse a name use the same one. */
module ZoneConfig {
  import opened Prelude
  import opened DomainNames

  datatype ZcashNetwork = Mainnet | Testnet

  datatype ZoneSettings = ZoneSettings(
    domain: string,
    nameserver: string,
    additionalNameservers: seq<string>,
    ttl: u32)

  type Parser = string -> Option<Name>

  /** Why a zone is refused; the index is 0 for the primary nameserver and k + 1 for the additional
      nameserver k. */
  datatype ZoneError =
    | BadDomain
    | BadNameserver(index: nat)
    | InsideZone(index: nat)
    | Duplicate(index: nat)
    | BadMailbox

  function NameserverTexts(zone: ZoneSettings): seq<string> {
    [zone.nameserver] + zone.additionalNameservers
  }

  // What is wrong with a list of nameservers

  predicate SameName(parse: Parser, a: string, b: string) {
    && parse(a).Some? && parse(b).Some?
    && Lower(parse(a).value) == Lower(parse(b).value)
  }

  /** What is wrong with nameserver `i`, looking back only. */
  ghost function Fault(parse: Parser, domain: Name, texts: seq<string>, i: nat): Option<ZoneError>
    requires i < |texts|
  {
    if parse(texts[i]).None? then Some(BadNameserver(i))
    else if ZoneOf(domain, Lower(parse(texts[i]).value)) then Some(InsideZone(i))
    else if exists j :: 0 <= j < i && SameName(parse, texts[j], texts[i]) then Some(Duplicate(i))
    else None
  }

  /** The fault of the first faulty nameserver among the first `n`. */
  ghost function FirstFault(parse: Parser, domain: Name, texts: seq<string>, n: nat): Option<ZoneError>
    requires n <= |texts|
  {
    if n == 0 then None
    else
      var earlier := FirstFault(parse, domain, texts, n - 1);
      if earlier.Some? then earlier else Fault(parse, domain, texts, n - 1)
  }

  /** The verdict on a zone: nothing, or the first thing wrong with it. */
  ghost function Verdict(parse: Parser, zone: ZoneSettings): Option<ZoneError> {
    match parse(zone.domain)
    case None => Some(BadDomain)
    case Some(domain) =>
      var texts := NameserverTexts(zone);
      FirstFault(parse, Lower(domain), texts, |texts|)
  }

  lemma {:induction false} FirstFaultIsFirst(parse: Parser, domain: Name, texts: seq<string>, n: nat)
    requires n <= |texts|
    ensures FirstFault(parse, domain, texts, n).None? <==>
            forall i | 0 <= i < n :: Fault(parse, domain, texts, i).None?
    ensures FirstFault(parse, domain, texts, n).Some? ==>
              exists i :: 0 <= i < n && FirstFault(parse, domain, texts, n) == Fault(parse, domain, texts, i)
                          && forall j | 0 <= j < i :: Fault(parse, domain, texts, j).None?
  {
    if n > 0 {
      FirstFaultIsFirst(parse, domain, texts, n - 1);
    }
  }

  /** The same over the list of all nameservers. */
  lemma AcceptedMeansAllTextsGood(parse: Parser, zone: ZoneSettings)
    ensures Verdict(parse, zone).None? <==>
            && parse(zone.domain).Some?
            && (forall i | 0 <= i < |NameserverTexts(zone)| ::
                  parse(NameserverTexts(zone)[i]).Some?
                  && !ZoneOf(Lower(parse(zone.domain).value), Lower(parse(NameserverTexts(zone)[i]).value)))
            && (forall i, j | 0 <= i < j < |NameserverTexts(zone)| ::
                  !SameName(parse, NameserverTexts(zone)[i], NameserverTexts(zone)[j]))
  {
    if parse(zone.domain).Some? {
      var domain, texts := Lower(parse(zone.domain).value), NameserverTexts(zone);
      FirstFaultIsFirst(parse, domain, texts, |texts|);
      if Verdict(parse, zone).None? {
        forall i | 0 <= i < |texts|
          ensures parse(texts[i]).Some? && !ZoneOf(domain, Lower(parse(texts[i]).value))
        {
          assert Fault(parse, domain, texts, i).None?;
        }
        forall i, j | 0 <= i < j < |texts| ensures !SameName(parse, texts[i], texts[j]) {
          assert Fault(parse, domain, texts, j).None?;
        }
      } else {
        var i :| 0 <= i < |texts| && Fault(parse, domain, texts, i).Some?;
      }
    }
  }

  /** The text parses to a name outside the zone. */
  ghost predicate IsOutside(parse: Parser, zone: ZoneSettings, text: string) {
    && parse(zone.domain).Some? && parse(text).Some?
    && !ZoneOf(Lower(parse(zone.domain).value), Lower(parse(text).value))
  }

  /** Two texts that name the same host, up to case. */
  ghost predicate NameTheSame(parse: Parser, a: string, b: string) {
    parse(a).Some? && parse(b).Some? && EqualUpToCase(parse(a).value, parse(b).value)
  }

  /** The domain parses; the primary and every additional nameserver parse, lie outside the zone, and are
      pairwise different up to case. */
  ghost predicate IsAcceptable(parse: Parser, zone: ZoneSettings) {
    var additional := zone.additionalNameservers;
    && IsOutside(parse, zone, zone.nameserver)
    && (forall k | 0 <= k < |additional| :: IsOutside(parse, zone, additional[k]))
    && (forall k | 0 <= k < |additional| :: !NameTheSame(parse, zone.nameserver, additional[k]))
    && forall k, l | 0 <= k < l < |additional| :: !NameTheSame(parse, additional[k], additional[l])
  }

  lemma SameNameIff(parse: Parser, a: string, b: string)
    ensures SameName(parse, a, b) <==> NameTheSame(parse, a, b)
  {
    if parse(a).Some? && parse(b).Some? {
      LowerForgetsCase(parse(a).value, parse(b).value);
    }
  }

  lemma AcceptedIsAcceptable(parse: Parser, zone: ZoneSettings)
    requires Verdict(parse, zone).None?
    ensures IsAcceptable(parse, zone)
  {
    AcceptedMeansAllTextsGood(parse, zone);
    var texts, additional := NameserverTexts(zone), zone.additionalNameservers;
    assert texts[0] == zone.nameserver;
    forall k | 0 <= k < |additional|
      ensures IsOutside(parse, zone, additional[k]) && !NameTheSame(parse, zone.nameserver, additional[k])
    {
      assert texts[k + 1] == additional[k];
      SameNameIff(parse, zone.nameserver, additional[k]);
    }
    forall k, l | 0 <= k < l < |additional| ensures !NameTheSame(parse, additional[k], additional[l]) {
      assert texts[k + 1] == additional[k] && texts[l + 1] == additional[l];
      SameNameIff(parse, additional[k], additional[l]);
    }
  }

  lemma AcceptableIsAccepted(parse: Parser, zone: ZoneSettings)
    requires IsAcceptable(parse, zone)
    ensures Verdict(parse, zone).None?
  {
    AcceptedMeansAllTextsGood(parse, zone);
    var texts, additional := NameserverTexts(zone), zone.additionalNameservers;
    forall i | 0 <= i < |texts| ensures IsOutside(parse, zone, texts[i]) {
      if i > 0 { assert texts[i] == additional[i - 1]; }
    }
    forall i, j | 0 <= i < j < |texts| ensures !SameName(parse, texts[i], texts[j]) {
      SameNameIff(parse, texts[i], texts[j]);
      assert texts[j] == additional[j - 1];
      if i > 0 { assert texts[i] == additional[i - 1]; }
    }
  }

  /** A zone is accepted exactly when its settings, each by each, are good. */
  lemma AcceptedMeansAllGood(parse: Parser, zone: ZoneSettings)
    ensures Verdict(parse, zone).None? <==> IsAcceptable(parse, zone)
  {
    if Verdict(parse, zone).None? {
      AcceptedIsAcceptable(parse, zone);
    } else if IsAcceptable(parse, zone) {
      AcceptableIsAccepted(parse, zone);
    }
  }

  /** Nameserver 0 is the primary, and nameserver k + 1 the additional nameserver k. */
  function NameserverAt(zone: ZoneSettings, i: nat): string
    requires i <= |zone.additionalNameservers|
  {
    if i == 0 then zone.nameserver else zone.additionalNameservers[i - 1]
  }

  /** The error is true of the nameserver it names. */
  ghost predicate IsCulprit(parse: Parser, zone: ZoneSettings, error: ZoneError) {
    match error
    case BadDomain => parse(zone.domain).None?
    case BadNameserver(i) => i <= |zone.additionalNameservers| && parse(NameserverAt(zone, i)).None?
    case InsideZone(i) =>
      && i <= |zone.additionalNameservers| && parse(zone.domain).Some? && parse(NameserverAt(zone, i)).Some?
      && !IsOutside(parse, zone, NameserverAt(zone, i))
    case Duplicate(i) =>
      && i <= |zone.additionalNameservers|
      && exists j :: 0 <= j < i && NameTheSame(parse, NameserverAt(zone, j), NameserverAt(zone, i))
    case BadMailbox => false
  }

  /** A refusal names a culprit. */
  lemma VerdictNamesCulprit(parse: Parser, zone: ZoneSettings)
    requires Verdict(parse, zone).Some?
    ensures IsCulprit(parse, zone, Verdict(parse, zone).value)
  {
    if parse(zone.domain).Some? {
      var domain, texts := Lower(parse(zone.domain).value), NameserverTexts(zone);
      FirstFaultIsFirst(parse, domain, texts, |texts|);
      var i :| 0 <= i < |texts| && Verdict(parse, zone) == Fault(parse, domain, texts, i);
      assert texts[i] == NameserverAt(zone, i);
      if Fault(parse, domain, texts, i).value.Duplicate? {
        var j :| 0 <= j < i && SameName(parse, texts[j], texts[i]);
        SameNameIff(parse, texts[j], texts[i]);
        assert texts[j] == NameserverAt(zone, j);
      }
    }
  }

  /** The root domain contains every name, so no configuration can serve it. */
  lemma RootIsNeverAccepted(parse: Parser, zone: ZoneSettings)
    requires parse(zone.domain) == Some([])
    ensures Verdict(parse, zone).Some?
  {
    AcceptedMeansAllTextsGood(parse, zone);
    if parse(zone.nameserver).Some? {
      var primary := Lower(parse(zone.nameserver).value);
      assert NameserverTexts(zone)[0] == zone.nameserver;
      assert Lower([]) == [] && primary[|primary|..] == [];
      assert ZoneOf(Lower([]), primary);
    }
  }

  // The validating code

  /** The lower-cased names of the first `n` nameservers. */
  ghost function NamesOf(parse: Parser, texts: seq<string>, n: nat): set<Name>
    requires n <= |texts|
  {
    if n == 0 then {}
    else
      NamesOf(parse, texts, n - 1)
      + match parse(texts[n - 1])
        case None => {}
        case Some(name) => {Lower(name)}
  }

  ghost predicate Collects(parse: Parser, texts: seq<string>, n: nat, names: set<Name>)
    requires n <= |texts|
  {
    names == NamesOf(parse, texts, n)
  }

  lemma {:induction false} NamesOfMember(parse: Parser, texts: seq<string>, n: nat, name: Name)
    requires n <= |texts|
    ensures name in NamesOf(parse, texts, n) <==>
            exists i :: 0 <= i < n && parse(texts[i]).Some? && Lower(parse(texts[i]).value) == name
  {
    if n > 0 {
      NamesOfMember(parse, texts, n - 1, name);
    }
  }

  /** `validate_nameserver`, with the set it inserts into. Given the set of all earlier names, it finds
      exactly the fault of this nameserver, and leaves the set of all names up to this one. */
  method ValidateNameserver(domain: Name, nameservers: set<Name>, index: nat, nameserver: Name,
                            ghost parse: Parser, ghost texts: seq<string>)
    returns (error: Option<ZoneError>, updated: set<Name>)
    requires index < |texts| && parse(texts[index]) == Some(nameserver)
    ensures Collects(parse, texts, index, nameservers) ==>
              && error == Fault(parse, Lower(domain), texts, index)
              && (error.None? ==> Collects(parse, texts, index + 1, updated))
    ensures error.None? <==> !ZoneOf(Lower(domain), Lower(nameserver)) && Lower(nameserver) !in nameservers
    ensures updated == if error.None? then nameservers + {Lower(nameserver)} else nameservers
  {
    if Collects(parse, texts, index, nameservers) {
      CollectedFault(parse, Lower(domain), texts, index, nameservers);
    }
    updated := nameservers;
    if ZoneOf(Lower(domain), Lower(nameserver)) {
      return Some(InsideZone(index)), updated;
    }
    if Lower(nameserver) in nameservers {
      return Some(Duplicate(index)), updated;
    }
    updated := nameservers + {Lower(nameserver)};
    error := None;
  }

  /** `ZoneConfig::validated_domain`. */
  method ValidatedDomain(parse: Parser, zone: ZoneSettings) returns (result: Result<Name, ZoneError>)
    ensures match Verdict(parse, zone)
            case Some(error) => result == Err(error)
            case None => parse(zone.domain).Some? && result == Ok(Lower(parse(zone.domain).value))
    ensures result.Ok? == IsAcceptable(parse, zone)
  {
    AcceptedMeansAllGood(parse, zone);
    var parsed := parse(zone.domain);
    if parsed.None? {
      return Err(BadDomain);
    }
    var domain := parsed.value;
    var primary := parse(zone.nameserver);
    ghost var texts := NameserverTexts(zone);
    var nameservers: set<Name> := {};
    var error: Option<ZoneError>;
    FaultDecides(parse, zone, 0);
    if primary.None? {
      return Err(BadNameserver(0));
    }
    error, nameservers := ValidateNameserver(domain, nameservers, 0, primary.value, parse, texts);
    if error.Some? {
      return Err(error.value);
    }
    for index := 0 to |zone.additionalNameservers|
      invariant FirstFault(parse, Lower(domain), texts, index + 1).None?
      invariant Collects(parse, texts, index + 1, nameservers)
    {
      FaultDecides(parse, zone, index + 1);
      var nameserver := parse(zone.additionalNameservers[index]);
      if nameserver.None? {
        return Err(BadNameserver(index + 1));
      }
      error, nameservers := ValidateNameserver(domain, nameservers, index + 1, nameserver.value, parse, texts);
      if error.Some? {
        return Err(error.value);
      }
    }
    result := Ok(Lower(domain));
  }

  /** When the nameservers before it are good, the next one is, or its fault is the first. */
  lemma NextFaultDecides(parse: Parser, domain: Name, texts: seq<string>, n: nat)
    requires n < |texts| && FirstFault(parse, domain, texts, n).None?
    ensures var fault := Fault(parse, domain, texts, n);
            if fault.None? then FirstFault(parse, domain, texts, n + 1).None?
            else FirstFault(parse, domain, texts, |texts|) == fault
  {
    if FirstFault(parse, domain, texts, n + 1).Some? {
      FaultStands(parse, domain, texts, n + 1);
    }
  }

  lemma FaultDecides(parse: Parser, zone: ZoneSettings, n: nat)
    requires parse(zone.domain).Some? && n < |NameserverTexts(zone)|
    requires FirstFault(parse, Lower(parse(zone.domain).value), NameserverTexts(zone), n).None?
    ensures var domain, texts := Lower(parse(zone.domain).value), NameserverTexts(zone);
            var fault := Fault(parse, domain, texts, n);
            if fault.None? then FirstFault(parse, domain, texts, n + 1).None? else Verdict(parse, zone) == fault
  {
    NextFaultDecides(parse, Lower(parse(zone.domain).value), NameserverTexts(zone), n);
  }

  /** The first fault found decides the verdict; later nameservers are not looked at. */
  lemma {:induction false} FaultStands(parse: Parser, domain: Name, texts: seq<string>, n: nat)
    requires n <= |texts| && FirstFault(parse, domain, texts, n).Some?
    ensures FirstFault(parse, domain, texts, |texts|) == FirstFault(parse, domain, texts, n)
    decreases |texts| - n
  {
    if n < |texts| {
      FaultStands(parse, domain, texts, n + 1);
    }
  }

  lemma CollectedFault(parse: Parser, domain: Name, texts: seq<string>, n: nat, names: set<Name>)
    requires n < |texts| && parse(texts[n]).Some? && Collects(parse, texts, n, names)
    ensures Fault(parse, domain, texts, n) ==
            if ZoneOf(domain, Lower(parse(texts[n]).value)) then Some(InsideZone(n))
            else if Lower(parse(texts[n]).value) in names then Some(Duplicate(n)) else None
    ensures Collects(parse, texts, n + 1, names + {Lower(parse(texts[n]).value)})
  {
    var name := Lower(parse(texts[n]).value);
    NamesOfMember(parse, texts, n, name);
    if name in names {
      var i :| 0 <= i < n && parse(texts[i]).Some? && Lower(parse(texts[i]).value) == name;
      assert SameName(parse, texts[i], texts[n]);
    }
  }

  predicate Overlaps(a: Name, b: Name) { ZoneOf(a, b) || ZoneOf(b, a) }

  /** `ensure_zones_are_disjoint`: the first overlapping pair in the order of the scan, or none. */
  method EnsureZonesAreDisjoint(domains: seq<Name>) returns (overlap: Option<(nat, nat)>)
    ensures overlap.None? <==> AreDisjoint(domains)
    ensures overlap.Some? ==>
              var (i, j) := overlap.value;
              && i < j < |domains| && Overlaps(domains[i], domains[j])
              && (forall a, b | 0 <= a < i && a < b < |domains| :: !Overlaps(domains[a], domains[b]))
              && (forall b | i < b < j :: !Overlaps(domains[i], domains[b]))
  {
    for i := 0 to |domains|
      invariant forall a, b | 0 <= a < i && a < b < |domains| :: !Overlaps(domains[a], domains[b])
    {
      for j := i + 1 to |domains|
        invariant forall b | i < b < j :: !Overlaps(domains[i], domains[b])
      {
        if Overlaps(domains[i], domains[j]) {
          return Some((i, j));
        }
      }
    }
    overlap := None;
  }

  datatype RateLimit = RateLimit(queriesPerSecond: u32, burstSize: u32)

  datatype ConfigError =
    | NoZones
    | InvalidZone(network: ZcashNetwork, error: ZoneError)
    | Overlap(left: ZcashNetwork, right: ZcashNetwork)
    | ZeroQueriesPerSecond
    | ZeroBurstSize

  datatype Settings = Settings(zones: seq<(ZcashNetwork, ZoneSettings)>, rateLimit: Option<RateLimit>)

  /** The domain a zone has once its text parses. */
  ghost function DomainOf(parse: Parser, zone: ZoneSettings): Name {
    match parse(zone.domain)
    case None => []
    case Some(domain) => Lower(domain)
  }

  ghost function DomainsOf(parse: Parser, settings: Settings): seq<Name> {
    seq(|settings.zones|, k requires 0 <= k < |settings.zones| => DomainOf(parse, settings.zones[k].1))
  }

  ghost predicate ZonesAreGood(parse: Parser, settings: Settings) {
    && |settings.zones| > 0
    && (forall k | 0 <= k < |settings.zones| :: Verdict(parse, settings.zones[k].1).None?)
    && AreDisjoint(DomainsOf(parse, settings))
  }

  ghost predicate AreAcceptable(parse: Parser, zones: seq<(ZcashNetwork, ZoneSettings)>) {
    forall k | 0 <= k < |zones| :: IsAcceptable(parse, zones[k].1)
  }

  /** The zones of a configuration are good exactly when there are some, each is acceptable by its own
      settings, and their domains are disjoint. */
  lemma GoodMeansAcceptable(parse: Parser, settings: Settings)
    ensures ZonesAreGood(parse, settings) <==>
            && |settings.zones| > 0 && AreAcceptable(parse, settings.zones)
            && AreDisjoint(DomainsOf(parse, settings))
  {
    forall k | 0 <= k < |settings.zones|
      ensures IsAcceptable(parse, settings.zones[k].1) == Verdict(parse, settings.zones[k].1).None?
    {
      AcceptedMeansAllGood(parse, settings.zones[k].1);
    }
  }

  /** `SeederConfig::validate`, in the order of the checks: each error is reported exactly when
      everything checked before it was good. */
  method Validate(parse: Parser, settings: Settings) returns (error: Option<ConfigError>)
    ensures error.None? <==>
            && ZonesAreGood(parse, settings)
            && (settings.rateLimit.Some? ==>
                  settings.rateLimit.value.queriesPerSecond > 0 && settings.rateLimit.value.burstSize > 0)
    ensures error.None? ==> AreAcceptable(parse, settings.zones)
    ensures error == Some(NoZones) <==> settings.zones == []
    ensures error.Some? && error.value.InvalidZone? ==>
              exists k :: 0 <= k < |settings.zones|
                          && settings.zones[k].0 == error.value.network
                          && Verdict(parse, settings.zones[k].1) == Some(error.value.error)
                          && forall l | 0 <= l < k :: Verdict(parse, settings.zones[l].1).None?
    ensures error.Some? && error.value.Overlap? ==>
              && (forall k | 0 <= k < |settings.zones| :: Verdict(parse, settings.zones[k].1).None?)
              && exists i, j :: 0 <= i < j < |settings.zones|
                                && settings.zones[i].0 == error.value.left
                                && settings.zones[j].0 == error.value.right
                                && Overlaps(DomainsOf(parse, settings)[i], DomainsOf(parse, settings)[j])
    ensures error == Some(ZeroQueriesPerSecond) <==>
            ZonesAreGood(parse, settings) && settings.rateLimit.Some?
            && settings.rateLimit.value.queriesPerSecond == 0
    ensures error == Some(ZeroBurstSize) <==>
            ZonesAreGood(parse, settings) && settings.rateLimit.Some?
            && settings.rateLimit.value.queriesPerSecond > 0 && settings.rateLimit.value.burstSize == 0
  {
    if |settings.zones| == 0 {
      return Some(NoZones);
    }
    var domains: seq<Name> := [];
    for k := 0 to |settings.zones|
      invariant forall l | 0 <= l < k :: Verdict(parse, settings.zones[l].1).None?
      invariant domains == DomainsOf(parse, settings)[..k]
    {
      var domain := ValidatedDomain(parse, settings.zones[k].1);
      if domain.Err? {
        return Some(InvalidZone(settings.zones[k].0, domain.error));
      }
      domains := domains + [domain.value];
    }
    assert domains == DomainsOf(parse, settings);
    var overlap := EnsureZonesAreDisjoint(domains);
    if overlap.Some? {
      return Some(Overlap(settings.zones[overlap.value.0].0, settings.zones[overlap.value.1].0));
    }
    if settings.rateLimit.Some? {
      if settings.rateLimit.value.queriesPerSecond == 0 {
        return Some(ZeroQueriesPerSecond);
      }
      if settings.rateLimit.value.burstSize == 0 {
        return Some(ZeroBurstSize);
      }
    }
    GoodMeansAcceptable(parse, settings);
    error := None;
  }
}
