/** Fully qualified domain names as label sequences, leftmost label first. Two facts about the DNS
    library are assumed and stated here: `zone_of` is suffix on labels, and `num_labels` either counts
    all labels or leaves out a leading wildcard; what is proved covers both readings. */
module DomainNames {
  import opened Prelude
  import opened Permutations

  type Name = seq<string>

  function LowerChar(c: char): char {
    if 'A' <= c <= 'Z' then c - 'A' + 'a' else c
  }

  function LowerLabel(text: string): string {
    seq(|text|, i requires 0 <= i < |text| => LowerChar(text[i]))
  }

  /** `LowerName::from`. */
  function Lower(name: Name): Name {
    seq(|name|, i requires 0 <= i < |name| => LowerLabel(name[i]))
  }

  /** The same character, or one ASCII letter in its two cases. */
  predicate SameLetter(c: char, d: char) {
    || c == d
    || ('A' <= c <= 'Z' && d as int == c as int + 32)
    || ('A' <= d <= 'Z' && c as int == d as int + 32)
  }

  predicate SameLabel(a: string, b: string) {
    |a| == |b| && forall i | 0 <= i < |a| :: SameLetter(a[i], b[i])
  }

  predicate EqualUpToCase(a: Name, b: Name) {
    |a| == |b| && forall i | 0 <= i < |a| :: SameLabel(a[i], b[i])
  }

  lemma LowerLabelForgetsCase(a: string, b: string)
    ensures LowerLabel(a) == LowerLabel(b) <==> SameLabel(a, b)
  {
    if LowerLabel(a) == LowerLabel(b) {
      assert |LowerLabel(a)| == |LowerLabel(b)|;
      forall i | 0 <= i < |a| ensures SameLetter(a[i], b[i]) {
        assert LowerLabel(a)[i] == LowerLabel(b)[i];
      }
    }
  }

  /** Names are lower-cased alike exactly when they differ in case only. */
  lemma LowerForgetsCase(a: Name, b: Name)
    ensures Lower(a) == Lower(b) <==> EqualUpToCase(a, b)
  {
    if |a| == |b| {
      forall i | 0 <= i < |a| ensures Lower(a)[i] == Lower(b)[i] <==> SameLabel(a[i], b[i]) {
        LowerLabelForgetsCase(a[i], b[i]);
      }
    } else {
      assert |Lower(a)| != |Lower(b)|;
    }
  }

  /** `zone_of`: `name` lies in the zone `domain`, or is its apex. */
  predicate ZoneOf(domain: Name, name: Name) {
    |domain| <= |name| && name[|name| - |domain|..] == domain
  }

  datatype LabelCounting = Plain | WithoutWildcard

  const WILDCARD := "*"

  predicate IsWild(name: Name) { |name| > 0 && name[0] == WILDCARD }

  /** `num_labels`. */
  function NumLabels(counting: LabelCounting, name: Name): nat {
    if counting.WithoutWildcard? && IsWild(name) then |name| - 1 else |name|
  }

  /** Within a zone, equal label counts single out the apex; when a leading wildcard is not counted,
      the wildcard child of a zone that is not itself a wildcard is taken for the apex too. */
  lemma EqualCountIsApex(counting: LabelCounting, domain: Name, name: Name)
    requires ZoneOf(domain, name)
    ensures NumLabels(counting, name) == NumLabels(counting, domain) <==>
            || name == domain
            || (counting.WithoutWildcard? && !IsWild(domain) && name == [WILDCARD] + domain)
  {
    assert name == name[..|name| - |domain|] + domain;
    if |name| == |domain| + 1 {
      assert name[..1] == [name[0]];
    }
  }

  lemma ZonesOfOneNameAreNested(a: Name, b: Name, name: Name)
    requires ZoneOf(a, name) && ZoneOf(b, name) && |a| <= |b|
    ensures ZoneOf(a, b)
  {
    forall i | 0 <= i < |a| ensures b[|b| - |a|..][i] == a[i] {
      assert name[|name| - |a|..][i] == a[i];
      assert name[|name| - |b|..][|b| - |a| + i] == b[|b| - |a| + i];
    }
  }

  lemma EitherContainsTheOther(a: Name, b: Name, name: Name)
    requires ZoneOf(a, name) && ZoneOf(b, name)
    ensures ZoneOf(a, b) || ZoneOf(b, a)
  {
    if |a| <= |b| {
      ZonesOfOneNameAreNested(a, b, name);
    } else {
      ZonesOfOneNameAreNested(b, a, name);
    }
  }

  // Routing

  /** No domain of the list lies in another. */
  ghost predicate AreDisjoint(domains: seq<Name>) {
    forall i, j | 0 <= i < j < |domains| :: !ZoneOf(domains[i], domains[j]) && !ZoneOf(domains[j], domains[i])
  }

  /** Disjointness is exactly what routing needs: no name lies in two of the zones. */
  lemma DisjointMeansOneZonePerName(domains: seq<Name>)
    ensures AreDisjoint(domains) <==>
            forall name, i, j | 0 <= i < j < |domains| :: !(ZoneOf(domains[i], name) && ZoneOf(domains[j], name))
  {
    if name, i, j :| 0 <= i < j < |domains| && ZoneOf(domains[i], name) && ZoneOf(domains[j], name) {
      EitherContainsTheOther(domains[i], domains[j], name);
    }
    if !AreDisjoint(domains) {
      var i, j :| 0 <= i < j < |domains|
                  && (ZoneOf(domains[i], domains[j]) || ZoneOf(domains[j], domains[i]));
      var name := if ZoneOf(domains[i], domains[j]) then domains[j] else domains[i];
      assert ZoneOf(domains[i], name) && ZoneOf(domains[j], name);
    }
  }

  /** What `matching_zone` may return: nothing when no zone contains the name, and otherwise the last of
      the containing zones with the most labels. */
  ghost predicate IsRoute(counting: LabelCounting, domains: seq<Name>, name: Name, route: Option<nat>) {
    match route
    case None => forall j | 0 <= j < |domains| :: !ZoneOf(domains[j], name)
    case Some(i) =>
      && i < |domains| && ZoneOf(domains[i], name)
      && forall j | 0 <= j < |domains| && ZoneOf(domains[j], name) ::
           && NumLabels(counting, domains[j]) <= NumLabels(counting, domains[i])
           && (i < j ==> NumLabels(counting, domains[j]) < NumLabels(counting, domains[i]))
  }

  /** `matching_zone`: the last maximum, as `max_by_key` picks it. */
  function MatchingZone(counting: LabelCounting, domains: seq<Name>, name: Name): (route: Option<nat>)
    ensures IsRoute(counting, domains, name, route)
  {
    if domains == [] then None
    else
      var k := |domains| - 1;
      var earlier := MatchingZone(counting, domains[..k], name);
      if && ZoneOf(domains[k], name)
         && (earlier.None? || NumLabels(counting, domains[earlier.value]) <= NumLabels(counting, domains[k]))
      then Some(k) else earlier
  }

  /** With disjoint zones a name is routed to the one zone containing it, if there is one. */
  lemma OnlyZoneIsRoute(counting: LabelCounting, domains: seq<Name>, name: Name, j: nat)
    requires AreDisjoint(domains) && j < |domains|
    ensures ZoneOf(domains[j], name) <==> MatchingZone(counting, domains, name) == Some(j)
  {
    DisjointMeansOneZonePerName(domains);
    assert IsRoute(counting, domains, name, MatchingZone(counting, domains, name));
  }

  lemma PermutedStaysDisjoint(domains: seq<Name>, p: seq<nat>)
    requires AreDisjoint(domains) && IsPermutation(p, |domains|)
    ensures AreDisjoint(Permuted(domains, p))
  {
  }

  /** The order of the list does not matter: under any rearrangement a name is routed to the same zone. */
  lemma RoutingIgnoresOrder(counting: LabelCounting, domains: seq<Name>, p: seq<nat>, name: Name, k: nat)
    requires AreDisjoint(domains) && IsPermutation(p, |domains|) && k < |domains|
    ensures MatchingZone(counting, Permuted(domains, p), name) == Some(k) <==>
            MatchingZone(counting, domains, name) == Some(p[k])
  {
    PermutedStaysDisjoint(domains, p);
    OnlyZoneIsRoute(counting, Permuted(domains, p), name, k);
    OnlyZoneIsRoute(counting, domains, name, p[k]);
  }

  /** No zone containing the name has a longer domain than zone `i`. */
  ghost predicate IsMostSpecific(domains: seq<Name>, name: Name, i: nat)
    requires i < |domains|
  {
    forall j | 0 <= j < |domains| && ZoneOf(domains[j], name) :: |domains[j]| <= |domains[i]|
  }

  /** `matching_zone` does what it is documented to do: it returns the most specific zone. */
  ghost predicate RoutesToMostSpecific(counting: LabelCounting, domains: seq<Name>) {
    forall name ::
      var route := MatchingZone(counting, domains, name);
      route.Some? ==> IsMostSpecific(domains, name, route.value)
  }

  /** Every zone that is the wildcard child of another is listed, perhaps again, after that parent. */
  ghost predicate WildcardsFollowParents(domains: seq<Name>) {
    forall i, j | 0 <= i < |domains| && 0 <= j < |domains|
                  && !IsWild(domains[i]) && domains[j] == [WILDCARD] + domains[i] ::
      exists k :: i < k < |domains| && domains[k] == domains[j]
  }

  /** A longer domain that loses to a shorter one is the shorter one's wildcard child. */
  lemma LongerLoserIsWildcardChild(counting: LabelCounting, winner: Name, loser: Name, name: Name)
    requires ZoneOf(winner, name) && ZoneOf(loser, name) && |winner| < |loser|
    requires NumLabels(counting, loser) <= NumLabels(counting, winner)
    ensures counting.WithoutWildcard? && !IsWild(winner) && loser == [WILDCARD] + winner
    ensures NumLabels(counting, loser) == NumLabels(counting, winner)
  {
    ZonesOfOneNameAreNested(winner, loser, name);
    EqualCountIsApex(counting, winner, loser);
  }

  lemma ParentWinsWithoutLaterChild(domains: seq<Name>, i: nat, j: nat, r: nat)
    requires i < |domains| && j < |domains| && r < |domains|
    requires !IsWild(domains[i]) && domains[j] == [WILDCARD] + domains[i]
    requires forall k | i < k < |domains| :: domains[k] != domains[j]
    requires IsRoute(WithoutWildcard, domains, domains[j], Some(r))
    ensures |domains[r]| < |domains[j]|
  {
    assert ZoneOf(domains[i], domains[j]);
  }

  /** The exact condition for routing to the most specific zone, for any list of zones. Counting all
      labels it always holds. Leaving out a leading wildcard it holds exactly when every wildcard child
      in the list follows its parent, because the last of two equal counts wins. A list that
      `ensure_zones_are_disjoint` accepts has no parent and child in it, so it meets the condition. */
  lemma RoutesToMostSpecificIff(counting: LabelCounting, domains: seq<Name>)
    ensures RoutesToMostSpecific(counting, domains) <==> counting.Plain? || WildcardsFollowParents(domains)
    ensures AreDisjoint(domains) ==> WildcardsFollowParents(domains)
  {
    if counting.Plain? || WildcardsFollowParents(domains) {
      forall name, j | MatchingZone(counting, domains, name).Some?
                       && 0 <= j < |domains| && ZoneOf(domains[j], name)
        ensures |domains[j]| <= |domains[MatchingZone(counting, domains, name).value]|
      {
        var i := MatchingZone(counting, domains, name).value;
        if |domains[i]| < |domains[j]| {
          LongerLoserIsWildcardChild(counting, domains[i], domains[j], name);
          assert false;
        }
      }
    } else {
      var i, j :| 0 <= i < |domains| && 0 <= j < |domains|
                  && !IsWild(domains[i]) && domains[j] == [WILDCARD] + domains[i]
                  && forall k | i < k < |domains| :: domains[k] != domains[j];
      assert ZoneOf(domains[j], domains[j]);
      var route := MatchingZone(WithoutWildcard, domains, domains[j]);
      assert IsRoute(WithoutWildcard, domains, domains[j], route);
      ParentWinsWithoutLaterChild(domains, i, j, route.value);
    }
    if AreDisjoint(domains) {
      forall i, j | 0 <= i < |domains| && 0 <= j < |domains|
                    && !IsWild(domains[i]) && domains[j] == [WILDCARD] + domains[i]
        ensures false
      {
        assert ZoneOf(domains[i], domains[j]);
      }
    }
  }

  /** A longest match in the terms of section 4.3.2 of RFC 1034: every zone containing the name contains
      the chosen domain, and one as long is equal to it. */
  lemma RouteIsLongestMatch(counting: LabelCounting, domains: seq<Name>, name: Name, i: nat, j: nat)
    requires MatchingZone(counting, domains, name) == Some(i)
    requires counting.Plain? || WildcardsFollowParents(domains)
    requires j < |domains| && ZoneOf(domains[j], name)
    ensures ZoneOf(domains[j], domains[i])
    ensures |domains[j]| == |domains[i]| ==> domains[j] == domains[i]
  {
    RoutesToMostSpecificIff(counting, domains);
    assert IsMostSpecific(domains, name, i);
    ZonesOfOneNameAreNested(domains[j], domains[i], name);
  }

  /** The condition can fail: listed before its parent, a wildcard zone loses its own name to it.
      Validation refuses such a list. */
  lemma WildcardZoneLosesToParent()
    ensures MatchingZone(WithoutWildcard, [[WILDCARD, "a"], ["a"]], [WILDCARD, "a"]) == Some(1)
    ensures !AreDisjoint([[WILDCARD, "a"], ["a"]])
  {
    var domains: seq<Name> := [[WILDCARD, "a"], ["a"]];
    assert [WILDCARD, "a"][1..] == ["a"];
    assert ZoneOf(domains[0], [WILDCARD, "a"]) && ZoneOf(domains[1], domains[0]);
    assert NumLabels(WithoutWildcard, domains[0]) == NumLabels(WithoutWildcard, domains[1]) == 1;
  }
}
