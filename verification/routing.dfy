/** Routing definitions: adopting the service routes of older settings, and adding the modes of a region. */
module RoutingConfigs {
  import opened Wrappers
  import opened Json

  datatype RuleSetKind = Geoip | Geosite

  datatype RuleSetSource = RuleSetSource(kind: RuleSetKind, url: string)

  datatype RuleSet = RuleSet(tag: string, kind: RuleSetKind, url: string)

  datatype Outbound = ToProxy | ToDirect

  datatype RuleRoute = Proxy | Direct | Block | Disabled

  datatype RuleMatch = MatchRuleSet(tag: string) | MatchDomain(domain: string) | MatchIp(ip: string) | MatchPrivateNetworks

  datatype ModeRule = ModeRule(matches: RuleMatch, route: RuleRoute, required: bool)

  datatype ModeDefinition = ModeDefinition(id: string, name: string, finalOutbound: Outbound, rules: seq<ModeRule>)

  datatype Routing = Routing(ruleSets: map<string, RuleSetSource>, modes: seq<ModeDefinition>)

  datatype Service = Service(name: string, ruleSets: seq<RuleSet>)

  const STEAM: Service := Service("steam", [
    RuleSet("geosite-steam", Geosite, "https://raw.githubusercontent.com/MetaCubeX/meta-rules-dat/sing/geo/geosite/steam.srs"),
    RuleSet("geoip-steam", Geoip, "https://raw.githubusercontent.com/MetaCubeX/meta-rules-dat/sing/asn/AS32590.srs")])

  const TELEGRAM: Service := Service("telegram", [
    RuleSet("geosite-telegram", Geosite, "https://raw.githubusercontent.com/MetaCubeX/meta-rules-dat/sing/geo/geosite/telegram.srs"),
    RuleSet("geoip-telegram", Geoip, "https://raw.githubusercontent.com/MetaCubeX/meta-rules-dat/sing/geo/geoip/telegram.srs")])

  const LEGACY_SERVICES: seq<Service> := [STEAM, TELEGRAM]

  function LegacyServiceRoute(legacy: Value, service: string): Option<RuleRoute> {
    match Field(legacy, service)
    case Some(Str(text)) => if text == "proxy" then Some(Proxy) else if text == "direct" then Some(Direct) else None
    case _ => None
  }

  // ----- What is adopted -----

  /** A rule with the kind of its rule set. */
  datatype Wanted = Wanted(kind: RuleSetKind, rule: ModeRule)

  function WantedOfSets(ruleSets: seq<RuleSet>, route: RuleRoute): seq<Wanted> {
    if ruleSets == [] then []
    else
      var last := ruleSets[|ruleSets| - 1];
      WantedOfSets(ruleSets[..|ruleSets| - 1], route) + [Wanted(last.kind, ModeRule(MatchRuleSet(last.tag), route, false))]
  }

  function WantedBy(services: seq<Service>, legacy: Value): seq<Wanted> {
    if services == [] then []
    else
      var last := services[|services| - 1];
      WantedBy(services[..|services| - 1], legacy)
      + match LegacyServiceRoute(legacy, last.name)
        case Some(route) => WantedOfSets(last.ruleSets, route)
        case None => []
  }

  function RulesOf(wanted: seq<Wanted>, kind: RuleSetKind): seq<ModeRule> {
    if wanted == [] then []
    else RulesOf(wanted[..|wanted| - 1], kind) + if wanted[|wanted| - 1].kind == kind then [wanted[|wanted| - 1].rule] else []
  }

  /** A stable sort with geosite first: all geosite rules in order, then all others. */
  function GeositeFirst(wanted: seq<Wanted>): seq<ModeRule> {
    RulesOf(wanted, Geosite) + RulesOf(wanted, Geoip)
  }

  function Put(ruleSets: map<string, RuleSetSource>, rs: RuleSet): map<string, RuleSetSource> {
    ruleSets[rs.tag := RuleSetSource(rs.kind, rs.url)]
  }

  function PutAll(ruleSets: map<string, RuleSetSource>, more: seq<RuleSet>): map<string, RuleSetSource> {
    if more == [] then ruleSets else Put(PutAll(ruleSets, more[..|more| - 1]), more[|more| - 1])
  }

  function PutMissing(ruleSets: map<string, RuleSetSource>, more: seq<RuleSet>): map<string, RuleSetSource> {
    if more == [] then ruleSets
    else
      var before := PutMissing(ruleSets, more[..|more| - 1]);
      var last := more[|more| - 1];
      if last.tag in before then before else Put(before, last)
  }

  function PutMissingOf(ruleSets: map<string, RuleSetSource>, services: seq<Service>, legacy: Value): map<string,
                        RuleSetSource> {
    if services == [] then ruleSets
    else
      var before := PutMissingOf(ruleSets, services[..|services| - 1], legacy);
      var last := services[|services| - 1];
      if LegacyServiceRoute(legacy, last.name).Some? then PutMissing(before, last.ruleSets) else before
  }

  predicate HasMatch(rules: seq<ModeRule>, matches: RuleMatch) {
    exists i :: 0 <= i < |rules| && rules[i].matches == matches
  }

  /** The rules that match what none of the mode's own rules matches. */
  function Missing(rules: seq<ModeRule>, own: seq<ModeRule>): seq<ModeRule> {
    if rules == [] then []
    else
      var last := rules[|rules| - 1];
      Missing(rules[..|rules| - 1], own) + if HasMatch(own, last.matches) then [] else [last]
  }

  function AdoptedMode(mode: ModeDefinition, rules: seq<ModeRule>): ModeDefinition {
    mode.(rules := Missing(rules, mode.rules) + mode.rules)
  }

  function AdoptedModes(modes: seq<ModeDefinition>, rules: seq<ModeRule>): (adopted: seq<ModeDefinition>)
    ensures |adopted| == |modes| && forall i :: 0 <= i < |modes| ==> adopted[i] == AdoptedMode(modes[i], rules)
  {
    seq(|modes|, i requires 0 <= i < |modes| => AdoptedMode(modes[i], rules))
  }

  function Adopted(r: Routing, legacy: Value): Routing {
    Routing(PutMissingOf(r.ruleSets, LEGACY_SERVICES, legacy),
            AdoptedModes(r.modes, GeositeFirst(WantedBy(LEGACY_SERVICES, legacy))))
  }

  // ----- The configuration in memory -----

  class RoutingConfig {
    var ruleSets: map<string, RuleSetSource>
    var modes: seq<ModeDefinition>

    constructor (r: Routing)
      ensures View() == r
    {
      ruleSets, modes := r.ruleSets, r.modes;
    }

    ghost function View(): Routing
      reads this
    {
      Routing(ruleSets, modes)
    }

    method InsertAll(more: seq<RuleSet>)
      modifies this`ruleSets
      ensures ruleSets == PutAll(old(ruleSets), more)
    {
      var i := 0;
      while i < |more|
        invariant 0 <= i <= |more| && ruleSets == PutAll(old(ruleSets), more[..i])
      {
        assert more[..i + 1][..i] == more[..i];
        ruleSets := ruleSets[more[i].tag := RuleSetSource(more[i].kind, more[i].url)];
        i := i + 1;
      }
      assert more[..|more|] == more;
    }

    /** One service: declares its rule sets and lists its rules. */
    method AdoptService(service: Service, route: RuleRoute) returns (wanted: seq<Wanted>, changed: bool)
      modifies this`ruleSets
      ensures wanted == WantedOfSets(service.ruleSets, route)
      ensures ruleSets == PutMissing(old(ruleSets), service.ruleSets) && old(ruleSets).Keys <= ruleSets.Keys
      ensures changed <==> ruleSets != old(ruleSets)
    {
      wanted, changed := [], false;
      var sets := service.ruleSets;
      var i := 0;
      while i < |sets|
        invariant 0 <= i <= |sets| && wanted == WantedOfSets(sets[..i], route)
        invariant ruleSets == PutMissing(old(ruleSets), sets[..i]) && old(ruleSets).Keys <= ruleSets.Keys
        invariant changed <==> ruleSets.Keys != old(ruleSets).Keys
        invariant !changed ==> ruleSets == old(ruleSets)
      {
        assert sets[..i + 1][..i] == sets[..i];
        if sets[i].tag !in ruleSets {
          InsertAll([sets[i]]);
          assert [sets[i]][..0] == [];
          assert sets[i].tag in ruleSets.Keys && sets[i].tag !in old(ruleSets).Keys;
          changed := true;
        }
        wanted := wanted + [Wanted(sets[i].kind, ModeRule(MatchRuleSet(sets[i].tag), route, false))];
        i := i + 1;
      }
      assert sets[..|sets|] == sets;
    }

    method AdoptServices(legacy: Value) returns (wanted: seq<Wanted>, changed: bool)
      modifies this`ruleSets
      ensures wanted == WantedBy(LEGACY_SERVICES, legacy)
      ensures ruleSets == PutMissingOf(old(ruleSets), LEGACY_SERVICES, legacy)
      ensures changed <==> ruleSets != old(ruleSets)
    {
      wanted, changed := [], false;
      var services := LEGACY_SERVICES;
      var i := 0;
      while i < |services|
        invariant 0 <= i <= |services| && wanted == WantedBy(services[..i], legacy)
        invariant ruleSets == PutMissingOf(old(ruleSets), services[..i], legacy) && old(ruleSets).Keys <= ruleSets.Keys
        invariant changed <==> ruleSets != old(ruleSets)
        invariant changed <==> ruleSets.Keys != old(ruleSets).Keys
      {
        assert services[..i + 1][..i] == services[..i];
        var route := LegacyServiceRoute(legacy, services[i].name);
        if route.Some? {
          ghost var before := ruleSets;
          var more, inserted := AdoptService(services[i], route.value);
          PutMissingGrows(before, services[i].ruleSets);
          wanted := wanted + more;
          changed := changed || inserted;
        }
        i := i + 1;
      }
      assert services[..|services|] == services;
    }

    method AdoptServiceRoutes(legacy: Value) returns (changed: bool)
      modifies this
      ensures View() == Adopted(old(View()), legacy)
      ensures changed <==> View() != old(View())
    {
      var wanted;
      wanted, changed := AdoptServices(legacy);
      var rules := GeositeFirst(wanted);
      ghost var inserted := changed;
      var i := 0;
      while i < |modes|
        invariant 0 <= i <= |modes| == |old(modes)| && ruleSets == PutMissingOf(old(ruleSets), LEGACY_SERVICES, legacy)
        invariant forall j :: 0 <= j < |modes| ==>
                    modes[j] == if j < i then AdoptedMode(old(modes)[j], rules) else old(modes)[j]
        invariant changed <==> inserted || modes != old(modes)
      {
        var missing := Missing(rules, modes[i].rules);
        if missing != [] {
          changed := true;
          assert |AdoptedMode(modes[i], rules).rules| != |modes[i].rules|;
        } else {
          assert [] + modes[i].rules == modes[i].rules;
        }
        modes := modes[i := modes[i].(rules := missing + modes[i].rules)];
        i := i + 1;
      }
    }

    /** Adds the region's modes and rule sets that are not there, unless the result would be invalid. */
    method AddRegionModes(regionModes: seq<ModeDefinition>, regionSets: seq<RuleSet>, valid: Routing -> bool)
      returns (changed: bool)
      modifies this
      ensures View() == WithRegion(old(View()), regionModes, regionSets, valid)
      ensures changed <==> View() != old(View())
    {
      var extended := new RoutingConfig(Routing(ruleSets, modes));
      var i := 0;
      while i < |regionModes|
        invariant 0 <= i <= |regionModes| && fresh(extended) && View() == old(View())
        invariant extended.ruleSets == ruleSets && extended.modes == WithModes(modes, regionModes[..i])
      {
        assert regionModes[..i + 1][..i] == regionModes[..i];
        if !HasMode(extended.modes, regionModes[i].id) { extended.modes := extended.modes + [regionModes[i]]; }
        i := i + 1;
      }
      assert regionModes[..|regionModes|] == regionModes;
      extended.InsertAll(MissingSets(ruleSets, regionSets));
      var result := Routing(extended.ruleSets, extended.modes);
      if result == Routing(ruleSets, modes) || !valid(result) { return false; }
      ruleSets, modes := result.ruleSets, result.modes;
      return true;
    }
  }

  lemma {:induction false} PutMissingGrows(ruleSets: map<string, RuleSetSource>, more: seq<RuleSet>)
    ensures var all := PutMissing(ruleSets, more);
            && ruleSets.Keys <= all.Keys && (forall tag :: tag in ruleSets ==> all[tag] == ruleSets[tag])
            && (all == ruleSets <==> all.Keys == ruleSets.Keys)
  {
    if more != [] { PutMissingGrows(ruleSets, more[..|more| - 1]); }
  }

  // ----- Region modes -----

  predicate HasMode(modes: seq<ModeDefinition>, id: string) {
    exists i :: 0 <= i < |modes| && modes[i].id == id
  }

  function WithModes(modes: seq<ModeDefinition>, more: seq<ModeDefinition>): seq<ModeDefinition> {
    if more == [] then modes
    else
      var before := WithModes(modes, more[..|more| - 1]);
      if HasMode(before, more[|more| - 1].id) then before else before + [more[|more| - 1]]
  }

  function MissingSets(ruleSets: map<string, RuleSetSource>, sets: seq<RuleSet>): seq<RuleSet> {
    if sets == [] then []
    else MissingSets(ruleSets, sets[..|sets| - 1]) + if sets[|sets| - 1].tag in ruleSets then [] else [sets[|sets| - 1]]
  }

  function WithRegion(r: Routing, regionModes: seq<ModeDefinition>, regionSets: seq<RuleSet>,
                      valid: Routing -> bool): Routing {
    var extended := Routing(PutAll(r.ruleSets, MissingSets(r.ruleSets, regionSets)), WithModes(r.modes, regionModes));
    if valid(extended) then extended else r
  }
}
