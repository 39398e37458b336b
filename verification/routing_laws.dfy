/** Adopting old service routes is idempotent, keeps what users wrote, and survives a crash between its two writes. */
module RoutingLaws {
  import opened Wrappers
  import opened Json
  import opened RoutingConfigs

  // ----- Rules -----

  lemma {:induction false} MissingConcat(a: seq<ModeRule>, b: seq<ModeRule>, own: seq<ModeRule>)
    ensures Missing(a + b, own) == Missing(a, own) + Missing(b, own)
  {
    if b == [] {
      assert a + b == a;
    } else {
      var init, last := b[..|b| - 1], b[|b| - 1];
      MissingConcat(a, init, own);
      assert (a + b)[..|a + b| - 1] == a + init && (a + b)[|a + b| - 1] == last;
    }
  }

  lemma {:induction false} MissingAreAbsent(rules: seq<ModeRule>, own: seq<ModeRule>)
    ensures forall rule :: rule in Missing(rules, own) <==> rule in rules && !HasMatch(own, rule.matches)
  {
    if rules != [] {
      MissingAreAbsent(rules[..|rules| - 1], own);
      assert rules == rules[..|rules| - 1] + [rules[|rules| - 1]];
    }
  }

  lemma {:induction false} NothingMissing(rules: seq<ModeRule>, own: seq<ModeRule>)
    requires forall rule :: rule in rules ==> HasMatch(own, rule.matches)
    ensures Missing(rules, own) == []
  {
    if rules != [] {
      assert rules[|rules| - 1] in rules;
      NothingMissing(rules[..|rules| - 1], own);
    }
  }

  lemma HasMatchOf(rules: seq<ModeRule>, rule: ModeRule)
    requires rule in rules
    ensures HasMatch(rules, rule.matches)
  {
    var i :| 0 <= i < |rules| && rules[i] == rule;
  }

  lemma HasMatchBehind(before: seq<ModeRule>, own: seq<ModeRule>, matches: RuleMatch)
    requires HasMatch(own, matches)
    ensures HasMatch(before + own, matches)
  {
    var i :| 0 <= i < |own| && own[i].matches == matches;
    assert (before + own)[|before| + i] == own[i];
  }

  /** Afterwards the mode has a rule for everything that was wanted. */
  lemma NothingIsMissingAfterwards(rules: seq<ModeRule>, mode: ModeDefinition)
    ensures forall rule :: rule in rules ==> HasMatch(AdoptedMode(mode, rules).rules, rule.matches)
  {
    var missing := Missing(rules, mode.rules);
    MissingAreAbsent(rules, mode.rules);
    forall rule | rule in rules ensures HasMatch(missing + mode.rules, rule.matches) {
      if HasMatch(mode.rules, rule.matches) {
        HasMatchBehind(missing, mode.rules, rule.matches);
      } else {
        HasMatchOf(missing + mode.rules, rule);
      }
    }
  }

  lemma AdoptedModeAgain(mode: ModeDefinition, rules: seq<ModeRule>)
    ensures AdoptedMode(AdoptedMode(mode, rules), rules) == AdoptedMode(mode, rules)
  {
    NothingIsMissingAfterwards(rules, mode);
    NothingMissing(rules, AdoptedMode(mode, rules).rules);
    assert [] + AdoptedMode(mode, rules).rules == AdoptedMode(mode, rules).rules;
  }

  /**
   * A mode keeps its own rules in order at the end. In front of them come exactly the wanted rules it had nothing for,
   * those on geosite rule sets first, each kind in the order of the services.
   */
  lemma OwnRulesStayLast(r: Routing, legacy: Value, i: nat)
    requires i < |r.modes|
    ensures var wanted := WantedBy(LEGACY_SERVICES, legacy);
            var own := r.modes[i].rules;
            var after := Adopted(r, legacy).modes[i];
            && after == r.modes[i].(rules := after.rules)
            && after.rules == Missing(RulesOf(wanted, Geosite), own) + Missing(RulesOf(wanted, Geoip), own) + own
            && (forall rule :: rule in after.rules <==> rule in own || (rule in GeositeFirst(wanted) && !HasMatch(own, rule.matches)))
            && (forall rule :: rule in GeositeFirst(wanted) ==> HasMatch(after.rules, rule.matches))
  {
    var wanted := WantedBy(LEGACY_SERVICES, legacy);
    MissingConcat(RulesOf(wanted, Geosite), RulesOf(wanted, Geoip), r.modes[i].rules);
    MissingAreAbsent(GeositeFirst(wanted), r.modes[i].rules);
    NothingIsMissingAfterwards(GeositeFirst(wanted), r.modes[i]);
  }

  /** The settings ask for this rule: some service has the rule set, and its route is spelled out. */
  ghost predicate Asked(services: seq<Service>, legacy: Value, w: Wanted) {
    exists s, k :: 0 <= s < |services| && 0 <= k < |services[s].ruleSets| && AskedFor(services[s], k, legacy, w)
  }

  predicate AskedFor(service: Service, k: nat, legacy: Value, w: Wanted)
    requires k < |service.ruleSets|
  {
    && w.kind == service.ruleSets[k].kind && w.rule.matches == MatchRuleSet(service.ruleSets[k].tag) && !w.rule.required
    && ((Field(legacy, service.name) == Some(Str("proxy")) && w.rule.route == Proxy)
        || (Field(legacy, service.name) == Some(Str("direct")) && w.rule.route == Direct))
  }

  lemma {:induction false} WantedOfSetsIff(sets: seq<RuleSet>, route: RuleRoute, w: Wanted)
    ensures w in WantedOfSets(sets, route)
            <==> exists k :: 0 <= k < |sets| && w == Wanted(sets[k].kind, ModeRule(MatchRuleSet(sets[k].tag), route, false))
  {
    if sets != [] {
      var init := sets[..|sets| - 1];
      WantedOfSetsIff(init, route, w);
      assert forall k :: 0 <= k < |init| ==> init[k] == sets[k];
    }
  }

  ghost predicate AskedBy(service: Service, legacy: Value, w: Wanted) {
    exists k :: 0 <= k < |service.ruleSets| && AskedFor(service, k, legacy, w)
  }

  lemma ServiceIff(service: Service, legacy: Value, w: Wanted)
    ensures var route := LegacyServiceRoute(legacy, service.name);
            (route.Some? && w in WantedOfSets(service.ruleSets, route.value)) <==> AskedBy(service, legacy, w)
  {
    var route := LegacyServiceRoute(legacy, service.name);
    if route.Some? {
      WantedOfSetsIff(service.ruleSets, route.value, w);
      forall k | 0 <= k < |service.ruleSets|
        ensures AskedFor(service, k, legacy, w)
                <==> w == Wanted(service.ruleSets[k].kind, ModeRule(MatchRuleSet(service.ruleSets[k].tag), route.value, false))
      {}
    }
  }

  lemma {:induction false} WantedIff(services: seq<Service>, legacy: Value, w: Wanted)
    ensures w in WantedBy(services, legacy) <==> Asked(services, legacy, w)
  {
    if services != [] {
      var init, last := services[..|services| - 1], services[|services| - 1];
      WantedIff(init, legacy, w);
      OneMoreService(services, legacy, w);
      ServiceIff(last, legacy, w);
    }
  }

  lemma OneMoreService(services: seq<Service>, legacy: Value, w: Wanted)
    requires services != []
    ensures var init, last := services[..|services| - 1], services[|services| - 1];
            Asked(services, legacy, w)
            <==> Asked(init, legacy, w) || AskedBy(last, legacy, w)
  {
    var init, last := services[..|services| - 1], services[|services| - 1];
    forall s, k | 0 <= s < |services| && 0 <= k < |services[s].ruleSets| && AskedFor(services[s], k, legacy, w)
      ensures Asked(init, legacy, w) || AskedBy(last, legacy, w)
    {
      if s < |init| { assert AskedFor(init[s], k, legacy, w); } else { assert AskedFor(last, k, legacy, w); }
    }
    forall s, k | 0 <= s < |init| && 0 <= k < |init[s].ruleSets| && AskedFor(init[s], k, legacy, w)
      ensures Asked(services, legacy, w)
    {
      assert AskedFor(services[s], k, legacy, w);
    }
    forall k | 0 <= k < |last.ruleSets| && AskedFor(last, k, legacy, w) ensures Asked(services, legacy, w) {
      assert AskedFor(services[|services| - 1], k, legacy, w);
    }
  }

  lemma {:induction false} RulesOfIff(wanted: seq<Wanted>, kind: RuleSetKind, rule: ModeRule)
    ensures rule in RulesOf(wanted, kind) <==> Wanted(kind, rule) in wanted
  {
    if wanted != [] {
      RulesOfIff(wanted[..|wanted| - 1], kind, rule);
      assert wanted == wanted[..|wanted| - 1] + [wanted[|wanted| - 1]];
    }
  }

  /** The rules to adopt are exactly those the settings ask for, with the route they spell out. */
  lemma AdoptedRulesFollowTheSettings(legacy: Value, rule: ModeRule)
    ensures rule in GeositeFirst(WantedBy(LEGACY_SERVICES, legacy))
            <==> Asked(LEGACY_SERVICES, legacy, Wanted(Geosite, rule)) || Asked(LEGACY_SERVICES, legacy, Wanted(Geoip, rule))
  {
    var wanted := WantedBy(LEGACY_SERVICES, legacy);
    RulesOfIff(wanted, Geosite, rule);
    RulesOfIff(wanted, Geoip, rule);
    WantedIff(LEGACY_SERVICES, legacy, Wanted(Geosite, rule));
    WantedIff(LEGACY_SERVICES, legacy, Wanted(Geoip, rule));
  }

  // ----- The adopted rules, spelled out -----

  function RouteOf(legacy: Value, service: string): Option<RuleRoute> {
    if Field(legacy, service) == Some(Str("proxy")) then Some(Proxy)
    else if Field(legacy, service) == Some(Str("direct")) then Some(Direct)
    else None
  }

  /** The rule for one rule set of a service, if the settings have a route for it and the mode has no rule for the rule set. */
  function RuleFor(legacy: Value, service: string, tag: string, own: seq<ModeRule>): seq<ModeRule> {
    match RouteOf(legacy, service)
    case Some(route) =>
      if exists rule :: rule in own && rule.matches == MatchRuleSet(tag) then [] else [ModeRule(MatchRuleSet(tag), route, false)]
    case None => []
  }

  lemma HasMatchIff(own: seq<ModeRule>, matches: RuleMatch)
    ensures HasMatch(own, matches) <==> exists rule :: rule in own && rule.matches == matches
  {}

  lemma OneMissing(legacy: Value, service: string, tag: string, own: seq<ModeRule>, rules: seq<ModeRule>)
    requires rules == match LegacyServiceRoute(legacy, service)
                      case Some(route) => [ModeRule(MatchRuleSet(tag), route, false)]
                      case None => []
    ensures Missing(rules, own) == RuleFor(legacy, service, tag, own)
  {
    HasMatchIff(own, MatchRuleSet(tag));
    if rules != [] { assert rules[..0] == [] && Missing(rules[..0], own) == []; }
  }

  lemma TwoWanted(service: Service, route: RuleRoute, rule: ModeRule, other: ModeRule)
    requires |service.ruleSets| == 2 && service.ruleSets[0].kind == Geosite && service.ruleSets[1].kind == Geoip
    requires rule == ModeRule(MatchRuleSet(service.ruleSets[0].tag), route, false)
    requires other == ModeRule(MatchRuleSet(service.ruleSets[1].tag), route, false)
    ensures WantedOfSets(service.ruleSets, route) == [Wanted(Geosite, rule), Wanted(Geoip, other)]
  {
    var sets := service.ruleSets;
    assert sets[..1][..0] == [] && sets[..1] == [sets[0]];
    assert WantedOfSets(sets[..1], route) == [Wanted(Geosite, rule)];
  }

  lemma {:induction false} RulesOfConcat(a: seq<Wanted>, b: seq<Wanted>, kind: RuleSetKind)
    ensures RulesOf(a + b, kind) == RulesOf(a, kind) + RulesOf(b, kind)
  {
    if b == [] {
      assert a + b == a;
    } else {
      var init, last := b[..|b| - 1], b[|b| - 1];
      RulesOfConcat(a, init, kind);
      assert (a + b)[..|a + b| - 1] == a + init && (a + b)[|a + b| - 1] == last;
    }
  }

  /** What one service wants. */
  function WantedFrom(service: Service, legacy: Value): seq<Wanted> {
    match LegacyServiceRoute(legacy, service.name)
    case Some(route) => WantedOfSets(service.ruleSets, route)
    case None => []
  }

  lemma WantedByBoth(legacy: Value)
    ensures WantedBy(LEGACY_SERVICES, legacy) == WantedFrom(STEAM, legacy) + WantedFrom(TELEGRAM, legacy)
  {
    assert LEGACY_SERVICES[..1] == [STEAM] && [STEAM][..0] == [];
    assert WantedBy([STEAM], legacy) == [] + WantedFrom(STEAM, legacy) == WantedFrom(STEAM, legacy);
  }

  /** The geosite and the geoip rule of one service, as far as the mode lacks them. */
  lemma ServiceRules(service: Service, legacy: Value, own: seq<ModeRule>)
    requires service == STEAM || service == TELEGRAM
    ensures Missing(RulesOf(WantedFrom(service, legacy), Geosite), own) == RuleFor(legacy, service.name, service.ruleSets[0].tag, own)
    ensures Missing(RulesOf(WantedFrom(service, legacy), Geoip), own) == RuleFor(legacy, service.name, service.ruleSets[1].tag, own)
  {
    var sites, ips := RulesOf(WantedFrom(service, legacy), Geosite), RulesOf(WantedFrom(service, legacy), Geoip);
    match LegacyServiceRoute(legacy, service.name) {
      case Some(route) =>
        var site := ModeRule(MatchRuleSet(service.ruleSets[0].tag), route, false);
        var ip := ModeRule(MatchRuleSet(service.ruleSets[1].tag), route, false);
        TwoWanted(service, route, site, ip);
        OneOfEach(site, ip);
      case None =>
    }
    OneMissing(legacy, service.name, service.ruleSets[0].tag, own, sites);
    OneMissing(legacy, service.name, service.ruleSets[1].tag, own, ips);
  }

  lemma OneOfEach(site: ModeRule, ip: ModeRule)
    ensures RulesOf([Wanted(Geosite, site), Wanted(Geoip, ip)], Geosite) == [site]
    ensures RulesOf([Wanted(Geosite, site), Wanted(Geoip, ip)], Geoip) == [ip]
  {
    var wanted := [Wanted(Geosite, site), Wanted(Geoip, ip)];
    assert wanted[..1] == [Wanted(Geosite, site)] && [Wanted(Geosite, site)][..0] == [];
    assert RulesOf(wanted[..1], Geosite) == [site] && RulesOf(wanted[..1], Geoip) == [];
  }

  lemma MissingOfBoth(legacy: Value, own: seq<ModeRule>, kind: RuleSetKind)
    ensures Missing(RulesOf(WantedBy(LEGACY_SERVICES, legacy), kind), own)
         == Missing(RulesOf(WantedFrom(STEAM, legacy), kind), own) + Missing(RulesOf(WantedFrom(TELEGRAM, legacy), kind), own)
  {
    WantedByBoth(legacy);
    RulesOfConcat(WantedFrom(STEAM, legacy), WantedFrom(TELEGRAM, legacy), kind);
    MissingConcat(RulesOf(WantedFrom(STEAM, legacy), kind), RulesOf(WantedFrom(TELEGRAM, legacy), kind), own);
  }

  /** The rules of every mode afterwards: what it lacks, Steam before Telegram and geosite before geoip, then its own rules. */
  lemma AdoptedRulesAre(r: Routing, legacy: Value, i: nat)
    requires i < |r.modes|
    ensures |Adopted(r, legacy).modes| == |r.modes|
    ensures var own := r.modes[i].rules;
            Adopted(r, legacy).modes[i].rules
            == (RuleFor(legacy, "steam", "geosite-steam", own) + RuleFor(legacy, "telegram", "geosite-telegram", own))
               + (RuleFor(legacy, "steam", "geoip-steam", own) + RuleFor(legacy, "telegram", "geoip-telegram", own)) + own
  {
    var own, wanted := r.modes[i].rules, WantedBy(LEGACY_SERVICES, legacy);
    MissingConcat(RulesOf(wanted, Geosite), RulesOf(wanted, Geoip), own);
    MissingOfBoth(legacy, own, Geosite);
    MissingOfBoth(legacy, own, Geoip);
    ServiceRules(STEAM, legacy, own);
    ServiceRules(TELEGRAM, legacy, own);
  }

  // ----- Rule sets -----

  ghost predicate Keeps(before: map<string, RuleSetSource>, after: map<string, RuleSetSource>) {
    before.Keys <= after.Keys && forall tag :: tag in before ==> after[tag] == before[tag]
  }

  ghost predicate Covers(ruleSets: map<string, RuleSetSource>, sets: seq<RuleSet>) {
    forall i :: 0 <= i < |sets| ==> sets[i].tag in ruleSets
  }

  lemma {:induction false} PutMissingKeeps(ruleSets: map<string, RuleSetSource>, more: seq<RuleSet>)
    ensures Keeps(ruleSets, PutMissing(ruleSets, more)) && Covers(PutMissing(ruleSets, more), more)
  {
    if more != [] { PutMissingKeeps(ruleSets, more[..|more| - 1]); }
  }

  lemma {:induction false} CoveredStays(ruleSets: map<string, RuleSetSource>, more: seq<RuleSet>)
    requires Covers(ruleSets, more)
    ensures PutMissing(ruleSets, more) == ruleSets
  {
    if more != [] { CoveredStays(ruleSets, more[..|more| - 1]); }
  }

  /** The rule sets of every service that has a route. */
  ghost predicate CoversServices(ruleSets: map<string, RuleSetSource>, services: seq<Service>, legacy: Value) {
    forall i :: 0 <= i < |services| && LegacyServiceRoute(legacy, services[i].name).Some? ==> Covers(ruleSets, services[i].ruleSets)
  }

  lemma {:induction false} PutMissingOfKeeps(ruleSets: map<string, RuleSetSource>, services: seq<Service>,
                                             legacy: Value)
    ensures var all := PutMissingOf(ruleSets, services, legacy); Keeps(ruleSets, all) && CoversServices(all, services, legacy)
  {
    if services != [] {
      var before := PutMissingOf(ruleSets, services[..|services| - 1], legacy);
      PutMissingOfKeeps(ruleSets, services[..|services| - 1], legacy);
      PutMissingKeeps(before, services[|services| - 1].ruleSets);
    }
  }

  lemma {:induction false} CoveredServicesStay(ruleSets: map<string, RuleSetSource>, services: seq<Service>,
                                               legacy: Value)
    requires CoversServices(ruleSets, services, legacy)
    ensures PutMissingOf(ruleSets, services, legacy) == ruleSets
  {
    if services != [] {
      CoveredServicesStay(ruleSets, services[..|services| - 1], legacy);
      var last := services[|services| - 1];
      if LegacyServiceRoute(legacy, last.name).Some? { CoveredStays(ruleSets, last.ruleSets); }
    }
  }

  /** Declared rule sets stay as they are, and every service with a route has its rule sets declared. */
  lemma RuleSetsStay(r: Routing, legacy: Value)
    ensures Keeps(r.ruleSets, Adopted(r, legacy).ruleSets)
    ensures CoversServices(Adopted(r, legacy).ruleSets, LEGACY_SERVICES, legacy)
  {
    PutMissingOfKeeps(r.ruleSets, LEGACY_SERVICES, legacy);
  }

  ghost predicate DistinctTags(sets: seq<RuleSet>) {
    forall i, j :: 0 <= i < j < |sets| ==> sets[i].tag != sets[j].tag
  }

  /** Afterwards exactly the given rule sets are declared besides the old ones, each new one with its kind and URL. */
  ghost predicate Declares(before: map<string, RuleSetSource>, sets: seq<RuleSet>, after: map<string, RuleSetSource>) {
    && Keeps(before, after) && Covers(after, sets)
    && (forall tag :: tag in after && tag !in before ==> exists i :: 0 <= i < |sets| && sets[i].tag == tag)
    && (forall i :: 0 <= i < |sets| && sets[i].tag !in before ==> after[sets[i].tag] == RuleSetSource(sets[i].kind, sets[i].url))
  }

  lemma {:induction false} PutMissingDeclares(ruleSets: map<string, RuleSetSource>, more: seq<RuleSet>)
    requires DistinctTags(more)
    ensures Declares(ruleSets, more, PutMissing(ruleSets, more))
  {
    if more != [] {
      PutMissingDeclares(ruleSets, more[..|more| - 1]);
      OneMoreDeclared(ruleSets, more, PutMissing(ruleSets, more[..|more| - 1]));
    }
  }

  lemma OneMoreDeclared(ruleSets: map<string, RuleSetSource>, more: seq<RuleSet>, init: map<string, RuleSetSource>)
    requires more != [] && DistinctTags(more) && Declares(ruleSets, more[..|more| - 1], init)
    ensures Declares(ruleSets, more, if more[|more| - 1].tag in init then init else Put(init, more[|more| - 1]))
    ensures more[|more| - 1].tag in init <==> more[|more| - 1].tag in ruleSets
  {
    var last := more[|more| - 1];
    var after := if last.tag in init then init else Put(init, last);
    assert forall i :: 0 <= i < |more| - 1 ==> more[..|more| - 1][i] == more[i];
    forall tag | tag in after && tag !in ruleSets ensures exists i :: 0 <= i < |more| && more[i].tag == tag {
      if tag in init {
        var i :| 0 <= i < |more| - 1 && more[..|more| - 1][i].tag == tag;
        assert more[i].tag == tag;
      } else {
        assert more[|more| - 1].tag == tag;
      }
    }
  }

  /** The rule sets of the services the settings have a route for. */
  function RoutedSets(legacy: Value): seq<RuleSet> {
    (if RouteOf(legacy, "steam").Some? then STEAM.ruleSets else [])
    + (if RouteOf(legacy, "telegram").Some? then TELEGRAM.ruleSets else [])
  }

  lemma {:induction false} PutMissingConcat(ruleSets: map<string, RuleSetSource>, a: seq<RuleSet>, b: seq<RuleSet>)
    ensures PutMissing(ruleSets, a + b) == PutMissing(PutMissing(ruleSets, a), b)
  {
    if b == [] {
      assert a + b == a;
    } else {
      var init, last := b[..|b| - 1], b[|b| - 1];
      PutMissingConcat(ruleSets, a, init);
      assert (a + b)[..|a + b| - 1] == a + init && (a + b)[|a + b| - 1] == last;
    }
  }

  lemma RoutedSetsArePut(ruleSets: map<string, RuleSetSource>, legacy: Value)
    ensures PutMissingOf(ruleSets, LEGACY_SERVICES, legacy) == PutMissing(ruleSets, RoutedSets(legacy))
  {
    var steam := if RouteOf(legacy, "steam").Some? then STEAM.ruleSets else [];
    var telegram := if RouteOf(legacy, "telegram").Some? then TELEGRAM.ruleSets else [];
    assert LEGACY_SERVICES[..1] == [STEAM] && [STEAM][..0] == [];
    assert PutMissingOf(ruleSets, [STEAM], legacy) == PutMissing(ruleSets, steam);
    PutMissingConcat(ruleSets, steam, telegram);
  }

  lemma RoutedTagsDiffer(legacy: Value)
    ensures DistinctTags(RoutedSets(legacy))
  {
    assert "geosite-steam"[3] != "geoip-steam"[3] && "geosite-telegram"[3] != "geoip-telegram"[3];
    assert "geosite-steam"[8] != "geosite-telegram"[8] && "geoip-steam"[6] != "geoip-telegram"[6];
    assert "geosite-steam"[3] != "geoip-telegram"[3] && "geoip-steam"[3] != "geosite-telegram"[3];
  }

  /** The rule sets of the services with a route are declared, with kind and URL, and no others. */
  lemma AdoptedRuleSetsAre(r: Routing, legacy: Value)
    ensures Declares(r.ruleSets, RoutedSets(legacy), Adopted(r, legacy).ruleSets)
  {
    RoutedTagsDiffer(legacy);
    RoutedSetsArePut(r.ruleSets, legacy);
    PutMissingDeclares(r.ruleSets, RoutedSets(legacy));
  }

  /** Adopting again changes nothing. */
  lemma AdoptAgain(r: Routing, legacy: Value)
    ensures Adopted(Adopted(r, legacy), legacy) == Adopted(r, legacy)
  {
    var once := Adopted(r, legacy);
    RuleSetsStay(r, legacy);
    CoveredServicesStay(once.ruleSets, LEGACY_SERVICES, legacy);
    var rules := GeositeFirst(WantedBy(LEGACY_SERVICES, legacy));
    forall i | 0 <= i < |r.modes| ensures AdoptedModes(once.modes, rules)[i] == once.modes[i] {
      AdoptedModeAgain(r.modes[i], rules);
    }
  }

  // ----- Region modes -----

  lemma HasModeBefore(modes: seq<ModeDefinition>, more: seq<ModeDefinition>, id: string)
    requires modes <= more && HasMode(modes, id)
    ensures HasMode(more, id)
  {
    var i :| 0 <= i < |modes| && modes[i].id == id;
    assert more[i] == modes[i];
  }

  lemma {:induction false} WithModesKeeps(modes: seq<ModeDefinition>, more: seq<ModeDefinition>)
    ensures modes <= WithModes(modes, more)
    ensures forall i :: 0 <= i < |more| ==> HasMode(WithModes(modes, more), more[i].id)
  {
    if more != [] {
      var before := WithModes(modes, more[..|more| - 1]);
      var after := WithModes(modes, more);
      WithModesKeeps(modes, more[..|more| - 1]);
      forall i | 0 <= i < |more| ensures HasMode(after, more[i].id) {
        if i < |more| - 1 {
          HasModeBefore(before, after, more[i].id);
        } else if !HasMode(before, more[i].id) {
          assert after[|before|] == more[i];
        }
      }
    }
  }

  lemma {:induction false} PresentModesStay(modes: seq<ModeDefinition>, more: seq<ModeDefinition>)
    requires forall i :: 0 <= i < |more| ==> HasMode(modes, more[i].id)
    ensures WithModes(modes, more) == modes
  {
    if more != [] { PresentModesStay(modes, more[..|more| - 1]); }
  }

  lemma {:induction false} PutAllKeeps(ruleSets: map<string, RuleSetSource>, sets: seq<RuleSet>)
    ensures var all := PutAll(ruleSets, MissingSets(ruleSets, sets)); Keeps(ruleSets, all) && Covers(all, sets)
  {
    if sets != [] {
      var init, last := sets[..|sets| - 1], sets[|sets| - 1];
      PutAllKeeps(ruleSets, init);
      var missing := MissingSets(ruleSets, init);
      if last.tag in ruleSets {
        assert missing + [] == missing;
      } else {
        assert (missing + [last])[..|missing|] == missing;
      }
    }
  }

  lemma {:induction false} CoveredAreNotMissing(ruleSets: map<string, RuleSetSource>, sets: seq<RuleSet>)
    requires Covers(ruleSets, sets)
    ensures MissingSets(ruleSets, sets) == []
  {
    if sets != [] { CoveredAreNotMissing(ruleSets, sets[..|sets| - 1]); }
  }

  /** The modes, in their order, whose ids are not there yet. */
  function AbsentModes(modes: seq<ModeDefinition>, more: seq<ModeDefinition>): seq<ModeDefinition> {
    if more == [] then []
    else (if exists mode :: mode in modes && mode.id == more[0].id then [] else [more[0]]) + AbsentModes(modes, more[1..])
  }

  ghost predicate DistinctModes(modes: seq<ModeDefinition>) {
    forall i, j :: 0 <= i < j < |modes| ==> modes[i].id != modes[j].id
  }

  lemma {:induction false} AbsentModesLast(modes: seq<ModeDefinition>, more: seq<ModeDefinition>)
    requires more != []
    ensures AbsentModes(modes, more) == AbsentModes(modes, more[..|more| - 1]) + AbsentModes(modes, [more[|more| - 1]])
  {
    if |more| == 1 {
      assert more[..0] == [] && more == [more[0]];
    } else {
      AbsentModesLast(modes, more[1..]);
      assert more[1..][..|more| - 2] == more[..|more| - 1][1..];
    }
  }

  lemma {:induction false} AbsentAreOf(modes: seq<ModeDefinition>, more: seq<ModeDefinition>)
    ensures forall mode :: mode in AbsentModes(modes, more) ==> mode in more
  {
    if more != [] { AbsentAreOf(modes, more[1..]); }
  }

  lemma HasModeIff(modes: seq<ModeDefinition>, id: string)
    ensures HasMode(modes, id) <==> exists mode :: mode in modes && mode.id == id
  {}

  lemma {:induction false} AbsentModesAreAdded(modes: seq<ModeDefinition>, more: seq<ModeDefinition>)
    requires DistinctModes(more)
    ensures WithModes(modes, more) == modes + AbsentModes(modes, more)
  {
    if more == [] {
      assert modes + [] == modes;
    } else {
      var init, last := more[..|more| - 1], more[|more| - 1];
      AbsentModesAreAdded(modes, init);
      AbsentModesLast(modes, more);
      LastIsAbsent(modes, more);
      assert AbsentModes(modes, [last]) == if HasMode(modes, last.id) then [] else [last] by {
        HasModeIff(modes, last.id);
        assert [last][1..] == [];
      }
      assert (modes + AbsentModes(modes, init)) + [last] == modes + (AbsentModes(modes, init) + [last]);
    }
  }

  lemma LastIsAbsent(modes: seq<ModeDefinition>, more: seq<ModeDefinition>)
    requires DistinctModes(more) && more != []
    ensures var init, last := more[..|more| - 1], more[|more| - 1];
            HasMode(modes + AbsentModes(modes, init), last.id) <==> HasMode(modes, last.id)
  {
    var init, last := more[..|more| - 1], more[|more| - 1];
    AbsentAreOf(modes, init);
    HasModeIff(modes + AbsentModes(modes, init), last.id);
    HasModeIff(modes, last.id);
    forall mode | mode in init ensures mode.id != last.id {
      var i :| 0 <= i < |init| && init[i] == mode;
      assert more[i] == mode;
    }
  }

  lemma {:induction false} MissingSetsAreDeclared(ruleSets: map<string, RuleSetSource>, sets: seq<RuleSet>)
    requires DistinctTags(sets)
    ensures Declares(ruleSets, sets, PutAll(ruleSets, MissingSets(ruleSets, sets)))
  {
    if sets != [] {
      var init, last := sets[..|sets| - 1], sets[|sets| - 1];
      MissingSetsAreDeclared(ruleSets, init);
      OneMoreDeclared(ruleSets, sets, PutAll(ruleSets, MissingSets(ruleSets, init)));
      var missing := MissingSets(ruleSets, init);
      if last.tag in ruleSets {
        assert missing + [] == missing;
      } else {
        assert (missing + [last])[..|missing|] == missing;
      }
    }
  }

  /** A region's modes come last, those whose ids were not there; its rule sets are declared with kind and URL. */
  ghost predicate ExtendedBy(r: Routing, regionModes: seq<ModeDefinition>, regionSets: seq<RuleSet>, extended: Routing) {
    extended.modes == r.modes + AbsentModes(r.modes, regionModes) && Declares(r.ruleSets, regionSets, extended.ruleSets)
  }

  lemma DeclaresIsUnique(before: map<string, RuleSetSource>, sets: seq<RuleSet>, after: map<string, RuleSetSource>,
                         other: map<string, RuleSetSource>)
    requires Declares(before, sets, after) && Declares(before, sets, other)
    ensures after == other
  {
    forall tag
      ensures tag in after <==> tag in other
      ensures tag in after ==> after[tag] == other[tag]
    {
      if tag in before {
      } else if tag in after || tag in other {
        var i :| 0 <= i < |sets| && sets[i].tag == tag;
        assert after[sets[i].tag] == other[sets[i].tag];
      }
    }
  }

  /** A region is added exactly when the routing with its modes and rule sets is valid; otherwise nothing changes. */
  lemma RegionIsAddedIffValid(r: Routing, regionModes: seq<ModeDefinition>, regionSets: seq<RuleSet>, valid: Routing -> bool,
                              extended: Routing)
    requires DistinctModes(regionModes) && DistinctTags(regionSets) && ExtendedBy(r, regionModes, regionSets, extended)
    ensures WithRegion(r, regionModes, regionSets, valid) == if valid(extended) then extended else r
  {
    AbsentModesAreAdded(r.modes, regionModes);
    MissingSetsAreDeclared(r.ruleSets, regionSets);
    DeclaresIsUnique(r.ruleSets, regionSets, PutAll(r.ruleSets, MissingSets(r.ruleSets, regionSets)), extended.ruleSets);
  }

  /** Adding a region keeps all modes, in order and in front, and all rule sets; adding it again changes nothing. */
  lemma RegionIsAddedOnce(r: Routing, regionModes: seq<ModeDefinition>, regionSets: seq<RuleSet>,
                          valid: Routing -> bool)
    ensures var once := WithRegion(r, regionModes, regionSets, valid);
            && r.modes <= once.modes && Keeps(r.ruleSets, once.ruleSets)
            && WithRegion(once, regionModes, regionSets, valid) == once
  {
    WithModesKeeps(r.modes, regionModes);
    PutAllKeeps(r.ruleSets, regionSets);
    var once := WithRegion(r, regionModes, regionSets, valid);
    if once != r {
      PresentModesStay(once.modes, regionModes);
      CoveredAreNotMissing(once.ruleSets, regionSets);
    }
  }
}

/** Moving the service routes out of the settings: two file writes, either of which may not happen. */
module ServiceRouteMigration {
  import opened Wrappers
  import opened Json
  import opened RoutingConfigs
  import opened RoutingLaws

  /** The two files; `others` stands for all other settings. */
  datatype Disk = Disk(routing: Routing, legacy: Option<Value>, others: int)

  /** How far a start of the program gets. */
  datatype Reach = NothingWritten | RoutingWritten | BothWritten

  function Start(disk: Disk, reach: Reach): Disk {
    match disk.legacy
    case None => disk
    case Some(legacy) =>
      match reach
      case NothingWritten => disk
      case RoutingWritten => disk.(routing := Adopted(disk.routing, legacy))
      case BothWritten => disk.(routing := Adopted(disk.routing, legacy), legacy := None)
  }

  class Files {
    var routing: Routing
    var legacy: Option<Value>
    var others: int

    ghost function View(): Disk
      reads this
    {
      Disk(routing, legacy, others)
    }

    /** Writes the routing before it clears the settings; a write that fails ends the move. */
    method MoveServiceRoutes(reach: Reach) returns (moved: bool)
      modifies this
      ensures View() == Start(old(View()), reach)
      ensures moved <==> old(legacy).Some? && reach.BothWritten?
    {
      if legacy.None? { return false; }
      var config := new RoutingConfig(routing);
      var changed := config.AdoptServiceRoutes(legacy.value);
      if reach.NothingWritten? { return false; }
      if changed { routing := Routing(config.ruleSets, config.modes); }
      if reach.RoutingWritten? { return false; }
      legacy := None;
      return true;
    }
  }

  function Starts(disk: Disk, reaches: seq<Reach>): Disk
    decreases |reaches|
  {
    if reaches == [] then disk else Starts(Start(disk, reaches[0]), reaches[1..])
  }

  lemma {:induction false} DoneStaysDone(disk: Disk, reaches: seq<Reach>)
    requires disk.legacy.None?
    ensures Starts(disk, reaches) == disk
    decreases |reaches|
  {
    if reaches != [] { DoneStaysDone(disk, reaches[1..]); }
  }

  lemma WrittenOnce(disk: Disk, legacy: Value, reach: Reach)
    requires disk.legacy == Some(legacy)
    ensures var started := Start(disk, reach);
            && (started.legacy.Some? ==> started.legacy == disk.legacy)
            && Start(started, BothWritten) == Start(disk, BothWritten)
  {
    AdoptAgain(disk.routing, legacy);
  }

  /** However many starts were cut short, and wherever, the first complete one leaves what it would have left at once. */
  lemma {:induction false} CrashesDoNotMatter(disk: Disk, reaches: seq<Reach>)
    requires BothWritten in reaches
    ensures Starts(disk, reaches)
         == Disk(if disk.legacy.Some? then Adopted(disk.routing, disk.legacy.value) else disk.routing, None, disk.others)
    decreases |reaches|
  {
    if disk.legacy.None? {
      DoneStaysDone(disk, reaches);
    } else if reaches[0].BothWritten? {
      DoneStaysDone(Start(disk, BothWritten), reaches[1..]);
    } else {
      assert BothWritten in reaches[1..];
      WrittenOnce(disk, disk.legacy.value, reaches[0]);
      CrashesDoNotMatter(Start(disk, reaches[0]), reaches[1..]);
    }
  }

  /** Until then no route is lost: either the settings still have it, or the routing has adopted it. */
  lemma {:induction false} NoRouteIsLost(disk: Disk, reaches: seq<Reach>)
    requires disk.legacy.Some?
    ensures var after := Starts(disk, reaches);
            && (after.legacy == disk.legacy || (after.legacy == None && after.routing == Adopted(disk.routing, disk.legacy.value)))
            && after.others == disk.others && after.routing in {disk.routing, Adopted(disk.routing, disk.legacy.value)}
    decreases |reaches|
  {
    if reaches != [] {
      WrittenOnce(disk, disk.legacy.value, reaches[0]);
      if reaches[0].BothWritten? {
        DoneStaysDone(Start(disk, BothWritten), reaches[1..]);
      } else {
        NoRouteIsLost(Start(disk, reaches[0]), reaches[1..]);
      }
    }
  }
}
