/**
 Removal of legacy DNS outbounds from a configuration: rules that routed to one become
 hijack-dns rules, and the configuration is refused when anything else refers to it.
 */
module LegacyDnsOutbound {
  import opened Wrappers
  import opened Json
  import opened Decimal

  // --------------------------------------------------------------- outbounds

  predicate Readable(v: Value) {
    Dictionary(v) && "type" in Entries(v) && TextField(Entries(v), "type") && TextField(Entries(v), "tag")
  }

  predicate IsDns(v: Value) {
    TextAt(Entries(v), "type") == "dns"
  }

  function ExplicitTag(v: Value): string {
    TextAt(Entries(v), "tag")
  }

  /** An untagged entry is named by its position. */
  function TagOf(v: Value, i: nat): string {
    if ExplicitTag(v) == "" then Numeral(i) else ExplicitTag(v)
  }

  predicate Bare(v: Value) {
    forall key :: key in Entries(v) ==> key == "type" || key == "tag"
  }

  function DnsTags(outbounds: seq<Value>): set<string> {
    set i | 0 <= i < |outbounds| && DnsTag(outbounds[i], i).Some? :: DnsTag(outbounds[i], i).value
  }

  function Retained(outbounds: seq<Value>): seq<Value> {
    if |outbounds| == 0 then []
    else
      var last := outbounds[|outbounds| - 1];
      Retained(outbounds[..|outbounds| - 1]) + if DnsTag(last, |outbounds| - 1).Some? then [] else [last]
  }

  /** An outbound the scan accepts: readable, and without options if it is a DNS outbound. */
  predicate Scannable(v: Value) {
    Readable(v) && (IsDns(v) ==> Bare(v))
  }

  /** The tag of a DNS outbound. */
  function DnsTag(v: Value, i: nat): Option<string> {
    if IsDns(v) then Some(TagOf(v, i)) else None
  }

  predicate ReadableOutbounds(outbounds: seq<Value>) {
    && (forall i :: 0 <= i < |outbounds| ==> Scannable(outbounds[i]))
    && (forall i, j :: 0 <= i < j < |outbounds| && DnsTag(outbounds[i], i).Some? ==>
        DnsTag(outbounds[i], i) != DnsTag(outbounds[j], j))
  }

  predicate Unambiguous(retained: seq<Value>, tags: set<string>) {
    forall i :: 0 <= i < |retained| ==> ExplicitTag(retained[i]) != "" && ExplicitTag(retained[i]) !in tags
  }

  predicate EndpointFits(endpoint: Value, i: nat, tags: set<string>) {
    Dictionary(endpoint) && TextField(Entries(endpoint), "tag") && TagOf(endpoint, i) !in tags
  }

  predicate EndpointsFit(endpoints: seq<Value>, tags: set<string>) {
    forall i :: 0 <= i < |endpoints| ==> EndpointFits(endpoints[i], i, tags)
  }

  // ------------------------------------------------------------------- rules

  predicate Targets(rule: Value, tags: set<string>) {
    TextAt(Entries(rule), "outbound") in tags
  }

  predicate Routes(rule: Fields) {
    TextField(rule, "action") && TextAt(rule, "action") in {"", "route"}
  }

  predicate RulesFit(rules: seq<Value>, tags: set<string>) {
    forall i :: 0 <= i < |rules| ==> Dictionary(rules[i]) && (Targets(rules[i], tags) ==> Routes(Entries(rules[i])))
  }

  function MigratedRule(rule: Value, tags: set<string>): Value {
    if Targets(rule, tags) then Object((Entries(rule) - {"outbound"})["action" := Text("hijack-dns")]) else rule
  }

  function MigratedRules(rules: seq<Value>, tags: set<string>): seq<Value> {
    seq(|rules|, i requires 0 <= i < |rules| => MigratedRule(rules[i], tags))
  }

  // -------------------------------------------------------------- references

  const REFERENCE_KEYS := {"outbound", "detour", "download_detour", "default"}

  predicate Names(v: Value, tags: set<string>) {
    v.Text? && v.text in tags
  }

  predicate NamesAny(v: Value, tags: set<string>) {
    v.Array? && exists i :: 0 <= i < |v.items| && Names(v.items[i], tags)
  }

  predicate References(v: Value, tags: set<string>) {
    match v
    case Object(fields) =>
      exists key :: key in fields &&
        ((key in REFERENCE_KEYS && Names(fields[key], tags)) ||
         (key == "outbounds" && NamesAny(fields[key], tags)) ||
         References(fields[key], tags))
    case Array(items) => exists i :: 0 <= i < |items| && References(items[i], tags)
    case _ => false
  }

  datatype Step = Key(key: string) | Index(index: nat)

  /** The value a path leads to. */
  function At(v: Value, path: seq<Step>): Option<Value> {
    if |path| == 0 then Some(v)
    else match path[0]
      case Key(key) => if v.Object? && key in v.fields then At(v.fields[key], path[1..]) else None
      case Index(index) => if v.Array? && index < |v.items| then At(v.items[index], path[1..]) else None
  }

  /** An object that itself names a removed tag under one of the checked keys. */
  predicate Offends(v: Value, tags: set<string>) {
    && v.Object?
    && (exists key :: key in v.fields &&
          ((key in REFERENCE_KEYS && Names(v.fields[key], tags)) ||
           (key == "outbounds" && NamesAny(v.fields[key], tags))))
  }

  /** The search finds an offending object exactly when some path leads to one. */
  lemma ReferencesExactly(v: Value, tags: set<string>)
    ensures References(v, tags) <==> exists path :: At(v, path).Some? && Offends(At(v, path).value, tags)
  {
    if References(v, tags) {
      var path := OffendingPath(v, tags);
    }
    forall path | At(v, path).Some? && Offends(At(v, path).value, tags) ensures References(v, tags) {
      OffendingIsFound(v, tags, path);
    }
  }

  lemma {:induction false} OffendingPath(v: Value, tags: set<string>) returns (path: seq<Step>)
    requires References(v, tags)
    ensures At(v, path).Some? && Offends(At(v, path).value, tags)
  {
    if Offends(v, tags) {
      path := [];
    } else {
      match v
      case Object(fields) =>
        var key :| key in fields && References(fields[key], tags);
        var rest := OffendingPath(fields[key], tags);
        path := [Key(key)] + rest;
        assert path[1..] == rest;
      case Array(items) =>
        var i :| 0 <= i < |items| && References(items[i], tags);
        var rest := OffendingPath(items[i], tags);
        path := [Index(i)] + rest;
        assert path[1..] == rest;
    }
  }

  lemma {:induction false} OffendingIsFound(v: Value, tags: set<string>, path: seq<Step>)
    requires At(v, path).Some? && Offends(At(v, path).value, tags)
    ensures References(v, tags)
    decreases path
  {
    if |path| == 0 {
    } else {
      match path[0]
      case Key(key) => OffendingIsFound(v.fields[key], tags, path[1..]);
      case Index(i) => OffendingIsFound(v.items[i], tags, path[1..]);
    }
  }

  const SCANNED := ["outbounds", "endpoints", "inbounds", "dns", "route", "services", "http_clients"]

  predicate Unreferenced(root: Fields, tags: set<string>) {
    forall k :: 0 <= k < |SCANNED| && SCANNED[k] in root ==> !References(root[SCANNED[k]], tags)
  }

  // --------------------------------------------------------------- migration

  function OutboundsOf(root: Fields): seq<Value> {
    var list := ListAt(root, "outbounds");
    if list.Some? then list.value else []
  }

  function RouteOf(root: Fields): Fields {
    EntriesAt(root, "route")
  }

  function RulesOf(root: Fields): seq<Value> {
    var list := ListAt(RouteOf(root), "rules");
    if list.Some? then list.value else []
  }

  function FinalOf(root: Fields): string {
    TextAt(RouteOf(root), "final")
  }

  function WithRules(root: Fields, tags: set<string>): Fields {
    var route := RouteOf(root);
    if "rules" !in route then root
    else if route["rules"].Array? then
      root["route" := Object(route["rules" := Array(MigratedRules(route["rules"].items, tags))])]
    else root["route" := Object(route)]
  }

  function Rewritten(root: Fields): Fields {
    WithRules(root, DnsTags(OutboundsOf(root)))["outbounds" := Array(Retained(OutboundsOf(root)))]
  }

  predicate FinalFits(root: Fields, tags: set<string>) {
    && FinalOf(root) !in tags
    && !(FinalOf(root) == "" && |OutboundsOf(root)| > 0 && IsDns(OutboundsOf(root)[0]))
  }

  predicate RouteFits(root: Fields, tags: set<string>) {
    && ("route" in root ==> Dictionary(root["route"]))
    && FinalFits(root, tags)
    && ListAt(RouteOf(root), "rules").Some?
    && RulesFit(RulesOf(root), tags)
  }

  /** A configuration with DNS outbounds that can be rewritten. */
  predicate Rewritable(root: Fields) {
    var tags := DnsTags(OutboundsOf(root));
    && Unambiguous(Retained(OutboundsOf(root)), tags)
    && ListAt(root, "endpoints").Some? && EndpointsFit(ListAt(root, "endpoints").value, tags)
    && RouteFits(root, tags)
    && Unreferenced(Rewritten(root), tags)
  }

  predicate HasDns(root: Fields) {
    DnsTags(OutboundsOf(root)) != {}
  }

  predicate Admitted(root: Fields) {
    ListAt(root, "outbounds").Some? && ReadableOutbounds(OutboundsOf(root)) && (HasDns(root) ==> Rewritable(root))
  }

  function Migrated(root: Fields): Fields {
    if HasDns(root) then Rewritten(root) else root
  }

  // ----------------------------------------------------------------- meaning

  /**
   Which flows of type F a rule matches, reading everything but its outbound and action, and
   what a matching rule with another action does: continue with a flow, or decide by itself.
   */
  datatype Router<!F> = Router(matches: (Fields, F) -> bool, passes: (Fields, F) -> Option<F>)

  datatype Choice = Routed(rule: Fields) | Hijacked(criteria: Fields) | Other(rule: Fields) | FallThrough

  function Criteria(rule: Fields): Fields {
    rule - {"outbound", "action"}
  }

  function Choose<F>(r: Router<F>, rules: seq<Value>, f: F): Choice
    decreases |rules|
  {
    if |rules| == 0 then FallThrough
    else
      var rule := Entries(rules[0]);
      if !r.matches(Criteria(rule), f) then Choose(r, rules[1..], f)
      else if Routes(rule) then Routed(rule)
      else if TextAt(rule, "action") == "hijack-dns" then Hijacked(Criteria(rule))
      else
        var f' := r.passes(rule, f);
        if f'.Some? then Choose(r, rules[1..], f'.value) else Other(rule)
  }

  /** The router's loop: the first matching rule that does not hand the flow on decides. */
  method FirstMatch<F>(r: Router<F>, rules: seq<Value>, f: F) returns (choice: Choice)
    ensures choice == Choose(r, rules, f)
  {
    var flow := f;
    for i := 0 to |rules|
      invariant Choose(r, rules, f) == Choose(r, rules[i..], flow)
    {
      assert rules[i..][1..] == rules[i + 1..];
      var rule := Entries(rules[i]);
      var action := TextAt(rule, "action");
      if r.matches(rule - {"outbound", "action"}, flow) {
        if TextField(rule, "action") && (action == "" || action == "route") {
          return Routed(rule);
        }
        if action == "hijack-dns" {
          return Hijacked(rule - {"outbound", "action"});
        }
        var passed := r.passes(rule, flow);
        if passed.None? {
          return Other(rule);
        }
        flow := passed.value;
      }
    }
    return FallThrough;
  }

  /** What a choice becomes once the tags are gone. */
  function Redirected(choice: Choice, tags: set<string>): Choice {
    if choice.Routed? && TextAt(choice.rule, "outbound") in tags then Hijacked(Criteria(choice.rule)) else choice
  }

  lemma MigratedRuleDecides(rule: Value, tags: set<string>)
    requires Targets(rule, tags)
    ensures var rule' := Entries(MigratedRule(rule, tags));
            && Criteria(rule') == Criteria(Entries(rule)) && !Routes(rule') && TextAt(rule', "action") == "hijack-dns"
  {
    assert Criteria(Entries(MigratedRule(rule, tags))) == Criteria(Entries(rule));
  }

  lemma {:induction false} MigratedRulesChoose<F>(r: Router<F>, rules: seq<Value>, tags: set<string>, f: F)
    requires RulesFit(rules, tags)
    ensures Choose(r, MigratedRules(rules, tags), f) == Redirected(Choose(r, rules, f), tags)
    decreases |rules|
  {
    if |rules| == 0 {
    } else {
      var rest := rules[1..];
      assert MigratedRules(rules, tags)[1..] == MigratedRules(rest, tags);
      var rule := Entries(rules[0]);
      if Targets(rules[0], tags) {
        MigratedRuleDecides(rules[0], tags);
      }
      if !r.matches(Criteria(rule), f) {
        MigratedRulesChoose(r, rest, tags, f);
      } else {
        var f' := r.passes(rule, f);
        if f'.Some? {
          MigratedRulesChoose(r, rest, tags, f'.value);
        }
      }
    }
  }

  lemma RewrittenRules(root: Fields)
    requires RouteFits(root, DnsTags(OutboundsOf(root)))
    ensures RulesOf(Rewritten(root)) == MigratedRules(RulesOf(root), DnsTags(OutboundsOf(root)))
    ensures FinalOf(Rewritten(root)) == FinalOf(root)
  {
  }

  /**
   For every flow the rewritten rules hijack DNS where the old ones routed to a removed
   outbound, and choose what the old ones chose everywhere else.
   */
  lemma MigrationPreservesRouting<F>(r: Router<F>, root: Fields, f: F)
    requires Admitted(root)
    ensures Choose(r, RulesOf(Migrated(root)), f) == Redirected(Choose(r, RulesOf(root), f), DnsTags(OutboundsOf(root)))
  {
    if HasDns(root) {
      RewrittenRules(root);
      MigratedRulesChoose(r, RulesOf(root), DnsTags(OutboundsOf(root)), f);
    }
  }

  // -------------------------------------------------------- what is left alone

  lemma {:induction false} RetainedHolds(outbounds: seq<Value>, v: Value)
    ensures v in Retained(outbounds) <==> v in outbounds && !IsDns(v)
  {
    if |outbounds| == 0 {
    } else {
      var front := outbounds[..|outbounds| - 1];
      RetainedHolds(front, v);
      assert outbounds == front + [outbounds[|outbounds| - 1]];
    }
  }

  lemma {:induction false} RetainedFirst(outbounds: seq<Value>)
    requires |outbounds| > 0 && !IsDns(outbounds[0])
    ensures |Retained(outbounds)| > 0 && Retained(outbounds)[0] == outbounds[0]
  {
    if |outbounds| > 1 {
      RetainedFirst(outbounds[..|outbounds| - 1]);
    }
  }

  /** Where a flow goes that no rule decides: the final outbound, or else the first one. */
  function Default(root: Fields): string {
    if FinalOf(root) != "" then FinalOf(root)
    else if |OutboundsOf(root)| > 0 then TagOf(OutboundsOf(root)[0], 0)
    else ""
  }

  lemma MigrationKeepsDefault(root: Fields)
    requires Admitted(root)
    ensures Default(Migrated(root)) == Default(root)
    ensures FinalOf(root) == "" && |OutboundsOf(root)| > 0 ==>
              |OutboundsOf(Migrated(root))| > 0 && OutboundsOf(Migrated(root))[0] == OutboundsOf(root)[0]
  {
    if HasDns(root) {
      RewrittenRules(root);
      if FinalOf(root) == "" && |OutboundsOf(root)| > 0 {
        RetainedFirst(OutboundsOf(root));
      }
    }
  }

  /** What every tag names: a retained outbound keeps its tag, and the removed tags name nothing. */
  lemma MigrationKeepsTags(root: Fields, tag: string, v: Value)
    requires Admitted(root)
    ensures (exists j :: 0 <= j < |OutboundsOf(Migrated(root))| &&
                         OutboundsOf(Migrated(root))[j] == v && TagOf(v, j) == tag) <==>
            (exists i :: 0 <= i < |OutboundsOf(root)| && OutboundsOf(root)[i] == v && TagOf(v, i) == tag && !IsDns(v))
  {
    var outbounds := OutboundsOf(root);
    if HasDns(root) {
      RetainedHolds(outbounds, v);
      ExplicitTagsStay(outbounds, Retained(outbounds), DnsTags(outbounds), tag, v);
    } else {
      assert forall i :: 0 <= i < |outbounds| && IsDns(outbounds[i]) ==>
               DnsTag(outbounds[i], i).value in DnsTags(outbounds);
    }
  }

  lemma ExplicitTagsStay(outbounds: seq<Value>, retained: seq<Value>, tags: set<string>, tag: string, v: Value)
    requires Unambiguous(retained, tags) && (v in retained <==> v in outbounds && !IsDns(v))
    ensures (exists j :: 0 <= j < |retained| && retained[j] == v && TagOf(v, j) == tag) <==>
            (exists i :: 0 <= i < |outbounds| && outbounds[i] == v && TagOf(v, i) == tag && !IsDns(v))
  {
    assert v in retained ==> ExplicitTag(v) != "";
    assert ExplicitTag(v) != "" ==> forall j: nat :: TagOf(v, j) == ExplicitTag(v);
  }

  /** No checked key at any depth of a scanned section still names a removed tag. */
  lemma MigrationLeavesNoReference(root: Fields, k: nat, path: seq<Step>)
    requires Admitted(root) && k < |SCANNED| && SCANNED[k] in Migrated(root)
    requires HasDns(root) && At(Migrated(root)[SCANNED[k]], path).Some?
    ensures !Offends(At(Migrated(root)[SCANNED[k]], path).value, DnsTags(OutboundsOf(root)))
  {
    ReferencesExactly(Migrated(root)[SCANNED[k]], DnsTags(OutboundsOf(root)));
  }

  /** The name of a DNS outbound of the configuration. */
  predicate NamesDnsOutbound(root: Fields, tag: string) {
    exists i :: 0 <= i < |OutboundsOf(root)| && TextAt(Entries(OutboundsOf(root)[i]), "type") == "dns" &&
                tag == (if TextAt(Entries(OutboundsOf(root)[i]), "tag") != ""
                        then TextAt(Entries(OutboundsOf(root)[i]), "tag") else Numeral(i))
  }

  lemma RemovedTagsAre(root: Fields, tag: string)
    ensures tag in DnsTags(OutboundsOf(root)) <==> NamesDnsOutbound(root, tag)
  {
  }

  /** What the migrated configuration says nowhere of a removed tag, section by section and key by key. */
  lemma NothingNamesARemovedTag(root: Fields, section: string, path: seq<Step>, o: Fields, tag: string, i: nat)
    requires Admitted(root) && NamesDnsOutbound(root, tag)
    requires section in {"outbounds", "endpoints", "inbounds", "dns", "route", "services", "http_clients"}
    requires section in Migrated(root) && At(Migrated(root)[section], path) == Some(Object(o))
    ensures "outbound" in o ==> o["outbound"] != Text(tag)
    ensures "detour" in o ==> o["detour"] != Text(tag)
    ensures "download_detour" in o ==> o["download_detour"] != Text(tag)
    ensures "default" in o ==> o["default"] != Text(tag)
    ensures "outbounds" in o && o["outbounds"].Array? && i < |o["outbounds"].items| ==>
              o["outbounds"].items[i] != Text(tag)
  {
    RemovedTagsAre(root, tag);
    var k := SectionIsScanned(section);
    MigrationLeavesNoReference(root, k, path);
    InoffensiveNamesNothing(o, DnsTags(OutboundsOf(root)), tag, i);
  }

  lemma SectionIsScanned(section: string) returns (k: nat)
    requires section in {"outbounds", "endpoints", "inbounds", "dns", "route", "services", "http_clients"}
    ensures k < |SCANNED| && SCANNED[k] == section
  {
    k := if section == "outbounds" then 0 else if section == "endpoints" then 1 else if section == "inbounds" then 2
         else if section == "dns" then 3 else if section == "route" then 4 else if section == "services" then 5 else 6;
  }

  lemma InoffensiveNamesNothing(o: Fields, tags: set<string>, tag: string, i: nat)
    requires !Offends(Object(o), tags) && tag in tags
    ensures "outbound" in o ==> o["outbound"] != Text(tag)
    ensures "detour" in o ==> o["detour"] != Text(tag)
    ensures "download_detour" in o ==> o["download_detour"] != Text(tag)
    ensures "default" in o ==> o["default"] != Text(tag)
    ensures "outbounds" in o && o["outbounds"].Array? && i < |o["outbounds"].items| ==>
              o["outbounds"].items[i] != Text(tag)
  {
    if "outbounds" in o && o["outbounds"].Array? && i < |o["outbounds"].items| && o["outbounds"].items[i] == Text(tag) {
      assert NamesAny(o["outbounds"], tags);
    }
  }

  // ------------------------------------------------------------- the program

  /** What one pass over the outbounds collects. */
  datatype Scan = Scan(tags: set<string>, defaultIsDns: bool, retained: seq<Value>)

  method ScanOne(v: Value, i: nat) returns (tag: Option<Option<string>>)
    ensures tag.Some? <==> Scannable(v)
    ensures tag.Some? ==> tag.value == DnsTag(v, i)
  {
    if !v.Object? && !v.Null? {
      return None;
    }
    var fields := Entries(v);
    if "type" !in fields || !(fields["type"].Text? || fields["type"].Null?) {
      return None;
    }
    if "tag" in fields && !(fields["tag"].Text? || fields["tag"].Null?) {
      return None;
    }
    if fields["type"] != Text("dns") {
      return Some(None);
    }
    var others := fields.Keys - {"type", "tag"};
    assert Bare(v) <==> forall key :: key in fields ==> key !in others;
    if others != {} {
      return None;
    }
    var name := TextAt(fields, "tag");
    if name == "" {
      name := Numeral(i);
    }
    return Some(Some(name));
  }

  predicate Progress(outbounds: seq<Value>, i: nat, scan: Scan)
    requires i <= |outbounds|
  {
    && (forall j :: 0 <= j < i ==> Scannable(outbounds[j]))
    && (forall j, k :: 0 <= j < k < i && DnsTag(outbounds[j], j).Some? ==>
        DnsTag(outbounds[j], j) != DnsTag(outbounds[k], k))
    && scan.tags == (set j | 0 <= j < i && DnsTag(outbounds[j], j).Some? :: DnsTag(outbounds[j], j).value)
    && scan.retained == Retained(outbounds[..i])
    && (scan.defaultIsDns <==> i > 0 && DnsTag(outbounds[0], 0).Some?)
  }

  lemma RetainedNext(outbounds: seq<Value>, i: nat)
    requires i < |outbounds|
    ensures Retained(outbounds[..i + 1]) ==
            Retained(outbounds[..i]) + if DnsTag(outbounds[i], i).Some? then [] else [outbounds[i]]
  {
    assert outbounds[..i + 1][..i] == outbounds[..i];
  }

  method ScanNext(outbounds: seq<Value>, i: nat, scan: Scan) returns (after: Option<Scan>)
    requires i < |outbounds| && Progress(outbounds, i, scan)
    ensures after.None? ==> !ReadableOutbounds(outbounds)
    ensures after.Some? ==> Progress(outbounds, i + 1, after.value)
  {
    RetainedNext(outbounds, i);
    var tag := ScanOne(outbounds[i], i);
    if tag.None? {
      return None;
    }
    if tag.value.None? {
      return Some(scan.(retained := scan.retained + [outbounds[i]]));
    }
    if tag.value.value in scan.tags {
      return None;
    }
    return Some(scan.(tags := scan.tags + {tag.value.value}, defaultIsDns := scan.defaultIsDns || i == 0));
  }

  method ScanOutbounds(outbounds: seq<Value>) returns (scan: Option<Scan>)
    ensures scan.Some? <==> ReadableOutbounds(outbounds)
    ensures scan.Some? ==> Progress(outbounds, |outbounds|, scan.value)
  {
    var done := Scan({}, false, []);
    for i := 0 to |outbounds|
      invariant Progress(outbounds, i, done)
    {
      scan := ScanNext(outbounds, i, done);
      if scan.None? {
        return;
      }
      done := scan.value;
    }
    return Some(done);
  }

  method CheckRetained(retained: seq<Value>, tags: set<string>) returns (ok: bool)
    ensures ok <==> Unambiguous(retained, tags)
  {
    for i := 0 to |retained|
      invariant Unambiguous(retained[..i], tags)
    {
      var tag := TextAt(Entries(retained[i]), "tag");
      if tag == "" || tag in tags {
        return false;
      }
    }
    assert retained[..|retained|] == retained;
    return true;
  }

  method CheckEndpoints(endpoints: seq<Value>, tags: set<string>) returns (ok: bool)
    ensures ok <==> EndpointsFit(endpoints, tags)
  {
    for i := 0 to |endpoints|
      invariant forall j :: 0 <= j < i ==> EndpointFits(endpoints[j], j, tags)
    {
      if !endpoints[i].Object? && !endpoints[i].Null? {
        return false;
      }
      var endpoint := Entries(endpoints[i]);
      if "tag" in endpoint && !(endpoint["tag"].Text? || endpoint["tag"].Null?) {
        return false;
      }
      var tag := TextAt(endpoint, "tag");
      if tag == "" {
        tag := Numeral(i);
      }
      if tag in tags {
        return false;
      }
    }
    return true;
  }

  method RewriteRules(rules: seq<Value>, tags: set<string>) returns (rewritten: Option<seq<Value>>)
    ensures rewritten.Some? <==> RulesFit(rules, tags)
    ensures rewritten.Some? ==> rewritten.value == MigratedRules(rules, tags)
  {
    var done := rules;
    for i := 0 to |rules|
      invariant |done| == |rules| && RulesFit(rules[..i], tags)
      invariant forall j :: 0 <= j < |rules| ==> done[j] == if j < i then MigratedRule(rules[j], tags) else rules[j]
    {
      if !Dictionary(rules[i]) {
        return None;
      }
      var rule := Entries(rules[i]);
      if TextAt(rule, "outbound") in tags {
        if !TextField(rule, "action") || TextAt(rule, "action") !in {"", "route"} {
          return None;
        }
        rule := rule - {"outbound"};
        rule := rule["action" := Text("hijack-dns")];
        done := done[i := Object(rule)];
      }
    }
    assert rules[..|rules|] == rules;
    return Some(done);
  }

  method ListNames(items: seq<Value>, tags: set<string>) returns (found: bool)
    ensures found <==> exists i :: 0 <= i < |items| && Names(items[i], tags)
  {
    for i := 0 to |items|
      invariant forall j :: 0 <= j < i ==> !Names(items[j], tags)
    {
      if items[i].Text? && items[i].text in tags {
        return true;
      }
    }
    return false;
  }

  /** One entry of an object names a removed tag by itself. */
  predicate EntryNames(key: string, child: Value, tags: set<string>) {
    (key in REFERENCE_KEYS && Names(child, tags)) || (key == "outbounds" && NamesAny(child, tags))
  }

  method ExamineEntry(key: string, child: Value, tags: set<string>) returns (found: bool)
    ensures found <==> EntryNames(key, child, tags)
  {
    found := false;
    match key {
      case "outbound" => found := child.Text? && child.text in tags;
      case "detour" => found := child.Text? && child.text in tags;
      case "download_detour" => found := child.Text? && child.text in tags;
      case "default" => found := child.Text? && child.text in tags;
      case "outbounds" =>
        if child.Array? {
          found := ListNames(child.items, tags);
        }
      case _ =>
    }
  }

  /** The search through a decoded value. */
  method Search(v: Value, tags: set<string>) returns (found: bool)
    ensures found <==> References(v, tags)
    decreases v
  {
    match v {
      case Object(fields) =>
        var left := fields.Keys;
        while left != {}
          invariant left <= fields.Keys
          invariant forall key :: key in fields && key !in left ==>
                      !EntryNames(key, fields[key], tags) && !References(fields[key], tags)
          decreases left
        {
          var key :| key in left;
          found := ExamineEntry(key, fields[key], tags);
          if found {
            return;
          }
          found := Search(fields[key], tags);
          if found {
            return;
          }
          left := left - {key};
        }
        return false;
      case Array(items) =>
        for i := 0 to |items|
          invariant forall j :: 0 <= j < i ==> !References(items[j], tags)
        {
          found := Search(items[i], tags);
          if found {
            return;
          }
        }
        return false;
      case _ => return false;
    }
  }

  method CheckReferences(root: Fields, tags: set<string>) returns (ok: bool)
    ensures ok <==> Unreferenced(root, tags)
  {
    var sections := ["outbounds", "endpoints", "inbounds", "dns", "route", "services", "http_clients"];
    for k := 0 to |sections|
      invariant forall j :: 0 <= j < k && sections[j] in root ==> !References(root[sections[j]], tags)
    {
      if sections[k] in root {
        var found := Search(root[sections[k]], tags);
        if found {
          return false;
        }
      }
    }
    return true;
  }

  /** A decoded configuration that is rewritten in place. */
  class Configuration {
    var root: Fields

    constructor (root: Fields)
      ensures this.root == root
    {
      this.root := root;
    }

    method RewriteRoute(tags: set<string>) returns (ok: bool)
      requires FinalFits(root, tags)
      modifies this
      ensures ok <==> RouteFits(old(root), tags)
      ensures ok ==> root == WithRules(old(root), tags)
    {
      if "route" in root && !Dictionary(root["route"]) {
        return false;
      }
      var route := EntriesAt(root, "route");
      var rules := ListAt(route, "rules");
      if rules.None? {
        return false;
      }
      var rewritten := RewriteRules(rules.value, tags);
      if rewritten.None? {
        return false;
      }
      if "rules" in route {
        if route["rules"].Array? {
          route := route["rules" := Array(rewritten.value)];
        }
        root := root["route" := Object(route)];
      }
      return true;
    }

    /** None is a refusal; otherwise says whether DNS outbounds were removed. */
    method MigrateOutbounds() returns (changed: Option<bool>)
      modifies this
      ensures changed.Some? <==> Admitted(old(root))
      ensures changed.Some? ==> root == Migrated(old(root)) && (changed.value <==> HasDns(old(root)))
    {
      var outbounds := ListAt(root, "outbounds");
      if outbounds.None? {
        return None;
      }
      var scan := ScanOutbounds(outbounds.value);
      if scan.None? {
        return None;
      }
      assert outbounds.value[..|outbounds.value|] == outbounds.value;
      var Scan(tags, defaultIsDns, retained) := scan.value;
      if tags == {} {
        return Some(false);
      }
      var retainedOk := CheckRetained(retained, tags);
      var endpoints := ListAt(root, "endpoints");
      if !retainedOk || endpoints.None? {
        return None;
      }
      var endpointsOk := CheckEndpoints(endpoints.value, tags);
      var final := TextAt(EntriesAt(root, "route"), "final");
      if !endpointsOk || final in tags || (final == "" && defaultIsDns) {
        return None;
      }
      var routeOk := RewriteRoute(tags);
      if !routeOk {
        return None;
      }
      root := root["outbounds" := Array(retained)];
      var clear := CheckReferences(root, tags);
      return if clear then Some(true) else None;
    }
  }
}
