/**
 The prepared profile read as the core will read it: its own outbounds and rules say where every flow goes, and
 that nothing but the promised overrides has been added.
 */
module DpiProfile {
  import opened Wrappers
  import opened Json
  import opened DpiGraph
  import opened DpiRouting
  import opened DpiOverrides
  import opened DpiSelection
  import opened DpiPrepare

  /** The objects of a list. */
  function ObjectsOf(v: Value): seq<Fields> {
    if v.Array? then seq(|v.items|, i requires 0 <= i < |v.items| => Entries(v.items[i])) else []
  }

  function OutboundsIn(profile: Fields): seq<Fields> {
    if "outbounds" in profile then ObjectsOf(profile["outbounds"]) else []
  }

  function RulesIn(profile: Fields): seq<Fields> {
    var route := EntriesAt(profile, "route");
    if "rules" in route then ObjectsOf(route["rules"]) else []
  }

  /** The outbounds after those of the request. */
  function AddedIn(q: Request, profile: Fields): seq<Fields> {
    if |OutboundsIn(profile)| < |q.outbounds| then [] else OutboundsIn(profile)[|q.outbounds|..]
  }

  /** Where each of the outbounds falls back to. */
  function FallbackIn(outbounds: seq<Fields>): map<string, string> {
    if |outbounds| == 0 then map[]
    else
      var last := outbounds[|outbounds| - 1];
      FallbackIn(outbounds[..|outbounds| - 1])[TextAt(last, "tag") := TextAt(last, "vpn_outbound")]
  }

  lemma ListsAre(q: Request, outbounds: seq<Fields>, rules: seq<Fields>)
    ensures OutboundsIn(ProfileOf(q, outbounds, rules)) == outbounds && RulesIn(ProfileOf(q, outbounds, rules)) == rules
  {
    assert ObjectsOf(Array(Objects(outbounds))) == outbounds && ObjectsOf(Array(Objects(rules))) == rules;
    var route := q.route["rules" := Array(Objects(rules))];
    assert ProfileOf(q, outbounds, rules)["route"] == Object(route);
  }

  lemma AddedIs(q: Request, p: Prepared)
    requires IsPrepared(q, p)
    ensures OutboundsIn(p.profile) == q.outbounds + AddedOf(q, |q.services|).0
    ensures AddedIn(q, p.profile) == AddedOf(q, |q.services|).0
    ensures RulesIn(p.profile) == Insert(q.rules, PlanOf(q, |q.services|).tags)
  {
    ListsAre(q, q.outbounds + AddedOf(q, |q.services|).0, Insert(q.rules, PlanOf(q, |q.services|).tags));
  }

  lemma FallbackSnoc(outbounds: seq<Fields>, last: Fields)
    ensures FallbackIn(outbounds + [last]) == FallbackIn(outbounds)[TextAt(last, "tag") := TextAt(last, "vpn_outbound")]
  {
    assert (outbounds + [last])[..|outbounds|] == outbounds;
  }

  lemma LocalFallsBack(id: string, bindInterface: string, vpn: string)
    ensures TextAt(LocalOutbound(id, bindInterface, vpn), "tag") == LocalTag(id)
    ensures TextAt(LocalOutbound(id, bindInterface, vpn), "vpn_outbound") == vpn
  {
  }

  lemma {:induction false} AddedFallsBack(q: Request, n: nat)
    requires n <= |q.services|
    ensures FallbackIn(AddedOf(q, n).0) == PlanOf(q, n).fallback
  {
    if n == 0 {
    } else {
      AddedFallsBack(q, n - 1);
      var id := q.services[n - 1].0;
      if Used(q, id) {
        AddedLast(q, n);
        PlanLast(q, n);
        LocalFallsBack(id, q.bindInterface, VpnOf(q, id));
        FallbackSnoc(AddedOf(q, n - 1).0, LocalOutbound(id, q.bindInterface, VpnOf(q, id)));
      }
    }
  }

  /** In the mode in which undecided flows are protected, services fall back to where those go. */
  ghost predicate FallsBackToFinal(q: Request, id: string) {
    q.mode == "smart_safe" && Used(q, id) ==> VpnOf(q, id) == q.final
  }

  lemma {:induction false} PlanFallsBackToFinal(q: Request, n: nat, tag: string)
    requires n <= |q.services| && forall k :: 0 <= k < n ==> FallsBackToFinal(q, q.services[k].0)
    requires q.mode == "smart_safe" && tag in PlanOf(q, n).fallback
    ensures PlanOf(q, n).fallback[tag] == q.final
  {
    if n == 0 {
    } else {
      var id := q.services[n - 1].0;
      assert FallsBackToFinal(q, id);
      if Used(q, id) {
        PlanLast(q, n);
      }
      if !Used(q, id) || tag != LocalTag(id) {
        PlanFallsBackToFinal(q, n - 1, tag);
      }
    }
  }

  lemma AcceptedFallBackToFinal(q: Request, t: Trust, tag: string)
    requires Accepted(q, t) && q.mode == "smart_safe" && tag in PlanOf(q, |q.services|).fallback
    ensures PlanOf(q, |q.services|).fallback[tag] == q.final
  {
    forall k | 0 <= k < |q.services| ensures FallsBackToFinal(q, q.services[k].0) {
      if Used(q, q.services[k].0) {
        VpnIsCommon(q, t, GraphOf(q.outbounds), q.services[k].0, q.services[k].1);
      }
    }
    PlanFallsBackToFinal(q, |q.services|, tag);
  }

  // ------------------------------------------------------------- the outbounds

  /** An added outbound and its report: bound to the request's interface, and named after its service. */
  predicate Reports(q: Request, o: Fields, report: Service) {
    && o.Keys == {"type", "tag", "windows_direct", "bind_interface", "vpn_outbound", "service_id", "prefer_tcp"}
    && o["type"] == Text("pokrov-local-dpi") && o["windows_direct"] == Bool(true)
    && o["bind_interface"] == Text(q.bindInterface) && o["vpn_outbound"].Text?
    && o["service_id"] == Text(report.serviceId) && o["prefer_tcp"] == Bool(report.serviceId == "youtube")
    && o["tag"] == Text(report.outboundTag) && report.outboundTag == "pokrov-local-dpi-" + report.serviceId
    && (report.serviceId, report.controlHost) in q.services
    && report.domains == AllPicked(PickerOf(q.catalog, report.serviceId), q.rules)
  }

  lemma LocalIsReported(q: Request, id: string, host: string, vpn: string)
    requires (id, host) in q.services
    ensures Reports(q, LocalOutbound(id, q.bindInterface, vpn),
                    Service(id, LocalTag(id), host, AllPicked(PickerOf(q.catalog, id), q.rules)))
  {
  }

  lemma AddedLast(q: Request, n: nat)
    requires 0 < n <= |q.services| && Used(q, q.services[n - 1].0)
    ensures var (id, host) := q.services[n - 1];
            && AddedOf(q, n).0 == AddedOf(q, n - 1).0 + [LocalOutbound(id, q.bindInterface, VpnOf(q, id))]
            && AddedOf(q, n).1 == AddedOf(q, n - 1).1 +
                                  [Service(id, LocalTag(id), host, AllPicked(PickerOf(q.catalog, id), q.rules))]
  {
  }

  lemma {:induction false} AddedIsReported(q: Request, n: nat, k: nat)
    requires n <= |q.services| && k < |AddedOf(q, n).0|
    ensures |AddedOf(q, n).1| == |AddedOf(q, n).0| && Reports(q, AddedOf(q, n).0[k], AddedOf(q, n).1[k])
    decreases n
  {
    AddedMatch(q, n);
    AddedMatch(q, n - 1);
    var (id, host) := q.services[n - 1];
    if Used(q, id) {
      AddedLast(q, n);
      if k == |AddedOf(q, n - 1).0| {
        assert q.services[n - 1] in q.services;
        LocalIsReported(q, id, host, VpnOf(q, id));
      } else {
        AddedIsReported(q, n - 1, k);
      }
    } else {
      AddedIsReported(q, n - 1, k);
    }
  }

  lemma {:induction false} AddedMatch(q: Request, n: nat)
    requires n <= |q.services|
    ensures |AddedOf(q, n).1| == |AddedOf(q, n).0|
  {
    if n == 0 {
    } else {
      AddedMatch(q, n - 1);
    }
  }

  /** The profile keeps the request's outbounds in order, and every one after them is reported, one by one. */
  lemma ProfileReports(q: Request, p: Prepared, k: nat)
    requires IsPrepared(q, p)
    ensures q.outbounds <= OutboundsIn(p.profile) && |AddedIn(q, p.profile)| == |p.services|
    ensures k < |p.services| ==> Reports(q, AddedIn(q, p.profile)[k], p.services[k])
  {
    AddedIs(q, p);
    AddedMatch(q, |q.services|);
    if k < |p.services| {
      AddedIsReported(q, |q.services|, k);
    }
  }

  // ----------------------------------------------------------------- the rules

  /** The tag of the requested service that picks the rule, if one does. */
  ghost predicate TagIs(q: Request, i: nat, tag: Option<string>)
    requires i < |q.rules|
  {
    if tag.None? then
      forall k :: 0 <= k < |q.services| ==> !Picks(PickerOf(q.catalog, q.services[k].0), q.rules[i])
    else
      exists k :: 0 <= k < |q.services| && Picks(PickerOf(q.catalog, q.services[k].0), q.rules[i]) &&
                  tag.value == "pokrov-local-dpi-" + q.services[k].0
  }

  lemma {:induction false} PlannedTag(q: Request, n: nat, i: nat)
    requires n <= |q.services| && i < |q.rules|
    ensures var tag := PlanOf(q, n).tags[i];
            if tag.None? then
              forall k :: 0 <= k < n ==> !Picks(PickerOf(q.catalog, q.services[k].0), q.rules[i])
            else
              exists k :: 0 <= k < n && Picks(PickerOf(q.catalog, q.services[k].0), q.rules[i]) &&
                          tag.value == "pokrov-local-dpi-" + q.services[k].0
  {
    if n == 0 {
    } else {
      PlannedTag(q, n - 1, i);
      if Picks(PickerOf(q.catalog, q.services[n - 1].0), q.rules[i]) {
        assert Used(q, q.services[n - 1].0);
      }
    }
  }

  /** The tags that stand before rules are the added ones. */
  lemma {:induction false} PlannedTagsFallBack(q: Request, n: nat, tag: string)
    requires n <= |q.services| && DistinctServices(q)
    ensures tag in PlanOf(q, n).fallback <==> Some(tag) in PlanOf(q, n).tags
  {
    if n == 0 {
    } else {
      PlannedTagsFallBack(q, n - 1, tag);
      var id := q.services[n - 1].0;
      if Used(q, id) {
        UsedTagStands(q, n, tag);
      }
    }
  }

  /** Putting one new mark on some unmarked places adds just that mark. */
  lemma MarkedHolds(before: seq<Option<string>>, after: seq<Option<string>>, picked: set<int>, one: int, mark: string,
                    tag: string)
    requires |after| == |before| && one in picked && forall i :: i in picked ==> 0 <= i < |before|
    requires forall i :: 0 <= i < |before| ==> after[i] == if i in picked then Some(mark) else before[i]
    requires forall i :: i in picked ==> before[i].None?
    ensures Some(tag) in after <==> tag == mark || Some(tag) in before
  {
    assert after[one] == Some(mark);
    if Some(tag) in before {
      var j :| 0 <= j < |before| && before[j] == Some(tag);
      assert after[j] == Some(tag);
    }
    if Some(tag) in after && tag != mark {
      var j :| 0 <= j < |after| && after[j] == Some(tag);
      assert before[j] == Some(tag);
    }
  }

  lemma UsedTagStands(q: Request, n: nat, tag: string)
    requires 0 < n <= |q.services| && DistinctServices(q) && Used(q, q.services[n - 1].0)
    requires tag in PlanOf(q, n - 1).fallback <==> Some(tag) in PlanOf(q, n - 1).tags
    ensures tag in PlanOf(q, n).fallback <==> Some(tag) in PlanOf(q, n).tags
  {
    var id := q.services[n - 1].0;
    var picked := PickedBy(q, id);
    forall i | i in picked ensures PlanOf(q, n - 1).tags[i].None? {
      StillUntagged(q, n - 1, n - 1, i);
    }
    PlanLast(q, n);
    var one :| 0 <= one < |q.rules| && Picks(PickerOf(q.catalog, id), q.rules[one]);
    MarkedHolds(PlanOf(q, n - 1).tags, PlanOf(q, n).tags, picked, one, LocalTag(id), tag);
  }

  function PickedBy(q: Request, id: string): set<int> {
    set i | 0 <= i < |q.rules| && Picks(PickerOf(q.catalog, id), q.rules[i])
  }

  lemma PlanLast(q: Request, n: nat)
    requires 0 < n <= |q.services| && Used(q, q.services[n - 1].0)
    ensures var before, after, id := PlanOf(q, n - 1), PlanOf(q, n), q.services[n - 1].0;
            && after.fallback == before.fallback[LocalTag(id) := VpnOf(q, id)]
            && forall i :: 0 <= i < |q.rules| ==>
                 after.tags[i] == if i in PickedBy(q, id) then Some(LocalTag(id)) else before.tags[i]
  {
  }

  /** The tags that the marked rules route to. */
  function RoutedBy(rules: seq<Fields>, marks: seq<bool>): set<string>
    requires |rules| == |marks|
  {
    set i | 0 <= i < |rules| && marks[i] :: TextAt(rules[i], "outbound")
  }

  lemma RoutedConcat(a: seq<Fields>, x: seq<bool>, b: seq<Fields>, y: seq<bool>)
    requires |a| == |x| && |b| == |y|
    ensures RoutedBy(a + b, x + y) == RoutedBy(a, x) + RoutedBy(b, y)
  {
    var c, z := a + b, x + y;
    forall tag | tag in RoutedBy(a, x) ensures tag in RoutedBy(c, z) {
      var i :| 0 <= i < |a| && x[i] && TextAt(a[i], "outbound") == tag;
      assert c[i] == a[i] && z[i];
    }
    forall tag | tag in RoutedBy(b, y) ensures tag in RoutedBy(c, z) {
      var i :| 0 <= i < |b| && y[i] && TextAt(b[i], "outbound") == tag;
      assert c[|a| + i] == b[i] && z[|a| + i];
    }
  }

  lemma ExpandedRoutes(rule: Fields, tag: Option<string>)
    ensures |Expanded(rule, tag)| == |Marks(rule, tag)|
    ensures RoutedBy(Expanded(rule, tag), Marks(rule, tag)) == if tag.Some? then {tag.value} else {}
  {
    if tag.Some? {
      OverrideOptions(rule, tag.value);
      var list, marks := Expanded(rule, tag), Marks(rule, tag);
      var local := |list| - 2;
      assert list[local] == LocalRule(rule, tag.value) && marks[local];
    }
  }

  function TagsOf(tags: seq<Option<string>>): set<string> {
    set i | 0 <= i < |tags| && tags[i].Some? :: tags[i].value
  }

  lemma {:induction false} InsertRoutes(rules: seq<Fields>, tags: seq<Option<string>>)
    requires |rules| == |tags|
    ensures |Insert(rules, tags)| == |Inserted(rules, tags)|
    ensures RoutedBy(Insert(rules, tags), Inserted(rules, tags)) == TagsOf(tags)
  {
    if |rules| == 0 {
    } else {
      InsertRoutes(rules[1..], tags[1..]);
      ExpandedRoutes(rules[0], tags[0]);
      RoutedConcat(Expanded(rules[0], tags[0]), Marks(rules[0], tags[0]),
                   Insert(rules[1..], tags[1..]), Inserted(rules[1..], tags[1..]));
      TagsFirst(tags);
    }
  }

  lemma TagsFirst(tags: seq<Option<string>>)
    requires |tags| > 0
    ensures TagsOf(tags) == (if tags[0].Some? then {tags[0].value} else {}) + TagsOf(tags[1..])
  {
    var rest := tags[1..];
    forall tag | tag in TagsOf(rest) ensures tag in TagsOf(tags) {
      var i :| 0 <= i < |rest| && rest[i] == Some(tag);
      assert tags[i + 1] == Some(tag);
    }
    forall tag | tag in TagsOf(tags) && tags[0] != Some(tag) ensures tag in TagsOf(rest) {
      var i :| 0 <= i < |tags| && tags[i] == Some(tag);
      assert rest[i - 1] == Some(tag);
    }
  }

  /**
   The profile's rules are the request's with others in between, and those route to exactly the tags of the
   added outbounds. Each of these is new to the request and falls back to one of its protected outbounds.
   */
  lemma ProfileIsConsistent(q: Request, t: Trust, p: Prepared) returns (marks: seq<bool>)
    requires Accepted(q, t) && DistinctServices(q) && IsPrepared(q, p)
    ensures |marks| == |RulesIn(p.profile)| && Unmarked(RulesIn(p.profile), marks) == q.rules
    ensures RoutedBy(RulesIn(p.profile), marks) == FallbackIn(AddedIn(q, p.profile)).Keys
    ensures forall tag :: tag in FallbackIn(AddedIn(q, p.profile)) ==>
              && tag !in GraphOf(q.outbounds)
              && ProtectedVpn(GraphOf(q.outbounds), t.checks, FallbackIn(AddedIn(q, p.profile))[tag])
              && (q.mode == "smart_safe" ==> FallbackIn(AddedIn(q, p.profile))[tag] == q.final)
  {
    AddedIs(q, p);
    forall tag | tag in PlanOf(q, |q.services|).fallback && q.mode == "smart_safe"
      ensures PlanOf(q, |q.services|).fallback[tag] == q.final
    {
      AcceptedFallBackToFinal(q, t, tag);
    }
    AddedFallsBack(q, |q.services|);
    PlanIsJustified(q, t);
    marks := InsertIsMarked(q.rules, PlanOf(q, |q.services|).tags);
    PlanTagsAre(q);
  }

  lemma InsertIsMarked(rules: seq<Fields>, tags: seq<Option<string>>) returns (marks: seq<bool>)
    requires |rules| == |tags|
    ensures |marks| == |Insert(rules, tags)| && Unmarked(Insert(rules, tags), marks) == rules
    ensures RoutedBy(Insert(rules, tags), marks) == TagsOf(tags)
  {
    marks := Inserted(rules, tags);
    InsertRoutes(rules, tags);
    RewriteOnlyInserts(rules, tags);
  }

  lemma PlanTagsAre(q: Request)
    requires DistinctServices(q)
    ensures TagsOf(PlanOf(q, |q.services|).tags) == PlanOf(q, |q.services|).fallback.Keys
  {
    var tags, fallback := PlanOf(q, |q.services|).tags, PlanOf(q, |q.services|).fallback;
    forall tag ensures tag in fallback <==> tag in TagsOf(tags) {
      PlannedTagsFallBack(q, |q.services|, tag);
      TagIsOne(tags, tag);
    }
  }

  lemma TagIsOne(tags: seq<Option<string>>, tag: string)
    ensures tag in TagsOf(tags) <==> Some(tag) in tags
  {
    if Some(tag) in tags {
      var i :| 0 <= i < |tags| && tags[i] == Some(tag);
    }
  }

  /**
   Read with the fallbacks that its own outbounds name, the profile decides every flow as the request does, and
   literally so exactly for flows that the request did not already send to a tag of an added outbound.
   */
  lemma ProfilePreservesRouting<F(!new)>(q: Request, t: Trust, p: Prepared, r: Router<F>, f: F)
    requires Accepted(q, t) && DistinctServices(q) && IsPrepared(q, p) && Regular(r)
    ensures var fallback := FallbackIn(AddedIn(q, p.profile));
            var original, prepared := Decide(r, q.rules, f), Decide(r, RulesIn(p.profile), f);
            && AsVpn(fallback, prepared) == AsVpn(fallback, original)
            && (AsVpn(fallback, prepared) == original <==> !(original.Routed? && original.outbound in fallback))
  {
    AddedIs(q, p);
    AddedFallsBack(q, |q.services|);
    PreparationPreservesRouting(q, t, r, f);
  }

  /**
   The profile decides every flow exactly so: the first matching rule of the request takes it, and if a requested
   service picks that rule, IPv4 flows, and QUIC flows of the service that prefers TCP, go to the service's outbound.
   */
  lemma ProfileDecidesExactly<F(!new)>(q: Request, t: Trust, p: Prepared, r: Router<F>, f: F)
    returns (tags: seq<Option<string>>)
    requires Accepted(q, t) && DistinctServices(q) && IsPrepared(q, p) && Discerning(r)
    ensures |tags| == |q.rules| && forall i :: 0 <= i < |tags| ==> TagIs(q, i, tags[i])
    ensures Decide(r, RulesIn(p.profile), f) == DecideTagged(r, q.rules, tags, f)
  {
    AddedIs(q, p);
    PlanIsJustified(q, t);
    var plan := PlanOf(q, |q.services|);
    tags := plan.tags;
    RewriteDecidesExactly(r, q.rules, tags, plan.fallback, f);
    forall i | 0 <= i < |tags| ensures TagIs(q, i, tags[i]) {
      PlannedTag(q, |q.services|, i);
    }
  }
}
