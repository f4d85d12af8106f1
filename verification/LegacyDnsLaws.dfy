/**
 Normalisation read from document to document: which legacy servers are accepted, and what becomes of every
 field of one that is.
 */
module LegacyDnsLaws {
  import opened Wrappers
  import opened Json
  import opened Decimal
  import opened LegacyDnsOutbound
  import opened LegacyDns

  // ----------------------------------------------------------------- reading

  predicate Unset(o: Fields, key: string) {
    key !in o || o[key].Null?
  }

  /** Absent, null or a text. */
  predicate Textual(o: Fields, key: string) {
    Unset(o, key) || o[key].Text?
  }

  predicate LegacyType(v: Value) {
    TextAt(Entries(v), "type") == "" || TextAt(Entries(v), "type") == "legacy"
  }

  /** The strategy under a key: none if it is unset, and a value that the codec reads otherwise. */
  predicate ReadsStrategy(c: Codec, o: Fields, key: string, strategy: nat) {
    if Unset(o, key) then strategy == 0 else c.strategy(o[key]) == Some(strategy)
  }

  predicate ReadsDelay(c: Codec, o: Fields, delay: Value) {
    if Unset(o, "address_fallback_delay") then delay == Null else c.delay(o["address_fallback_delay"]) == Some(delay)
  }

  predicate KnownKey(key: string) {
    || key == "type" || key == "tag" || key == "address" || key == "address_resolver" || key == "address_strategy"
    || key == "address_fallback_delay" || key == "strategy" || key == "detour" || key == "client_subnet"
  }

  predicate SupportedKind(kind: string) {
    || kind == "local" || kind == "udp" || kind == "tcp" || kind == "tls" || kind == "quic" || kind == "https"
    || kind == "h3"
  }

  /** The address names a supported transport and holds no white space. */
  predicate Addressed(c: Codec, address: string) {
    && address != "" && ' ' !in address && '\t' !in address && '\r' !in address && '\n' !in address
    && c.transport(address).Some? && SupportedKind(c.transport(address).value.kind)
  }

  /** A legacy server that can be migrated, read key by key. */
  ghost predicate Migratable(c: Codec, v: Value) {
    var o := Entries(v);
    && (v.Object? || v.Null?)
    && (forall key :: key in o ==> KnownKey(key))
    && Textual(o, "type") && Textual(o, "tag") && Textual(o, "address") && Textual(o, "address_resolver")
    && Textual(o, "detour")
    && Addressed(c, TextAt(o, "address"))
    && Unset(o, "client_subnet")
    && ReadsStrategy(c, o, "strategy", 0)
    && (exists delay :: ReadsDelay(c, o, delay))
    && (if TextAt(o, "address_resolver") == "" then ReadsStrategy(c, o, "address_strategy", 0)
        else exists strategy :: ReadsStrategy(c, o, "address_strategy", strategy))
  }

  lemma Spaceless(address: string)
    ensures (exists i :: 0 <= i < |address| && Blank(address[i])) <==>
            ' ' in address || '\t' in address || '\r' in address || '\n' in address
  {
  }

  lemma KeysKnown(o: Fields)
    ensures o.Keys <= LEGACY_KEYS <==> forall key :: key in o ==> KnownKey(key)
  {
  }

  lemma DecodesIff(c: Codec, v: Value)
    ensures Decode(c, v).Some? && !Decode(c, v).value.overridden <==>
            && (v.Object? || v.Null?)
            && (forall key :: key in Entries(v) ==> KnownKey(key))
            && Textual(Entries(v), "type") && Textual(Entries(v), "tag") && Textual(Entries(v), "address")
            && Textual(Entries(v), "address_resolver") && Textual(Entries(v), "detour")
            && TextAt(Entries(v), "address") != ""
            && Unset(Entries(v), "client_subnet")
            && ReadsStrategy(c, Entries(v), "strategy", 0)
            && (exists delay :: ReadsDelay(c, Entries(v), delay))
            && (exists strategy :: ReadsStrategy(c, Entries(v), "address_strategy", strategy))
  {
    var o := Entries(v);
    KeysKnown(o);
    if DelayAt(c, o).Some? {
      assert ReadsDelay(c, o, DelayAt(c, o).value);
    }
    if StrategyAt(c, o, "address_strategy").Some? {
      assert ReadsStrategy(c, o, "address_strategy", StrategyAt(c, o, "address_strategy").value);
    }
  }

  lemma MigratesIff(c: Codec, legacy: LegacyServer, way: string, plain: set<string>)
    requires legacy.address != ""
    ensures MigrateServer(c, legacy, way, plain).Some? <==>
            Addressed(c, legacy.address) && (legacy.resolver == "" ==> legacy.addressStrategy == 0)
  {
    Spaceless(legacy.address);
  }

  lemma LegacyFitsIff(c: Codec, v: Value, way: string, plain: set<string>)
    requires Headed(v) && Legacy(v)
    ensures NormalServer(c, v, way, plain).Some? <==> Migratable(c, v)
  {
    DecodesIff(c, v);
    var legacy := Decode(c, v);
    if legacy.Some? {
      MigratesIff(c, legacy.value, way, plain);
    }
  }

  /** Exactly the migratable legacy servers are accepted; a typed one always is. */
  lemma ServerFitsIff(c: Codec, v: Value, way: string, plain: set<string>)
    ensures NormalServer(c, v, way, plain).Some? <==>
            (v.Object? || v.Null?) && Textual(Entries(v), "type") && (LegacyType(v) ==> Migratable(c, v))
  {
    if Headed(v) && LegacyType(v) {
      LegacyFitsIff(c, v, way, plain);
    }
  }

  // ----------------------------------------------------------- what it becomes

  /** An outbound of type direct without any option. */
  predicate OptionFree(v: Value) {
    TextAt(Entries(v), "type") == "direct" && Entries(v).Keys <= {"type", "tag"}
  }

  /** The name of an outbound: its tag, or its position. */
  function NameOf(v: Value, i: nat): string {
    if TextAt(Entries(v), "tag") != "" then TextAt(Entries(v), "tag") else Numeral(i)
  }

  predicate NamesOptionFree(outbounds: seq<Value>, name: string) {
    exists i :: 0 <= i < |outbounds| && OptionFree(outbounds[i]) && NameOf(outbounds[i], i) == name
  }

  lemma OptionFreeIff(v: Value)
    ensures PlainDirect(v) <==> OptionFree(v)
  {
    var o := Entries(v);
    if TextAt(o, "type") == "direct" {
      assert "type" in o;
      if |o| == 1 {
        OnlyElement(o.Keys, "type");
      } else if |o| == 2 && "tag" in o {
        OnlyElement(o.Keys - {"tag"}, "type");
      }
      if o.Keys <= {"type", "tag"} {
        assert o.Keys == {"type"} || o.Keys == {"type", "tag"};
        assert |{"type"}| == 1 && |{"type", "tag"}| == 2;
        assert |o| == |o.Keys|;
      }
    }
  }

  lemma OnlyElement(s: set<string>, x: string)
    requires x in s && |s| == 1
    ensures s == {x}
  {
    assert |s - {x}| == 0;
  }

  lemma PlainIff(outbounds: seq<Value>, name: string)
    ensures name in PlainDirects(outbounds) <==> NamesOptionFree(outbounds, name)
  {
    forall i | 0 <= i < |outbounds| ensures PlainDirect(outbounds[i]) <==> OptionFree(outbounds[i]) {
      OptionFreeIff(outbounds[i]);
    }
  }

  /** Where undecided flows go: the final outbound, or else the first one. */
  function WayOut(root: Fields): string {
    var final := TextAt(EntriesAt(root, "route"), "final");
    var outbounds := ListAt(root, "outbounds");
    if final != "" then final
    else if outbounds.Some? && |outbounds.value| > 0 then NameOf(outbounds.value[0], 0)
    else ""
  }

  /** Name, resolver, delay and type of a migrated server, from the keys of the legacy one. */
  ghost predicate KeepsNameAndResolver(c: Codec, v: Fields, o: Fields) {
    && TextAt(o, "tag") == TextAt(v, "tag") && ("tag" in o <==> TextAt(v, "tag") != "")
    && ("domain_resolver" in o <==> TextAt(v, "address_resolver") != "")
    && ("domain_resolver" in o ==>
          exists strategy :: ReadsStrategy(c, v, "address_strategy", strategy) &&
                             o["domain_resolver"] == c.resolver(TextAt(v, "address_resolver"), strategy))
    && ReadsDelay(c, v, if "fallback_delay" in o then o["fallback_delay"] else Null)
    && ("fallback_delay" in o ==> !o["fallback_delay"].Null?)
  }

  ghost predicate KeepsTransport(c: Codec, v: Fields, o: Fields) {
    var transport := c.transport(TextAt(v, "address"));
    && transport.Some? && TextAt(o, "type") == transport.value.kind
    && forall key :: key in o || key in transport.value.fields ==>
         key in {"type", "tag", "detour", "fallback_delay", "domain_resolver"} ||
         (key in o && key in transport.value.fields && o[key] == transport.value.fields[key])
  }

  predicate Dials(v: Fields, o: Fields, way: string, outbounds: seq<Value>) {
    var wanted := if TextAt(v, "detour") != "" then TextAt(v, "detour") else way;
    && ("detour" in o <==> wanted != "" && !NamesOptionFree(outbounds, wanted))
    && ("detour" in o ==> o["detour"] == Text(wanted))
  }

  lemma MigratedKeepsTransport(c: Codec, v: Value, way: string, plain: set<string>)
    requires LegacyType(v) && NormalServer(c, v, way, plain).Some?
    ensures KeepsTransport(c, Entries(v), Entries(NormalServer(c, v, way, plain).value))
  {
    var legacy := Decode(c, v).value;
    BodyTransport(c, legacy, c.transport(legacy.address).value, Detour(legacy.detour, way, plain));
  }

  predicate SameAt(a: Fields, b: Fields, key: string) {
    (key in a <==> key in b) && (key in a ==> a[key] == b[key])
  }

  predicate OwnKey(key: string) {
    key == "type" || key == "tag" || key == "detour" || key == "fallback_delay" || key == "domain_resolver"
  }

  lemma BodyFields(c: Codec, legacy: LegacyServer, transport: Transport, key: string)
    requires !OwnKey(key)
    ensures SameAt(Body(c, legacy, transport), transport.fields, key)
  {
  }

  lemma EncodeFields(body: Fields, kind: string, detour: string, key: string)
    requires !OwnKey(key)
    ensures SameAt(Entries(Encode(body, kind, detour)), body, key)
  {
  }

  lemma BodyTransport(c: Codec, legacy: LegacyServer, transport: Transport, detour: string)
    ensures var o := Entries(Encode(Body(c, legacy, transport), transport.kind, detour));
            && TextAt(o, "type") == transport.kind
            && forall key :: key in o || key in transport.fields ==>
                 key in {"type", "tag", "detour", "fallback_delay", "domain_resolver"} ||
                 (key in o && key in transport.fields && o[key] == transport.fields[key])
  {
    var body := Body(c, legacy, transport);
    var o := Entries(Encode(body, transport.kind, detour));
    forall key | !OwnKey(key) ensures SameAt(o, transport.fields, key) {
      BodyFields(c, legacy, transport, key);
      EncodeFields(body, transport.kind, detour, key);
    }
  }

  lemma BodyName(c: Codec, legacy: LegacyServer, transport: Transport, detour: string)
    ensures var o := Entries(Encode(Body(c, legacy, transport), transport.kind, detour));
            "tag" in o <==> legacy.tag != ""
  {
  }

  lemma MigratedKeepsName(c: Codec, v: Value, way: string, plain: set<string>)
    requires LegacyType(v) && NormalServer(c, v, way, plain).Some?
    ensures KeepsNameAndResolver(c, Entries(v), Entries(NormalServer(c, v, way, plain).value))
  {
    var legacy := Decode(c, v).value;
    MigratedServerKeepsOptions(c, legacy, way, plain);
    BodyName(c, legacy, c.transport(legacy.address).value, Detour(legacy.detour, way, plain));
    assert ReadsStrategy(c, Entries(v), "address_strategy", legacy.addressStrategy);
    assert ReadsDelay(c, Entries(v), legacy.delay);
  }

  lemma MigratedDials(c: Codec, v: Value, way: string, outbounds: seq<Value>)
    requires LegacyType(v) && NormalServer(c, v, way, PlainDirects(outbounds)).Some?
    ensures Dials(Entries(v), Entries(NormalServer(c, v, way, PlainDirects(outbounds)).value), way, outbounds)
  {
    var wanted := if TextAt(Entries(v), "detour") != "" then TextAt(Entries(v), "detour") else way;
    PlainIff(outbounds, wanted);
    NormalServerIsTyped(c, v, way, PlainDirects(outbounds));
  }

  // ---------------------------------------------------------- whole documents

  function ServersIn(root: Fields): seq<Value> {
    var list := ListAt(EntriesAt(root, "dns"), "servers");
    if list.Some? then list.value else []
  }

  function OutboundsIn(root: Fields): seq<Value> {
    var list := ListAt(root, "outbounds");
    if list.Some? then list.value else []
  }

  /** Removing the metadata and the DNS outbounds leaves the DNS section and the way out alone. */
  lemma ClearingKeepsDns(root: Fields)
    requires Admitted(root - {"_meta"})
    ensures ("dns" in Cleared(root) <==> "dns" in root) && ("dns" in root ==> Cleared(root)["dns"] == root["dns"])
    ensures ServersIn(Cleared(root)) == ServersIn(root) && Default(Cleared(root)) == WayOut(root)
  {
    var bare := root - {"_meta"};
    assert RouteOf(bare) == RouteOf(root) && OutboundsOf(bare) == OutboundsOf(root);
    MigrationKeepsDefault(bare);
  }

  ghost predicate Becomes(c: Codec, before: Value, after: Value, way: string, outbounds: seq<Value>) {
    if !LegacyType(before) then after == before
    else
      && KeepsNameAndResolver(c, Entries(before), Entries(after)) && KeepsTransport(c, Entries(before), Entries(after))
      && Dials(Entries(before), Entries(after), way, outbounds)
  }

  lemma NormalBecomes(c: Codec, v: Value, way: string, outbounds: seq<Value>)
    requires NormalServer(c, v, way, PlainDirects(outbounds)).Some?
    ensures Becomes(c, v, NormalServer(c, v, way, PlainDirects(outbounds)).value, way, outbounds)
  {
    if LegacyType(v) {
      MigratedKeepsTransport(c, v, way, PlainDirects(outbounds));
      MigratedKeepsName(c, v, way, PlainDirects(outbounds));
      MigratedDials(c, v, way, outbounds);
    }
  }

  /**
   Every server of an accepted document stays at its place. A typed one is left alone. A legacy one keeps its
   name, resolver and delay, gets the transport of its address, and dials through its detour, or else where
   undecided flows go, unless that is an option-free direct outbound of the result.
   */
  lemma ServersBecome(c: Codec, root: Fields, i: nat)
    requires Normalize(c, Object(root)).Some? && i < |ServersIn(root)|
    ensures var root' := Normalize(c, Object(root)).value.fields;
            && |ServersIn(root')| == |ServersIn(root)|
            && Becomes(c, ServersIn(root)[i], ServersIn(root')[i], WayOut(root), OutboundsIn(root'))
  {
    ClearingKeepsDns(root);
    var cleared := Cleared(root);
    assert !Stripped(cleared);
    NormalLeavesTheRest(c, root);
    assert NormalAt(c, cleared, i).Some?;
    NormalBecomes(c, ServersOf(cleared)[i], Default(cleared), OutboundsOf(cleared));
  }

  /** An accepted document holds only servers that can be kept or migrated. */
  lemma AcceptedServersFit(c: Codec, root: Fields, i: nat)
    requires Normalize(c, Object(root)).Some? && i < |ServersIn(root)|
    ensures LegacyType(ServersIn(root)[i]) ==> Migratable(c, ServersIn(root)[i])
  {
    ClearingKeepsDns(root);
    var cleared := Cleared(root);
    assert !Stripped(cleared) && NormalAt(c, cleared, i).Some?;
    ServerFitsIff(c, ServersOf(cleared)[i], Default(cleared), PlainDirects(OutboundsOf(cleared)));
  }

  /** A legacy server with a query strategy or a client subnet of its own is never migrated. */
  lemma OverridesAreRefused(c: Codec, root: Fields, i: nat)
    requires i < |ServersIn(root)| && LegacyType(ServersIn(root)[i])
    requires var o := Entries(ServersIn(root)[i]);
             !Unset(o, "client_subnet") || !ReadsStrategy(c, o, "strategy", 0)
    ensures Normalize(c, Object(root)).None?
  {
    if Normalize(c, Object(root)).Some? {
      AcceptedServersFit(c, root, i);
    }
  }

  lemma ClearingKeepsKey(root: Fields, key: string)
    requires key !in {"_meta", "outbounds", "route"}
    ensures SameAt(Cleared(root), root, key)
  {
  }

  lemma UpdatedDns(root: Fields, dns: Fields, v: Value, key: string)
    ensures var root' := root["dns" := Object(dns["servers" := v])];
            && (key != "dns" ==> SameAt(root', root, key))
            && EntriesAt(root', "dns") - {"servers"} == dns - {"servers"}
  {
    assert dns["servers" := v] - {"servers"} == dns - {"servers"};
  }

  lemma WithServersKeepsKey(c: Codec, root: Fields, key: string)
    requires DnsFits(c, root) && !Stripped(root)
    ensures key != "dns" ==> SameAt(WithServers(c, root), root, key)
    ensures EntriesAt(WithServers(c, root), "dns") - {"servers"} == EntriesAt(root, "dns") - {"servers"}
  {
    UpdatedDns(root, DnsOf(root), ListBack(DnsOf(root), "servers", NormalServers(c, root)), key);
  }

  /** Besides the metadata only outbounds, routing and DNS can change, and of DNS only the servers. */
  lemma NormalizeKeepsTheRest(c: Codec, root: Fields, key: string)
    requires Normalize(c, Object(root)).Some?
    ensures var root' := Normalize(c, Object(root)).value.fields;
            && "_meta" !in root'
            && (key !in {"_meta", "outbounds", "route", "dns"} ==> SameAt(root', root, key))
            && EntriesAt(root', "dns") - {"servers"} == EntriesAt(root, "dns") - {"servers"}
  {
    ClearingKeepsDns(root);
    NormalIsClean(c, root);
    if key !in {"_meta", "outbounds", "route"} {
      ClearingKeepsKey(root, key);
    }
    if !Stripped(Cleared(root)) {
      WithServersKeepsKey(c, Cleared(root), key);
    }
  }
}
