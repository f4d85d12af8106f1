/**
 Normalisation of imported configurations: the metadata extension and the legacy DNS
 outbounds are removed, and legacy DNS servers become typed ones.
 */
module LegacyDns {
  import opened Wrappers
  import opened Json
  import opened Decimal
  import opened LegacyDnsOutbound

  /** A typed server as its address alone describes it. */
  datatype Transport = Transport(kind: string, fields: Fields)

  /**
   The decoders and encoders of single fields. A strategy of 0 and a null delay are the
   unset values; `transport` reads an address, None for one it refuses.
   */
  datatype Codec = Codec(
    strategy: Value -> Option<nat>,
    delay: Value -> Option<Value>,
    subnet: Value -> bool,
    transport: string -> Option<Transport>,
    resolver: (string, nat) -> Value)

  // ------------------------------------------------------------------ servers

  predicate Headed(v: Value) {
    Dictionary(v) && TextField(Entries(v), "type")
  }

  function ServerType(v: Value): string {
    TextAt(Entries(v), "type")
  }

  predicate Legacy(v: Value) {
    ServerType(v) == "" || ServerType(v) == "legacy"
  }

  predicate Typed(v: Value) {
    Headed(v) && !Legacy(v)
  }

  datatype LegacyServer = LegacyServer(
    tag: string, address: string, resolver: string, addressStrategy: nat,
    delay: Value, detour: string, overridden: bool)

  const LEGACY_KEYS := {"type", "tag", "address", "address_resolver", "address_strategy",
                        "address_fallback_delay", "strategy", "detour", "client_subnet"}

  predicate TextFields(o: Fields) {
    TextField(o, "type") && TextField(o, "tag") && TextField(o, "address") && TextField(o, "address_resolver") &&
    TextField(o, "detour")
  }

  function StrategyAt(c: Codec, o: Fields, key: string): Option<nat> {
    if key in o && !o[key].Null? then c.strategy(o[key]) else Some(0)
  }

  function DelayAt(c: Codec, o: Fields): Option<Value> {
    if "address_fallback_delay" in o && !o["address_fallback_delay"].Null? then c.delay(o["address_fallback_delay"])
    else Some(Null)
  }

  predicate Subnetted(o: Fields) {
    "client_subnet" in o && !o["client_subnet"].Null?
  }

  /** Strict decoding: unknown keys are refused, and so is a missing address. */
  function Decode(c: Codec, v: Value): Option<LegacyServer> {
    var o := Entries(v);
    if !Dictionary(v) || !(o.Keys <= LEGACY_KEYS) || !TextFields(o) ||
       (Subnetted(o) && !c.subnet(o["client_subnet"])) then None
    else
      var addressStrategy, strategy := StrategyAt(c, o, "address_strategy"), StrategyAt(c, o, "strategy");
      var delay := DelayAt(c, o);
      if addressStrategy.None? || strategy.None? || delay.None? || TextAt(o, "address") == "" then None
      else Some(LegacyServer(
                  TextAt(o, "tag"), TextAt(o, "address"), TextAt(o, "address_resolver"),
                  addressStrategy.value, delay.value,
                  TextAt(o, "detour"), strategy.value != 0 || Subnetted(o)))
  }

  const SUPPORTED := {"local", "udp", "tcp", "tls", "quic", "https", "h3"}

  predicate Blank(ch: char) {
    ch in {' ', '\t', '\r', '\n'}
  }

  /** Keys that the address does not determine. */
  const OWN_KEYS := {"type", "tag", "detour", "fallback_delay", "domain_resolver"}

  function Optional(key: string, v: Value, present: bool): Fields {
    if present then map[key := v] else map[]
  }

  /** An option-free direct outbound is dialled without a detour. */
  function Detour(wanted: string, defaultOutbound: string, plain: set<string>): string {
    var detour := if wanted == "" then defaultOutbound else wanted;
    if detour in plain then "" else detour
  }

  /** Everything of a typed server but its type and detour. */
  function Body(c: Codec, legacy: LegacyServer, transport: Transport): Fields {
    (transport.fields - OWN_KEYS)
    + Optional("fallback_delay", legacy.delay, !legacy.delay.Null?)
    + Optional("domain_resolver", c.resolver(legacy.resolver, legacy.addressStrategy), legacy.resolver != "")
    + Optional("tag", Text(legacy.tag), legacy.tag != "")
  }

  function Encode(body: Fields, kind: string, detour: string): Value {
    Object(body["type" := Text(kind)] + Optional("detour", Text(detour), detour != ""))
  }

  function MigrateServer(c: Codec, legacy: LegacyServer, defaultOutbound: string, plain: set<string>): Option<Value> {
    if exists i :: 0 <= i < |legacy.address| && Blank(legacy.address[i]) then None
    else
      var transport := c.transport(legacy.address);
      if transport.None? || transport.value.kind !in SUPPORTED then None
      else if legacy.resolver == "" && legacy.addressStrategy != 0 then None
      else Some(Encode(Body(c, legacy, transport.value), transport.value.kind,
                       Detour(legacy.detour, defaultOutbound, plain)))
  }

  /** What becomes of one server; None refuses the configuration. */
  function NormalServer(c: Codec, v: Value, defaultOutbound: string, plain: set<string>): Option<Value> {
    if !Headed(v) then None
    else if !Legacy(v) then Some(v)
    else
      var legacy := Decode(c, v);
      if legacy.None? || legacy.value.overridden then None
      else MigrateServer(c, legacy.value, defaultOutbound, plain)
  }

  lemma BodyHasNoDetour(c: Codec, legacy: LegacyServer, transport: Transport)
    ensures "detour" !in Body(c, legacy, transport)
  {
  }

  lemma SupportedIsTyped(kind: string)
    requires kind in SUPPORTED
    ensures kind != "" && kind != "legacy"
  {
    assert "legacy"[1] == 'e';
  }

  /** A server sends through `detour`, or directly when that is empty. */
  predicate SendsThrough(v: Value, detour: string) {
    if detour == "" then "detour" !in Entries(v) else "detour" in Entries(v) && Entries(v)["detour"] == Text(detour)
  }

  /** The server is named and resolved as the legacy one, and waits as long before falling back. */
  predicate KeepsOptions(c: Codec, legacy: LegacyServer, o: Fields) {
    && TextAt(o, "tag") == legacy.tag
    && ("domain_resolver" in o <==> legacy.resolver != "")
    && ("domain_resolver" in o ==> o["domain_resolver"] == c.resolver(legacy.resolver, legacy.addressStrategy))
    && ("fallback_delay" in o <==> !legacy.delay.Null?)
    && ("fallback_delay" in o ==> o["fallback_delay"] == legacy.delay)
  }

  lemma BodyKeepsOptions(c: Codec, legacy: LegacyServer, transport: Transport)
    ensures KeepsOptions(c, legacy, Body(c, legacy, transport))
  {
  }

  lemma EncodeKeepsOptions(c: Codec, legacy: LegacyServer, body: Fields, kind: string, detour: string)
    requires KeepsOptions(c, legacy, body)
    ensures KeepsOptions(c, legacy, Entries(Encode(body, kind, detour)))
  {
  }

  /** A migrated server has the type of its address, and the name, resolver and delay of the legacy one. */
  lemma MigratedServerKeepsOptions(c: Codec, legacy: LegacyServer, defaultOutbound: string, plain: set<string>)
    requires MigrateServer(c, legacy, defaultOutbound, plain).Some?
    ensures var o := Entries(MigrateServer(c, legacy, defaultOutbound, plain).value);
            KeepsOptions(c, legacy, o) && c.transport(legacy.address).Some? &&
            TextAt(o, "type") == c.transport(legacy.address).value.kind
  {
    var transport := c.transport(legacy.address).value;
    BodyKeepsOptions(c, legacy, transport);
    BodyHasNoDetour(c, legacy, transport);
    EncodeKeepsOptions(c, legacy, Body(c, legacy, transport), transport.kind,
                       Detour(legacy.detour, defaultOutbound, plain));
    EncodeMeans(Body(c, legacy, transport), transport.kind, Detour(legacy.detour, defaultOutbound, plain));
  }

  lemma EncodeMeans(body: Fields, kind: string, detour: string)
    requires "detour" !in body
    ensures ServerType(Encode(body, kind, detour)) == kind && SendsThrough(Encode(body, kind, detour), detour)
    ensures Headed(Encode(body, kind, detour))
  {
  }

  lemma DecodeReads(c: Codec, v: Value)
    requires Decode(c, v).Some?
    ensures Decode(c, v).value.detour == TextAt(Entries(v), "detour")
  {
  }

  /** A migrated server is typed and sends through its detour, unless that is an option-free direct outbound. */
  lemma NormalServerIsTyped(c: Codec, v: Value, defaultOutbound: string, plain: set<string>)
    requires NormalServer(c, v, defaultOutbound, plain).Some?
    ensures Typed(NormalServer(c, v, defaultOutbound, plain).value)
    ensures Legacy(v) ==>
              SendsThrough(NormalServer(c, v, defaultOutbound, plain).value,
                           Detour(TextAt(Entries(v), "detour"), defaultOutbound, plain))
    ensures !Legacy(v) ==> NormalServer(c, v, defaultOutbound, plain).value == v
  {
    if Legacy(v) {
      DecodeReads(c, v);
      var legacy := Decode(c, v).value;
      var transport := c.transport(legacy.address).value;
      BodyHasNoDetour(c, legacy, transport);
      SupportedIsTyped(transport.kind);
      EncodeMeans(Body(c, legacy, transport), transport.kind, Detour(legacy.detour, defaultOutbound, plain));
    }
  }

  // ------------------------------------------------------------ configurations

  predicate PlainDirect(v: Value) {
    var o := Entries(v);
    TextAt(o, "type") == "direct" && (|o| == 1 || (|o| == 2 && "tag" in o))
  }

  function PlainDirects(outbounds: seq<Value>): set<string> {
    set i | 0 <= i < |outbounds| && PlainDirect(outbounds[i]) :: TagOf(outbounds[i], i)
  }

  predicate Stripped(root: Fields) {
    "dns" !in root || root["dns"].Null?
  }

  function DnsOf(root: Fields): Fields {
    EntriesAt(root, "dns")
  }

  function ServersOf(root: Fields): seq<Value> {
    var list := ListAt(DnsOf(root), "servers");
    if list.Some? then list.value else []
  }

  function NormalAt(c: Codec, root: Fields, i: nat): Option<Value>
    requires i < |ServersOf(root)|
  {
    NormalServer(c, ServersOf(root)[i], Default(root), PlainDirects(OutboundsOf(root)))
  }

  predicate FinalReadable(root: Fields) {
    "route" in root ==> Dictionary(root["route"]) && TextField(RouteOf(root), "final")
  }

  /** The DNS section, if there is one, can be normalised. */
  predicate DnsFits(c: Codec, root: Fields) {
    Stripped(root) ||
    (&& root["dns"].Object?
     && ListAt(DnsOf(root), "servers").Some?
     && FinalReadable(root)
     && forall i :: 0 <= i < |ServersOf(root)| ==> NormalAt(c, root, i).Some?)
  }

  function NormalServers(c: Codec, root: Fields): seq<Value>
    requires forall i :: 0 <= i < |ServersOf(root)| ==> NormalAt(c, root, i).Some?
  {
    seq(|ServersOf(root)|, i requires 0 <= i < |ServersOf(root)| => NormalAt(c, root, i).value)
  }

  predicate HasLegacy(root: Fields) {
    exists i :: 0 <= i < |ServersOf(root)| && Legacy(ServersOf(root)[i])
  }

  /** A list that was absent or null is written back as null. */
  function ListBack(o: Fields, key: string, items: seq<Value>): Value {
    if key in o && o[key].Array? then Array(items) else Null
  }

  function WithServers(c: Codec, root: Fields): Fields
    requires DnsFits(c, root) && !Stripped(root)
  {
    root["dns" := Object(DnsOf(root)["servers" := ListBack(DnsOf(root), "servers", NormalServers(c, root))])]
  }

  /** The configuration once the metadata and the DNS outbounds are gone. */
  function Cleared(root: Fields): Fields {
    Migrated(root - {"_meta"})
  }

  predicate Accepted(c: Codec, root: Fields) {
    Admitted(root - {"_meta"}) && DnsFits(c, Cleared(root))
  }

  predicate Touched(root: Fields) {
    "_meta" in root || HasDns(root - {"_meta"})
  }

  function Normal(c: Codec, root: Fields): Fields
    requires Accepted(c, root)
  {
    if Stripped(Cleared(root)) then Cleared(root)
    else if Touched(root) || HasLegacy(Cleared(root)) then WithServers(c, Cleared(root))
    else root
  }

  /** None refuses the document. */
  function Normalize(c: Codec, content: Value): Option<Value> {
    if content.Object? && Accepted(c, content.fields) then Some(Object(Normal(c, content.fields))) else None
  }

  // --------------------------------------------------------------- properties

  /** Nothing is left to normalise. */
  predicate Clean(root: Fields) {
    && "_meta" !in root
    && ListAt(root, "outbounds").Some?
    && (forall i :: 0 <= i < |OutboundsOf(root)| ==> Readable(OutboundsOf(root)[i]) && !IsDns(OutboundsOf(root)[i]))
    && (Stripped(root) ||
        (&& root["dns"].Object? && ListAt(DnsOf(root), "servers").Some? && FinalReadable(root)
         && forall i :: 0 <= i < |ServersOf(root)| ==> Typed(ServersOf(root)[i])))
  }

  lemma NoDnsTags(outbounds: seq<Value>)
    ensures DnsTags(outbounds) == {} <==> forall i :: 0 <= i < |outbounds| ==> !IsDns(outbounds[i])
  {
    if exists i :: 0 <= i < |outbounds| && IsDns(outbounds[i]) {
      var i :| 0 <= i < |outbounds| && IsDns(outbounds[i]);
      assert DnsTag(outbounds[i], i).value in DnsTags(outbounds);
    }
  }

  /** A clean configuration is accepted and returned as it is. */
  lemma CleanIsFixed(c: Codec, root: Fields)
    requires Clean(root)
    ensures Normalize(c, Object(root)) == Some(Object(root))
  {
    assert root - {"_meta"} == root;
    NoDnsTags(OutboundsOf(root));
    assert ReadableOutbounds(OutboundsOf(root));
    assert Cleared(root) == root;
    if !Stripped(root) {
      forall i | 0 <= i < |ServersOf(root)| ensures NormalAt(c, root, i).Some? {
        assert Typed(ServersOf(root)[i]);
      }
      assert !HasLegacy(root);
    }
  }

  lemma ClearedOutbounds(root: Fields)
    requires Admitted(root)
    ensures "_meta" !in root ==> "_meta" !in Migrated(root)
    ensures ListAt(Migrated(root), "outbounds").Some?
    ensures forall i :: 0 <= i < |OutboundsOf(Migrated(root))| ==>
              Readable(OutboundsOf(Migrated(root))[i]) && !IsDns(OutboundsOf(Migrated(root))[i])
  {
    var outbounds := OutboundsOf(root);
    forall i | 0 <= i < |OutboundsOf(Migrated(root))|
      ensures Readable(OutboundsOf(Migrated(root))[i]) && !IsDns(OutboundsOf(Migrated(root))[i])
    {
      var v := OutboundsOf(Migrated(root))[i];
      if HasDns(root) {
        RetainedHolds(outbounds, v);
        assert v in outbounds;
      } else {
        NoDnsTags(outbounds);
      }
    }
  }

  /** The rewritten DNS section holds typed servers only, and nothing else has changed. */
  lemma WithServersTyped(c: Codec, root: Fields)
    requires DnsFits(c, root) && !Stripped(root)
    ensures var root' := WithServers(c, root);
            && root'.Keys == root.Keys && (forall key :: key in root && key != "dns" ==> root'[key] == root[key])
            && root'["dns"].Object? && ListAt(DnsOf(root'), "servers").Some?
            && ServersOf(root') == NormalServers(c, root)
    ensures forall i :: 0 <= i < |NormalServers(c, root)| ==> Typed(NormalServers(c, root)[i])
  {
    forall i | 0 <= i < |ServersOf(root)| ensures Typed(NormalAt(c, root, i).value) {
      assert NormalAt(c, root, i).Some?;
      NormalServerIsTyped(c, ServersOf(root)[i], Default(root), PlainDirects(OutboundsOf(root)));
    }
  }

  lemma WithServersClean(c: Codec, root: Fields)
    requires DnsFits(c, root) && !Stripped(root) && "_meta" !in root && ListAt(root, "outbounds").Some?
    requires forall i :: 0 <= i < |OutboundsOf(root)| ==> Readable(OutboundsOf(root)[i]) && !IsDns(OutboundsOf(root)[i])
    ensures Clean(WithServers(c, root))
  {
    WithServersTyped(c, root);
    var root' := WithServers(c, root);
    assert OutboundsOf(root') == OutboundsOf(root);
    assert RouteOf(root') == RouteOf(root);
  }

  lemma NormalIsClean(c: Codec, root: Fields)
    requires Accepted(c, root)
    ensures Clean(Normal(c, root))
  {
    var cleared := Cleared(root);
    ClearedOutbounds(root - {"_meta"});
    if !Stripped(cleared) {
      if Touched(root) || HasLegacy(cleared) {
        WithServersClean(c, cleared);
      } else {
        assert root - {"_meta"} == root;
        forall i | 0 <= i < |ServersOf(root)| ensures Typed(ServersOf(root)[i]) {
          assert NormalAt(c, root, i).Some?;
        }
      }
    }
  }

  /** Normalising twice is normalising once. */
  lemma NormalizeIdempotent(c: Codec, content: Value)
    requires Normalize(c, content).Some?
    ensures Normalize(c, Normalize(c, content).value) == Normalize(c, content)
    ensures Clean(Normalize(c, content).value.fields)
  {
    NormalIsClean(c, content.fields);
    CleanIsFixed(c, Normal(c, content.fields));
  }

  /** `after` is what the output makes of the server `before`, `way` being where undecided flows go. */
  predicate KeepsItsWay(before: Value, after: Value, way: string, plain: set<string>) {
    if !Legacy(before) then after == before
    else SendsThrough(after, Detour(TextAt(Entries(before), "detour"), way, plain))
  }

  lemma NormalServersKeepTheirWay(c: Codec, root: Fields)
    requires forall i :: 0 <= i < |ServersOf(root)| ==> NormalAt(c, root, i).Some?
    ensures forall i :: 0 <= i < |ServersOf(root)| ==>
              KeepsItsWay(ServersOf(root)[i], NormalServers(c, root)[i], Default(root), PlainDirects(OutboundsOf(root)))
  {
    forall i | 0 <= i < |ServersOf(root)|
      ensures KeepsItsWay(ServersOf(root)[i], NormalServers(c, root)[i], Default(root), PlainDirects(OutboundsOf(root)))
    {
      assert NormalAt(c, root, i).Some?;
      NormalServerIsTyped(c, ServersOf(root)[i], Default(root), PlainDirects(OutboundsOf(root)));
    }
  }

  lemma UntouchedServers(c: Codec, root: Fields)
    requires forall i :: 0 <= i < |ServersOf(root)| ==> NormalAt(c, root, i).Some?
    requires !HasLegacy(root)
    ensures NormalServers(c, root) == ServersOf(root)
  {
  }

  lemma WithServersLeavesTheRest(c: Codec, root: Fields)
    requires DnsFits(c, root) && !Stripped(root)
    ensures ServersOf(WithServers(c, root)) == NormalServers(c, root)
    ensures OutboundsOf(WithServers(c, root)) == OutboundsOf(root)
    ensures Default(WithServers(c, root)) == Default(root)
  {
    WithServersTyped(c, root);
    assert RouteOf(WithServers(c, root)) == RouteOf(root);
    assert OutboundsOf(WithServers(c, root)) == OutboundsOf(root);
  }

  lemma NormalLeavesTheRest(c: Codec, root: Fields)
    requires Accepted(c, root) && !Stripped(Cleared(root))
    ensures ServersOf(Normal(c, root)) == NormalServers(c, Cleared(root))
    ensures OutboundsOf(Normal(c, root)) == OutboundsOf(Cleared(root))
    ensures Default(Normal(c, root)) == Default(Cleared(root))
  {
    var cleared := Cleared(root);
    if Touched(root) || HasLegacy(cleared) {
      WithServersLeavesTheRest(c, cleared);
    } else {
      assert root - {"_meta"} == root;
      UntouchedServers(c, cleared);
    }
  }

  /**
   Every legacy server of the input becomes a server at the same place that sends through its
   detour, or else through where undecided flows go, and directly if that is an option-free
   direct outbound of the output; every other server is left alone.
   */
  lemma ServersKeepTheirWay(c: Codec, root: Fields, i: nat)
    requires Accepted(c, root) && !Stripped(Cleared(root)) && i < |ServersOf(Cleared(root))|
    ensures Default(Normal(c, root)) == Default(root)
    ensures |ServersOf(Normal(c, root))| == |ServersOf(Cleared(root))|
    ensures KeepsItsWay(ServersOf(Cleared(root))[i], ServersOf(Normal(c, root))[i], Default(root),
                        PlainDirects(OutboundsOf(Normal(c, root))))
  {
    var bare := root - {"_meta"};
    assert RouteOf(bare) == RouteOf(root) && OutboundsOf(bare) == OutboundsOf(root);
    MigrationKeepsDefault(bare);
    NormalLeavesTheRest(c, root);
    NormalServersKeepTheirWay(c, Cleared(root));
  }

  // -------------------------------------------------------------- the program

  method NamePlain(v: Value, i: nat) returns (tag: string, direct: bool)
    ensures tag == TagOf(v, i) && (direct <==> PlainDirect(v))
  {
    var outbound := Entries(v);
    tag := TextAt(outbound, "tag");
    if tag == "" {
      tag := Numeral(i);
    }
    direct := TextAt(outbound, "type") == "direct" && (|outbound| == 1 || (|outbound| == 2 && "tag" in outbound));
  }

  method FindPlain(outbounds: seq<Value>) returns (plain: set<string>)
    ensures plain == PlainDirects(outbounds)
  {
    plain := {};
    for i := 0 to |outbounds|
      invariant plain == set j | 0 <= j < i && PlainDirect(outbounds[j]) :: TagOf(outbounds[j], j)
    {
      var tag, direct := NamePlain(outbounds[i], i);
      if direct {
        plain := plain + {tag};
      }
    }
  }

  /** All keys of a legacy server are known. */
  method CheckKeys(o: Fields) returns (ok: bool)
    ensures ok <==> o.Keys <= LEGACY_KEYS
  {
    var left := o.Keys;
    while left != {}
      invariant left <= o.Keys && o.Keys - left <= LEGACY_KEYS
      decreases left
    {
      var key :| key in left;
      match key {
        case "type" =>
        case "tag" =>
        case "address" =>
        case "address_resolver" =>
        case "address_strategy" =>
        case "address_fallback_delay" =>
        case "strategy" =>
        case "detour" =>
        case "client_subnet" =>
        case _ => return false;
      }
      left := left - {key};
    }
    return true;
  }

  method ReadText(o: Fields, key: string) returns (text: Option<string>)
    ensures text == if TextField(o, key) then Some(TextAt(o, key)) else None
  {
    if key !in o {
      return Some("");
    }
    match o[key] {
      case Text(t) => return Some(t);
      case Null => return Some("");
      case _ => return None;
    }
  }

  method ReadStrategy(c: Codec, o: Fields, key: string) returns (strategy: Option<nat>)
    ensures strategy == StrategyAt(c, o, key)
  {
    strategy := Some(0);
    if key in o && !o[key].Null? {
      strategy := c.strategy(o[key]);
    }
  }

  /** The strict decoder. */
  method ReadServer(c: Codec, v: Value) returns (legacy: Option<LegacyServer>)
    ensures legacy == Decode(c, v)
  {
    if !v.Object? && !v.Null? {
      return None;
    }
    var o := Entries(v);
    var known := CheckKeys(o);
    if !known {
      return None;
    }
    var kind := ReadText(o, "type");
    var tag := ReadText(o, "tag");
    var address := ReadText(o, "address");
    var resolver := ReadText(o, "address_resolver");
    var detour := ReadText(o, "detour");
    var addressStrategy := ReadStrategy(c, o, "address_strategy");
    var strategy := ReadStrategy(c, o, "strategy");
    var delay := Some(Null);
    if "address_fallback_delay" in o && !o["address_fallback_delay"].Null? {
      delay := c.delay(o["address_fallback_delay"]);
    }
    var subnet := "client_subnet" in o && !o["client_subnet"].Null?;
    if subnet && !c.subnet(o["client_subnet"]) {
      return None;
    }
    if kind.None? || tag.None? || address.None? || resolver.None? || detour.None? ||
       addressStrategy.None? || strategy.None? || delay.None? || address.value == "" {
      return None;
    }
    return Some(LegacyServer(tag.value, address.value, resolver.value, addressStrategy.value, delay.value,
                             detour.value, strategy.value != 0 || subnet));
  }

  method HasBlank(address: string) returns (blank: bool)
    ensures blank <==> exists i :: 0 <= i < |address| && Blank(address[i])
  {
    for i := 0 to |address|
      invariant forall j :: 0 <= j < i ==> !Blank(address[j])
    {
      if address[i] in " \t\r\n" {
        return true;
      }
    }
    return false;
  }

  lemma OptionalIs(m: Fields, key: string, v: Value, present: bool)
    ensures m + Optional(key, v, present) == if present then m[key := v] else m
  {
  }

  /** The typed server, built up field by field. */
  method BuildServer(c: Codec, legacy: LegacyServer, transport: Transport, detour: string) returns (server: Value)
    ensures server == Encode(Body(c, legacy, transport), transport.kind, detour)
  {
    var o := transport.fields - {"type", "tag", "detour", "fallback_delay", "domain_resolver"};
    OptionalIs(o, "fallback_delay", legacy.delay, !legacy.delay.Null?);
    if !legacy.delay.Null? {
      o := o["fallback_delay" := legacy.delay];
    }
    var resolver := c.resolver(legacy.resolver, legacy.addressStrategy);
    OptionalIs(o, "domain_resolver", resolver, legacy.resolver != "");
    if legacy.resolver != "" {
      o := o["domain_resolver" := resolver];
    }
    OptionalIs(o, "tag", Text(legacy.tag), legacy.tag != "");
    if legacy.tag != "" {
      o := o["tag" := Text(legacy.tag)];
    }
    o := o["type" := Text(transport.kind)];
    OptionalIs(o, "detour", Text(detour), detour != "");
    if detour != "" {
      o := o["detour" := Text(detour)];
    }
    return Object(o);
  }

  method Migrate(c: Codec, legacy: LegacyServer, defaultOutbound: string, emptyDirect: set<string>)
    returns (server: Option<Value>)
    ensures server == MigrateServer(c, legacy, defaultOutbound, emptyDirect)
  {
    var blank := HasBlank(legacy.address);
    if blank {
      return None;
    }
    var transport := c.transport(legacy.address);
    if transport.None? {
      return None;
    }
    match transport.value.kind {
      case "local" =>
      case "udp" =>
      case "tcp" =>
      case "tls" =>
      case "quic" =>
      case "https" =>
      case "h3" =>
      case _ => return None;
    }
    var detour := legacy.detour;
    if detour == "" {
      detour := defaultOutbound;
    }
    if detour in emptyDirect {
      detour := "";
    }
    if legacy.resolver == "" && legacy.addressStrategy != 0 {
      return None;
    }
    var built := BuildServer(c, legacy, transport.value, detour);
    return Some(built);
  }

  method ConvertServer(c: Codec, v: Value, defaultOutbound: string, emptyDirect: set<string>)
    returns (server: Option<Value>, legacy: bool)
    ensures server == NormalServer(c, v, defaultOutbound, emptyDirect)
    ensures server.Some? ==> (legacy <==> Legacy(v))
  {
    if !v.Object? && !v.Null? {
      return None, false;
    }
    var kind := ReadText(Entries(v), "type");
    if kind.None? {
      return None, false;
    }
    if kind.value != "" && kind.value != "legacy" {
      return Some(v), false;
    }
    var decoded := ReadServer(c, v);
    if decoded.None? || decoded.value.overridden {
      return None, true;
    }
    server := Migrate(c, decoded.value, defaultOutbound, emptyDirect);
    legacy := true;
  }

  /** The first i elements have been replaced by what they are converted to. */
  predicate Replaced<T(==)>(before: seq<T>, now: seq<T>, i: nat, convert: T -> Option<T>) {
    && |now| == |before| && i <= |before|
    && (forall j :: 0 <= j < i ==> convert(before[j]) == Some(now[j]))
    && (forall j :: i <= j < |before| ==> now[j] == before[j])
  }

  lemma ReplacedNext<T>(before: seq<T>, now: seq<T>, i: nat, convert: T -> Option<T>, next: T)
    requires i < |before| && Replaced(before, now, i, convert) && convert(before[i]) == Some(next)
    ensures Replaced(before, now[i := next], i + 1, convert)
  {
  }

  /** Rewrites the legacy servers, in place and in order. */
  method ConvertServers(c: Codec, servers: seq<Value>, way: string, plain: set<string>,
                        ghost normal: Value -> Option<Value>, ghost legacy: Value -> bool)
    returns (converted: Option<seq<Value>>, changed: bool)
    requires forall v :: normal(v) == NormalServer(c, v, way, plain)
    requires forall v :: legacy(v) <==> Legacy(v)
    requires forall v :: !legacy(v) && normal(v).Some? ==> normal(v).value == v
    ensures converted.Some? <==> forall i :: 0 <= i < |servers| ==> normal(servers[i]).Some?
    ensures converted.Some? ==> |converted.value| == |servers|
                                && (forall i :: 0 <= i < |servers| ==> normal(servers[i]) == Some(converted.value[i]))
                                && (changed <==> exists i :: 0 <= i < |servers| && legacy(servers[i]))
  {
    var done := servers;
    changed := false;
    for i := 0 to |servers|
      invariant Replaced(servers, done, i, normal)
      invariant changed <==> exists j :: 0 <= j < i && legacy(servers[j])
    {
      var server, old' := ConvertServer(c, servers[i], way, plain);
      assert server == normal(servers[i]);
      if server.None? {
        return None, changed;
      }
      assert old' <==> legacy(servers[i]);
      ReplacedNext(servers, done, i, normal, server.value);
      if old' {
        done, changed := done[i := server.value], true;
      } else {
        assert done[i := server.value] == done;
      }
    }
    return Some(done), changed;
  }

  method NormaliseServers(c: Codec, root: Fields, servers: seq<Value>)
    returns (converted: Option<seq<Value>>, changed: bool)
    requires servers == ServersOf(root)
    ensures converted.Some? <==> forall i :: 0 <= i < |servers| ==> NormalAt(c, root, i).Some?
    ensures converted.Some? ==> converted.value == NormalServers(c, root) && (changed <==> HasLegacy(root))
  {
    var plain := FindPlain(OutboundsOf(root));
    var way := Default(root);
    converted, changed := ConvertServers(c, servers, way, plain, v => NormalServer(c, v, way, plain), Legacy);
    assert forall i :: 0 <= i < |servers| ==> NormalAt(c, root, i) == NormalServer(c, servers[i], way, plain);
  }

  method CheckFinal(root: Fields) returns (ok: bool)
    ensures ok <==> FinalReadable(root)
  {
    if "route" !in root {
      return true;
    }
    if !root["route"].Object? && !root["route"].Null? {
      return false;
    }
    var final := ReadText(Entries(root["route"]), "final");
    return final.Some?;
  }

  /** The DNS options with their servers converted, None inside if there is nothing to change. */
  method NormaliseDns(c: Codec, root: Fields, changed: bool) returns (result: Option<Option<Fields>>)
    requires !Stripped(root)
    ensures result.Some? <==> DnsFits(c, root)
    ensures result.Some? ==>
              result.value == if changed || HasLegacy(root) then Some(WithServers(c, root)) else None
  {
    var servers := ListAt(EntriesAt(root, "dns"), "servers");
    if !root["dns"].Object? || servers.None? {
      return None;
    }
    var final := CheckFinal(root);
    if !final {
      return None;
    }
    var converted, legacy := NormaliseServers(c, root, servers.value);
    if converted.None? {
      return None;
    }
    if !changed && !legacy {
      return Some(None);
    }
    var dns := EntriesAt(root, "dns");
    dns := dns["servers" := if "servers" in dns && dns["servers"].Array? then Array(converted.value) else Null];
    return Some(Some(root["dns" := Object(dns)]));
  }

  /** The whole normalisation, on a decoded document. */
  method NormalizeLegacyDns(c: Codec, content: Value) returns (result: Option<Value>)
    ensures result == Normalize(c, content)
  {
    if !content.Object? {
      return None;
    }
    var configuration := new Configuration(content.fields - {"_meta"});
    var migrated := configuration.MigrateOutbounds();
    if migrated.None? {
      return None;
    }
    var root := configuration.root;
    var changed := "_meta" in content.fields || migrated.value;
    assert !changed ==> content.fields - {"_meta"} == content.fields;
    if "dns" !in root || root["dns"].Null? {
      return if changed then Some(Object(root)) else Some(content);
    }
    var normal := NormaliseDns(c, root, changed);
    if normal.None? {
      return None;
    }
    return if normal.value.None? then Some(content) else Some(Object(normal.value.value));
  }
}
