/** The two routers that decide who reaches a backend: the Caddy handler of
    internal/caddy/http_router.go, which reads attributes from a header, and the config
    router of internal/routing/config_router.go, which is given them as a list. */
module AccessControl {
  import opened Common
  import opened Strings

  // ----------------------------------------------------------- the policy

  predicate Grants(tier: string, attr: string) {
    attr == tier || attr == TrimPrefix(tier, "@")
  }

  /** Access is granted if some required tier grants some attribute. */
  ghost predicate Allowed(attrs: set<string>, tiers: set<string>) {
    exists t, a :: t in tiers && a in attrs && Grants(t, a)
  }

  ghost function Elements(s: seq<string>): set<string> {
    set x | x in s
  }

  // -------------------------------------------------------- config router

  function GrantsAny(tier: string, attrs: seq<string>): bool {
    attrs != [] && (Grants(tier, attrs[0]) || GrantsAny(tier, attrs[1..]))
  }

  function AnyGrants(tiers: seq<string>, attrs: seq<string>): bool {
    tiers != [] && (GrantsAny(tiers[0], attrs) || AnyGrants(tiers[1..], attrs))
  }

  function CheckACL(attrs: seq<string>, tiers: seq<string>): bool {
    if tiers == [] then false
    else if attrs == [] then false
    else AnyGrants(tiers, attrs)
  }

  lemma {:induction false} GrantsAnyMeans(tier: string, attrs: seq<string>)
    ensures GrantsAny(tier, attrs) <==> exists a :: a in attrs && Grants(tier, a)
  {
    if attrs != [] {
      GrantsAnyMeans(tier, attrs[1..]);
      assert attrs == [attrs[0]] + attrs[1..];
    }
  }

  lemma {:induction false} AnyGrantsMeans(tiers: seq<string>, attrs: seq<string>)
    ensures AnyGrants(tiers, attrs) <==> Allowed(Elements(attrs), Elements(tiers))
  {
    if tiers != [] {
      var rest := tiers[1..];
      assert tiers == [tiers[0]] + rest;
      AnyGrantsMeans(rest, attrs);
      GrantsAnyMeans(tiers[0], attrs);
      assert Elements(tiers) == {tiers[0]} + Elements(rest);
    }
  }

  /** The list check decides the policy on sets, so order and repetition do not matter. */
  lemma CheckACLMeans(attrs: seq<string>, tiers: seq<string>)
    ensures CheckACL(attrs, tiers) <==> Allowed(Elements(attrs), Elements(tiers))
  {
    AnyGrantsMeans(tiers, attrs);
  }

  /** More attributes or more tiers never take access away. */
  lemma CheckACLMonotone(attrs: seq<string>, tiers: seq<string>, attrs': seq<string>, tiers': seq<string>)
    requires Elements(attrs) <= Elements(attrs') && Elements(tiers) <= Elements(tiers')
    ensures CheckACL(attrs, tiers) ==> CheckACL(attrs', tiers')
  {
    CheckACLMeans(attrs, tiers);
    CheckACLMeans(attrs', tiers');
  }

  lemma GrantsMeans(tier: string, attr: string)
    ensures Grants(tier, attr) <==> attr == tier || "@" + attr == tier
  {
    if "@" <= tier {
      assert tier == "@" + tier[1..];
    }
    assert ("@" + attr)[1..] == attr;
  }

  /** Some attribute is required, by its own name or with an @ before it. */
  ghost predicate Required(attrs: seq<string>, tiers: seq<string>) {
    exists a :: a in attrs && (a in tiers || "@" + a in tiers)
  }

  lemma AllowedMeans(attrs: seq<string>, tiers: seq<string>)
    ensures Allowed(Elements(attrs), Elements(tiers)) <==> Required(attrs, tiers)
  {
    if Required(attrs, tiers) {
      var a :| a in attrs && (a in tiers || "@" + a in tiers);
      var t := if a in tiers then a else "@" + a;
      GrantsMeans(t, a);
      assert t in Elements(tiers) && a in Elements(attrs);
    }
    if Allowed(Elements(attrs), Elements(tiers)) {
      var t, a :| t in Elements(tiers) && a in Elements(attrs) && Grants(t, a);
      GrantsMeans(t, a);
    }
  }

  /** What the list check decides: whether some attribute is required, by its own name or
      with an @ before it. */
  lemma CheckACLRequires(attrs: seq<string>, tiers: seq<string>)
    ensures CheckACL(attrs, tiers) <==> Required(attrs, tiers)
  {
    CheckACLMeans(attrs, tiers);
    AllowedMeans(attrs, tiers);
  }

  // --------------------------------------------------------- Caddy handler

  /** The attributes a request's headers carry. */
  function HeaderAttrs(attributes: string, identity: string): seq<string> {
    var header := if attributes != "" then attributes else identity;
    if header == "" then [] else Map(TrimSpace, Split(header, ','))
  }

  /** Trims every piece in place. */
  method TrimAll(pieces: array<string>)
    modifies pieces
    ensures pieces[..] == Map(TrimSpace, old(pieces[..]))
  {
    for i := 0 to pieces.Length
      invariant forall k :: 0 <= k < i ==> pieces[k] == TrimSpace(old(pieces[k]))
      invariant forall k :: i <= k < pieces.Length ==> pieces[k] == old(pieces[k])
    {
      pieces[i] := TrimSpace(pieces[i]);
    }
  }

  /** The search of checkZitiACL. */
  method Search(tiers: seq<string>, clientAttrs: array<string>) returns (ok: bool)
    ensures ok <==> Allowed(Elements(clientAttrs[..]), Elements(tiers))
  {
    ghost var attrs := clientAttrs[..];
    for i := 0 to |tiers|
      invariant forall t, a :: t in tiers[..i] && a in attrs ==> !Grants(t, a)
    {
      for j := 0 to clientAttrs.Length
        invariant forall a :: a in attrs[..j] ==> !Grants(tiers[i], a)
      {
        if clientAttrs[j] == tiers[i] || clientAttrs[j] == TrimPrefix(tiers[i], "@") {
          assert attrs[j] in Elements(attrs) && tiers[i] in Elements(tiers) && Grants(tiers[i], attrs[j]);
          return true;
        }
        assert attrs[..j + 1] == attrs[..j] + [attrs[j]];
      }
      assert attrs[..|attrs|] == attrs;
      assert tiers[..i + 1] == tiers[..i] + [tiers[i]];
    }
    assert tiers[..|tiers|] == tiers;
    return false;
  }

  /** checkZitiACL: splits the header, trims the pieces in place, and searches. */
  method CheckZitiACL(attributes: string, identity: string, tiers: seq<string>) returns (ok: bool)
    ensures ok <==> Allowed(Elements(HeaderAttrs(attributes, identity)), Elements(tiers))
  {
    if |tiers| == 0 {
      return false;
    }
    var header := attributes;
    if header == "" {
      header := identity;
      if header == "" {
        return false;
      }
    }
    var pieces := Split(header, ',');
    var clientAttrs := new string[|pieces|](i requires 0 <= i < |pieces| => pieces[i]);
    assert clientAttrs[..] == pieces;
    TrimAll(clientAttrs);
    ok := Search(tiers, clientAttrs);
  }

  predicate Plain(attrs: seq<string>) {
    forall i :: 0 <= i < |attrs| ==> ',' !in attrs[i] && TrimSpace(attrs[i]) == attrs[i]
  }

  lemma HeaderOfJoin(attrs: seq<string>, identity: string)
    requires Plain(attrs) && Join(attrs, ',') != ""
    ensures HeaderAttrs(Join(attrs, ','), identity) == attrs
  {
    SplitOfJoin(attrs, ',');
  }

  /** Lists whose header is blank. */
  predicate Blank(attrs: seq<string>) {
    attrs == [] || attrs == [""]
  }

  lemma JoinBlank(attrs: seq<string>)
    ensures Join(attrs, ',') == "" <==> Blank(attrs)
  {
  }

  /** What the handler's check goes by: the attributes sent, or where their header is
      blank, the pieces of the identity header. */
  function Presented(attrs: seq<string>, identity: string): seq<string> {
    if Blank(attrs) then HeaderAttrs("", identity) else attrs
  }

  lemma HeadersPresent(attrs: seq<string>, identity: string)
    requires Plain(attrs)
    ensures HeaderAttrs(Join(attrs, ','), identity) == Presented(attrs, identity)
  {
    JoinBlank(attrs);
    if !Blank(attrs) {
      HeaderOfJoin(attrs, identity);
    }
  }

  /** Sent as a header, plain attributes are checked just as they would be in a list,
      whatever identity header comes with them, unless their header is blank. Then the
      identity header is checked instead, while the list check grants no attributes
      nothing, and a single empty one what tiers for it grant. */
  lemma ChecksAgree(attrs: seq<string>, identity: string, tiers: seq<string>)
    requires Plain(attrs)
    ensures (Allowed(Elements(HeaderAttrs(Join(attrs, ','), identity)), Elements(tiers)) <==> CheckACL(attrs, tiers))
       <==> !Blank(attrs) ||
            (CheckACL(HeaderAttrs("", identity), tiers) <==> attrs == [""] && ("" in tiers || "@" in tiers))
  {
    HeadersPresent(attrs, identity);
    CheckACLMeans(attrs, tiers);
    CheckACLMeans(HeaderAttrs("", identity), tiers);
    BlankAttribute(tiers);
  }

  /** White space around the pieces of a header. */
  predicate Padded(piece: string, padded: string, before: string, after: string) {
    padded == before + piece + after && AllSpace(before) && AllSpace(after) && ',' !in before && ',' !in after
  }

  lemma JoinNonBlank(parts: seq<string>)
    requires |parts| > 1 || (|parts| == 1 && parts[0] != "")
    ensures Join(parts, ',') != ""
  {
  }

  /** White space put around the pieces of a header that is not blank changes nothing in
      what is checked, be it the attributes header or the identity header. */
  lemma PaddingIgnored(pieces: seq<string>, padded: seq<string>, before: seq<string>, after: seq<string>,
      identity: string)
    requires |pieces| == |padded| == |before| == |after| && !Blank(pieces)
    requires forall i :: 0 <= i < |pieces| ==>
               ',' !in pieces[i] && Padded(pieces[i], padded[i], before[i], after[i])
    ensures HeaderAttrs(Join(padded, ','), identity) == HeaderAttrs(Join(pieces, ','), identity)
         == Map(TrimSpace, pieces)
    ensures HeaderAttrs("", Join(padded, ',')) == HeaderAttrs("", Join(pieces, ',')) == Map(TrimSpace, pieces)
  {
    SplitOfJoin(pieces, ',');
    SplitOfJoin(padded, ',');
    JoinNonBlank(pieces);
    JoinNonBlank(padded);
    forall i | 0 <= i < |pieces|
      ensures TrimSpace(padded[i]) == TrimSpace(pieces[i])
    {
      TrimOfPadded(before[i], pieces[i], after[i]);
    }
    assert Map(TrimSpace, padded) == Map(TrimSpace, pieces);
  }

  /** So a client without attributes gets what its identity is a tier for from the handler,
      and nothing by the list check. */
  lemma IdentityStandsIn(identity: string)
    requires identity != "" && Plain([identity])
    ensures Allowed(Elements(HeaderAttrs(Join([], ','), identity)), Elements([identity]))
    ensures !CheckACL([], [identity])
  {
    SplitOne(identity, ',');
    assert [identity][0] == identity;
    assert HeaderAttrs("", identity) == [identity];
    assert identity in Elements([identity]) && Grants(identity, identity);
  }

  lemma BlankAttribute(tiers: seq<string>)
    ensures Allowed(Elements([""]), Elements(tiers)) <==> "" in tiers || "@" in tiers
  {
    assert "" in Elements([""]);
    forall t | Grants(t, "")
      ensures t == "" || t == "@"
    {
      if "@" <= t {
        assert t == "@" + t[1..];
      }
    }
    if "" in tiers {
      assert "" in Elements(tiers) && Grants("", "");
    }
    if "@" in tiers {
      assert "@" in Elements(tiers) && "@"[1..] == "" && Grants("@", "");
    }
  }

  // --------------------------------------------------------------- routing

  datatype AppConfig = AppConfig(enabled: bool, backend: string, requiresAuth: bool, aclTiers: seq<string>)

  /** What looking up a domain's configuration comes to. */
  datatype Lookup = Failed(error: string) | Absent | Found(config: AppConfig)

  datatype RoutingDecision = RoutingDecision(routeType: string, backend: string, config: Option<AppConfig>,
      reason: string)

  function RouteRequest(lookup: string -> Lookup, domain: string): RoutingDecision {
    match lookup(domain)
    case Failed(error) => RoutingDecision("honeypot", "", None, "bao lookup error: " + error)
    case Absent => RoutingDecision("honeypot", "", None, "no configuration found")
    case Found(config) =>
      if !config.enabled then RoutingDecision("honeypot", "", Some(config), "app is disabled")
      else RoutingDecision("backend", config.backend, Some(config), "config found and enabled")
  }

  /** The host without its port. */
  function Domain(host: string): (d: string)
    ensures ':' !in d && d <= host
    ensures d == host || host[|d|] == ':'
  {
    if host == "" || host[0] == ':' then "" else [host[0]] + Domain(host[1..])
  }

  datatype Served = Honeypot | Backend(config: AppConfig)

  /** The config router picks a backend exactly if the lookup finds a configuration that is
      enabled, and then that one; otherwise it says honeypot and names no backend. */
  lemma RouteRequestMeans(lookup: string -> Lookup, domain: string)
    ensures var decision := RouteRequest(lookup, domain);
            (forall c :: decision.routeType == "backend" && decision.config == Some(c) <==>
                         lookup(domain) == Found(c) && c.enabled) &&
            (forall c :: lookup(domain) == Found(c) && c.enabled ==> decision.backend == c.backend) &&
            ((forall c :: !(lookup(domain) == Found(c) && c.enabled)) ==>
              decision.routeType == "honeypot" && decision.backend == "")
  {
    var decision := RouteRequest(lookup, domain);
    match lookup(domain) {
      case Found(config) =>
        assert lookup(domain) == Found(config);
      case _ =>
    }
  }

  /** A request with these attributes is entitled to the backend of this configuration. */
  ghost predicate Entitled(lookup: string -> Lookup, host: string, attrs: seq<string>, c: AppConfig) {
    lookup(Domain(host)) == Found(c) && c.enabled && (c.requiresAuth ==> Required(attrs, c.aclTiers))
  }

  /** The handler's decision, from the lookup alone. */
  lemma ServedExactly(lookup: string -> Lookup, host: string, attrs: seq<string>, c: AppConfig)
    ensures Serve(lookup, host, attrs) == Backend(c) <==> Entitled(lookup, host, attrs, c)
  {
    AllowedMeans(attrs, c.aclTiers);
  }

  /** The decision of ServeHTTP. */
  method ServeHTTP(lookup: string -> Lookup, host: string, attributes: string, identity: string)
      returns (served: Served)
    ensures served == Serve(lookup, host, HeaderAttrs(attributes, identity))
    ensures forall c :: served == Backend(c) <==> Entitled(lookup, host, HeaderAttrs(attributes, identity), c)
  {
    forall c
      ensures Serve(lookup, host, HeaderAttrs(attributes, identity)) == Backend(c) <==>
              Entitled(lookup, host, HeaderAttrs(attributes, identity), c)
    {
      ServedExactly(lookup, host, HeaderAttrs(attributes, identity), c);
    }
    match lookup(Domain(host)) {
      case Failed(_) =>
        return Honeypot;
      case Absent =>
        return Honeypot;
      case Found(config) =>
        if !config.enabled {
          return Honeypot;
        }
        if config.requiresAuth {
          var allowed := CheckZitiACL(attributes, identity, config.aclTiers);
          if !allowed {
            return Honeypot;
          }
        }
        return Backend(config);
    }
  }

  /** The config router's decision and its list check, put together. */
  ghost function Serve(lookup: string -> Lookup, host: string, attrs: seq<string>): Served {
    var decision := RouteRequest(lookup, Domain(host));
    if decision.routeType == "backend" && decision.config.Some? &&
       (!decision.config.value.requiresAuth || Allowed(Elements(attrs), Elements(decision.config.value.aclTiers)))
    then Backend(decision.config.value)
    else Honeypot
  }

  /** A request with plain attributes and any identity header is served by a backend
      exactly when the config router picks that backend and no access is required or the
      list check grants it: to the attributes, or, where their header is blank, to the
      pieces of the identity header. */
  lemma RoutersAgree(lookup: string -> Lookup, host: string, attrs: seq<string>, identity: string, config: AppConfig)
    requires Plain(attrs)
    ensures var decision := RouteRequest(lookup, Domain(host));
            Serve(lookup, host, HeaderAttrs(Join(attrs, ','), identity)) == Backend(config) <==>
            decision.routeType == "backend" && decision.config == Some(config) && decision.backend == config.backend &&
            (!config.requiresAuth || CheckACL(Presented(attrs, identity), config.aclTiers))
    ensures var decision := RouteRequest(lookup, Domain(host));
            decision.routeType == "backend" && decision.config == Some(config) <==>
            lookup(Domain(host)) == Found(config) && config.enabled
  {
    HeadersPresent(attrs, identity);
    CheckACLMeans(Presented(attrs, identity), config.aclTiers);
  }
}
