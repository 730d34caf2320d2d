/** Chain identity and policy compilation for one service group
    (paasta_tools/firewall.py: `ServiceGroup`, `_default_rule`,
    `_well_known_rules`, `_smartstack_rules`). Everything here is a pure
    function of the group, the loaded configuration and the namespace lookup. */
module Firewall {
  import opened Text
  import opened Iptables

  /** `0.0.0.0/0.0.0.0`: every address. */
  const AnyNet := "0.0.0.0/0.0.0.0"
  /** The address the service-discovery proxy listens on. */
  const ProxyAddress := "169.254.255.254/255.255.255.255"
  /** The shared chain that well-known `internet` dependencies jump to. */
  const InternetChain := "PAASTA-INTERNET"
  /** The dispatch chain that sends packets to service chains by source MAC. */
  const DispatchChain := "PAASTA"
  /** Every per-service chain name starts with this prefix. */
  const ServiceChainPrefix := "PAASTA."
  /** The longest chain name iptables accepts. */
  const MaxChainNameLength := 28
  /** Characters of the service name and of the hash kept in a chain name. */
  const NameChars := 10
  /** Destinations that the internet chain sends back (`RETURN`) instead of accepting. */
  const PrivateIpRanges := [
    "127.0.0.0/255.0.0.0",
    "10.0.0.0/255.0.0.0",
    "172.16.0.0/255.240.0.0",
    "192.168.0.0/255.255.0.0",
    "169.254.0.0/255.255.0.0"
  ]

  datatype Option<T> = None | Some(value: T)

  /** The identity of a group of running instances: the 4-field namedtuple. */
  datatype ServiceGroup = ServiceGroup(service: string, instance: string, framework: string, soaDir: string)

  /** What a service's loaded configuration contributes: the outbound posture and
      the two dependency lists (an absent list is the empty sequence). */
  datatype ServiceConfig = ServiceConfig(outboundFirewall: string, wellKnown: seq<string>, smartstack: seq<string>)

  /** One entry of `get_all_namespaces_for_service`: the `proxy_port` key may be missing. */
  datatype NamespaceConfig = NamespaceConfig(proxyPort: Option<nat>)

  /** The collaborators the firewall code calls but does not define:
      - digest(g): `sha256(json.dumps(g)).hexdigest()`
      - loadConfig(g): the chronos or marathon config loader for g
      - namespaces(service, soaDir): `dict(get_all_namespaces_for_service(service, soa_dir))` */
  datatype Env = Env(
    digest: ServiceGroup -> string,
    loadConfig: ServiceGroup -> ServiceConfig,
    namespaces: (string, string) -> map<string, NamespaceConfig>)

  /** The exceptions the compilation raises, one per `raise` or failing lookup. */
  datatype Error =
    | UnknownFramework(framework: string)    // KeyError on the loader table
    | UnknownPosture(posture: string)        // AssertionError(policy)
    | UnknownResource(resource: string)      // KeyError(resource)
    | MalformedNamespace(namespace: string)  // ValueError: no '.' to split on
    | UnknownNamespace(namespace: string)    // KeyError on the namespace dict
    | MissingProxyPort(namespace: string)    // KeyError('proxy_port')

  datatype Result<T> = Ok(value: T) | Err(error: Error) {
    predicate IsFailure() {
      Err?
    }

    function PropagateFailure<U>(): Result<U>
      requires Err?
    {
      Err(error)
    }

    function Extract(): T
      requires Ok?
    {
      value
    }
  }

  // ---------------------------------------------------------------- chain identity

  predicate IsHexChar(c: char) {
    '0' <= c <= '9' || 'a' <= c <= 'f'
  }

  /** What `hexdigest()` of SHA-256 returns: 64 lower-case hex characters. */
  predicate IsSha256Hex(s: string) {
    |s| == 64 && forall i :: 0 <= i < |s| ==> IsHexChar(s[i])
  }

  /** `ServiceGroup.chain_name`: prefix, at most ten characters of the service
      name, a dot, and at most ten characters of the group's hash. The
      source's `assert len(chain) <= 28` is the second postcondition. */
  function ChainName(g: ServiceGroup, digest: ServiceGroup -> string): (name: string)
    ensures StartsWith(name, ServiceChainPrefix)
    ensures |name| <= MaxChainNameLength
  {
    ServiceChainPrefix + Take(g.service, NameChars) + "." + Take(digest(g), NameChars)
  }

  /** Reads a chain name back into its truncated service name and its hash suffix. */
  function ChainNameParts(name: string): (parts: (string, string))
    requires |name| >= |ServiceChainPrefix| + 1 + NameChars
    ensures |parts.1| == NameChars
  {
    (name[|ServiceChainPrefix|..|name| - NameChars - 1], name[|name| - NameChars..])
  }

  /** The chain name is decodable: it determines the truncated service name and
      the first ten hash characters of the group it was made from. */
  lemma ChainNameDecodes(g: ServiceGroup, digest: ServiceGroup -> string)
    requires IsSha256Hex(digest(g))
    ensures var name := ChainName(g, digest);
      |name| == |ServiceChainPrefix| + |Take(g.service, NameChars)| + 1 + NameChars
      && ChainNameParts(name) == (Take(g.service, NameChars), digest(g)[..NameChars])
  {
    var svc, hash := Take(g.service, NameChars), Take(digest(g), NameChars);
    var name := ChainName(g, digest);
    assert name == ServiceChainPrefix + svc + "." + hash;
    assert name[|ServiceChainPrefix|..|name| - NameChars - 1] == svc;
    assert name[|name| - NameChars..] == hash;
  }

  /** Two groups whose hashes differ in their first ten characters never share a
      chain name, even when their service names agree on the first ten. */
  lemma ChainNameDistinguishes(g1: ServiceGroup, g2: ServiceGroup, digest: ServiceGroup -> string)
    requires IsSha256Hex(digest(g1)) && IsSha256Hex(digest(g2))
    requires digest(g1)[..NameChars] != digest(g2)[..NameChars]
    ensures ChainName(g1, digest) != ChainName(g2, digest)
  {
    ChainNameDecodes(g1, digest);
    ChainNameDecodes(g2, digest);
  }

  /** Service chain names never clash with the fixed chains the code manages
      or with the built-in chains it jumps from. */
  lemma ServiceChainNamesAreReserved(name: string)
    requires StartsWith(name, ServiceChainPrefix)
    ensures name != DispatchChain && name != InternetChain && name != "INPUT" && name != "FORWARD"
  {
    assert name[6] == '.';
    assert InternetChain[6] == '-';
  }

  // ---------------------------------------------------------------- policy compilation

  /** A rule on all protocols from any address to any address, with no matches. */
  function AllTraffic(target: string): Rule {
    Rule("ip", AnyNet, AnyNet, target, [])
  }

  /** `_default_rule`: `block` rejects all traffic, `monitor` logs it; no other posture is accepted. */
  function DefaultRule(posture: string): (r: Result<Rule>)
    ensures r.Ok? <==> posture == "block" || posture == "monitor"
    ensures posture == "block" ==> r == Ok(AllTraffic("REJECT"))
    ensures posture == "monitor" ==> r == Ok(AllTraffic("LOG"))
    ensures r.Err? ==> r.error == UnknownPosture(posture)
  {
    if posture == "block" then Ok(AllTraffic("REJECT"))
    else if posture == "monitor" then Ok(AllTraffic("LOG"))
    else Err(UnknownPosture(posture))
  }

  /** Whether element `i` is the first of `xs` on which `f` fails. */
  predicate FailsFirstAt<A>(xs: seq<A>, f: A -> Result<Rule>, i: int) {
    0 <= i < |xs| && f(xs[i]).Err? && forall j :: 0 <= j < i ==> f(xs[j]).Ok?
  }

  /** Draining a generator that yields `f(x)` for each `x` in order into a list:
      the first exception aborts the whole list. */
  function Collect<A>(xs: seq<A>, f: A -> Result<Rule>): (r: Result<seq<Rule>>)
    ensures r.Ok? <==> forall i :: 0 <= i < |xs| ==> f(xs[i]).Ok?
    ensures r.Ok? ==> |r.value| == |xs| && forall i :: 0 <= i < |xs| ==> r.value[i] == f(xs[i]).value
    ensures r.Err? ==> exists i :: FailsFirstAt(xs, f, i) && r.error == f(xs[i]).error
  {
    if xs == [] then Ok([])
    else
      var head := f(xs[0]);
      if head.Err? then
        assert FailsFirstAt(xs, f, 0);
        Err(head.error)
      else
        var rest := Collect(xs[1..], f);
        if rest.Err? then
          assert forall i :: FailsFirstAt(xs[1..], f, i) ==> FailsFirstAt(xs, f, i + 1);
          Err(rest.error)
        else
          Ok([head.value] + rest.value)
  }

  /** One entry of `_well_known_rules`: only `internet` is known, and it jumps to the internet chain. */
  function WellKnownRule(resource: string): (r: Result<Rule>)
    ensures r.Ok? <==> resource == "internet"
    ensures r.Ok? ==> r.value == AllTraffic(InternetChain)
    ensures r.Err? ==> r.error == UnknownResource(resource)
  {
    if resource == "internet" then Ok(AllTraffic(InternetChain)) else Err(UnknownResource(resource))
  }

  /** `_well_known_rules`: one internet jump per entry, or the first unknown resource. */
  function WellKnownRules(resources: seq<string>): (r: Result<seq<Rule>>)
    ensures r.Ok? <==> forall i :: 0 <= i < |resources| ==> resources[i] == "internet"
    ensures r.Ok? ==> |r.value| == |resources| && forall i :: 0 <= i < |r.value| ==> r.value[i] == AllTraffic(InternetChain)
    ensures r.Err? ==> exists i :: (0 <= i < |resources| && r.error == UnknownResource(resources[i])
      && resources[i] != "internet" && forall j :: 0 <= j < i ==> resources[j] == "internet")
  {
    var r := Collect(resources, WellKnownRule);
    assert r.Err? ==> exists i :: FailsFirstAt(resources, WellKnownRule, i) && r.error == WellKnownRule(resources[i]).error;
    r
  }

  /** The port behind a smartstack namespace `service.name`: the namespace must
      contain a dot, must be one of its service's namespaces, and must have a
      `proxy_port`. */
  function ProxyPort(namespace: string, soaDir: string, lookup: (string, string) -> map<string, NamespaceConfig>): (r: Result<nat>)
    ensures '.' !in namespace ==> r == Err(MalformedNamespace(namespace))
    ensures '.' in namespace ==> (var known := lookup(BeforeFirst(namespace, '.'), soaDir);
      && (namespace !in known ==> r == Err(UnknownNamespace(namespace)))
      && (namespace in known && known[namespace].proxyPort.None? ==> r == Err(MissingProxyPort(namespace)))
      && (namespace in known && known[namespace].proxyPort.Some? ==> r == Ok(known[namespace].proxyPort.value)))
  {
    if '.' !in namespace then Err(MalformedNamespace(namespace))
    else
      var known := lookup(BeforeFirst(namespace, '.'), soaDir);
      if namespace !in known then Err(UnknownNamespace(namespace))
      else if known[namespace].proxyPort.None? then Err(MissingProxyPort(namespace))
      else Ok(known[namespace].proxyPort.value)
  }

  /** The rule that lets a service reach one namespace: TCP to the proxy address, on the namespace's port. */
  function ProxyAccept(port: nat): Rule {
    Rule("tcp", AnyNet, ProxyAddress, "ACCEPT", [Match("tcp", [("dport", NatToString(port))])])
  }

  /** Distinct ports give distinct accept rules. */
  lemma ProxyAcceptInjective(p: nat, q: nat)
    ensures ProxyAccept(p) == ProxyAccept(q) ==> p == q
  {
    if ProxyAccept(p) == ProxyAccept(q) {
      assert ProxyAccept(p).matches[0].params[0].1 == NatToString(p);
      NatToStringInjective(p, q);
    }
  }

  /** One entry of `_smartstack_rules`. */
  function SmartstackRule(namespace: string, soaDir: string, lookup: (string, string) -> map<string, NamespaceConfig>): (r: Result<Rule>)
    ensures r.Ok? <==> ProxyPort(namespace, soaDir, lookup).Ok?
    ensures r.Ok? ==> r.value == ProxyAccept(ProxyPort(namespace, soaDir, lookup).value)
    ensures r.Err? ==> r.error == ProxyPort(namespace, soaDir, lookup).error
  {
    var port :- ProxyPort(namespace, soaDir, lookup);
    Ok(ProxyAccept(port))
  }

  /** `_smartstack_rules`: one accept rule per namespace in declared order, or the first failing namespace. */
  function SmartstackRules(namespaces: seq<string>, soaDir: string, lookup: (string, string) -> map<string, NamespaceConfig>): (r: Result<seq<Rule>>)
    ensures r.Ok? <==> forall i :: 0 <= i < |namespaces| ==> ProxyPort(namespaces[i], soaDir, lookup).Ok?
    ensures r.Ok? ==> (|r.value| == |namespaces|
      && forall i :: 0 <= i < |namespaces| ==> r.value[i] == ProxyAccept(ProxyPort(namespaces[i], soaDir, lookup).value))
    ensures r.Err? ==> exists i :: (0 <= i < |namespaces| && ProxyPort(namespaces[i], soaDir, lookup).Err?
      && r.error == ProxyPort(namespaces[i], soaDir, lookup).error
      && forall j :: 0 <= j < i ==> ProxyPort(namespaces[j], soaDir, lookup).Ok?)
  {
    var rule := (ns: string) => SmartstackRule(ns, soaDir, lookup);
    var r := Collect(namespaces, rule);
    assert r.Err? ==> exists i :: FailsFirstAt(namespaces, rule, i) && r.error == rule(namespaces[i]).error;
    r
  }

  /** `ServiceGroup.config`: only the chronos and marathon loaders exist. */
  function LoadConfig(g: ServiceGroup, env: Env): (r: Result<ServiceConfig>)
    ensures r.Ok? <==> g.framework == "chronos" || g.framework == "marathon"
    ensures r.Ok? ==> r.value == env.loadConfig(g)
    ensures r.Err? ==> r.error == UnknownFramework(g.framework)
  {
    if g.framework == "chronos" || g.framework == "marathon" then Ok(env.loadConfig(g))
    else Err(UnknownFramework(g.framework))
  }

  /** Targets a compiled service rule can have. */
  predicate IsPolicyTarget(target: string) {
    target == "REJECT" || target == "LOG" || target == InternetChain || target == "ACCEPT"
  }

  /** `ServiceGroup.rules`: the default rule, then the well-known rules, then the
      smartstack rules, each list in declared order. Compilation succeeds exactly
      when the framework, the posture, every resource and every namespace are known,
      and errors are raised in that order: framework, posture, resource, namespace. */
  function Rules(g: ServiceGroup, env: Env): (r: Result<seq<Rule>>)
    ensures var conf := env.loadConfig(g);
      r.Ok? <==>
        && LoadConfig(g, env).Ok?
        && DefaultRule(conf.outboundFirewall).Ok?
        && (forall i :: 0 <= i < |conf.wellKnown| ==> conf.wellKnown[i] == "internet")
        && (forall j :: 0 <= j < |conf.smartstack| ==> ProxyPort(conf.smartstack[j], g.soaDir, env.namespaces).Ok?)
    ensures var conf := env.loadConfig(g);
      r.Ok? ==>
        && |r.value| == 1 + |conf.wellKnown| + |conf.smartstack|
        && r.value[0] == DefaultRule(conf.outboundFirewall).value
        && (forall i :: 1 <= i <= |conf.wellKnown| ==> r.value[i] == AllTraffic(InternetChain))
        && (forall j :: 0 <= j < |conf.smartstack| ==>
              r.value[1 + |conf.wellKnown| + j] == ProxyAccept(ProxyPort(conf.smartstack[j], g.soaDir, env.namespaces).value))
    ensures r.Ok? ==> forall rule :: rule in r.value ==> IsPolicyTarget(rule.target)
    ensures LoadConfig(g, env).Err? ==> r == Err(UnknownFramework(g.framework))
    ensures var conf := env.loadConfig(g);
      LoadConfig(g, env).Ok? && DefaultRule(conf.outboundFirewall).Err? ==> r == Err(UnknownPosture(conf.outboundFirewall))
    ensures var conf := env.loadConfig(g);
      LoadConfig(g, env).Ok? && DefaultRule(conf.outboundFirewall).Ok? && WellKnownRules(conf.wellKnown).Err? ==>
        r == Err(WellKnownRules(conf.wellKnown).error)
    ensures var conf := env.loadConfig(g);
      LoadConfig(g, env).Ok? && DefaultRule(conf.outboundFirewall).Ok? && WellKnownRules(conf.wellKnown).Ok?
      && SmartstackRules(conf.smartstack, g.soaDir, env.namespaces).Err? ==>
        r == Err(SmartstackRules(conf.smartstack, g.soaDir, env.namespaces).error)
  {
    var conf :- LoadConfig(g, env);
    var default :- DefaultRule(conf.outboundFirewall);
    var wellKnown :- WellKnownRules(conf.wellKnown);
    var smartstack :- SmartstackRules(conf.smartstack, g.soaDir, env.namespaces);
    var rules := [default] + wellKnown + smartstack;
    assert forall k :: 0 <= k < |rules| ==> IsPolicyTarget(rules[k].target);
    Ok(rules)
  }

  /** A `block` service with the `internet` dependency and one namespace on port
      8888 compiles to exactly three rules: reject, internet jump, accept on 8888. */
  lemma RulesExample(g: ServiceGroup, env: Env)
    requires g.framework == "marathon"
    requires env.loadConfig(g) == ServiceConfig("block", ["internet"], ["other.main"])
    requires var known := env.namespaces("other", g.soaDir);
      "other.main" in known && known["other.main"].proxyPort == Some(8888)
    ensures Rules(g, env) == Ok([
      Rule("ip", AnyNet, AnyNet, "REJECT", []),
      Rule("ip", AnyNet, AnyNet, "PAASTA-INTERNET", []),
      Rule("tcp", AnyNet, ProxyAddress, "ACCEPT", [Match("tcp", [("dport", "8888")])])])
  {
    ExampleProxyRule(g.soaDir, env.namespaces);
    var r := Rules(g, env);
    assert r.Ok?;
    assert |r.value| == 3;
    assert r.value[0] == AllTraffic("REJECT");
    assert r.value[1] == AllTraffic(InternetChain);
    assert r.value[2] == ProxyAccept(8888);
    assert r.value == [AllTraffic("REJECT"), AllTraffic(InternetChain), ProxyAccept(8888)];
  }

  lemma ExampleProxyRule(soaDir: string, lookup: (string, string) -> map<string, NamespaceConfig>)
    requires var known := lookup("other", soaDir);
      "other.main" in known && known["other.main"].proxyPort == Some(8888)
    ensures ProxyPort("other.main", soaDir, lookup) == Ok(8888)
    ensures ProxyAccept(8888) == Rule("tcp", AnyNet, ProxyAddress, "ACCEPT", [Match("tcp", [("dport", "8888")])])
  {
    assert BeforeFirst("other.main", '.') == "other" by {
      assert "other.main"[1..] == "ther.main";
      assert "ther.main"[1..] == "her.main";
      assert "her.main"[1..] == "er.main";
      assert "er.main"[1..] == "r.main";
      assert "r.main"[1..] == ".main";
    }
    assert NatToString(8888) == "8888" by {
      assert NatToString(8) == "8";
      assert NatToString(88) == NatToString(8) + "8";
      assert NatToString(888) == NatToString(88) + "8";
    }
  }
}
