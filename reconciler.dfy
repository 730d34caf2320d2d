/** Reconciliation of the host's filter table with the services running on it
    (paasta_tools/firewall.py: `active_service_groups`, `update_rules`,
    `ensure_internet_chain`, `ensure_service_chains`, `ensure_dispatch_chains`,
    `garbage_collect_old_service_chains`, `general_update`).

    Dictionaries and sets are iterated in an order the code does not control,
    so each loop here takes its next element with `:|`: every contract holds
    whatever order the iteration follows. */
module Reconciler {
  import opened Text
  import opened Iptables
  import opened Firewall

  /** One instance running on this host, as discovery reports it. */
  datatype RunningInstance = RunningInstance(service: string, instance: string, framework: string, mac: string)

  function GroupOf(x: RunningInstance, soaDir: string): ServiceGroup {
    ServiceGroup(x.service, x.instance, x.framework, soaDir)
  }

  /** The distinct groups the running instances belong to. */
  function ActiveGroups(running: seq<RunningInstance>, soaDir: string): set<ServiceGroup> {
    set x | x in running :: GroupOf(x, soaDir)
  }

  /** The MAC addresses of the running instances of group `g`. */
  function MacsOf(running: seq<RunningInstance>, soaDir: string, g: ServiceGroup): set<string> {
    set x | x in running && GroupOf(x, soaDir) == g :: x.mac
  }

  /** No two active groups share a chain name (their hashes do not collide). */
  predicate NamesDistinct(groups: set<ServiceGroup>, digest: ServiceGroup -> string) {
    forall g1, g2 :: g1 in groups && g2 in groups && ChainName(g1, digest) == ChainName(g2, digest) ==> g1 == g2
  }

  // ---------------------------------------------------------------- grouping

  /** `active_service_groups`: every running instance adds its MAC to the set of its group. */
  method ActiveServiceGroups(running: seq<RunningInstance>, soaDir: string) returns (groups: map<ServiceGroup, set<string>>)
    ensures groups.Keys == ActiveGroups(running, soaDir)
    ensures forall g :: g in groups ==> groups[g] == MacsOf(running, soaDir, g) && groups[g] != {}
  {
    groups := map[];
    for i := 0 to |running|
      invariant groups.Keys == ActiveGroups(running[..i], soaDir)
      invariant forall g :: g in groups ==> groups[g] == MacsOf(running[..i], soaDir, g) && groups[g] != {}
    {
      var x := running[i];
      var g := GroupOf(x, soaDir);
      var macs := if g in groups then groups[g] else {};
      groups := groups[g := macs + {x.mac}];
      assert running[..i + 1] == running[..i] + [x];
    }
    assert running[..|running|] == running;
  }

  // ---------------------------------------------------------------- service chains

  /** `ServiceGroup.update_rules`: the group's chain gets its compiled rules; a
      compilation error leaves the table as it was. */
  method UpdateRules(t: Table, g: ServiceGroup, env: Env) returns (res: Result<seq<Rule>>)
    modifies t
    ensures res == Rules(g, env)
    ensures res.Ok? ==> t.chains == old(t.chains)[ChainName(g, env.digest) := res.value]
    ensures res.Err? ==> t.chains == old(t.chains)
  {
    var name := ChainName(g, env.digest);
    res := Rules(g, env);
    if res.Ok? {
      t.EnsureChain(name, res.value);
    }
  }

  /** Every chain named in `owner` holds the compiled rules of the active group that owns it. */
  ghost predicate OwnedChains(
    chains: map<string, seq<Rule>>, owner: map<string, ServiceGroup>,
    running: seq<RunningInstance>, soaDir: string, env: Env)
  {
    forall n :: n in owner ==>
      && owner[n] in ActiveGroups(running, soaDir)
      && ChainName(owner[n], env.digest) == n
      && Rules(owner[n], env).Ok?
      && n in chains && chains[n] == Rules(owner[n], env).value
  }

  /** `after` keeps every chain of `before` and differs from it only on the chains in `changed`. */
  ghost predicate ChangedOnly(before: map<string, seq<Rule>>, after: map<string, seq<Rule>>, changed: set<string>) {
    && before.Keys <= after.Keys
    && forall n :: n in after && n !in changed ==> n in before && after[n] == before[n]
  }

  /** `ensure_service_chains`: every active group's chain is set to its compiled
      rules, and the result maps each chain name to its group's MAC set. The
      first compilation error aborts the loop, with the chains written so far
      left in place. `owner` names, for every chain written, the group whose
      rules it now holds (the last group written under that name). */
  method EnsureServiceChains(t: Table, running: seq<RunningInstance>, soaDir: string, env: Env)
    returns (res: Result<map<string, set<string>>>, ghost owner: map<string, ServiceGroup>)
    modifies t
    ensures ChangedOnly(old(t.chains), t.chains, owner.Keys)
    ensures OwnedChains(t.chains, owner, running, soaDir, env)
    ensures res.Ok? ==> res.value.Keys == owner.Keys
    ensures res.Ok? ==> forall n :: n in res.value ==> res.value[n] == MacsOf(running, soaDir, owner[n])
    ensures res.Ok? ==> forall g :: g in ActiveGroups(running, soaDir) ==>
      ChainName(g, env.digest) in owner && Rules(g, env).Ok?
    ensures res.Err? ==> exists g :: g in ActiveGroups(running, soaDir) && Rules(g, env) == Err(res.error)
  {
    var groups := ActiveServiceGroups(running, soaDir);
    var chains: map<string, set<string>> := map[];
    owner := map[];
    var todo := groups.Keys;
    while todo != {}
      invariant todo <= groups.Keys
      invariant chains.Keys == owner.Keys
      invariant forall g :: g in groups.Keys - todo ==> ChainName(g, env.digest) in owner && Rules(g, env).Ok?
      invariant forall n :: n in owner ==>
        && owner[n] in groups.Keys
        && ChainName(owner[n], env.digest) == n
        && Rules(owner[n], env).Ok?
        && n in t.chains && t.chains[n] == Rules(owner[n], env).value
        && chains[n] == groups[owner[n]]
      invariant old(t.chains).Keys <= t.chains.Keys
      invariant forall n :: n in t.chains && n !in owner ==> n in old(t.chains) && t.chains[n] == old(t.chains)[n]
      decreases todo
    {
      var g :| g in todo;
      var rules := UpdateRules(t, g, env);
      if rules.Err? {
        res := Err(rules.error);
        return;
      }
      var name := ChainName(g, env.digest);
      chains := chains[name := groups[g]];
      owner := owner[name := g];
      todo := todo - {g};
    }
    res := Ok(chains);
  }

  // ---------------------------------------------------------------- internet chain

  /** The rule of the internet chain that returns traffic for one private range. */
  function ReturnFor(range: string): Rule {
    Rule("ip", AnyNet, range, "RETURN", [])
  }

  /** The contents of `PAASTA-INTERNET`: accept everything, followed by one
      `RETURN` per private range, in the order the ranges are declared. */
  function InternetChainRules(): (rules: seq<Rule>)
    ensures |rules| == 1 + |PrivateIpRanges| == 6
    ensures rules[0] == AllTraffic("ACCEPT")
    ensures forall i :: 0 <= i < |PrivateIpRanges| ==> rules[1 + i] == ReturnFor(PrivateIpRanges[i])
  {
    [AllTraffic("ACCEPT")] + seq(|PrivateIpRanges|, i requires 0 <= i < |PrivateIpRanges| => ReturnFor(PrivateIpRanges[i]))
  }

  /** `ensure_internet_chain`. */
  method EnsureInternetChain(t: Table)
    modifies t
    ensures t.chains == old(t.chains)[InternetChain := InternetChainRules()]
  {
    t.EnsureChain(InternetChain, InternetChainRules());
  }

  // ---------------------------------------------------------------- dispatch chain

  /** The rule that sends traffic from one MAC address (upper-cased) to a service chain. */
  function MacJump(chain: string, mac: string): Rule {
    Rule("ip", AnyNet, AnyNet, chain, [Match("mac", [("mac_source", Upper(mac))])])
  }

  /** The jump from a built-in chain into the dispatch chain. */
  function JumpToDispatch(): Rule {
    AllTraffic(DispatchChain)
  }

  /** The set of dispatch rules: exactly one `MacJump(chain, mac)` for each chain of the map and each of its MACs. */
  function DispatchRules(serviceChains: map<string, set<string>>): (rules: set<Rule>)
    ensures forall chain, mac :: chain in serviceChains && mac in serviceChains[chain] ==> MacJump(chain, mac) in rules
    ensures forall r :: r in rules ==> r.target in serviceChains && exists mac :: mac in serviceChains[r.target] && r == MacJump(r.target, mac)
  {
    set chain, mac | chain in serviceChains && mac in serviceChains[chain] :: MacJump(chain, mac)
  }

  /** MAC addresses give the same dispatch rule exactly when they differ only in
      case, so the set holds one rule for all spellings of a MAC. */
  lemma MacJumpIgnoresCase(chain: string, mac1: string, mac2: string)
    ensures MacJump(chain, mac1) == MacJump(chain, mac2) <==> EqualIgnoringCase(mac1, mac2)
  {
    UpperIgnoresCase(mac1, mac2);
    if MacJump(chain, mac1) == MacJump(chain, mac2) {
      assert MacJump(chain, mac1).matches[0].params[0].1 == Upper(mac1);
    }
  }

  /** Two chains with one MAC each give exactly two dispatch rules, one per chain. */
  lemma DispatchExample(chainA: string, chainB: string, macA: string, macB: string)
    requires chainA != chainB
    ensures DispatchRules(map[chainA := {macA}, chainB := {macB}]) == {MacJump(chainA, macA), MacJump(chainB, macB)}
    ensures |DispatchRules(map[chainA := {macA}, chainB := {macB}])| == 2
  {
    var m := map[chainA := {macA}, chainB := {macB}];
    var rules := DispatchRules(m);
    forall r | r in rules
      ensures r == MacJump(chainA, macA) || r == MacJump(chainB, macB)
    {
      var mac :| mac in m[r.target] && r == MacJump(r.target, mac);
    }
    assert rules == {MacJump(chainA, macA), MacJump(chainB, macB)};
    assert MacJump(chainA, macA) != MacJump(chainB, macB) by {
      assert MacJump(chainA, macA).target != MacJump(chainB, macB).target;
    }
  }

  /** A sequence that lists the elements of a set, each exactly once. */
  predicate Lists(s: seq<Rule>, elements: set<Rule>) {
    && (forall x :: x in s ==> x in elements)
    && (forall x :: x in elements ==> x in s)
    && forall i, j :: 0 <= i < j < |s| ==> s[i] != s[j]
  }

  /** Iterating a Python set: its elements, each once, in some order. */
  method SetToSequence(elements: set<Rule>) returns (s: seq<Rule>)
    ensures Lists(s, elements)
    ensures |s| == |elements|
  {
    s := [];
    var rest := elements;
    while rest != {}
      invariant rest <= elements
      invariant forall x :: x in s <==> x in elements - rest
      invariant forall i, j :: 0 <= i < j < |s| ==> s[i] != s[j]
      invariant |s| + |rest| == |elements|
      decreases rest
    {
      var x :| x in rest;
      s := s + [x];
      rest := rest - {x};
    }
  }

  /** `ensure_dispatch_chains`: `PAASTA` holds exactly the dispatch rules, each
      once; `INPUT` and `FORWARD` jump to it, with their other rules kept. */
  method EnsureDispatchChains(t: Table, serviceChains: map<string, set<string>>)
    requires "INPUT" in t.chains && "FORWARD" in t.chains
    modifies t
    ensures t.chains.Keys == old(t.chains).Keys + {DispatchChain}
    ensures Lists(t.chains[DispatchChain], DispatchRules(serviceChains))
    ensures t.chains["INPUT"] == WithRule(old(t.chains)["INPUT"], JumpToDispatch())
    ensures t.chains["FORWARD"] == WithRule(old(t.chains)["FORWARD"], JumpToDispatch())
    ensures forall n :: n in old(t.chains) && n != DispatchChain && n != "INPUT" && n != "FORWARD" ==>
      t.chains[n] == old(t.chains)[n]
  {
    var rules := SetToSequence(DispatchRules(serviceChains));
    t.EnsureChain(DispatchChain, rules);
    t.EnsureRule("INPUT", JumpToDispatch());
    t.EnsureRule("FORWARD", JumpToDispatch());
  }

  // ---------------------------------------------------------------- garbage collection

  /** The chains to delete: those present with the service-chain prefix that are not desired. */
  function StaleChains(present: set<string>, desired: set<string>): (stale: set<string>)
    ensures forall n :: n in stale <==> n in present && StartsWith(n, ServiceChainPrefix) && n !in desired
    ensures forall n :: n in stale ==> n != DispatchChain && n != InternetChain && n != "INPUT" && n != "FORWARD"
  {
    var prefixed := set n | n in present && StartsWith(n, ServiceChainPrefix);
    forall n | n in prefixed
      ensures n != DispatchChain && n != InternetChain && n != "INPUT" && n != "FORWARD"
    {
      ServiceChainNamesAreReserved(n);
    }
    prefixed - desired
  }

  /** With chains `PAASTA.A`, `PAASTA.B`, `PAASTA.C` and `OTHER` present and
      `PAASTA.B`, `PAASTA.C` desired, only `PAASTA.A` is stale. */
  lemma StaleChainsExample()
    ensures StaleChains({"PAASTA.A", "PAASTA.B", "PAASTA.C", "OTHER"}, {"PAASTA.B", "PAASTA.C"}) == {"PAASTA.A"}
  {
    var stale := StaleChains({"PAASTA.A", "PAASTA.B", "PAASTA.C", "OTHER"}, {"PAASTA.B", "PAASTA.C"});
    assert StartsWith("PAASTA.A", ServiceChainPrefix);
    assert !StartsWith("OTHER", ServiceChainPrefix);
    assert "PAASTA.A" in stale;
  }

  /** `garbage_collect_old_service_chains`: the stale chains are deleted and nothing else changes. */
  method GarbageCollectOldServiceChains(t: Table, desired: set<string>)
    modifies t
    ensures t.chains == old(t.chains) - StaleChains(old(t.chains).Keys, desired)
  {
    var stale := StaleChains(t.AllChains(), desired);
    var todo := stale;
    while todo != {}
      invariant todo <= stale
      invariant t.chains == old(t.chains) - (stale - todo)
      decreases todo
    {
      var n :| n in todo;
      t.DeleteChain(n);
      todo := todo - {n};
      assert t.chains == old(t.chains) - (stale - todo);
    }
  }

  // ---------------------------------------------------------------- one pass

  /** The dispatch rules a pass should install: each running instance's MAC,
      jumping to its group's chain. */
  function ExpectedDispatch(running: seq<RunningInstance>, soaDir: string, digest: ServiceGroup -> string): set<Rule> {
    set x | x in running :: MacJump(ChainName(GroupOf(x, soaDir), digest), x.mac)
  }

  /** A chain the pass never writes: not a service chain and none of the four fixed chains. */
  predicate Unmanaged(n: string) {
    !StartsWith(n, ServiceChainPrefix) && n != DispatchChain && n != InternetChain && n != "INPUT" && n != "FORWARD"
  }

  /** After a successful pass, the fixed chains: the internet chain holds its
      rules, and INPUT and FORWARD jump to the dispatch chain with their other rules kept. */
  ghost predicate FixedChainsSet(before: map<string, seq<Rule>>, after: map<string, seq<Rule>>)
    requires "INPUT" in before && "FORWARD" in before
  {
    && InternetChain in after && after[InternetChain] == InternetChainRules()
    && "INPUT" in after && after["INPUT"] == WithRule(before["INPUT"], JumpToDispatch())
    && "FORWARD" in after && after["FORWARD"] == WithRule(before["FORWARD"], JumpToDispatch())
  }

  /** After a successful pass, every active group compiled and its chain holds
      the rules of an active group with that name (its own, when names do not collide). */
  ghost predicate ServiceChainsSet(after: map<string, seq<Rule>>, groups: set<ServiceGroup>, env: Env) {
    forall g :: g in groups ==>
      && Rules(g, env).Ok?
      && ChainName(g, env.digest) in after
      && exists h :: h in groups && ChainName(h, env.digest) == ChainName(g, env.digest)
           && Rules(h, env).Ok? && after[ChainName(g, env.digest)] == Rules(h, env).value
  }

  /** After a successful pass without name collisions: each group's chain holds
      its own rules and the dispatch chain lists one jump per running instance. */
  ghost predicate ExactWithoutCollisions(
    after: map<string, seq<Rule>>, running: seq<RunningInstance>, soaDir: string, env: Env)
  {
    NamesDistinct(ActiveGroups(running, soaDir), env.digest) ==>
      && (forall g :: g in ActiveGroups(running, soaDir) ==>
           Rules(g, env).Ok? && ChainName(g, env.digest) in after
           && after[ChainName(g, env.digest)] == Rules(g, env).value)
      && DispatchChain in after
      && Lists(after[DispatchChain], ExpectedDispatch(running, soaDir, env.digest))
  }

  /** After a successful pass: every dispatch jump reaches an existing service
      chain, every service chain left belongs to an active group, and unmanaged
      chains are untouched. */
  ghost predicate NothingStale(
    before: map<string, seq<Rule>>, after: map<string, seq<Rule>>, groups: set<ServiceGroup>, env: Env)
  {
    && DispatchChain in after
    && (forall r :: r in after[DispatchChain] ==> r.target in after && StartsWith(r.target, ServiceChainPrefix))
    && (forall n :: n in after && StartsWith(n, ServiceChainPrefix) ==>
         exists g :: g in groups && ChainName(g, env.digest) == n)
    && (forall n :: n in before && Unmanaged(n) ==> n in after && after[n] == before[n])
    && (forall n :: n in after && Unmanaged(n) ==> n in before)
  }

  /** The table `after` a successful pass from `before`. */
  ghost predicate Reconciled(
    before: map<string, seq<Rule>>, after: map<string, seq<Rule>>,
    running: seq<RunningInstance>, soaDir: string, env: Env)
    requires "INPUT" in before && "FORWARD" in before
  {
    && FixedChainsSet(before, after)
    && ServiceChainsSet(after, ActiveGroups(running, soaDir), env)
    && ExactWithoutCollisions(after, running, soaDir, env)
    && NothingStale(before, after, ActiveGroups(running, soaDir), env)
  }

  /** The table `after` a pass that failed on a compilation error `e` of an
      active group: nothing was deleted; the internet chain was set; every service
      chain that was written holds the compiled rules of an active group with that
      name, so no chain holds part of a failed compilation; and no other chain was
      added or changed, so the dispatch chain, INPUT and FORWARD are as they were. */
  ghost predicate FailedSafely(
    before: map<string, seq<Rule>>, after: map<string, seq<Rule>>,
    running: seq<RunningInstance>, soaDir: string, env: Env, e: Error)
  {
    && (exists g :: g in ActiveGroups(running, soaDir) && Rules(g, env) == Err(e))
    && before.Keys <= after.Keys
    && InternetChain in after && after[InternetChain] == InternetChainRules()
    && (forall n :: n in after && StartsWith(n, ServiceChainPrefix) && !(n in before && after[n] == before[n]) ==>
         exists g :: g in ActiveGroups(running, soaDir) && ChainName(g, env.digest) == n
           && Rules(g, env).Ok? && after[n] == Rules(g, env).value)
    && (forall n :: n in after && !StartsWith(n, ServiceChainPrefix) && n != InternetChain ==>
         n in before && after[n] == before[n])
  }

  /** The effects of a pass that stopped in `ensure_service_chains` add up to a
      table that `FailedSafely` describes. */
  lemma FailureIsSafe(
    before: map<string, seq<Rule>>, after: map<string, seq<Rule>>, owner: map<string, ServiceGroup>,
    running: seq<RunningInstance>, soaDir: string, env: Env, e: Error)
    requires ChangedOnly(before[InternetChain := InternetChainRules()], after, owner.Keys)
    requires OwnedChains(after, owner, running, soaDir, env)
    requires exists g :: g in ActiveGroups(running, soaDir) && Rules(g, env) == Err(e)
    ensures FailedSafely(before, after, running, soaDir, env, e)
  {
    OwnedNamesAreServiceChains(after, owner, running, soaDir, env);
    forall n | n in after && StartsWith(n, ServiceChainPrefix) && !(n in before && after[n] == before[n])
      ensures exists g :: (g in ActiveGroups(running, soaDir) && ChainName(g, env.digest) == n
        && Rules(g, env).Ok? && after[n] == Rules(g, env).value)
    {
      assert n != InternetChain by {
        ServiceChainNamesAreReserved(n);
      }
      assert n in owner;
      assert ChainName(owner[n], env.digest) == n;
    }
  }

  /** When names do not collide, a failed pass leaves the chain of every group
      whose compilation fails as it was: absent if it was absent, with its old
      rules otherwise. */
  lemma {:induction false} FailingGroupUntouched(
    before: map<string, seq<Rule>>, after: map<string, seq<Rule>>,
    running: seq<RunningInstance>, soaDir: string, env: Env, e: Error, g: ServiceGroup)
    requires FailedSafely(before, after, running, soaDir, env, e)
    requires NamesDistinct(ActiveGroups(running, soaDir), env.digest)
    requires g in ActiveGroups(running, soaDir) && Rules(g, env).Err?
    ensures ChainName(g, env.digest) in after ==>
      ChainName(g, env.digest) in before && after[ChainName(g, env.digest)] == before[ChainName(g, env.digest)]
  {
    var n := ChainName(g, env.digest);
    assert StartsWith(n, ServiceChainPrefix);
    assert forall h :: h in ActiveGroups(running, soaDir) && ChainName(h, env.digest) == n ==> !Rules(h, env).Ok?;
  }

  /** `general_update`: internet chain, then service chains, then dispatch chains,
      then garbage collection. A compilation error aborts the pass before the
      dispatch chain is rebuilt and before anything is deleted. */
  method GeneralUpdate(t: Table, running: seq<RunningInstance>, soaDir: string, env: Env) returns (failure: Option<Error>)
    requires "INPUT" in t.chains && "FORWARD" in t.chains
    modifies t
    ensures failure.None? ==> Reconciled(old(t.chains), t.chains, running, soaDir, env)
    ensures failure.Some? ==> FailedSafely(old(t.chains), t.chains, running, soaDir, env, failure.value)
  {
    ghost var before := t.chains;
    EnsureInternetChain(t);
    var serviceChains, owner := EnsureServiceChains(t, running, soaDir, env);
    OwnedNamesAreServiceChains(t.chains, owner, running, soaDir, env);
    if serviceChains.Err? {
      failure := Some(serviceChains.error);
      FailureIsSafe(before, t.chains, owner, running, soaDir, env, failure.value);
      return;
    }
    ghost var afterServices := t.chains;
    EnsureDispatchChains(t, serviceChains.value);
    ghost var afterDispatch := t.chains;
    GarbageCollectOldServiceChains(t, serviceChains.value.Keys);
    failure := None;
    PassReconciles(before, afterServices, afterDispatch, t.chains, owner, serviceChains.value, running, soaDir, env);
  }

  /** The names `owner` records are service chain names, hence none of the fixed chains. */
  lemma OwnedNamesAreServiceChains(
    chains: map<string, seq<Rule>>, owner: map<string, ServiceGroup>,
    running: seq<RunningInstance>, soaDir: string, env: Env)
    requires OwnedChains(chains, owner, running, soaDir, env)
    ensures forall n :: n in owner ==> (StartsWith(n, ServiceChainPrefix) && !Unmanaged(n)
      && n != DispatchChain && n != InternetChain && n != "INPUT" && n != "FORWARD")
  {
    forall n | n in owner
      ensures StartsWith(n, ServiceChainPrefix)
      ensures n != DispatchChain && n != InternetChain && n != "INPUT" && n != "FORWARD"
    {
      ServiceChainNamesAreReserved(n);
    }
  }

  /** The effects of the four steps of a successful pass add up to a reconciled table. */
  lemma PassReconciles(
    before: map<string, seq<Rule>>, afterServices: map<string, seq<Rule>>,
    afterDispatch: map<string, seq<Rule>>, after: map<string, seq<Rule>>,
    owner: map<string, ServiceGroup>, serviceChains: map<string, set<string>>,
    running: seq<RunningInstance>, soaDir: string, env: Env)
    requires "INPUT" in before && "FORWARD" in before
    requires ChangedOnly(before[InternetChain := InternetChainRules()], afterServices, owner.Keys)
    requires OwnedChains(afterServices, owner, running, soaDir, env)
    requires serviceChains.Keys == owner.Keys
    requires forall n :: n in serviceChains ==> serviceChains[n] == MacsOf(running, soaDir, owner[n])
    requires forall g :: g in ActiveGroups(running, soaDir) ==> ChainName(g, env.digest) in owner && Rules(g, env).Ok?
    requires afterDispatch.Keys == afterServices.Keys + {DispatchChain}
    requires Lists(afterDispatch[DispatchChain], DispatchRules(serviceChains))
    requires afterDispatch["INPUT"] == WithRule(afterServices["INPUT"], JumpToDispatch())
    requires afterDispatch["FORWARD"] == WithRule(afterServices["FORWARD"], JumpToDispatch())
    requires forall n :: n in afterServices && n != DispatchChain && n != "INPUT" && n != "FORWARD" ==>
      afterDispatch[n] == afterServices[n]
    requires after == afterDispatch - StaleChains(afterDispatch.Keys, serviceChains.Keys)
    ensures Reconciled(before, after, running, soaDir, env)
  {
    OwnedNamesAreServiceChains(afterServices, owner, running, soaDir, env);
    var groups := ActiveGroups(running, soaDir);
    var desired := serviceChains.Keys;
    forall g | g in groups
      ensures ChainName(g, env.digest) in after
      ensures after[ChainName(g, env.digest)] == Rules(owner[ChainName(g, env.digest)], env).value
    {
      var n := ChainName(g, env.digest);
      assert n in desired && n in afterDispatch;
    }
    if NamesDistinct(groups, env.digest) {
      DispatchMatchesRunning(serviceChains, owner, running, soaDir, env.digest);
    }
    forall r | r in after[DispatchChain]
      ensures r.target in after && StartsWith(r.target, ServiceChainPrefix)
    {
      assert r.target in desired && r.target in afterDispatch;
    }
  }

  /** When chain names do not collide, the dispatch rules built from the
      service-chain map are exactly one jump per running instance, to its own
      group's chain. */
  lemma DispatchMatchesRunning(
    serviceChains: map<string, set<string>>, owner: map<string, ServiceGroup>,
    running: seq<RunningInstance>, soaDir: string, digest: ServiceGroup -> string)
    requires NamesDistinct(ActiveGroups(running, soaDir), digest)
    requires serviceChains.Keys == owner.Keys
    requires forall n :: n in owner ==> owner[n] in ActiveGroups(running, soaDir) && ChainName(owner[n], digest) == n
    requires forall n :: n in serviceChains ==> serviceChains[n] == MacsOf(running, soaDir, owner[n])
    requires forall g :: g in ActiveGroups(running, soaDir) ==> ChainName(g, digest) in owner
    ensures DispatchRules(serviceChains) == ExpectedDispatch(running, soaDir, digest)
  {
    var groups := ActiveGroups(running, soaDir);
    forall r | r in DispatchRules(serviceChains)
      ensures r in ExpectedDispatch(running, soaDir, digest)
    {
      var n := r.target;
      var mac :| mac in serviceChains[n] && r == MacJump(n, mac);
      var x :| x in running && GroupOf(x, soaDir) == owner[n] && x.mac == mac;
      assert r == MacJump(ChainName(GroupOf(x, soaDir), digest), x.mac);
    }
    forall x | x in running
      ensures MacJump(ChainName(GroupOf(x, soaDir), digest), x.mac) in DispatchRules(serviceChains)
    {
      var g := GroupOf(x, soaDir);
      assert g in groups;
      var n := ChainName(g, digest);
      assert owner[n] == g;
      assert x.mac in MacsOf(running, soaDir, g);
    }
  }

  /** A second pass over the same instances and configuration changes nothing
      but, possibly, the order of the dispatch chain (which is filled from a set):
      the same chains exist, every other chain keeps its rules, and the dispatch
      chain lists the same rules. */
  lemma {:induction false} ReconcileIsIdempotent(
    before: map<string, seq<Rule>>, first: map<string, seq<Rule>>, second: map<string, seq<Rule>>,
    running: seq<RunningInstance>, soaDir: string, env: Env)
    requires "INPUT" in before && "FORWARD" in before
    requires Reconciled(before, first, running, soaDir, env)
    requires "INPUT" in first && "FORWARD" in first
    requires Reconciled(first, second, running, soaDir, env)
    requires NamesDistinct(ActiveGroups(running, soaDir), env.digest)
    ensures second.Keys == first.Keys
    ensures forall n :: n in first && n != DispatchChain ==> second[n] == first[n]
    ensures forall r :: r in second[DispatchChain] <==> r in first[DispatchChain]
  {
    forall n | n in first && n != DispatchChain
      ensures n in second && second[n] == first[n]
    {
      ChainKeptByNextPass(before, first, second, running, soaDir, env, n);
    }
    forall n | n in second
      ensures n in first
    {
      ChainNotAddedByNextPass(first, second, running, soaDir, env, n);
    }
    DispatchKeptByNextPass(first, second, running, soaDir, env);
  }

  lemma DispatchKeptByNextPass(
    first: map<string, seq<Rule>>, second: map<string, seq<Rule>>,
    running: seq<RunningInstance>, soaDir: string, env: Env)
    requires ExactWithoutCollisions(first, running, soaDir, env) && ExactWithoutCollisions(second, running, soaDir, env)
    requires NamesDistinct(ActiveGroups(running, soaDir), env.digest)
    ensures DispatchChain in first && DispatchChain in second
    ensures forall r :: r in second[DispatchChain] <==> r in first[DispatchChain]
  {
  }

  lemma ChainKeptByNextPass(
    before: map<string, seq<Rule>>, first: map<string, seq<Rule>>, second: map<string, seq<Rule>>,
    running: seq<RunningInstance>, soaDir: string, env: Env, n: string)
    requires "INPUT" in before && "FORWARD" in before && "INPUT" in first && "FORWARD" in first
    requires FixedChainsSet(before, first) && FixedChainsSet(first, second)
    requires ExactWithoutCollisions(first, running, soaDir, env) && ExactWithoutCollisions(second, running, soaDir, env)
    requires NothingStale(first, second, ActiveGroups(running, soaDir), env)
    requires NothingStale(before, first, ActiveGroups(running, soaDir), env)
    requires NamesDistinct(ActiveGroups(running, soaDir), env.digest)
    requires n in first && n != DispatchChain
    ensures n in second && second[n] == first[n]
  {
    if StartsWith(n, ServiceChainPrefix) {
      var g :| g in ActiveGroups(running, soaDir) && ChainName(g, env.digest) == n;
    } else if n == "INPUT" {
      WithRuleIdempotent(before["INPUT"], JumpToDispatch());
    } else if n == "FORWARD" {
      WithRuleIdempotent(before["FORWARD"], JumpToDispatch());
    } else if n != InternetChain {
      assert Unmanaged(n);
    }
  }

  lemma ChainNotAddedByNextPass(
    first: map<string, seq<Rule>>, second: map<string, seq<Rule>>,
    running: seq<RunningInstance>, soaDir: string, env: Env, n: string)
    requires "INPUT" in first && "FORWARD" in first
    requires FixedChainsSet(first, second)
    requires ExactWithoutCollisions(first, running, soaDir, env)
    requires NothingStale(first, second, ActiveGroups(running, soaDir), env)
    requires NamesDistinct(ActiveGroups(running, soaDir), env.digest)
    requires InternetChain in first && DispatchChain in first
    requires n in second
    ensures n in first
  {
    if StartsWith(n, ServiceChainPrefix) {
      var g :| g in ActiveGroups(running, soaDir) && ChainName(g, env.digest) == n;
    } else if n != DispatchChain && n != InternetChain && n != "INPUT" && n != "FORWARD" {
      assert Unmanaged(n);
    }
  }
}

