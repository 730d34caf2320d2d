# PaaSTA per-service firewall: a Dafny model

This project models `paasta_tools/firewall.py` from PaaSTA. That module turns each running service's outbound firewall policy into iptables chains and reconciles those chains with what the host's filter table holds. In one pass it does the following:

- It sets the shared `PAASTA-INTERNET` chain.
- It groups the instances running on the host by (service, instance, framework, soa_dir) and gives each group a chain named `PAASTA.<service[:10]>.<hash[:10]>`. Each chain holds the group's compiled rules:
  - a default `REJECT` or `LOG` rule;
  - one jump to `PAASTA-INTERNET` per well-known `internet` dependency;
  - one TCP accept rule to the service-discovery proxy per smartstack namespace.
- It rebuilds the `PAASTA` dispatch chain. That chain sends each instance's traffic, matched by upper-cased source MAC, to its group's chain. `INPUT` and `FORWARD` are made to jump to `PAASTA`.
- It deletes every `PAASTA.`-prefixed chain that no running group needs.

Files and modules:

- `text.dfy` (`Text`): the Python string operations the code uses. These are slicing, `startswith`, `upper`, `split('.', 1)` and `str(port)`.
- `iptables.dfy` (`Iptables`): the `Rule` value and the filter table. The table is a class whose `chains` map the three operations update: replace a chain, add a rule if absent, delete a chain.
- `firewall.dfy` (`Firewall`): the pure part. This is chain naming and policy compilation. Compilation returns `Result`, and each exception the code raises is one `Error` case.
- `reconciler.dfy` (`Reconciler`): the imperative part. This is grouping, the service chains, the internet chain, the dispatch chains, garbage collection and the whole pass.

Python dicts and sets are iterated in an order the code does not fix. So each loop takes its next element with `:|`, and every contract holds for any iteration order. Two groups whose hashes collide are not excluded, so the contracts allow for that case too. The exact per-group statements carry a `NamesDistinct` hypothesis.

## Model

| member | source | states |
|---|---|---|
| `Firewall.ChainName` | paasta_tools/firewall.py:44-57 | A chain name always starts with `PAASTA.` and is at most 28 characters long. So the code's `assert len(chain) <= 28` cannot fail, whatever the service name or the digest. |
| `Firewall.ChainNameDecodes` | paasta_tools/firewall.py:52-55 | A name built from a 64-character hex digest has length 18 + min(10, \|service\|). Reading it back gives `service[:10]` and `digest[:10]`. |
| `Firewall.ChainNameDistinguishes` | paasta_tools/firewall.py:47-55 | Two groups whose digests differ in their first ten characters get different chain names, even when their first ten service characters agree. |
| `Firewall.ServiceChainNamesAreReserved` | paasta_tools/firewall.py:52 | A `PAASTA.`-prefixed name is never `PAASTA`, `PAASTA-INTERNET`, `INPUT` or `FORWARD`. |
| `Firewall.DefaultRule` | paasta_tools/firewall.py:85-105 | `block` gives the ip any-to-any `REJECT` rule and `monitor` gives the same rule with `LOG`; neither has matches. Any other posture is `UnknownPosture`. |
| `Firewall.Collect` | paasta_tools/firewall.py:76-78 | Draining a rule generator into a list succeeds iff every element succeeds, and then element i of the list is the rule for input i. Otherwise the error is the one from the first failing element. |
| `Firewall.WellKnownRule` | paasta_tools/firewall.py:109-120 | `internet` gives the any-to-any jump to `PAASTA-INTERNET`. Any other resource is `UnknownResource`. |
| `Firewall.WellKnownRules` | paasta_tools/firewall.py:108-120 | The list succeeds iff every resource is `internet`, and then it holds one internet jump per entry. Otherwise the error names the first resource that is not `internet`. |
| `Firewall.ProxyPort` | paasta_tools/firewall.py:127-129 | A namespace with no `.` is `MalformedNamespace`. A namespace absent from its service's namespace map (the service is the part before the first `.`) is `UnknownNamespace`. An entry without `proxy_port` is `MissingProxyPort`. Otherwise the result is that port. |
| `Firewall.SmartstackRule` | paasta_tools/firewall.py:123-139 | A namespace gives the TCP `ACCEPT` rule to `169.254.255.254/255.255.255.255` with the single match `('tcp', (('dport', str(port)),))` exactly when its port resolves. Otherwise the error is the port lookup's error. |
| `Firewall.SmartstackRules` | paasta_tools/firewall.py:123-139 | One accept rule per namespace, in declared order, iff every namespace resolves. Otherwise the error is that of the first namespace that fails. |
| `Firewall.ProxyAcceptInjective` | paasta_tools/firewall.py:131-139 | Two different ports give two different accept rules. |
| `Firewall.LoadConfig` | paasta_tools/firewall.py:59-70 | Only the `chronos` and `marathon` frameworks have a loader. Any other framework is `UnknownFramework`. |
| `Firewall.Rules` | paasta_tools/firewall.py:72-79 | Compilation succeeds iff the framework, the posture, every well-known resource and every namespace are all known. The list then has length 1 + \|well-known\| + \|smartstack\|: the default rule, then the internet jumps, then the accept rules, each group in declared order. Every target is `REJECT`, `LOG`, `PAASTA-INTERNET` or `ACCEPT`. Errors come in the same precedence: framework, then posture, then well-known, then smartstack; each is the error of that stage's first failing entry. |
| `Firewall.RulesExample` | paasta_tools/firewall.py:76-79 | A `block` service with `internet` and one namespace on port 8888 compiles to exactly [reject, internet jump, accept with dport `8888`]. |
| `Text.Take` | paasta_tools/firewall.py:52-55 | `s[:n]` is a prefix of `s` of length min(n, \|s\|). |
| `Text.BeforeFirst` | paasta_tools/firewall.py:127 | The result is the prefix of the namespace that stops at its first `.`, and it contains no `.`. |
| `Text.NatToString` | paasta_tools/firewall.py:137 | `str(port)` is a non-empty run of decimal digits with no leading zero. |
| `Text.DecimalRoundTrip` | paasta_tools/firewall.py:137 | Reading `str(port)` back as a decimal gives the port. |
| `Text.NatToStringInjective` | paasta_tools/firewall.py:137 | Different ports print differently. |
| `Text.Upper` | paasta_tools/firewall.py:196 | `mac.upper()` keeps the length and leaves no lower-case letter. Each lower-case letter becomes its upper-case letter, and every other character stays as it was. |
| `Text.UpperIgnoresCase` | paasta_tools/firewall.py:196 | Two strings have the same `upper()` iff they differ only in the case of their letters. |
| `Iptables.WithRule` | paasta_tools/firewall.py:214-215 | After `ensure_rule`, the chain contains the rule and keeps every rule it had. It grows by at most one rule and adds nothing else, and it is unchanged when the rule was already there. |
| `Iptables.WithRuleKeepsOrder` | paasta_tools/firewall.py:214-215 | The old chain is the intact tail of the new one, in the same order and with the same repetitions, so the chain's other rules are untouched. |
| `Iptables.WithRuleIdempotent` | paasta_tools/firewall.py:214-215 | Ensuring the same rule twice is the same as ensuring it once. |
| `Iptables.Table.AllChains` | paasta_tools/firewall.py:221 | `all_chains()` is exactly the set of chain names present. |
| `Iptables.Table.EnsureChain` | paasta_tools/firewall.py:82 | `ensure_chain` makes the named chain hold exactly the given rules and changes no other chain. |
| `Iptables.Table.EnsureRule` | paasta_tools/firewall.py:214-215 | `ensure_rule` on an existing chain applies `WithRule` to that chain only. |
| `Iptables.Table.DeleteChain` | paasta_tools/firewall.py:225 | `delete_chain` removes that chain and nothing else. |
| `Reconciler.ActiveServiceGroups` | paasta_tools/firewall.py:142-148 | The keys are exactly the distinct groups of the running instances. Each group maps to exactly the MACs of its instances, and that set is never empty. |
| `Reconciler.UpdateRules` | paasta_tools/firewall.py:81-82 | On success, the group's chain holds `Rules(g)`. On a compilation error, the table is unchanged. |
| `Reconciler.EnsureServiceChains` | paasta_tools/firewall.py:175-184 | Only chains of active groups are written, and each one holds the compiled rules of the group that last wrote it. On success, every active group compiled and has its chain, and the result maps each chain to that group's MAC set. On error, the error is some active group's compilation error and nothing was deleted. |
| `Reconciler.InternetChainRules` | paasta_tools/firewall.py:151-172 | Six rules: any-to-any `ACCEPT`, then one `RETURN` per private range in declared order. |
| `Reconciler.EnsureInternetChain` | paasta_tools/firewall.py:151-172 | `PAASTA-INTERNET` is set to `InternetChainRules()` and no other chain changes. |
| `Reconciler.DispatchRules` | paasta_tools/firewall.py:188-204 | A MAC jump for each (chain, MAC) pair of the map, and no other rule. Every rule targets a chain of the map and matches an upper-cased MAC recorded for that chain. |
| `Reconciler.MacJumpIgnoresCase` | paasta_tools/firewall.py:196 | Two MACs give the same dispatch rule iff they differ only in the case of their letters. |
| `Reconciler.DispatchExample` | paasta_tools/firewall.py:187-205 | Two chains with one MAC each give exactly two dispatch rules, one per chain. |
| `Reconciler.SetToSequence` | paasta_tools/firewall.py:188-205 | Iterating the rule set yields every element exactly once, in some order. |
| `Reconciler.EnsureDispatchChains` | paasta_tools/firewall.py:187-215 | `PAASTA` lists the dispatch rules, each once. `INPUT` and `FORWARD` gain the jump to `PAASTA` and keep their other rules. Every other chain is unchanged. |
| `Reconciler.StaleChains` | paasta_tools/firewall.py:219-224 | A chain is stale iff it is present, `PAASTA.`-prefixed and not desired. `PAASTA`, `PAASTA-INTERNET`, `INPUT` and `FORWARD` are never stale. |
| `Reconciler.StaleChainsExample` | paasta_tools/firewall.py:219-224 | With `PAASTA.A`, `PAASTA.B`, `PAASTA.C` and `OTHER` present and `PAASTA.B`, `PAASTA.C` desired, exactly `PAASTA.A` is stale. |
| `Reconciler.GarbageCollectOldServiceChains` | paasta_tools/firewall.py:218-225 | The table afterwards is the old table minus exactly its stale chains. |
| `Reconciler.GeneralUpdate` | paasta_tools/firewall.py:228-233 | A successful pass leaves the table `Reconciled`. A failed pass leaves it `FailedSafely`: nothing deleted, `PAASTA-INTERNET` set to its six rules (it is written before the service chains), every `PAASTA.` chain that changed holding the complete compiled rules of an active group of that name, and every other chain (`PAASTA`, `INPUT`, `FORWARD`, unmanaged ones) present before and unchanged. |
| `Reconciler.FailureIsSafe` | paasta_tools/firewall.py:81-82 | The internet chain write followed by a service-chain loop that stopped on an error gives a `FailedSafely` table: a group's rules raise before its `ensure_chain`, so no chain is written with a failed compilation. |
| `Reconciler.FailingGroupUntouched` | paasta_tools/firewall.py:81-82 | When names do not collide, after a failed pass the chain of every group whose compilation fails is as it was before the pass (still absent, or with its old rules). |
| `Reconciler.PassReconciles` | paasta_tools/firewall.py:228-233 | The four steps in code order give a `Reconciled` table. The internet chain is set, and every group's chain holds compiled rules (its own when names do not collide). When names do not collide, the dispatch chain lists exactly one jump per running instance to its group's chain. Every dispatch target exists. No stale `PAASTA.` chain is left, and unmanaged chains are untouched. |
| `Reconciler.DispatchMatchesRunning` | paasta_tools/firewall.py:180-205 | When names do not collide, the dispatch rules built from the service-chain map are exactly the MAC jumps of the running instances to their own groups' chains. |
| `Reconciler.ReconcileIsIdempotent` | paasta_tools/firewall.py:228-233 | When names do not collide, a second pass with the same instances and configuration keeps the same chains. Every chain but `PAASTA` keeps its exact rules, and `PAASTA` keeps the same rule set. |

## Left out

- SHA-256 and `json.dumps` in `chain_name` are foreign library calls. They are the input function `Env.digest`. Collision resistance cannot be proved, so it appears only as the `NamesDistinct` hypothesis. Chain names are deterministic because `ChainName` is a function.
- `ServiceGroup.config` takes the `chronos`/`marathon` loader choice into the model. The loaders themselves, `load_system_paasta_config` and `get_all_namespaces_for_service` read configuration files; they are the inputs `Env.loadConfig` and `Env.namespaces`. An absent `well-known` or `smartstack` key is an empty list.
- `firewall_update.services_running_here` inspects the host and Docker, so the running instances are an input sequence.
- The `iptables` module is not part of this model. Only the effect of each of its operations on a map from chain name to rules is modelled. `EnsureRule` puts a missing rule at the head of the chain. That position is the model's choice, because this code relies only on the rule being present. How the kernel orders the rules of a chain that `ensure_chain` writes is the iptables module's business; the model stores them in the order passed.
- `Iptables.Table.DeleteChain`: the model always succeeds. A chain that another chain still references would fail in the kernel. This code rebuilds `PAASTA` before deleting, so `PAASTA` never references a stale chain, but references from chains outside this code are not modelled.
- `EnsureDispatchChains` and `GeneralUpdate` require `INPUT` and `FORWARD` to be in the table. These are the kernel's built-in filter chains, which `ensure_rule` in the code takes to exist; a table without them is not modelled.
- `Env.loadConfig` and `Env.namespaces` are total functions, so the exceptions that the configuration loaders and `get_all_namespaces_for_service` raise on missing or unreadable files are not modelled. Only the lookups this code does on their results can fail.
- `Text.Upper` maps only ASCII letters. Python's `str.upper` also maps other Unicode letters, which MAC addresses do not contain.
- `Text.NatToString`: ports are non-negative, so `str()` of negative numbers is not modelled.
- `Reconciler.ReconcileIsIdempotent`: holds only up to the order of the `PAASTA` chain. That chain is filled by iterating a Python set, whose order two passes need not share. It also assumes that no two active groups share a chain name: under a collision the shared chain holds the rules of whichever group the dict iteration wrote last, and a second pass may iterate in another order.
- There is no per-group error isolation and no locking between passes, because the code has neither. A compilation error in one group aborts the whole pass, as the exception does in `ensure_service_chains`.
