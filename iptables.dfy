/** The iptables filter table as the firewall code sees it: named chains, each
    an ordered list of rules, and the three operations it calls on them. How
    the kernel is programmed is not part of this model; only the effect of each
    operation on the table is. */
module Iptables {
  import opened Text

  /** A match extension: its name and its ordered key/value parameters,
      e.g. `('mac', (('mac_source', 'AA:BB:CC:DD:EE:FF'),))`. */
  datatype Match = Match(name: string, params: seq<(string, string)>)

  /** A rule, compared by value on all five fields. */
  datatype Rule = Rule(
    protocol: string,
    src: string,
    dst: string,
    target: string,
    matches: seq<Match>)

  /** The rules of a chain after `ensure_rule(chain, rule)`: unchanged when the
      rule is already there, otherwise the rule is inserted at the head. */
  function WithRule(rules: seq<Rule>, rule: Rule): (r: seq<Rule>)
    ensures rule in r
    ensures forall x :: x in rules ==> x in r
    ensures forall x :: x in r ==> x in rules || x == rule
    ensures rule in rules ==> r == rules
    ensures |rules| <= |r| <= |rules| + 1
  {
    if rule in rules then rules else [rule] + rules
  }

  /** `ensure_rule` leaves the chain's other rules untouched: the old chain, in its
      order and with its repetitions, is the tail of the new one. The rules of a chain
      are tried in order, so this is what keeps INPUT's and FORWARD's behaviour. */
  lemma WithRuleKeepsOrder(rules: seq<Rule>, rule: Rule)
    ensures EndsWith(WithRule(rules, rule), rules)
  {
  }

  /** Adding a rule that is present already changes nothing: `ensure_rule` is idempotent. */
  lemma WithRuleIdempotent(rules: seq<Rule>, rule: Rule)
    ensures WithRule(WithRule(rules, rule), rule) == WithRule(rules, rule)
  {
  }

  /** The host's filter table: chain name to its ordered rules. */
  class Table {
    var chains: map<string, seq<Rule>>

    constructor (initial: map<string, seq<Rule>>)
      ensures chains == initial
    {
      chains := initial;
    }

    /** `all_chains()`: the names of the chains present. */
    function AllChains(): (names: set<string>)
      reads this
      ensures forall n :: n in names <==> n in chains
    {
      chains.Keys
    }

    /** `ensure_chain(name, rules)`: the chain exists and holds exactly `rules`. */
    method EnsureChain(name: string, rules: seq<Rule>)
      modifies this
      ensures chains == old(chains)[name := rules]
    {
      chains := chains[name := rules];
    }

    /** `ensure_rule(name, rule)`: the (existing) chain holds `rule`; its other rules stay, in their order. */
    method EnsureRule(name: string, rule: Rule)
      requires name in chains
      modifies this
      ensures chains == old(chains)[name := WithRule(old(chains)[name], rule)]
    {
      chains := chains[name := WithRule(chains[name], rule)];
    }

    /** `delete_chain(name)`: the chain is gone. */
    method DeleteChain(name: string)
      modifies this
      ensures chains == old(chains) - {name}
    {
      chains := chains - {name};
    }
  }
}
