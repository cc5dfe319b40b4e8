/** The parsed configuration document as composition sees it: proxies and
    proxy groups are untyped field maps, rules are strings. The keys that
    composition reads (`name`, `proxies`) are lifted out of each map; the
    remaining keys travel along untouched in `fields`, which therefore never
    holds a `name` or `proxies` key of its own. */
module RawConfig {
  import opened Values

  datatype Proxy = Proxy(name: Val, fields: map<string, Val>)

  datatype ProxyGroup = ProxyGroup(name: Val, proxies: Val, fields: map<string, Val>)

  datatype Config = Config(
    proxies: seq<Proxy>,
    groups: seq<ProxyGroup>,
    rules: seq<string>,
    fields: map<string, Val>)

  /** The group's name if it is a string, as a comma-ok string assertion reads it. */
  function NameOf(g: ProxyGroup): Option<string> {
    if g.name.Str? then Some(g.name.s) else None
  }

  /** Every string name carried by some group of `gs`. */
  function GroupNames(gs: seq<ProxyGroup>): set<string> {
    set i | 0 <= i < |gs| && NameOf(gs[i]).Some? :: NameOf(gs[i]).value
  }

  /** Every proxy has a string name; projecting a proxy for a snippet
      asserts this without checking. */
  predicate ProxiesNamed(ps: seq<Proxy>) {
    forall i :: 0 <= i < |ps| ==> ps[i].name.Str?
  }

  /** Every group with a string name has a list under `proxies`; classifying
      an addon group asserts this without checking. */
  predicate GroupsShaped(gs: seq<ProxyGroup>) {
    forall i :: 0 <= i < |gs| ==> NameOf(gs[i]).Some? ==> gs[i].proxies.List?
  }

  /** Adding a group at the end adds its string name, if it has one. */
  lemma GroupNamesSnoc(gs: seq<ProxyGroup>)
    requires |gs| > 0
    ensures GroupNames(gs) == GroupNames(gs[..|gs| - 1]) + (if NameOf(gs[|gs| - 1]).Some? then {NameOf(gs[|gs| - 1]).value} else {})
  {
  }
}
