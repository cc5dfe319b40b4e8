/** Top-level composition (composeConfig, composeProxyGroup, composeRule)
    and the properties of the composed document. */
module Compose {
  import opened Values
  import opened RawConfig
  import opened Iteration
  import opened ScriptEval
  import opened GroupCompose

  /** What composing groups demands: the assertions the source makes without
      checking (baseline proxies have string names; named addon groups have a
      list of proxies), and the two map-iteration orders, one over the
      snippet table and one over the addon mapping entries left after
      in-place replacement. The second order only matters when resolution
      succeeds. */
  predicate GroupsReady(base: Config, addon: Config, interp: Interpreter, evalOrder: seq<string>, appendOrder: seq<string>) {
    && ProxiesNamed(base.proxies)
    && GroupsShaped(addon.groups)
    && IsEnumeration(evalOrder, SnippetTable(addon.groups).Keys)
    && var res := ResolveSnippets(interp, base.proxies, SnippetTable(addon.groups), evalOrder);
       res.err.None? ==>
         IsEnumeration(appendOrder, AddonMappings(addon.groups, res.names).Keys - GroupNames(base.groups))
  }

  /** The outcome of the snippet evaluated last. */
  function LastOutcome(base: Config, addon: Config, interp: Interpreter, evalOrder: seq<string>): Result<seq<string>, ScriptError>
    requires ProxiesNamed(base.proxies) && GroupsShaped(addon.groups)
    requires IsEnumeration(evalOrder, SnippetTable(addon.groups).Keys)
    requires |evalOrder| > 0
  {
    ExecuteFilter(interp, Bindings(base.proxies), SnippetTable(addon.groups)[evalOrder[|evalOrder| - 1]])
  }

  /** The names resolved from the addon's snippets. */
  function Resolved(base: Config, addon: Config, interp: Interpreter, evalOrder: seq<string>): map<string, seq<string>>
    requires ProxiesNamed(base.proxies) && GroupsShaped(addon.groups)
    requires IsEnumeration(evalOrder, SnippetTable(addon.groups).Keys)
  {
    ResolveSnippets(interp, base.proxies, SnippetTable(addon.groups), evalOrder).names
  }

  /** Merges the addon's proxy groups into the baseline. */
  function ComposeProxyGroup(base: Config, addon: Config, interp: Interpreter, evalOrder: seq<string>, appendOrder: seq<string>): (r: Result<Config, ScriptError>)
    requires GroupsReady(base, addon, interp, evalOrder, appendOrder)
    ensures r.Err? <==> |evalOrder| > 0 && LastOutcome(base, addon, interp, evalOrder).Err?
    ensures r.Err? ==> r.error == LastOutcome(base, addon, interp, evalOrder).error
    ensures r.Ok? ==> r.value == base.(groups := r.value.groups)
    ensures r.Ok? ==> |r.value.groups| == |base.groups| + |appendOrder|
  {
    var table := SnippetTable(addon.groups);
    var res := ResolveSnippets(interp, base.proxies, table, evalOrder);
    if res.err.Some? then Err(res.err.value)
    else
      var m := AddonMappings(addon.groups, res.names);
      var rep := ReplaceExisting(base.groups, m);
      Ok(base.(groups := rep.groups + Appended(rep.remaining, appendOrder)))
  }

  /** Every resolved name is the name of an addon snippet group, so the addon
      mapping has an entry for exactly the resolved names. */
  lemma MappingCoversResolved(base: Config, addon: Config, interp: Interpreter, evalOrder: seq<string>)
    requires ProxiesNamed(base.proxies) && GroupsShaped(addon.groups)
    requires IsEnumeration(evalOrder, SnippetTable(addon.groups).Keys)
    ensures AddonMappings(addon.groups, Resolved(base, addon, interp, evalOrder)).Keys == Resolved(base, addon, interp, evalOrder).Keys
  {
    var R := Resolved(base, addon, interp, evalOrder);
    SnippetTableClassifies(addon.groups);
    AddonMappingsKeys(addon.groups, R);
    forall n | n in R
      ensures n in GroupNames(addon.groups)
    {
      assert n in SnippetTable(addon.groups);
      var i :| 0 <= i < |addon.groups| && SnippetNamed(addon.groups[i], n);
    }
  }

  /** In-place replacement: baseline group `i` stays where it is. It is
      replaced by the resolved addon group of its name exactly when it is the
      first baseline group of that name and the name resolved; the
      replacement keeps the name, carries the resolved proxies and is the last
      addon group of that name. Every other baseline group is kept as is. */
  lemma BaselineGroupKeptOrReplaced(base: Config, addon: Config, interp: Interpreter, evalOrder: seq<string>, appendOrder: seq<string>, i: int)
    requires GroupsReady(base, addon, interp, evalOrder, appendOrder)
    requires ComposeProxyGroup(base, addon, interp, evalOrder, appendOrder).Ok?
    requires 0 <= i < |base.groups|
    ensures var out := ComposeProxyGroup(base, addon, interp, evalOrder, appendOrder).value.groups[i];
            var g := base.groups[i];
            var R := Resolved(base, addon, interp, evalOrder);
            if FirstNamed(base.groups, i) && NameOf(g).value in R then
              && NameOf(out) == NameOf(g)
              && out.proxies == StrList(R[NameOf(g).value])
              && exists j :: LastNamed(addon.groups, j, NameOf(g).value) && out == Substitute(addon.groups[j], R[NameOf(g).value])
            else
              out == g
  {
    var R := Resolved(base, addon, interp, evalOrder);
    var m := AddonMappings(addon.groups, R);
    MappingCoversResolved(base, addon, interp, evalOrder);
    var g := base.groups[i];
    if FirstNamed(base.groups, i) && NameOf(g).value in R {
      AddonMappingsPickLast(addon.groups, R, NameOf(g).value);
    }
  }

  /** Appended groups: the group appended for the `k`-th key visited is the
      resolved addon group of that name, a name no baseline group carries. */
  lemma AppendedGroupIsUnmatchedResolved(base: Config, addon: Config, interp: Interpreter, evalOrder: seq<string>, appendOrder: seq<string>, k: int)
    requires GroupsReady(base, addon, interp, evalOrder, appendOrder)
    requires ComposeProxyGroup(base, addon, interp, evalOrder, appendOrder).Ok?
    requires 0 <= k < |appendOrder|
    ensures var out := ComposeProxyGroup(base, addon, interp, evalOrder, appendOrder).value.groups[|base.groups| + k];
            var n := appendOrder[k];
            var R := Resolved(base, addon, interp, evalOrder);
            && n in R
            && n !in GroupNames(base.groups)
            && NameOf(out) == Some(n)
            && out.proxies == StrList(R[n])
            && exists j :: LastNamed(addon.groups, j, n) && out == Substitute(addon.groups[j], R[n])
  {
    var R := Resolved(base, addon, interp, evalOrder);
    MappingCoversResolved(base, addon, interp, evalOrder);
    AddonMappingsPickLast(addon.groups, R, appendOrder[k]);
  }

  /** Appended groups, counted: one per resolved name that no baseline group
      carries, each such name exactly once. */
  lemma AppendedGroupsCount(base: Config, addon: Config, interp: Interpreter, evalOrder: seq<string>, appendOrder: seq<string>)
    requires GroupsReady(base, addon, interp, evalOrder, appendOrder)
    requires ComposeProxyGroup(base, addon, interp, evalOrder, appendOrder).Ok?
    ensures var R := Resolved(base, addon, interp, evalOrder);
            |ComposeProxyGroup(base, addon, interp, evalOrder, appendOrder).value.groups|
              == |base.groups| + |R.Keys - GroupNames(base.groups)|
    ensures forall n :: n in appendOrder <==> n in Resolved(base, addon, interp, evalOrder) && n !in GroupNames(base.groups)
    ensures Distinct(appendOrder)
  {
    var R := Resolved(base, addon, interp, evalOrder);
    MappingCoversResolved(base, addon, interp, evalOrder);
    EnumerationLength(appendOrder, R.Keys - GroupNames(base.groups));
  }

  /** No addon group reaches the output unless its name resolved: every
      composed group is a baseline group, or carries a resolved name and that
      name's resolved proxies. */
  lemma OnlyResolvedAddonGroupsAppear(base: Config, addon: Config, interp: Interpreter, evalOrder: seq<string>, appendOrder: seq<string>)
    requires GroupsReady(base, addon, interp, evalOrder, appendOrder)
    requires ComposeProxyGroup(base, addon, interp, evalOrder, appendOrder).Ok?
    ensures var out := ComposeProxyGroup(base, addon, interp, evalOrder, appendOrder).value.groups;
            var R := Resolved(base, addon, interp, evalOrder);
            forall g :: g in out ==>
              g in base.groups || (NameOf(g).Some? && NameOf(g).value in R && g.proxies == StrList(R[NameOf(g).value]))
  {
    var out := ComposeProxyGroup(base, addon, interp, evalOrder, appendOrder).value.groups;
    var R := Resolved(base, addon, interp, evalOrder);
    forall g | g in out
      ensures g in base.groups || (NameOf(g).Some? && NameOf(g).value in R && g.proxies == StrList(R[NameOf(g).value]))
    {
      var i :| 0 <= i < |out| && out[i] == g;
      if i < |base.groups| {
        BaselineGroupKeptOrReplaced(base, addon, interp, evalOrder, appendOrder, i);
      } else {
        AppendedGroupIsUnmatchedResolved(base, addon, interp, evalOrder, appendOrder, i - |base.groups|);
      }
    }
  }

  /** Only the first of several baseline groups sharing a name is replaced:
      the mapping entry is consumed by its first use. */
  lemma FirstDuplicateOnly(base: Config, addon: Config, interp: Interpreter, evalOrder: seq<string>, appendOrder: seq<string>, i: int, j: int)
    requires GroupsReady(base, addon, interp, evalOrder, appendOrder)
    requires ComposeProxyGroup(base, addon, interp, evalOrder, appendOrder).Ok?
    requires 0 <= i < j < |base.groups|
    requires NameOf(base.groups[i]).Some? && NameOf(base.groups[i]) == NameOf(base.groups[j])
    ensures ComposeProxyGroup(base, addon, interp, evalOrder, appendOrder).value.groups[j] == base.groups[j]
  {
  }

  /** The order of the append loop decides only the order of the appended
      groups: two admissible orders compose the same groups, each as often. */
  lemma AppendOrderOnlyPermutes(base: Config, addon: Config, interp: Interpreter, evalOrder: seq<string>, o1: seq<string>, o2: seq<string>)
    requires GroupsReady(base, addon, interp, evalOrder, o1)
    requires GroupsReady(base, addon, interp, evalOrder, o2)
    requires ComposeProxyGroup(base, addon, interp, evalOrder, o1).Ok?
    ensures ComposeProxyGroup(base, addon, interp, evalOrder, o2).Ok?
    ensures ComposeProxyGroup(base, addon, interp, evalOrder, o1).value.groups[..|base.groups|]
         == ComposeProxyGroup(base, addon, interp, evalOrder, o2).value.groups[..|base.groups|]
    ensures multiset(ComposeProxyGroup(base, addon, interp, evalOrder, o1).value.groups)
         == multiset(ComposeProxyGroup(base, addon, interp, evalOrder, o2).value.groups)
  {
    var R := Resolved(base, addon, interp, evalOrder);
    var m := AddonMappings(addon.groups, R);
    var rep := ReplaceExisting(base.groups, m);
    AppendedPermutes(rep.remaining, rep.remaining.Keys, o1, o2);
    var out1 := ComposeProxyGroup(base, addon, interp, evalOrder, o1).value.groups;
    var out2 := ComposeProxyGroup(base, addon, interp, evalOrder, o2).value.groups;
    assert out1 == rep.groups + Appended(rep.remaining, o1);
    assert out2 == rep.groups + Appended(rep.remaining, o2);
    assert out1[..|base.groups|] == rep.groups;
    assert out2[..|base.groups|] == rep.groups;
  }

  /** Which names resolve, and to which proxies, does not depend on the
      order the snippets run in; only the returned error does. This rests on
      the interpreter being a function of the binding and the snippet text:
      every snippet is handed the same, unchanged binding, so a snippet that
      alters the shared `proxies` list for the snippets after it is outside
      the model. */
  lemma ResolvedIndependentOfEvalOrder(base: Config, addon: Config, interp: Interpreter, o1: seq<string>, o2: seq<string>)
    requires ProxiesNamed(base.proxies) && GroupsShaped(addon.groups)
    requires IsEnumeration(o1, SnippetTable(addon.groups).Keys)
    requires IsEnumeration(o2, SnippetTable(addon.groups).Keys)
    ensures Resolved(base, addon, interp, o1) == Resolved(base, addon, interp, o2)
  {
  }

  /** The rules after composition: the addon's rules, then the baseline's,
      each in its own order; nothing else changes. */
  function ComposeRule(base: Config, addon: Config): (r: Config)
    ensures r == base.(rules := r.rules)
    ensures |r.rules| == |addon.rules| + |base.rules|
    ensures r.rules[..|addon.rules|] == addon.rules
    ensures r.rules[|addon.rules|..] == base.rules
  {
    base.(rules := addon.rules + base.rules)
  }

  /** The composed document. Without an addon document the baseline passes
      through untouched; otherwise groups are composed, then rules. */
  function ComposeConfig(base: Config, addon: Option<Config>, interp: Interpreter, evalOrder: seq<string>, appendOrder: seq<string>): (r: Result<Config, ScriptError>)
    requires addon.Some? ==> GroupsReady(base, addon.value, interp, evalOrder, appendOrder)
    ensures addon.None? ==> r == Ok(base)
    ensures addon.Some? ==> (r.Err? <==> |evalOrder| > 0 && LastOutcome(base, addon.value, interp, evalOrder).Err?)
    ensures addon.Some? && r.Err? ==> r.error == LastOutcome(base, addon.value, interp, evalOrder).error
    ensures addon.Some? && r.Ok? ==>
      && r.value.proxies == base.proxies
      && r.value.fields == base.fields
      && r.value.rules == addon.value.rules + base.rules
      && r.value.groups == ComposeProxyGroup(base, addon.value, interp, evalOrder, appendOrder).value.groups
  {
    match addon
    case None => Ok(base)
    case Some(a) =>
      match ComposeProxyGroup(base, a, interp, evalOrder, appendOrder)
      case Err(e) => Err(e)
      case Ok(c) => Ok(ComposeRule(c, a))
  }

  /** Of the addon document only the groups and the rules matter: its
      proxies and other fields never reach the result, and snippets run
      against the baseline proxies. */
  lemma OnlyAddonGroupsAndRulesMatter(base: Config, a1: Config, a2: Config, interp: Interpreter, evalOrder: seq<string>, appendOrder: seq<string>)
    requires a1.groups == a2.groups && a1.rules == a2.rules
    requires GroupsReady(base, a1, interp, evalOrder, appendOrder)
    ensures GroupsReady(base, a2, interp, evalOrder, appendOrder)
    ensures ComposeConfig(base, Some(a1), interp, evalOrder, appendOrder) == ComposeConfig(base, Some(a2), interp, evalOrder, appendOrder)
  {
  }

  /** Snippets see the baseline proxies' names only: changing anything else
      about the baseline proxies changes nothing but the proxies passed
      through. */
  lemma OnlyBaselineProxyNamesMatter(b1: Config, b2: Config, addon: Config, interp: Interpreter, evalOrder: seq<string>, appendOrder: seq<string>)
    requires b1.groups == b2.groups && b1.rules == b2.rules && b1.fields == b2.fields
    requires |b1.proxies| == |b2.proxies|
    requires forall i :: 0 <= i < |b1.proxies| ==> b1.proxies[i].name == b2.proxies[i].name
    requires GroupsReady(b1, addon, interp, evalOrder, appendOrder)
    ensures GroupsReady(b2, addon, interp, evalOrder, appendOrder)
    ensures ComposeConfig(b1, Some(addon), interp, evalOrder, appendOrder).Ok?
        <==> ComposeConfig(b2, Some(addon), interp, evalOrder, appendOrder).Ok?
    ensures ComposeConfig(b1, Some(addon), interp, evalOrder, appendOrder).Ok? ==>
      ComposeConfig(b1, Some(addon), interp, evalOrder, appendOrder).value.(proxies := b2.proxies)
        == ComposeConfig(b2, Some(addon), interp, evalOrder, appendOrder).value
  {
    BindingsSeeOnlyNames(b1.proxies, b2.proxies);
    var b := b1.(proxies := b2.proxies);
    assert b == b2;
    var t := SnippetTable(addon.groups);
    ResolveSameBindings(interp, b1.proxies, b2.proxies, t, evalOrder);
  }

  /** An interpreter under which the snippet "fail" does not execute and
      every other snippet's filter returns an empty list. */
  function FailOnly(ds: seq<ProxyDict>, code: string): EvalOutcome {
    if code == "fail" then ExecFailed("boom") else Returned(StarList([]))
  }

  /** Two addon snippet groups: "A" runs the snippet "fail", "B" runs "pass". */
  function ExampleAddon(): Config {
    Config([], [ProxyGroup(Str("A"), List([Str("fail")]), map[]),
                ProxyGroup(Str("B"), List([Str("pass")]), map[])], [], map[])
  }

  function EmptyConfig(): Config {
    Config([], [], [], map[])
  }

  lemma ExampleTable()
    ensures GroupsShaped(ExampleAddon().groups)
    ensures SnippetTable(ExampleAddon().groups) == map["A" := "fail", "B" := "pass"]
  {
    var gs := ExampleAddon().groups;
    assert gs[..1] == [gs[0]];
    assert [gs[0]][..0] == [];
    assert SnippetTable([gs[0]]) == map["A" := "fail"];
  }

  /** Running the failing snippet last makes composition fail with its error. */
  lemma FailingLastFails()
    ensures GroupsReady(EmptyConfig(), ExampleAddon(), FailOnly, ["B", "A"], [])
    ensures ComposeConfig(EmptyConfig(), Some(ExampleAddon()), FailOnly, ["B", "A"], []) == Err(ExecError("boom"))
  {
    ExampleTable();
    assert ["B", "A"][..1] == ["B"];
  }

  /** Running the succeeding snippet last makes composition succeed. */
  lemma PassingLastSucceeds()
    ensures GroupsReady(EmptyConfig(), ExampleAddon(), FailOnly, ["A", "B"], ["B"])
    ensures ComposeConfig(EmptyConfig(), Some(ExampleAddon()), FailOnly, ["A", "B"], ["B"])
         == Ok(EmptyConfig().(groups := [ProxyGroup(Str("B"), List([]), map[])]))
  {
    ExampleTable();
    var base, addon := EmptyConfig(), ExampleAddon();
    var gs := addon.groups;
    assert ["A", "B"][..1] == ["A"];
    var R := ResolveSnippets(FailOnly, [], SnippetTable(gs), ["A", "B"]);
    assert R == Resolution(map["B" := []], None);
    assert gs[..1] == [gs[0]];
    assert [gs[0]][..0] == [];
    assert AddonMappings([gs[0]], R.names) == map[];
    assert StrList([]) == List([]);
    var m := map["B" := ProxyGroup(Str("B"), List([]), map[])];
    assert AddonMappings(gs, R.names) == m;
    assert GroupNames([]) == {};
    assert IsEnumeration(["B"], m.Keys - GroupNames([]));
    assert ReplaceExisting([], m) == Replacement([], m);
    assert Appended(m, ["B"]) == [m["B"]];
    var c := base.(groups := [m["B"]]);
    assert ReplaceExisting(base.groups, m).groups + Appended(ReplaceExisting(base.groups, m).remaining, ["B"]) == [m["B"]];
    assert ComposeProxyGroup(base, addon, FailOnly, ["A", "B"], ["B"]) == Ok(c);
    assert ComposeRule(c, addon) == c;
  }

  /** Whether composition fails depends on the map-iteration order: with one
      failing and one succeeding snippet, the order that runs the failing
      snippet last fails, and the other order succeeds and appends the group
      whose snippet resolved. */
  lemma EvalOrderDecidesFailure()
    ensures GroupsReady(EmptyConfig(), ExampleAddon(), FailOnly, ["B", "A"], [])
    ensures GroupsReady(EmptyConfig(), ExampleAddon(), FailOnly, ["A", "B"], ["B"])
    ensures ComposeConfig(EmptyConfig(), Some(ExampleAddon()), FailOnly, ["B", "A"], []) == Err(ExecError("boom"))
    ensures ComposeConfig(EmptyConfig(), Some(ExampleAddon()), FailOnly, ["A", "B"], ["B"])
         == Ok(EmptyConfig().(groups := [ProxyGroup(Str("B"), List([]), map[])]))
  {
    FailingLastFails();
    PassingLastSucceeds();
  }
}
