/** Proxy-group composition (composeProxyGroup and parseProxyGroupsFromCode).

    1. Classify: an addon group whose `proxies` is a list of exactly one
       string carries a snippet; the table maps the group's name to it.
    2. Resolve: every snippet in the table is run, in map-iteration order;
       failures are skipped, and the error handed back is the last one's.
    3. Build the addon mapping: each resolved name maps to the last addon
       group of that name with its `proxies` replaced by the resolved names.
    4. Merge: the first baseline group of each mapped name is replaced in
       place; the mapped names no baseline group carries are appended, in
       map-iteration order. */
module GroupCompose {
  import opened Values
  import opened RawConfig
  import opened Iteration
  import opened ScriptEval

  /** The single-string-proxy shape that marks a snippet group. */
  predicate IsSnippetGroup(g: ProxyGroup) {
    && NameOf(g).Some?
    && g.proxies.List?
    && |g.proxies.items| == 1
    && g.proxies.items[0].Str?
  }

  function SnippetCode(g: ProxyGroup): string
    requires IsSnippetGroup(g)
  {
    g.proxies.items[0].s
  }

  /** `g` is a snippet group called `n`. */
  predicate SnippetNamed(g: ProxyGroup, n: string) {
    IsSnippetGroup(g) && NameOf(g) == Some(n)
  }

  /** The snippet table: name to snippet source, a later snippet group of a
      name overwriting an earlier one. */
  function SnippetTable(gs: seq<ProxyGroup>): (t: map<string, string>)
    requires GroupsShaped(gs)
    ensures forall n :: n in t ==> exists i :: 0 <= i < |gs| && SnippetNamed(gs[i], n)
    decreases |gs|
  {
    if |gs| == 0 then map[]
    else
      var t := SnippetTable(gs[..|gs| - 1]);
      var g := gs[|gs| - 1];
      if IsSnippetGroup(g) then t[NameOf(g).value := SnippetCode(g)] else t
  }

  /** Group `i` is the last snippet group of `gs` called `n`. */
  predicate LastSnippet(gs: seq<ProxyGroup>, i: int, n: string) {
    && 0 <= i < |gs|
    && SnippetNamed(gs[i], n)
    && forall j :: i < j < |gs| ==> !SnippetNamed(gs[j], n)
  }

  /** A name has a snippet exactly when some addon group of that name has the
      snippet shape, and the snippet is that of the last such group. */
  lemma {:induction false} SnippetTableClassifies(gs: seq<ProxyGroup>)
    requires GroupsShaped(gs)
    ensures forall n :: n in SnippetTable(gs) <==> exists i :: 0 <= i < |gs| && SnippetNamed(gs[i], n)
    ensures forall n :: n in SnippetTable(gs) ==>
      exists i :: LastSnippet(gs, i, n) && SnippetTable(gs)[n] == SnippetCode(gs[i])
    decreases |gs|
  {
    if |gs| > 0 {
      var k := |gs| - 1;
      var pre := gs[..k];
      SnippetTableClassifies(pre);
      var t := SnippetTable(gs);
      assert t == if IsSnippetGroup(gs[k]) then SnippetTable(pre)[NameOf(gs[k]).value := SnippetCode(gs[k])] else SnippetTable(pre);
      forall n | n in t
        ensures exists i :: LastSnippet(gs, i, n) && t[n] == SnippetCode(gs[i])
      {
        if SnippetNamed(gs[k], n) {
          assert LastSnippet(gs, k, n);
        } else {
          assert n in SnippetTable(pre) && t[n] == SnippetTable(pre)[n];
          var i :| LastSnippet(pre, i, n) && SnippetTable(pre)[n] == SnippetCode(pre[i]);
          assert LastSnippet(gs, i, n);
        }
      }
      forall n | exists i :: 0 <= i < |gs| && SnippetNamed(gs[i], n)
        ensures n in t
      {
        var i :| 0 <= i < |gs| && SnippetNamed(gs[i], n);
        if i < k && !SnippetNamed(gs[k], n) {
          assert SnippetNamed(pre[i], n);
          assert n in SnippetTable(pre);
        }
      }
      forall n | n in t
        ensures exists i :: 0 <= i < |gs| && SnippetNamed(gs[i], n)
      {
        var i :| LastSnippet(gs, i, n);
      }
    }
  }

  /** What running the snippets leaves behind: the names resolved so far and
      the error of the snippet run last, if it failed. */
  datatype Resolution = Resolution(names: map<string, seq<string>>, err: Option<ScriptError>)

  function ErrorOf(r: Result<seq<string>, ScriptError>): Option<ScriptError> {
    if r.Err? then Some(r.error) else None
  }

  /** Runs the snippets of `table` in the order `order` against the
      baseline proxies. */
  function ResolveSnippets(interp: Interpreter, proxies: seq<Proxy>, table: map<string, string>, order: seq<string>): (r: Resolution)
    requires ProxiesNamed(proxies)
    requires forall i :: 0 <= i < |order| ==> order[i] in table
    ensures forall n :: n in r.names <==> n in order && ExecuteFilter(interp, Bindings(proxies), table[n]).Ok?
    ensures forall n :: n in r.names ==> ExecuteFilter(interp, Bindings(proxies), table[n]) == Ok(r.names[n])
    ensures |order| == 0 ==> r.err == None
    ensures |order| > 0 ==> r.err == ErrorOf(ExecuteFilter(interp, Bindings(proxies), table[order[|order| - 1]]))
    decreases |order|
  {
    if |order| == 0 then Resolution(map[], None)
    else
      var prior := ResolveSnippets(interp, proxies, table, order[..|order| - 1]);
      var n := order[|order| - 1];
      match ExecuteFilter(interp, Bindings(proxies), table[n])
      case Ok(names) => Resolution(prior.names[n := names], None)
      case Err(e) => Resolution(prior.names, Some(e))
  }

  /** Resolution depends on the proxies only through the binding snippets see. */
  lemma ResolveSameBindings(interp: Interpreter, p1: seq<Proxy>, p2: seq<Proxy>, table: map<string, string>, order: seq<string>)
    requires ProxiesNamed(p1) && ProxiesNamed(p2) && Bindings(p1) == Bindings(p2)
    requires forall i :: 0 <= i < |order| ==> order[i] in table
    ensures ResolveSnippets(interp, p1, table, order) == ResolveSnippets(interp, p2, table, order)
  {
  }

  /** The group as it enters the merge: its `proxies` are the resolved names. */
  function Substitute(g: ProxyGroup, names: seq<string>): ProxyGroup {
    g.(proxies := StrList(names))
  }


  /** The addon mapping: each resolved name is bound to the last addon group
      of that name, with the resolved proxies. */
  function AddonMappings(gs: seq<ProxyGroup>, resolved: map<string, seq<string>>): (m: map<string, ProxyGroup>)
    ensures forall n :: n in m ==> n in resolved && NameOf(m[n]) == Some(n) && m[n].proxies == StrList(resolved[n])
    decreases |gs|
  {
    if |gs| == 0 then map[]
    else
      var m := AddonMappings(gs[..|gs| - 1], resolved);
      var g := gs[|gs| - 1];
      match NameOf(g)
      case Some(n) => if n in resolved then m[n := Substitute(g, resolved[n])] else m
      case None => m
  }

  /** Group `i` is the last group of `gs` whose string name is `n`. */
  predicate LastNamed(gs: seq<ProxyGroup>, i: int, n: string) {
    && 0 <= i < |gs|
    && NameOf(gs[i]) == Some(n)
    && forall j :: i < j < |gs| ==> NameOf(gs[j]) != Some(n)
  }

  /** The mapping holds exactly the resolved names some addon group carries. */
  lemma {:induction false} AddonMappingsKeys(gs: seq<ProxyGroup>, resolved: map<string, seq<string>>)
    ensures forall n :: n in AddonMappings(gs, resolved) <==> n in resolved && n in GroupNames(gs)
    decreases |gs|
  {
    if |gs| > 0 {
      var k := |gs| - 1;
      AddonMappingsKeys(gs[..k], resolved);
      GroupNamesSnoc(gs);
    }
  }

  /** Each mapped name is bound to the last addon group of that name,
      whatever its shape, with the resolved proxies substituted. */
  lemma {:induction false} AddonMappingsPickLast(gs: seq<ProxyGroup>, resolved: map<string, seq<string>>, n: string)
    requires n in AddonMappings(gs, resolved)
    ensures n in resolved
    ensures exists i :: LastNamed(gs, i, n) && AddonMappings(gs, resolved)[n] == Substitute(gs[i], resolved[n])
    decreases |gs|
  {
    var k := |gs| - 1;
    var g := gs[k];
    if NameOf(g) == Some(n) && n in resolved {
      assert LastNamed(gs, k, n);
    } else {
      var pre := gs[..k];
      AddonMappingsPickLast(pre, resolved, n);
      var i :| LastNamed(pre, i, n) && AddonMappings(pre, resolved)[n] == Substitute(pre[i], resolved[n]);
      assert LastNamed(gs, i, n);
    }
  }

  /** Group `i` of `gs` has a string name that no earlier group carries. */
  predicate FirstNamed(gs: seq<ProxyGroup>, i: int)
    requires 0 <= i < |gs|
  {
    NameOf(gs[i]).Some? && forall j :: 0 <= j < i ==> NameOf(gs[j]) != NameOf(gs[i])
  }

  /** The baseline groups after in-place replacement, and the mapping
      entries no baseline group used. */
  datatype Replacement = Replacement(groups: seq<ProxyGroup>, remaining: map<string, ProxyGroup>)

  /** Walks the baseline groups in order; a group whose string name is still
      in the mapping is replaced by the mapped group, and the entry is deleted. */
  function ReplaceExisting(base: seq<ProxyGroup>, m: map<string, ProxyGroup>): (r: Replacement)
    ensures |r.groups| == |base|
    ensures forall i :: 0 <= i < |base| ==>
      r.groups[i] == if FirstNamed(base, i) && NameOf(base[i]).value in m then m[NameOf(base[i]).value] else base[i]
    ensures r.remaining == m - GroupNames(base)
    decreases |base|
  {
    if |base| == 0 then Replacement([], m)
    else
      var g := base[0];
      if NameOf(g).Some? && NameOf(g).value in m then
        var n := NameOf(g).value;
        var rest := ReplaceExisting(base[1..], m - {n});
        Replacement([m[n]] + rest.groups, rest.remaining)
      else
        var rest := ReplaceExisting(base[1..], m);
        Replacement([g] + rest.groups, rest.remaining)
  }

  /** The remaining mapped groups, in the order the map is ranged over. */
  function Appended(remaining: map<string, ProxyGroup>, order: seq<string>): (gs: seq<ProxyGroup>)
    requires forall i :: 0 <= i < |order| ==> order[i] in remaining
    ensures |gs| == |order|
    ensures forall g :: g in gs ==> g in remaining.Values
  {
    seq(|order|, i requires 0 <= i < |order| => remaining[order[i]])
  }

  lemma AppendedConcat(remaining: map<string, ProxyGroup>, a: seq<string>, b: seq<string>)
    requires forall i :: 0 <= i < |a| ==> a[i] in remaining
    requires forall i :: 0 <= i < |b| ==> b[i] in remaining
    ensures Appended(remaining, a + b) == Appended(remaining, a) + Appended(remaining, b)
  {
  }

  /** The group appended for the key visited at position `j`, between those
      appended before and after it. */
  lemma AppendedAround(remaining: map<string, ProxyGroup>, o: seq<string>, j: int)
    requires forall i :: 0 <= i < |o| ==> o[i] in remaining
    requires 0 <= j < |o|
    ensures multiset(Appended(remaining, o))
         == multiset(Appended(remaining, o[..j] + o[j + 1..])) + multiset{remaining[o[j]]}
  {
    var front, back := o[..j], o[j + 1..];
    assert o == front + [o[j]] + back;
    assert Appended(remaining, [o[j]]) == [remaining[o[j]]];
    AppendedConcat(remaining, front + [o[j]], back);
    AppendedConcat(remaining, front, [o[j]]);
    AppendedConcat(remaining, front, back);
  }

  /** The map-iteration order of the append loop changes only the order of
      the appended groups: any two enumerations of the same keys append the
      same groups, each as many times. */
  lemma {:induction false} AppendedPermutes(remaining: map<string, ProxyGroup>, keys: set<string>, o1: seq<string>, o2: seq<string>)
    requires keys <= remaining.Keys
    requires IsEnumeration(o1, keys) && IsEnumeration(o2, keys)
    ensures multiset(Appended(remaining, o1)) == multiset(Appended(remaining, o2))
    decreases |o1|
  {
    EnumerationLength(o1, keys);
    EnumerationLength(o2, keys);
    if |o1| > 0 {
      var k := o1[0];
      assert k in o2;
      var j :| 0 <= j < |o2| && o2[j] == k;
      EnumerationRemove(o1, keys, 0);
      EnumerationRemove(o2, keys, j);
      AppendedPermutes(remaining, keys - {k}, o1[..0] + o1[1..], o2[..j] + o2[j + 1..]);
      AppendedAround(remaining, o1, 0);
      AppendedAround(remaining, o2, j);
    }
  }
}
