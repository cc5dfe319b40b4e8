# config-addon composition engine, modelled in Dafny

The service merges an *addon* proxy configuration into a *baseline*
configuration for a rule-based proxy router. This project models the
composition engine of `main.go`:

- **Snippet classification.** An addon proxy group is a snippet group when
  its `name` is a string and its `proxies` list holds exactly one string.
  That string is the source of a Starlark filter script.
- **Snippet resolution.** Each snippet runs against the baseline proxies.
  The script sees them as a list of dictionaries holding only `name`.
  A snippet fails at one of four steps: the file does not execute, it
  defines no `filter`, calling `filter` fails, or the result is not a list.
  A successful result keeps only its string elements, in list order.
  A failing snippet is skipped. The error reported is the one from the
  snippet run *last*.
- **Group merge.** Each resolved name is bound to the last addon group
  carrying that name, with its `proxies` replaced by the resolved names.
  The first baseline group of that name is replaced in place. Names no
  baseline group carries are appended.
- **Rule merge.** The result rules are the addon rules followed by the
  baseline rules.
- **No addon.** Without an addon document the baseline passes through
  unchanged.

Modules: `Values` (Option, Result, YAML values), `Iteration` (Go map
iteration order), `RawConfig` (documents, proxies, groups), `ScriptEval`
(one snippet run), `GroupCompose` (classify, resolve, map, replace, append),
`Compose` (top level and the properties of the composed document).

The Starlark interpreter is a parameter, `Interpreter`. It maps the
name-only binding and the snippet text to how far execution got, and is
assumed to finish: the source sets no time limit on a snippet, so one
that never returns hangs the request. Every snippet receives the same,
unchanged binding: the model assumes no snippet alters or freezes the
shared `proxies` list that later snippets see. The model
itself checks that the returned value is a list and extracts the names.
Go's unordered map iteration appears twice: running the snippets and
appending the leftover groups. Both orders are explicit parameters, each
required to list every key of its map exactly once.

Behaviour of `main.go` worth knowing, all of it modelled as written:

- There is no merge-mode parameter. Groups are always replaced in place and
  then appended, and rules are always addon-first (main.go:145-225).
- Snippets come from addon groups only (main.go:164-181).
- A failing snippet is skipped, and only the last run's error is returned
  (main.go:241-249). That error makes the whole composition fail; earlier
  errors are lost.
- A resolved name goes to the last addon group of that name, whatever its
  shape (main.go:191-200). So a literal group that shares a snippet group's
  name, and comes after it, is the one that gets the resolved proxies.

## Model

| member | source | states |
|---|---|---|
| ScriptEval.Message | main.go:262-274 | the error text of each failing step, which the request handler returns under `err`; its contract says only that the interpreter's detail ends the text, and the MessageIdentifiesError row states that the texts identify the step |
| ScriptEval.Bindings | main.go:229-232 | one dictionary per baseline proxy, in order, carrying that proxy's name; the BindingsSeeOnlyNames row states that nothing but the names reaches it |
| GroupCompose.SnippetTable | main.go:162-181 | every name in the table belongs to an addon snippet group; the SnippetTableClassifies row states the full if-and-only-if and the last-wins rule |
| GroupCompose.AddonMappings | main.go:190-201 | every entry is keyed by a resolved name, carries that name and the resolved proxies; the AddonMappingsKeys and AddonMappingsPickLast rows state which names are present and which addon group is kept |
| GroupCompose.Appended | main.go:214-217 | one group appended per key visited, each taken from the leftover mapping entries; the AppendedPermutes row states that the visit order only permutes them |
| ScriptEval.MessageIdentifiesError | main.go:260-275 | each failing step has its own error text, and the exec and call texts carry the interpreter's detail recoverably |
| ScriptEval.BindingsSeeOnlyNames | main.go:295-300 | the `proxies` binding holds one name-only dictionary per baseline proxy, in order; proxy lists that agree on names give the same binding |
| ScriptEval.ExtractNames | main.go:278-292 | the extracted names are exactly the string elements of the returned list, so never more names than elements and possibly none |
| ScriptEval.ExtractNamesConcat | main.go:282-291 | extraction goes element by element and keeps list order: splitting the list splits the names at the same place |
| ScriptEval.ExtractNamesOfStrings | main.go:284-290 | a returned list of strings yields exactly those strings in that order |
| ScriptEval.ExecuteFilter | main.go:255-293 | success iff `filter` ran and returned a list; each failing step (exec, missing `filter`, call, non-list) yields its own error; on success the names are the list's string elements |
| GroupCompose.SnippetTableClassifies | main.go:164-181 | a name has a snippet iff some addon group with that string name has a one-element `proxies` whose element is a string; the snippet is that of the last such group |
| GroupCompose.ResolveSnippets | main.go:239-249 | a name resolves iff its snippet runs successfully, and it resolves to that snippet's names; the error returned is that of the last snippet run, and none if it succeeded or there were no snippets |
| GroupCompose.ResolveSameBindings | main.go:229-243 | resolution depends on the baseline proxies only through the binding the snippets see |
| GroupCompose.AddonMappingsKeys | main.go:190-201 | the addon mapping has an entry for exactly the resolved names carried by some addon group |
| GroupCompose.AddonMappingsPickLast | main.go:191-200 | each mapping entry is the last addon group of that name, of any shape, with `proxies` replaced by the resolved names |
| GroupCompose.ReplaceExisting | main.go:203-213 | replacement keeps the baseline length; group i is replaced by the mapped group iff it is the first baseline group with its string name and that name is mapped, and is otherwise unchanged; the entries left over are the mapped names no baseline group carries |
| GroupCompose.AppendedPermutes | main.go:214-217 | two orders of the append loop append the same groups, each as many times |
| Iteration.EnumerationLength | main.go:215-217 | a loop over a map's keys runs once per key |
| Compose.ComposeProxyGroup | main.go:161-220 | group composition fails iff the last snippet run failed, and then with that snippet's error; on success only the group list changes, and it grows by one group per appended name |
| Compose.MappingCoversResolved | main.go:190-201 | every resolved name is the name of an addon snippet group, so the mapping holds exactly the resolved names |
| Compose.BaselineGroupKeptOrReplaced | main.go:203-213 | baseline group i stays at index i; it is replaced iff it is the first baseline group of a resolved name, and the replacement keeps the name, carries the resolved proxies and is the last addon group of that name; any other group, including unnamed ones, is unchanged |
| Compose.FirstDuplicateOnly | main.go:209-211 | of several baseline groups sharing a name, every one after the first is left unchanged |
| Compose.AppendedGroupIsUnmatchedResolved | main.go:214-217 | each group after the baseline prefix is the resolved addon group of a name no baseline group carries, with the resolved proxies |
| Compose.AppendedGroupsCount | main.go:190-217 | result length = baseline length + number of resolved names no baseline group carries; each such name is appended exactly once |
| Compose.OnlyResolvedAddonGroupsAppear | main.go:189-217 | every composed group is a baseline group or carries a resolved name and its resolved proxies, so unresolved and non-snippet addon groups never appear under their own proxies |
| Compose.AppendOrderOnlyPermutes | main.go:214-217 | the append order changes neither the baseline prefix nor the multiset of composed groups |
| Compose.ResolvedIndependentOfEvalOrder | main.go:241-248 | which names resolve, and to what, does not depend on the order the snippets run in |
| Compose.EvalOrderDecidesFailure | main.go:241-249 | an example addon with one failing and one succeeding snippet shows that running the failing one last makes composition fail, and the other order succeeds; the general rule is ComposeConfig's "fails iff the last snippet run failed" |
| Compose.ComposeRule | main.go:222-225 | the rules become the addon rules followed by the baseline rules, each in order; nothing else changes |
| Compose.ComposeConfig | main.go:145-159 | with no addon the baseline is returned unchanged; otherwise composition fails iff the last snippet run failed; on success the proxies and other fields are the baseline's, the rules are addon then baseline, and the groups are the composed groups |
| Compose.OnlyAddonGroupsAndRulesMatter | main.go:161-225 | of the addon document only its groups and rules affect the result |
| Compose.OnlyBaselineProxyNamesMatter | main.go:229-237 | baseline proxies affect composition only through their names, apart from being passed through |

## Left out

- Interpreter termination: the source sets no time limit on a snippet (main.go:241-248), so one that never returns hangs the request; the `Interpreter` parameter always returns an outcome.
- HTTP and process plumbing (`main`, `hello`, `configHandler`, `getRawConfig`, `downloadConfig`): I/O, environment and query lookups, file reads, network fetches and signal handling, with no composition logic.
- YAML parsing and serialisation (`config.UnmarshalRawConfig`, `yaml.Marshal`): documents are modelled as already parsed, and the result is the document itself. A marshalling error is therefore not modelled.
- The Starlark interpreter and its shared thread: replaced by the `Interpreter` parameter, assumed to be a function of the binding and the snippet text.
- Printing a value and then `strconv.Unquote`: modelled as "string values pass, all other values fail". This assumes Starlark prints strings as Go-compatible quoted literals, and prints no other value as one.
- Runtime panics from unchecked type assertions become preconditions: a baseline proxy without a string `name` (main.go:298), and an addon group with a string `name` whose `proxies` is not a list (main.go:174).
- In-place mutation of addon groups (main.go:198) changes every addon group that shares a resolved name, not only the one kept in the mapping. The addon groups are not part of the output, so the model does not track this.
- Nested mappings and floats inside field values are folded into one opaque `Other` value, because composition never inspects them.
- Compose.ResolvedIndependentOfEvalOrder: holds only because every snippet sees the same binding. In the source all snippets share one `proxies` list that is never frozen (main.go:233-236, 243), so a snippet that changes it (clearing it, renaming a proxy) changes what later snippets see. Freezing is not modelled either: if executing a snippet freezes the values its globals reach, a snippet that keeps a reference to the list freezes it, and a later snippet whose `filter` modifies the list then fails at the call step. The model assumes no snippet alters or freezes the shared list.
- Concurrency: the goroutine and channel in `main` are not part of composition.
