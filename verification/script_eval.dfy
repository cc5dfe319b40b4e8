/** Evaluation of one filter snippet against the baseline proxies.

    The Starlark interpreter itself is not modelled. It is an `Interpreter`
    oracle: given the predeclared `proxies` binding and the snippet text, it
    reports how far execution got (the file failed to execute, it defines no
    `filter`, calling `filter` failed, or `filter` returned a value). What the
    composition does with that outcome is modelled exactly. */
module ScriptEval {
  import opened Values
  import opened RawConfig

  /** The dictionary a snippet sees for one baseline proxy: its name and nothing else. */
  datatype ProxyDict = ProxyDict(name: string)

  /** Starlark values, as far as name extraction tells them apart. */
  datatype StarValue =
    | StarString(s: string)
    | StarList(elems: seq<StarValue>)
    | StarOther(typeName: string)

  datatype EvalOutcome =
    | ExecFailed(detail: string)
    | FilterMissing
    | CallFailed(detail: string)
    | Returned(result: StarValue)

  type Interpreter = (seq<ProxyDict>, string) -> EvalOutcome

  /** One error per step at which a snippet can fail. */
  datatype ScriptError =
    | ExecError(detail: string)
    | FilterNotDefined
    | CallError(detail: string)
    | ResultNotList

  /** The global a snippet must define. */
  const FilterFunctionName: string := "filter"

  /** The text of the error composition returns for each failing step; the
      request handler answers with it under `err` (main.go:91-96). The
      interpreter's detail, where there is one, ends the text. */
  function Message(e: ScriptError): (msg: string)
    ensures e.ExecError? || e.CallError? ==> |e.detail| <= |msg| && msg[|msg| - |e.detail|..] == e.detail
  {
    match e
    case ExecError(d) => "starlark execute error:" + d
    case FilterNotDefined => "function '" + FilterFunctionName + "' not defined in code snippet"
    case CallError(d) => "execute code snippet error:" + d
    case ResultNotList => "returned result is not a list"
  }

  /** The error text tells the caller which step failed and, for the two
      steps that carry interpreter detail, that detail. */
  lemma MessageIdentifiesError(e1: ScriptError, e2: ScriptError)
    requires Message(e1) == Message(e2)
    ensures e1 == e2
  {
    var m := Message(e1);
    match e1
    case ExecError(d1) =>
      assert m[0] == 's';
      var d2 := e2.detail;
      assert d1 == m[|"starlark execute error:"|..] == d2;
    case CallError(d1) =>
      assert m[0] == 'e';
      var d2 := e2.detail;
      assert d1 == m[|"execute code snippet error:"|..] == d2;
    case FilterNotDefined =>
      assert m[0] == 'f';
    case ResultNotList =>
      assert m[0] == 'r';
  }

  /** The `proxies` binding: one name-only dictionary per baseline proxy, in order. */
  function Bindings(ps: seq<Proxy>): (ds: seq<ProxyDict>)
    requires ProxiesNamed(ps)
    ensures |ds| == |ps|
    ensures forall i :: 0 <= i < |ps| ==> Str(ds[i].name) == ps[i].name
  {
    seq(|ps|, i requires 0 <= i < |ps| => ProxyDict(ps[i].name.s))
  }

  /** Snippets see proxy names only: two proxy lists that agree on names,
      whatever their other fields, give a snippet the same binding. */
  lemma BindingsSeeOnlyNames(ps1: seq<Proxy>, ps2: seq<Proxy>)
    requires ProxiesNamed(ps1) && ProxiesNamed(ps2)
    requires |ps1| == |ps2|
    requires forall i :: 0 <= i < |ps1| ==> ps1[i].name == ps2[i].name
    ensures Bindings(ps1) == Bindings(ps2)
    ensures |Bindings(ps1)| == |ps1|
    ensures forall i :: 0 <= i < |ps1| ==> Bindings(ps1)[i].name == ps1[i].name.s
  {
  }

  /** Printing a value and reading it back as a quoted string literal:
      only string values survive. */
  function Unquoted(v: StarValue): Option<string> {
    if v.StarString? then Some(v.s) else None
  }

  /** The names of a returned list: its string elements, in list order; every
      other element is dropped. */
  function ExtractNames(elems: seq<StarValue>): (names: seq<string>)
    ensures |names| <= |elems|
    ensures forall n :: n in names <==> StarString(n) in elems
    decreases |elems|
  {
    if |elems| == 0 then []
    else
      var head := match Unquoted(elems[0]) case Some(n) => [n] case None => [];
      head + ExtractNames(elems[1..])
  }

  /** Extraction works element by element, so it keeps the list's order:
      splitting the list splits the names at the same place. */
  lemma {:induction false} ExtractNamesConcat(a: seq<StarValue>, b: seq<StarValue>)
    ensures ExtractNames(a + b) == ExtractNames(a) + ExtractNames(b)
    decreases |a|
  {
    if |a| == 0 {
      assert a + b == b;
    } else {
      assert (a + b)[1..] == a[1..] + b;
      ExtractNamesConcat(a[1..], b);
    }
  }

  /** A list holding only strings yields exactly those strings. */
  lemma {:induction false} ExtractNamesOfStrings(names: seq<string>)
    ensures ExtractNames(seq(|names|, i requires 0 <= i < |names| => StarString(names[i]))) == names
    decreases |names|
  {
    var elems := seq(|names|, i requires 0 <= i < |names| => StarString(names[i]));
    if |names| > 0 {
      var tail := seq(|names| - 1, i requires 0 <= i < |names| - 1 => StarString(names[1..][i]));
      assert elems[1..] == tail;
      ExtractNamesOfStrings(names[1..]);
    }
  }

  /** Runs one snippet: execute the file, look up `filter`, call it, insist
      on a list, and extract the names. */
  function ExecuteFilter(interp: Interpreter, bindings: seq<ProxyDict>, code: string): (r: Result<seq<string>, ScriptError>)
    ensures r.Ok? <==> interp(bindings, code).Returned? && interp(bindings, code).result.StarList?
    ensures r.Ok? ==> |r.value| <= |interp(bindings, code).result.elems|
    ensures r.Ok? ==> forall n :: n in r.value <==> StarString(n) in interp(bindings, code).result.elems
    ensures r == Err(FilterNotDefined) <==> interp(bindings, code) == FilterMissing
    ensures r == Err(ResultNotList) <==> interp(bindings, code).Returned? && !interp(bindings, code).result.StarList?
    ensures forall d :: r == Err(ExecError(d)) <==> interp(bindings, code) == ExecFailed(d)
    ensures forall d :: r == Err(CallError(d)) <==> interp(bindings, code) == CallFailed(d)
  {
    match interp(bindings, code)
    case ExecFailed(d) => Err(ExecError(d))
    case FilterMissing => Err(FilterNotDefined)
    case CallFailed(d) => Err(CallError(d))
    case Returned(v) =>
      if v.StarList? then Ok(ExtractNames(v.elems)) else Err(ResultNotList)
  }
}
