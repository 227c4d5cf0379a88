/**
 * `apply_args` of the single-file backend (backend/app.py): the values a node's
 * command is rendered from, taken from the node's parameters, else the spec's
 * default, else an error for a required argument.
 */
module AppArgs {
  import opened Wrappers
  import opened Values
  import opened Tools

  function MissingMessage(name: string): string {
    "Missing required arg: " + name
  }

  /** The value an argument resolves to: the parameter if given, else the default. */
  function Resolved(name: string, spec: ArgSpec, params: map<string, ArgValue>): Option<Value> {
    if name in params then Some(params[name].value) else spec.default
  }

  /** What a name is bound to: nothing when undeclared, else its last spec's resolution. */
  function Declared(args: seq<ArgSpec>, name: string, params: map<string, ArgValue>): Option<Value> {
    match LastSpec(args, name)
    case None => None
    case Some(spec) => Resolved(name, spec, params)
  }

  /** What a name resolves to against a spec dictionary. */
  function ResolvedIn(items: Dict<ArgSpec>, name: string, params: map<string, ArgValue>): Option<Value> {
    if HasKey(items, name) then Resolved(name, Lookup(items, name).value, params) else None
  }

  /** No declared argument is missing. */
  predicate NoneMissing(args: seq<ArgSpec>, params: map<string, ArgValue>) {
    forall j | 0 <= j < |args| :: !Missing(args[j].name, LastSpec(args, args[j].name).value, params)
  }

  /** The argument is required but has neither a parameter nor a default. */
  predicate Missing(name: string, spec: ArgSpec, params: map<string, ArgValue>) {
    name !in params && spec.default.None? && spec.required
  }

  /** One iteration of the loop over the spec dictionary. */
  function BindStep(acc: Dict<Value>, name: string, spec: ArgSpec, params: map<string, ArgValue>)
    : Result<Dict<Value>, Failure>
  {
    if name in params then Ok(Put(acc, name, params[name].value))
    else if spec.default.Some? then Ok(Put(acc, name, spec.default.value))
    else if spec.required then Err(HttpError(400, MissingMessage(name)))
    else Ok(acc)
  }

  /** The loop over the first |items| entries; the first missing argument aborts it. */
  function BindAll(items: Dict<ArgSpec>, params: map<string, ArgValue>): Result<Dict<Value>, Failure>
    decreases |items|
  {
    if items == [] then Ok([])
    else
      var n := |items| - 1;
      match BindAll(items[..n], params)
      case Err(e) => Err(e)
      case Ok(acc) => BindStep(acc, items[n].0, items[n].1, params)
  }

  /** Once the loop has failed, the rest of the entries do not matter. */
  lemma {:induction false} BindAllErrSticky(items: Dict<ArgSpec>, j: nat, params: map<string, ArgValue>)
    requires j <= |items| && BindAll(items[..j], params).Err?
    ensures BindAll(items, params) == BindAll(items[..j], params)
    decreases |items| - j
  {
    if j < |items| {
      assert items[..j + 1][..j] == items[..j];
      BindAllErrSticky(items, j + 1, params);
    } else {
      assert items[..j] == items;
    }
  }

  /** The loop succeeds exactly when no argument is missing. */
  lemma {:induction false} BindAllOk(items: Dict<ArgSpec>, params: map<string, ArgValue>)
    ensures BindAll(items, params).Ok? <==>
      forall j | 0 <= j < |items| :: !Missing(items[j].0, items[j].1, params)
    decreases |items|
  {
    if items != [] {
      var n := |items| - 1;
      BindAllOk(items[..n], params);
      assert forall j | 0 <= j < n :: items[..n][j] == items[j];
    }
  }

  /**
   * On success each declared name is bound to its resolved value (and is absent
   * when there is none); undeclared names are never bound.
   */
  lemma {:induction false} BindAllLookup(items: Dict<ArgSpec>, params: map<string, ArgValue>)
    requires DistinctKeys(items) && BindAll(items, params).Ok?
    ensures forall k :: Lookup(BindAll(items, params).value, k) == ResolvedIn(items, k, params)
    decreases |items|
  {
    if items != [] {
      var n := |items| - 1;
      var front := items[..n];
      var last := items[n].0;
      assert DistinctKeys(front);
      assert BindAll(front, params).Ok?;
      BindAllLookup(front, params);
      var acc := BindAll(front, params).value;
      assert BindAll(items, params) == BindStep(acc, last, items[n].1, params);
      LookupLast(items);
      assert Keys(items) == Keys(front) + [last];
      assert !HasKey(front, last) by {
        forall j | 0 <= j < n ensures Keys(front)[j] != last {
          assert items[j].0 != items[n].0;
        }
      }
      forall k
        ensures Lookup(BindAll(items, params).value, k) == ResolvedIn(items, k, params)
      {
        assert Lookup(items, k) == LookupSplit(front, items[n], k);
        BindStepLookup(acc, front, last, items[n].1, params, k);
      }
    }
  }

  /** One more entry binds its own name and leaves every other lookup alone. */
  lemma BindStepLookup(acc: Dict<Value>, front: Dict<ArgSpec>, name: string, spec: ArgSpec,
                       params: map<string, ArgValue>, k: string)
    requires !HasKey(front, name) && BindStep(acc, name, spec, params).Ok?
    requires forall k' :: Lookup(acc, k') == ResolvedIn(front, k', params)
    ensures Lookup(BindStep(acc, name, spec, params).value, k) ==
      if k == name then Resolved(name, spec, params) else ResolvedIn(front, k, params)
  {
    assert Lookup(acc, k) == ResolvedIn(front, k, params);
  }

  /** A failure names the first missing argument. */
  lemma {:induction false} BindAllFirstError(items: Dict<ArgSpec>, params: map<string, ArgValue>)
    requires BindAll(items, params).Err?
    ensures exists j | 0 <= j < |items| ::
      Missing(items[j].0, items[j].1, params) &&
      (forall i | 0 <= i < j :: !Missing(items[i].0, items[i].1, params)) &&
      BindAll(items, params).error == HttpError(400, MissingMessage(items[j].0))
    decreases |items|
  {
    var n := |items| - 1;
    var front := items[..n];
    if BindAll(front, params).Err? {
      BindAllFirstError(front, params);
      var j :| 0 <= j < |front| && Missing(front[j].0, front[j].1, params) &&
        (forall i | 0 <= i < j :: !Missing(front[i].0, front[i].1, params)) &&
        BindAll(front, params).error == HttpError(400, MissingMessage(front[j].0));
      assert forall i | 0 <= i <= j :: items[i] == front[i];
    } else {
      BindAllOk(front, params);
      assert forall i | 0 <= i < n :: items[i] == front[i];
      assert Missing(items[n].0, items[n].1, params);
    }
  }

  /** `apply_args(tool_def, params)`. */
  method ApplyArgs(tool: ToolDef, params: map<string, ArgValue>) returns (r: Result<Dict<Value>, Failure>)
    ensures r == BindAll(SpecDict(tool.args), params)
    ensures r.Ok? <==> NoneMissing(tool.args, params)
    ensures r.Ok? ==> forall n :: Lookup(r.value, n) == Declared(tool.args, n, params)
  {
    r := BindValues(SpecDict(tool.args), params);
    ApplyArgsOk(tool, params);
    if r.Ok? {
      ApplyArgsLookup(tool, params);
    }
  }

  /** The loop at lines 76-83 over the spec dictionary. */
  method BindValues(items: Dict<ArgSpec>, params: map<string, ArgValue>) returns (r: Result<Dict<Value>, Failure>)
    ensures r == BindAll(items, params)
  {
    var values: Dict<Value> := [];
    for i := 0 to |items|
      invariant BindAll(items[..i], params) == Ok(values)
    {
      assert items[..i + 1][..i] == items[..i];
      var step := BindOne(values, items[i].0, items[i].1, params);
      if step.Err? {
        BindAllErrSticky(items, i + 1, params);
        return step;
      }
      values := step.value;
    }
    assert items[..|items|] == items;
    r := Ok(values);
  }

  /** The body of the loop at lines 76-83 for one argument. */
  method BindOne(values: Dict<Value>, name: string, spec: ArgSpec, params: map<string, ArgValue>)
    returns (r: Result<Dict<Value>, Failure>)
    ensures r == BindStep(values, name, spec, params)
  {
    if name in params {
      r := Ok(Put(values, name, params[name].value));
    } else if spec.default.Some? {
      r := Ok(Put(values, name, spec.default.value));
    } else if spec.required {
      r := Err(HttpError(400, MissingMessage(name)));
    } else {
      r := Ok(values);
    }
  }

  /** Binding succeeds exactly when no declared argument is missing. */
  lemma ApplyArgsOk(tool: ToolDef, params: map<string, ArgValue>)
    ensures BindAll(SpecDict(tool.args), params).Ok? <==> NoneMissing(tool.args, params)
  {
    var items := SpecDict(tool.args);
    BindAllOk(items, params);
    if forall j | 0 <= j < |items| :: !Missing(items[j].0, items[j].1, params) {
      forall j | 0 <= j < |tool.args|
        ensures !Missing(tool.args[j].name, LastSpec(tool.args, tool.args[j].name).value, params)
      {
        var k := SpecDictCovers(tool.args, j);
        SpecDictEntry(tool.args, k);
      }
    }
    if NoneMissing(tool.args, params) {
      forall j | 0 <= j < |items| ensures !Missing(items[j].0, items[j].1, params) {
        SpecDictEntry(tool.args, j);
        var k := SpecDictDeclared(tool.args, j);
      }
    }
  }

  /** On success, each name is bound as it is declared. */
  lemma ApplyArgsLookup(tool: ToolDef, params: map<string, ArgValue>)
    requires BindAll(SpecDict(tool.args), params).Ok?
    ensures forall n :: Lookup(BindAll(SpecDict(tool.args), params).value, n) == Declared(tool.args, n, params)
  {
    var items := SpecDict(tool.args);
    SpecDictDistinct(tool.args);
    BindAllLookup(items, params);
    forall n ensures Lookup(BindAll(items, params).value, n) == Declared(tool.args, n, params) {
      SpecDictLookup(tool.args, n);
    }
  }

  // As written, line 79 subscripts the parameter (`params[name]["value"]`), but
  // the parameters reach `apply_args` as `ArgValue` models, which do not support
  // subscription: the first declared argument the user supplied raises instead.

  const NotSubscriptable := "'ArgValue' object is not subscriptable"

  /** One iteration of the loop as written. */
  function BindStepAsWritten(acc: Dict<Value>, name: string, spec: ArgSpec, params: map<string, ArgValue>)
    : Result<Dict<Value>, Failure>
  {
    if name in params then Err(TypeError(NotSubscriptable))
    else BindStep(acc, name, spec, params)
  }

  function BindAllAsWritten(items: Dict<ArgSpec>, params: map<string, ArgValue>): Result<Dict<Value>, Failure>
    decreases |items|
  {
    if items == [] then Ok([])
    else
      var n := |items| - 1;
      match BindAllAsWritten(items[..n], params)
      case Err(e) => Err(e)
      case Ok(acc) => BindStepAsWritten(acc, items[n].0, items[n].1, params)
  }

  /**
   * As written, the loop agrees with the intended one exactly as long as no
   * declared argument has a parameter, and it never succeeds otherwise.
   */
  lemma {:induction false} AsWrittenAgrees(items: Dict<ArgSpec>, params: map<string, ArgValue>)
    ensures (forall j | 0 <= j < |items| :: items[j].0 !in params) ==>
      BindAllAsWritten(items, params) == BindAll(items, params)
    ensures BindAllAsWritten(items, params).Ok? ==> forall j | 0 <= j < |items| :: items[j].0 !in params
    decreases |items|
  {
    if items != [] {
      var n := |items| - 1;
      AsWrittenAgrees(items[..n], params);
      assert forall j | 0 <= j < n :: items[..n][j] == items[j];
    }
  }

  /** A tool with one optional argument `x`, and the user setting `x` to 1. */
  lemma AsWrittenRejectsGivenParam()
    ensures var tool := ToolDef("t", None, [], [ArgSpec("x", "number", None, None, [], false)], None);
      var params := map["x" := ArgValue(VInt(1))];
      BindAllAsWritten(SpecDict(tool.args), params) == Err(TypeError(NotSubscriptable)) &&
      BindAll(SpecDict(tool.args), params) == Ok([("x", VInt(1))])
  {
  }
}
