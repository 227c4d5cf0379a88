/**
 * `build_command` of the single-file backend (backend/app.py): the argv list
 * a node's tool is started with, rendered from the command template, the bound
 * argument values and the runtime variables (`workspace`, `input_file`, ...).
 */
module AppCommand {
  import opened Wrappers
  import opened Text
  import opened Values
  import opened Tools
  import opened Templates

  /** The runtime variables are strings. */
  function Lift(rt: Dict<string>): (r: Dict<Value>)
    ensures |r| == |rt|
    ensures forall k | 0 <= k < |rt| :: r[k] == (rt[k].0, VStr(rt[k].1))
  {
    if rt == [] then [] else [(rt[0].0, VStr(rt[0].1))] + Lift(rt[1..])
  }

  /** The inner `render`: `s` is reassigned once per key of the merged dictionary. */
  method Render(s: string, d: Dict<Value>) returns (r: string)
    ensures r == RenderWith(s, d)
  {
    r := s;
    for i := 0 to |d|
      invariant r == RenderWith(s, d[..i])
    {
      assert d[..i + 1][..i] == d[..i];
      r := ReplaceAll(r, Token(d[i].0), Str(d[i].1));
    }
    assert d[..|d|] == d;
  }

  /** `v in (None, "", [], False)` and not `v == 0`: the argument is left out. */
  predicate Skipped(v: Value) {
    PyIn(v, [VNone, VStr(""), VList([]), VBool(false)]) && !PyEq(v, VInt(0))
  }

  /** `if flag:` */
  predicate FlagOn(flag: Option<string>) {
    flag.Some? && flag.value != []
  }

  /** `[flag, s]` when the flag is set, else `[s]`. */
  function Flagged(flag: Option<string>, s: string): (r: seq<Option<string>>)
    ensures |r| == if FlagOn(flag) then 2 else 1
    ensures r[|r| - 1] == Some(s)
    ensures FlagOn(flag) ==> r[0] == flag
  {
    if FlagOn(flag) then [flag, Some(s)] else [Some(s)]
  }

  /** `for item in v`: lists yield their items, strings their characters. */
  function Iterate(v: Value): (r: Result<seq<Value>, Failure>)
    ensures v.VList? ==> r == Ok(v.items)
    ensures v.VStr? ==> (r.Ok? && |r.value| == |v.s| &&
      forall k | 0 <= k < |v.s| :: r.value[k] == VStr([v.s[k]]))
    ensures r.Err? <==> v.VNone? || v.VBool? || v.VInt?
  {
    match v
    case VList(xs) => Ok(xs)
    case VStr(s) => Ok(seq(|s|, k requires 0 <= k < |s| => VStr([s[k]])))
    case VInt(_) => Err(TypeError("'int' object is not iterable"))
    case VBool(_) => Err(TypeError("'bool' object is not iterable"))
    case VNone => Err(TypeError("'NoneType' object is not iterable"))
  }

  /** The tokens of `repeat` mode for the first |items| items. */
  function Repeat(items: seq<Value>, flag: Option<string>): seq<Option<string>>
    decreases |items|
  {
    if items == [] then []
    else Repeat(items[..|items| - 1], flag) + Flagged(flag, Str(items[|items| - 1]))
  }

  /** The tokens one argument part contributes (lines 99-118). */
  function ArgTokens(v: Value, flag: Option<string>, mode: string, sep: Option<string>)
    : Result<seq<Option<string>>, Failure>
  {
    if Skipped(v) then Ok([])
    else if mode == "bool" then Ok(if Truthy(v) then [flag] else [])
    else if mode == "repeat" then
      match Iterate(v)
      case Err(e) => Err(e)
      case Ok(items) => Ok(Repeat(items, flag))
    else if mode == "join" then
      Ok(Flagged(flag, Join(StrAll(if v.VList? then v.items else [v]), sep.GetOr(","))))
    else Ok(Flagged(flag, Str(v)))
  }

  function InvalidPart(tool: ToolDef, repr: string): Failure {
    HttpError(400, "Invalid cmd part in tool " + tool.id + ": " + repr)
  }

  /** The tokens one template part contributes, `d` being the render dictionary. */
  function PartTokens(tool: ToolDef, part: CmdPart, values: Dict<Value>, d: Dict<Value>)
    : Result<seq<Option<string>>, Failure>
  {
    match part
    case Lit(text) => Ok([Some(RenderWith(text, d))])
    case ArgRef(name, flag, mode, sep) => ArgTokens(Lookup(values, name).GetOr(VNone), flag, mode.GetOr("value"), sep)
    case Malformed(repr) => Err(InvalidPart(tool, repr))
  }

  /** argv for the first |parts| parts; the first failing part aborts. */
  function ArgvOf(tool: ToolDef, parts: seq<CmdPart>, values: Dict<Value>, d: Dict<Value>)
    : Result<seq<Option<string>>, Failure>
    decreases |parts|
  {
    if parts == [] then Ok([])
    else
      var n := |parts| - 1;
      match ArgvOf(tool, parts[..n], values, d)
      case Err(e) => Err(e)
      case Ok(argv) =>
        match PartTokens(tool, parts[n], values, d)
        case Err(e) => Err(e)
        case Ok(t) => Ok(argv + t)
  }

  /**
   * `build_command(tool_def, values, runtime_vars)`, its argv half: `None`
   * entries are the flags a `bool` part without a flag appends.
   */
  method BuildCommand(tool: ToolDef, values: Dict<Value>, runtime: Dict<string>)
    returns (r: Result<seq<Option<string>>, Failure>)
    ensures r == ArgvOf(tool, tool.cmd, values, Merge(values, Lift(runtime)))
  {
    var d := Merge(values, Lift(runtime));
    var argv: seq<Option<string>> := [];
    for i := 0 to |tool.cmd|
      invariant ArgvOf(tool, tool.cmd[..i], values, d) == Ok(argv)
    {
      ArgvStep(tool, tool.cmd, i, values, d, argv);
      var part := tool.cmd[i];
      match part {
        case Lit(text) =>
          var s := Render(text, d);
          argv := argv + [Some(s)];
        case ArgRef(name, flag, mode, sep) =>
          var t := ArgPart(Lookup(values, name).GetOr(VNone), flag, mode.GetOr("value"), sep);
          if t.Err? {
            r := Err(t.error);
            ArgvOfErrSticky(tool, tool.cmd, i + 1, values, d);
            return;
          }
          argv := argv + t.value;
        case Malformed(repr) =>
          r := Err(InvalidPart(tool, repr));
          ArgvOfErrSticky(tool, tool.cmd, i + 1, values, d);
          return;
      }
    }
    assert tool.cmd[..|tool.cmd|] == tool.cmd;
    r := Ok(argv);
  }

  /** One more part extends a successful argv by its tokens, or fails with its error. */
  lemma ArgvStep(tool: ToolDef, parts: seq<CmdPart>, i: nat, values: Dict<Value>, d: Dict<Value>,
                 argv: seq<Option<string>>)
    requires i < |parts| && ArgvOf(tool, parts[..i], values, d) == Ok(argv)
    ensures PartTokens(tool, parts[i], values, d).Err? ==>
      ArgvOf(tool, parts[..i + 1], values, d) == Err(PartTokens(tool, parts[i], values, d).error)
    ensures PartTokens(tool, parts[i], values, d).Ok? ==>
      ArgvOf(tool, parts[..i + 1], values, d) == Ok(argv + PartTokens(tool, parts[i], values, d).value)
  {
    assert parts[..i + 1][..i] == parts[..i];
  }

  /** The body of the loop for one argument part (lines 97-118). */
  method ArgPart(v: Value, flag: Option<string>, mode: string, sep: Option<string>)
    returns (r: Result<seq<Option<string>>, Failure>)
    ensures r == ArgTokens(v, flag, mode, sep)
  {
    if Skipped(v) {
      return Ok([]);
    }
    if mode == "bool" {
      r := Ok(if Truthy(v) then [flag] else []);
    } else if mode == "repeat" {
      var items := Iterate(v);
      if items.Err? {
        return Err(items.error);
      }
      var argv: seq<Option<string>> := [];
      for j := 0 to |items.value|
        invariant argv == Repeat(items.value[..j], flag)
      {
        assert items.value[..j + 1][..j] == items.value[..j];
        var item := items.value[j];
        if FlagOn(flag) {
          argv := argv + [flag, Some(Str(item))];
        } else {
          argv := argv + [Some(Str(item))];
        }
      }
      assert items.value[..|items.value|] == items.value;
      r := Ok(argv);
    } else if mode == "join" {
      var joined := Join(StrAll(if v.VList? then v.items else [v]), sep.GetOr(","));
      r := Ok(Flagged(flag, joined));
    } else {
      r := Ok(Flagged(flag, Str(v)));
    }
  }

  // ---------------------------------------------------------------------------
  // Which arguments are left out

  /** Exactly `None` (also a missing value), `""` and `[]` are left out; `0` and `False` are kept. */
  lemma SkippedExactly(v: Value)
    ensures Skipped(v) <==> v == VNone || v == VStr("") || v == VList([])
  {
    var choices := [VNone, VStr(""), VList([]), VBool(false)];
    if v == VNone || v == VStr("") || v == VList([]) {
      assert PyEq(v, choices[if v == VNone then 0 else if v == VStr("") then 1 else 2]);
    }
  }

  /** A left-out argument is always falsy. */
  lemma SkippedFalsy(v: Value)
    requires Skipped(v)
    ensures !Truthy(v)
  {
    SkippedExactly(v);
  }

  /** `bool` mode emits the flag exactly for a truthy value, whatever the value. */
  lemma BoolMode(v: Value, flag: Option<string>, sep: Option<string>)
    ensures ArgTokens(v, flag, "bool", sep) == Ok(if Truthy(v) then [flag] else [])
  {
    if Skipped(v) {
      SkippedFalsy(v);
    }
  }

  /** `0` and `False` reach the value path instead of being left out. */
  lemma ZeroAndFalseKept(flag: Option<string>, sep: Option<string>)
    ensures ArgTokens(VInt(0), flag, "value", sep) == Ok(Flagged(flag, "0"))
    ensures ArgTokens(VBool(false), flag, "value", sep) == Ok(Flagged(flag, "False"))
  {
    SkippedExactly(VInt(0));
    SkippedExactly(VBool(false));
  }

  /** `value` mode emits `flag, str(v)` (or `str(v)`) for every kept value. */
  lemma ValueMode(v: Value, flag: Option<string>, mode: string, sep: Option<string>)
    requires mode != "bool" && mode != "repeat" && mode != "join"
    requires v != VNone && v != VStr("") && v != VList([])
    ensures ArgTokens(v, flag, mode, sep) == Ok(Flagged(flag, Str(v)))
  {
    SkippedExactly(v);
  }

  /** `join` mode emits one joined token after the flag; a scalar is joined alone. */
  lemma JoinMode(v: Value, flag: Option<string>, sep: Option<string>)
    requires v != VNone && v != VStr("") && v != VList([])
    ensures ArgTokens(v, flag, "join", sep).Ok?
    ensures var t := ArgTokens(v, flag, "join", sep).value;
      t == Flagged(flag, if v.VList? then Join(StrAll(v.items), sep.GetOr(",")) else Str(v))
  {
    SkippedExactly(v);
  }

  /** `repeat` emits `flag, str(item)` for each item in order, or the item alone without a flag. */
  lemma RepeatContents(items: seq<Value>, flag: Option<string>)
    ensures FlagOn(flag) ==> (|Repeat(items, flag)| == 2 * |items| &&
      forall k | 0 <= k < |items| :: Repeat(items, flag)[2 * k] == flag && Repeat(items, flag)[2 * k + 1] == Some(Str(items[k])))
    ensures !FlagOn(flag) ==> (|Repeat(items, flag)| == |items| &&
      forall k | 0 <= k < |items| :: Repeat(items, flag)[k] == Some(Str(items[k])))
  {
    if FlagOn(flag) {
      RepeatFlagged(items, flag);
    } else {
      RepeatBare(items, flag);
    }
  }

  lemma {:induction false} RepeatFlagged(items: seq<Value>, flag: Option<string>)
    requires FlagOn(flag)
    ensures |Repeat(items, flag)| == 2 * |items|
    ensures forall k | 0 <= k < |items| ::
      Repeat(items, flag)[2 * k] == flag && Repeat(items, flag)[2 * k + 1] == Some(Str(items[k]))
    decreases |items|
  {
    if items != [] {
      var n := |items| - 1;
      RepeatFlagged(items[..n], flag);
      assert Repeat(items, flag) == Repeat(items[..n], flag) + [flag, Some(Str(items[n]))];
      assert forall k | 0 <= k < n :: items[..n][k] == items[k];
    }
  }

  lemma {:induction false} RepeatBare(items: seq<Value>, flag: Option<string>)
    requires !FlagOn(flag)
    ensures |Repeat(items, flag)| == |items|
    ensures forall k | 0 <= k < |items| :: Repeat(items, flag)[k] == Some(Str(items[k]))
    decreases |items|
  {
    if items != [] {
      var n := |items| - 1;
      RepeatBare(items[..n], flag);
      assert Repeat(items, flag) == Repeat(items[..n], flag) + Flagged(flag, Str(items[n]));
      assert forall k | 0 <= k < n :: items[..n][k] == items[k];
    }
  }

  /** `repeat` over a list; over an int or a bool it raises. */
  lemma RepeatMode(v: Value, flag: Option<string>, sep: Option<string>)
    requires v != VNone && v != VStr("") && v != VList([])
    ensures v.VList? ==> ArgTokens(v, flag, "repeat", sep) == Ok(Repeat(v.items, flag))
    ensures ArgTokens(v, flag, "repeat", sep).Err? <==> v.VInt? || v.VBool?
  {
    SkippedExactly(v);
  }

  // ---------------------------------------------------------------------------
  // The whole template

  lemma {:induction false} ArgvOfErrSticky(tool: ToolDef, parts: seq<CmdPart>, j: nat, values: Dict<Value>, d: Dict<Value>)
    requires j <= |parts| && ArgvOf(tool, parts[..j], values, d).Err?
    ensures ArgvOf(tool, parts, values, d) == ArgvOf(tool, parts[..j], values, d)
    decreases |parts| - j
  {
    if j < |parts| {
      assert parts[..j + 1][..j] == parts[..j];
      ArgvOfErrSticky(tool, parts, j + 1, values, d);
    } else {
      assert parts[..j] == parts;
    }
  }

  /** The template renders exactly when each of its parts does. */
  lemma {:induction false} ArgvOfOk(tool: ToolDef, parts: seq<CmdPart>, values: Dict<Value>, d: Dict<Value>)
    ensures ArgvOf(tool, parts, values, d).Ok? <==>
      forall k | 0 <= k < |parts| :: PartTokens(tool, parts[k], values, d).Ok?
    decreases |parts|
  {
    if parts != [] {
      var n := |parts| - 1;
      ArgvOfOk(tool, parts[..n], values, d);
      assert ArgvOf(tool, parts, values, d).Ok? <==>
        ArgvOf(tool, parts[..n], values, d).Ok? && PartTokens(tool, parts[n], values, d).Ok?;
      assert forall k | 0 <= k < n :: parts[..n][k] == parts[k];
    }
  }

  /** A failure is the error of the first failing part. */
  lemma {:induction false} ArgvOfFirstError(tool: ToolDef, parts: seq<CmdPart>, values: Dict<Value>, d: Dict<Value>)
    requires ArgvOf(tool, parts, values, d).Err?
    ensures exists j | 0 <= j < |parts| ::
      PartTokens(tool, parts[j], values, d).Err? &&
      (forall i | 0 <= i < j :: PartTokens(tool, parts[i], values, d).Ok?) &&
      ArgvOf(tool, parts, values, d).error == PartTokens(tool, parts[j], values, d).error
    decreases |parts|
  {
    var n := |parts| - 1;
    var front := parts[..n];
    if ArgvOf(tool, front, values, d).Err? {
      ArgvOfFirstError(tool, front, values, d);
      var j :| 0 <= j < |front| && PartTokens(tool, front[j], values, d).Err? &&
        (forall i | 0 <= i < j :: PartTokens(tool, front[i], values, d).Ok?) &&
        ArgvOf(tool, front, values, d).error == PartTokens(tool, front[j], values, d).error;
      assert forall i | 0 <= i <= j :: parts[i] == front[i];
    } else {
      ArgvOfOk(tool, front, values, d);
      assert forall i | 0 <= i < n :: parts[i] == front[i];
    }
  }

  /** A template that holds a part of any other shape is rejected. */
  lemma MalformedRejected(tool: ToolDef, parts: seq<CmdPart>, values: Dict<Value>, d: Dict<Value>, j: nat)
    requires j < |parts| && parts[j].Malformed?
    ensures ArgvOf(tool, parts, values, d).Err?
  {
    ArgvOfOk(tool, parts, values, d);
  }

  /** String parts are emitted one token each, in template order. */
  lemma {:induction false} LiteralParts(tool: ToolDef, parts: seq<CmdPart>, values: Dict<Value>, d: Dict<Value>)
    requires forall k | 0 <= k < |parts| :: parts[k].Lit?
    ensures ArgvOf(tool, parts, values, d).Ok?
    ensures var argv := ArgvOf(tool, parts, values, d).value;
      |argv| == |parts| && forall k | 0 <= k < |parts| :: argv[k] == Some(RenderWith(parts[k].text, d))
    decreases |parts|
  {
    if parts != [] {
      var n := |parts| - 1;
      LiteralParts(tool, parts[..n], values, d);
      assert forall k | 0 <= k < n :: parts[..n][k] == parts[k];
    }
  }

  /** The argv of two template pieces in a row is the argv of the first followed by that of the second. */
  lemma {:induction false} ArgvOfAppend(tool: ToolDef, a: seq<CmdPart>, b: seq<CmdPart>, values: Dict<Value>, d: Dict<Value>)
    ensures ArgvOf(tool, a + b, values, d).Ok? <==>
      ArgvOf(tool, a, values, d).Ok? && ArgvOf(tool, b, values, d).Ok?
    ensures ArgvOf(tool, a + b, values, d).Ok? ==>
      ArgvOf(tool, a + b, values, d).value == ArgvOf(tool, a, values, d).value + ArgvOf(tool, b, values, d).value
    decreases |b|
  {
    if b == [] {
      assert a + b == a;
    } else {
      var n := |b| - 1;
      assert (a + b)[..|a + b| - 1] == a + b[..n];
      assert (a + b)[|a + b| - 1] == b[n];
      ArgvOfAppend(tool, a, b[..n], values, d);
    }
  }

  /**
   * A string part among argument parts: the template renders exactly when the
   * parts around it do, and then the part is one token, after the tokens of the
   * parts before it and before those of the parts after it.
   */
  lemma LiteralAmongParts(tool: ToolDef, parts: seq<CmdPart>, values: Dict<Value>, d: Dict<Value>, k: nat)
    requires k < |parts| && parts[k].Lit?
    ensures ArgvOf(tool, parts, values, d).Ok? <==>
      ArgvOf(tool, parts[..k], values, d).Ok? && ArgvOf(tool, parts[k + 1..], values, d).Ok?
    ensures ArgvOf(tool, parts, values, d).Ok? ==>
      ArgvOf(tool, parts, values, d).value ==
        ArgvOf(tool, parts[..k], values, d).value + [Some(RenderWith(parts[k].text, d))] +
        ArgvOf(tool, parts[k + 1..], values, d).value
  {
    var lit := [parts[k]];
    assert parts == parts[..k] + (lit + parts[k + 1..]);
    assert ArgvOf(tool, lit, values, d) == Ok([Some(RenderWith(parts[k].text, d))]) by {
      assert lit[..0] == [];
      assert ArgvOf(tool, lit[..0], values, d) == Ok([]);
      assert PartTokens(tool, lit[0], values, d) == Ok([Some(RenderWith(parts[k].text, d))]);
      assert [] + [Some(RenderWith(parts[k].text, d))] == [Some(RenderWith(parts[k].text, d))];
    }
    ArgvOfAppend(tool, lit, parts[k + 1..], values, d);
    ArgvOfAppend(tool, parts[..k], lit + parts[k + 1..], values, d);
  }

  /**
   * A literal part that is one placeholder `{{k}}` becomes `str(v)`, the runtime
   * variable winning over a value of the same name; an unknown placeholder stays.
   */
  lemma PlaceholderPart(k: string, values: Dict<Value>, runtime: Dict<string>)
    requires Plain(k) && PlainKeys(values) && BraceFreeValues(values) && DistinctKeys(values)
    requires forall i | 0 <= i < |runtime| :: Plain(runtime[i].0) && '{' !in runtime[i].1
    requires DistinctKeys(runtime)
    ensures RenderWith(Token(k), Merge(values, Lift(runtime))) ==
      if HasKey(runtime, k) then Lookup(runtime, k).value
      else if HasKey(values, k) then Str(Lookup(values, k).value)
      else Token(k)
  {
    var rt := Lift(runtime);
    var d := Merge(values, rt);
    assert Keys(rt) == Keys(runtime);
    assert DistinctKeys(rt);
    LiftLookup(runtime, k);
    MergeDistinct(values, rt);
    LookupMerge(values, rt, k);
    MergePlain(values, rt);
    RenderToken(k, d);
  }

  lemma {:induction false} LiftLookup(rt: Dict<string>, k: string)
    ensures Lookup(Lift(rt), k) == if HasKey(rt, k) then Some(VStr(Lookup(rt, k).value)) else None
    decreases |rt|
  {
    if rt != [] {
      LiftLookup(rt[1..], k);
      assert Lift(rt)[1..] == Lift(rt[1..]);
    }
  }
}
