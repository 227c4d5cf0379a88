/**
 * The argument panel of the builder (bug-bounty-platform/src/ArgsPanel.tsx):
 * the local values a selected node's fields start from, the edit of one field,
 * the parameters handed back to the workflow, and the text form of list
 * fields. Numbers are integers here.
 */
module ArgsPanel {
  import opened Wrappers
  import opened Text
  import opened Values
  import opened Tools
  import AppState

  /** `s.startsWith(p)` */
  predicate StartsWith(s: string, p: string) {
    |p| <= |s| && s[..|p|] == p
  }

  /** The empty value of a type: `[]` for lists, `false` for booleans, `""` otherwise. */
  function TypeEmpty(typ: string): Value {
    if StartsWith(typ, "list") then VList([])
    else if typ == "boolean" then VBool(false)
    else VStr("")
  }

  /** `node.data.params?.[name]?.value`, `None` standing for `undefined`. */
  function Existing(params: map<string, ArgValue>, name: string): Option<Value> {
    if name in params then Some(params[name].value) else None
  }

  /** The value a field starts from (lines 15-18). */
  function StartValue(spec: ArgSpec, params: map<string, ArgValue>): (r: Value)
    ensures Existing(params, spec.name).Some? ==> r == Existing(params, spec.name).value
    ensures Existing(params, spec.name).None? && spec.default.Some? ==> r == spec.default.value
    ensures Existing(params, spec.name).None? && spec.default.None? ==>
      (r == VList([]) <==> StartsWith(spec.typ, "list")) &&
      (r == VBool(false) <==> spec.typ == "boolean" && !StartsWith(spec.typ, "list")) &&
      (r.VStr? ==> r == VStr("") && spec.typ != "boolean" && !StartsWith(spec.typ, "list"))
  {
    match Existing(params, spec.name)
    case Some(v) => v
    case None => if spec.default.Some? then spec.default.value else TypeEmpty(spec.typ)
  }

  /** The `start` object after the first |args| iterations of the `forEach`. */
  function Start(args: seq<ArgSpec>, params: map<string, ArgValue>): Dict<Value>
    decreases |args|
  {
    if args == [] then []
    else
      var n := |args| - 1;
      Put(Start(args[..n], params), args[n].name, StartValue(args[n], params))
  }

  /** Every declared argument gets a key, only declared ones do, and the last spec of a name decides. */
  lemma {:induction false} StartLookup(args: seq<ArgSpec>, params: map<string, ArgValue>, name: string)
    ensures LastSpec(args, name).None? ==> Lookup(Start(args, params), name).None?
    ensures LastSpec(args, name).Some? ==>
      Lookup(Start(args, params), name) == Some(StartValue(LastSpec(args, name).value, params))
    decreases |args|
  {
    if args != [] {
      var n := |args| - 1;
      var a := args[n];
      StartLookup(args[..n], params, name);
      assert Start(args, params) == Put(Start(args[..n], params), a.name, StartValue(a, params));
      if a.name == name {
        assert LastSpec(args, name) == Some(a);
      } else {
        assert LastSpec(args, name) == LastSpec(args[..n], name);
      }
    }
  }

  lemma {:induction false} StartDistinct(args: seq<ArgSpec>, params: map<string, ArgValue>)
    ensures DistinctKeys(Start(args, params))
    decreases |args|
  {
    if args != [] {
      var n := |args| - 1;
      StartDistinct(args[..n], params);
      PutDistinct(Start(args[..n], params), args[n].name, StartValue(args[n], params));
    }
  }

  /** The `forEach` at lines 13-19. */
  method StartValues(args: seq<ArgSpec>, params: map<string, ArgValue>) returns (start: Dict<Value>)
    ensures start == Start(args, params)
    ensures forall name :: HasKey(start, name) <==> LastSpec(args, name).Some?
    ensures forall name | LastSpec(args, name).Some? ::
      Lookup(start, name) == Some(StartValue(LastSpec(args, name).value, params))
  {
    start := [];
    for i := 0 to |args|
      invariant start == Start(args[..i], params)
    {
      assert args[..i + 1][..i] == args[..i];
      var a := args[i];
      var existing := Existing(params, a.name);
      if existing.Some? {
        start := Put(start, a.name, existing.value);
      } else if a.default.Some? {
        start := Put(start, a.name, a.default.value);
      } else {
        start := Put(start, a.name, TypeEmpty(a.typ));
      }
    }
    assert args[..|args|] == args;
    forall name ensures Lookup(start, name).Some? <==> LastSpec(args, name).Some? {
      StartLookup(args, params, name);
    }
    forall name | LastSpec(args, name).Some?
      ensures Lookup(start, name) == Some(StartValue(LastSpec(args, name).value, params))
    {
      StartLookup(args, params, name);
    }
  }

  /**
   * The effect at lines 11-21: with no node, or a node whose tool is unknown,
   * the local values stay as they are.
   */
  method Select(node: Option<AppState.FlowNode>, tools: map<string, ToolDef>, local: Dict<Value>)
    returns (next: Dict<Value>)
    ensures node.None? || node.value.data.tool !in tools ==> next == local
    ensures node.Some? && node.value.data.tool in tools ==>
      next == Start(tools[node.value.data.tool].args, node.value.data.params)
  {
    if node.None? || node.value.data.tool !in tools {
      return local;
    }
    next := StartValues(tools[node.value.data.tool].args, node.value.data.params);
  }

  /** `Object.fromEntries(Object.entries(next).map(([k, v]) => [k, {value: v}]))` */
  function Wrap(local: Dict<Value>): (r: map<string, ArgValue>)
    ensures forall k :: k in r <==> HasKey(local, k)
    ensures forall k | k in r :: r[k] == ArgValue(Lookup(local, k).value)
  {
    map k | k in Keys(local) :: ArgValue(Lookup(local, k).value)
  }

  /**
   * `update(name, val)` (lines 26-31): the new local values and the parameters
   * reported for the node.
   */
  function Update(local: Dict<Value>, name: string, val: Value): (r: (Dict<Value>, map<string, ArgValue>))
    ensures Lookup(r.0, name) == Some(val)
    ensures forall k | k != name :: Lookup(r.0, k) == Lookup(local, k)
    ensures Keys(r.0) == if HasKey(local, name) then Keys(local) else Keys(local) + [name]
    ensures r.1 == Wrap(r.0)
  {
    PutKeys(local, name, val);
    var next := Put(local, name, val);
    (next, Wrap(next))
  }

  /**
   * The edit reaches the workflow: the parameters handed to `onChange(node.id, ...)`
   * (line 30) become, through the page's `onArgsChange`, the parameters of the
   * selected node, whose edited field holds the new value.
   */
  lemma EditReachesNode(wf: AppState.Workflow, node: AppState.FlowNode, local: Dict<Value>, name: string, val: Value)
    requires node in wf.nodes
    ensures var params := Update(local, name, val).1;
      var sel := AppState.Selected(AppState.WithParams(wf, node.id, params).nodes, Some(node.id));
      sel.Some? && sel.value.id == node.id && sel.value.data.params == params &&
      name in params && params[name] == ArgValue(val)
  {
    var params := Update(local, name, val).1;
    var nodes := AppState.WithParams(wf, node.id, params).nodes;
    var i :| 0 <= i < |wf.nodes| && wf.nodes[i] == node;
    assert nodes[i].id == node.id;
    var sel := AppState.Selected(nodes, Some(node.id));
    var k :| 0 <= k < |nodes| && sel.value == nodes[k] && sel.value.id == node.id;
    assert wf.nodes[k].id == node.id;
  }

  /**
   * Selecting the node again after an edit starts every declared field from
   * the value it was edited to: the reported parameters carry them all.
   */
  lemma ReselectKeepsEdits(args: seq<ArgSpec>, local: Dict<Value>, name: string, val: Value)
    requires forall k | LastSpec(args, k).Some? :: HasKey(local, k)
    ensures var (next, params) := Update(local, name, val);
      forall k | LastSpec(args, k).Some? :: Lookup(Start(args, params), k) == Lookup(next, k)
  {
    var (next, params) := Update(local, name, val);
    forall k | LastSpec(args, k).Some? ensures Lookup(Start(args, params), k) == Lookup(next, k) {
      StartLookup(args, params, k);
      assert k in params;
    }
  }

  // ---------------------------------------------------------------------------
  // Fields (lines 33-89)

  datatype FieldKind = EnumField | CheckBox | NumberField | MultiSelect | LinesField | TextField

  /** The branch `renderField` takes for a type. */
  function KindOf(typ: string): (r: FieldKind)
    ensures r == MultiSelect <==> typ == "list<enum>"
    ensures r == LinesField ==> StartsWith(typ, "list")
    ensures r == TextField <==> typ !in ["enum", "boolean", "number"] && !StartsWith(typ, "list")
  {
    if typ == "enum" then EnumField
    else if typ == "boolean" then CheckBox
    else if typ == "number" then NumberField
    else if StartsWith(typ, "list") then (if typ == "list<enum>" then MultiSelect else LinesField)
    else TextField
  }

  /** The choices of an enum select: `""` (shown as "--") and then the declared options. */
  function EnumChoices(spec: ArgSpec): (r: seq<string>)
    ensures |r| == |spec.options| + 1 && r[0] == "" && r[1..] == spec.options
  {
    [""] + spec.options
  }

  /** JavaScript truthiness: unlike Python, an empty list is truthy. */
  predicate JsTruthy(v: Value) {
    match v
    case VNone => false
    case VBool(b) => b
    case VInt(i) => i != 0
    case VStr(s) => s != ""
    case VList(_) => true
  }

  /** `checked={!!v}`; the box reports `e.target.checked`, so a boolean is stored. */
  function Checked(local: Dict<Value>, name: string): bool {
    Lookup(local, name).Some? && JsTruthy(Lookup(local, name).value)
  }

  lemma CheckBoxStoresBool(local: Dict<Value>, name: string, checked: bool)
    ensures Lookup(Update(local, name, VBool(checked)).0, name) == Some(VBool(checked))
    ensures Checked(Update(local, name, VBool(checked)).0, name) == checked
  {
  }

  /** `e.target.value.split("\n").filter(Boolean)` */
  function ParseList(text: string): (r: seq<string>)
    ensures forall k | 0 <= k < |r| :: r[k] != "" && '\n' !in r[k]
  {
    SplitPiecesFree(text, '\n');
    NonEmptyPreservesFree(Split(text, '\n'), '\n');
    NonEmpty(Split(text, '\n'))
  }

  /** `(v || []).join("\n")` */
  function ListText(xs: seq<string>): string {
    Join(xs, "\n")
  }

  /** The text of a list of non-empty lines without newlines parses back to the list. */
  lemma ListRoundTrip(xs: seq<string>)
    requires forall k | 0 <= k < |xs| :: xs[k] != "" && '\n' !in xs[k]
    ensures ParseList(ListText(xs)) == xs
  {
    if xs == [] {
      assert Split("", '\n') == [""];
    } else {
      SplitJoin(xs, '\n');
      NonEmptyKeeps(xs);
    }
  }

  /** Showing a parsed list and parsing it again changes nothing. */
  lemma ParseListStable(text: string)
    ensures ParseList(ListText(ParseList(text))) == ParseList(text)
  {
    ListRoundTrip(ParseList(text));
  }

  /** What a list text edit stores: the parsed lines as strings. */
  function ListValue(text: string): (r: Value)
    ensures r.VList? && |r.items| == |ParseList(text)|
    ensures forall k | 0 <= k < |r.items| :: r.items[k] == VStr(ParseList(text)[k]) && r.items[k] != VStr("")
  {
    VList(Strings(ParseList(text)))
  }
}
