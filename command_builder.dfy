/**
 * `CommandBuilder` of the database-backed backend
 * (backend/src/utils/command_builder.py): a shell command string built from a
 * tool's `command_structure` and `args_schema` and the node's inputs. Unlike the
 * single-file backend it quotes values for the shell, has no `repeat` branch,
 * ignores parts of any other shape and never raises on a missing argument.
 */
module CommandBuilder {
  import opened Wrappers
  import opened Text
  import opened Values
  import opened Tools
  import opened Templates
  import opened ShellQuote

  /** `user_inputs.get(name, default)`, `default` being `None` when absent. */
  function Pick(spec: ArgSpec, inputs: map<string, Value>): Value {
    if spec.name in inputs then inputs[spec.name] else spec.default.GetOr(VNone)
  }

  /** `active_params` after the first |args| iterations of the loop at lines 11-14. */
  function ActiveParams(args: seq<ArgSpec>, inputs: map<string, Value>): Dict<Value>
    decreases |args|
  {
    if args == [] then []
    else
      var n := |args| - 1;
      Put(ActiveParams(args[..n], inputs), args[n].name, Pick(args[n], inputs))
  }

  /** The loop at lines 10-14. */
  method MergeDefaults(args: seq<ArgSpec>, inputs: map<string, Value>) returns (active: Dict<Value>)
    ensures active == ActiveParams(args, inputs)
  {
    active := [];
    for i := 0 to |args|
      invariant active == ActiveParams(args[..i], inputs)
    {
      assert args[..i + 1][..i] == args[..i];
      active := Put(active, args[i].name, Pick(args[i], inputs));
    }
    assert args[..|args|] == args;
  }

  /**
   * Every declared name is bound to the input if given, else to the default (or
   * `None`), its last declaration deciding; undeclared inputs are not bound.
   */
  lemma {:induction false} ActiveParamsLookup(args: seq<ArgSpec>, inputs: map<string, Value>, name: string)
    ensures Lookup(ActiveParams(args, inputs), name) ==
      match LastSpec(args, name)
      case None => None
      case Some(spec) => Some(Pick(spec, inputs))
    decreases |args|
  {
    if args != [] {
      var n := |args| - 1;
      ActiveParamsLookup(args[..n], inputs, name);
      if args[n].name != name {
        assert LastSpec(args, name) == LastSpec(args[..n], name);
      }
    }
  }

  lemma {:induction false} ActiveParamsDistinct(args: seq<ArgSpec>, inputs: map<string, Value>)
    ensures DistinctKeys(ActiveParams(args, inputs))
    decreases |args|
  {
    if args != [] {
      var n := |args| - 1;
      ActiveParamsDistinct(args[..n], inputs);
      PutDistinct(ActiveParams(args[..n], inputs), args[n].name, Pick(args[n], inputs));
    }
  }

  /** `_render_template`: a key's `replace` runs only when its token occurs. */
  method RenderTemplate(template: string, params: Dict<Value>) returns (r: string)
    ensures r == RenderWith(template, params)
  {
    r := template;
    for i := 0 to |params|
      invariant r == RenderWith(template, params[..i])
    {
      assert params[..i + 1][..i] == params[..i];
      var token := Token(params[i].0);
      if IsSubstring(token, r) {
        r := ReplaceAll(r, token, Str(params[i].1));
      } else {
        ReplaceAbsent(r, token, Str(params[i].1));
      }
    }
    assert params[..|params|] == params;
  }

  /**
   * A literal part that is one placeholder of a declared argument becomes the
   * text of its active value.
   */
  lemma DeclaredPlaceholder(args: seq<ArgSpec>, inputs: map<string, Value>, k: string)
    requires Plain(k)
    requires PlainKeys(ActiveParams(args, inputs)) && BraceFreeValues(ActiveParams(args, inputs))
    ensures RenderWith(Token(k), ActiveParams(args, inputs)) ==
      match LastSpec(args, k)
      case None => Token(k)
      case Some(spec) => Str(Pick(spec, inputs))
  {
    ActiveParamsDistinct(args, inputs);
    ActiveParamsLookup(args, inputs, k);
    RenderToken(k, ActiveParams(args, inputs));
  }

  /** `join` mode's joined text: list items joined by `sep`, or `str` of a scalar. */
  function Joined(v: Value, sep: string): string {
    if v.VList? then Join(StrAll(v.items), sep) else Str(v)
  }

  /** `val in [None, "", []]`: `0` and `False` are not among them. */
  predicate Absent(v: Value) {
    PyIn(v, [VNone, VStr(""), VList([])])
  }

  /**
   * `_process_arg_node`: the text an argument part contributes, or `None`. A
   * missing flag is `""`; a missing mode is `"value"`.
   */
  function ProcessArgNode(node: CmdPart, params: Dict<Value>): Option<string>
    requires node.ArgRef?
  {
    var flag := node.flag.GetOr("");
    var mode := node.mode.GetOr("value");
    var v := Lookup(params, node.name).GetOr(VNone);
    if Absent(v) then None
    else if mode == "bool" then (if Truthy(v) then Some(flag) else None)
    else if mode == "join" then Some(flag + " " + Quote(Joined(v, node.sep.GetOr(","))))
    else
      var safe := Quote(Str(v));
      Some(if flag != "" then flag + " " + safe else safe)
  }

  /** `if arg_str:` keeps a result that is neither `None` nor `""`. */
  predicate Kept(o: Option<string>) {
    o.Some? && o.value != ""
  }

  /** What one part appends to `cmd_parts`: a rendered literal, a kept argument, or nothing. */
  function PartPiece(part: CmdPart, params: Dict<Value>): seq<string> {
    match part
    case Lit(text) => [RenderWith(text, params)]
    case ArgRef(_, _, _, _) =>
      var o := ProcessArgNode(part, params);
      if Kept(o) then [o.value] else []
    case Malformed(_) => []
  }

  /** `cmd_parts` after the first |parts| parts of the structure. */
  function Pieces(parts: seq<CmdPart>, params: Dict<Value>): (r: seq<string>)
    decreases |parts|
  {
    if parts == [] then []
    else Pieces(parts[..|parts| - 1], params) + PartPiece(parts[|parts| - 1], params)
  }

  /** `CommandBuilder.build_command(tool_def, user_inputs)`. */
  method BuildCommand(tool: ToolDef, inputs: map<string, Value>) returns (r: string)
    ensures r == Join(Pieces(tool.cmd, ActiveParams(tool.args, inputs)), " ")
  {
    var active := MergeDefaults(tool.args, inputs);
    var cmdParts := ProcessStructure(tool.cmd, active);
    r := Join(cmdParts, " ");
  }

  /** The loop at lines 18-25. */
  method ProcessStructure(parts: seq<CmdPart>, active: Dict<Value>) returns (cmdParts: seq<string>)
    ensures cmdParts == Pieces(parts, active)
  {
    cmdParts := [];
    for i := 0 to |parts|
      invariant cmdParts == Pieces(parts[..i], active)
    {
      assert parts[..i + 1][..i] == parts[..i];
      cmdParts := AppendPart(cmdParts, parts[i], active);
    }
    assert parts[..|parts|] == parts;
  }

  /** One iteration of that loop. */
  method AppendPart(cmdParts: seq<string>, part: CmdPart, active: Dict<Value>) returns (r: seq<string>)
    ensures r == cmdParts + PartPiece(part, active)
  {
    r := cmdParts;
    if part.Lit? {
      var rendered := RenderTemplate(part.text, active);
      r := r + [rendered];
    } else if part.ArgRef? {
      var argStr := ProcessArgNode(part, active);
      if Kept(argStr) {
        r := r + [argStr.value];
      }
    }
  }

  // ---------------------------------------------------------------------------
  // Properties of one argument part

  /** Exactly `None` (also a missing value), `""` and `[]` are absent. */
  lemma AbsentExactly(v: Value)
    ensures Absent(v) <==> v == VNone || v == VStr("") || v == VList([])
  {
    var choices := [VNone, VStr(""), VList([])];
    if v == VNone || v == VStr("") || v == VList([]) {
      assert PyEq(v, choices[if v == VNone then 0 else if v == VStr("") then 1 else 2]);
    }
  }

  /** An absent value contributes nothing, whatever the mode. */
  lemma AbsentContributesNothing(node: CmdPart, params: Dict<Value>)
    requires node.ArgRef?
    requires Lookup(params, node.name).GetOr(VNone) in {VNone, VStr(""), VList([])}
    ensures ProcessArgNode(node, params) == None
  {
    AbsentExactly(Lookup(params, node.name).GetOr(VNone));
  }

  /** `bool` mode yields the flag exactly for a truthy value. */
  lemma BoolMode(node: CmdPart, params: Dict<Value>)
    requires node.ArgRef? && node.mode == Some("bool")
    ensures var v := Lookup(params, node.name).GetOr(VNone);
      ProcessArgNode(node, params) == if Truthy(v) then Some(node.flag.GetOr("")) else None
  {
    AbsentExactly(Lookup(params, node.name).GetOr(VNone));
  }

  /**
   * `join` mode: the flag, one space and the joined text quoted once; the shell
   * reads the quoted word back as exactly the joined text.
   */
  lemma JoinMode(node: CmdPart, params: Dict<Value>)
    requires node.ArgRef? && node.mode == Some("join")
    requires !Absent(Lookup(params, node.name).GetOr(VNone))
    ensures var v := Lookup(params, node.name).GetOr(VNone);
      var j := Joined(v, node.sep.GetOr(","));
      ProcessArgNode(node, params) == Some(node.flag.GetOr("") + " " + Quote(j)) &&
      Unquote(Quote(j)) == Some(j)
  {
    QuoteRoundTrip(Joined(Lookup(params, node.name).GetOr(VNone), node.sep.GetOr(",")));
  }

  /**
   * Every mode other than `bool` and `join` (`repeat` included) takes the value
   * path: the quoted text, after the flag and a space only when there is a flag.
   */
  lemma ValueMode(node: CmdPart, params: Dict<Value>)
    requires node.ArgRef? && node.mode != Some("bool") && node.mode != Some("join")
    requires !Absent(Lookup(params, node.name).GetOr(VNone))
    ensures var v := Lookup(params, node.name).GetOr(VNone);
      var flag := node.flag.GetOr("");
      ProcessArgNode(node, params) == Some(if flag != "" then flag + " " + Quote(Str(v)) else Quote(Str(v))) &&
      Unquote(Quote(Str(v))) == Some(Str(v))
  {
    QuoteRoundTrip(Str(Lookup(params, node.name).GetOr(VNone)));
  }

  /** `0` and `False` are passed on, needing no quotes: `0` and `False`. */
  lemma ZeroAndFalseKept(name: string, params: Dict<Value>)
    requires Lookup(params, name) == Some(VInt(0)) || Lookup(params, name) == Some(VBool(false))
    ensures var node := ArgRef(name, None, None, None);
      ProcessArgNode(node, params) == Some(Str(Lookup(params, name).value))
  {
    var v := Lookup(params, name).value;
    AbsentExactly(v);
    assert AllSafe(Str(v)) by {
      if v.VInt? {
        assert Str(v) == "0";
      } else {
        assert Str(v) == "False";
      }
    }
  }

  // ---------------------------------------------------------------------------
  // The whole command

  /** Literal parts are always kept. */
  lemma {:induction false} LiteralsKept(parts: seq<CmdPart>, params: Dict<Value>)
    requires forall k | 0 <= k < |parts| :: parts[k].Lit?
    ensures Pieces(parts, params) == seq(|parts|, k requires 0 <= k < |parts| => RenderWith(parts[k].text, params))
    decreases |parts|
  {
    if parts != [] {
      var n := |parts| - 1;
      LiteralsKept(parts[..n], params);
      assert forall k | 0 <= k < n :: parts[..n][k] == parts[k];
    }
  }

  /** The pieces of two runs of parts are those of the first followed by those of the second. */
  lemma {:induction false} PiecesAppend(a: seq<CmdPart>, b: seq<CmdPart>, params: Dict<Value>)
    ensures Pieces(a + b, params) == Pieces(a, params) + Pieces(b, params)
    decreases |b|
  {
    if b == [] {
      assert a + b == a;
    } else {
      var n := |b| - 1;
      assert (a + b)[..|a + b| - 1] == a + b[..n];
      assert (a + b)[|a + b| - 1] == b[n];
      PiecesAppend(a, b[..n], params);
    }
  }

  /**
   * A literal among argument parts is always kept: it is one piece, after the
   * pieces of the parts before it and before those of the parts after it.
   */
  lemma LiteralAmongParts(parts: seq<CmdPart>, params: Dict<Value>, k: nat)
    requires k < |parts| && parts[k].Lit?
    ensures Pieces(parts, params) ==
      Pieces(parts[..k], params) + [RenderWith(parts[k].text, params)] + Pieces(parts[k + 1..], params)
  {
    var lit := [parts[k]];
    assert parts == parts[..k] + (lit + parts[k + 1..]);
    assert Pieces(lit, params) == [RenderWith(parts[k].text, params)] by {
      assert lit[..0] == [];
    }
    PiecesAppend(lit, parts[k + 1..], params);
    PiecesAppend(parts[..k], lit + parts[k + 1..], params);
  }

  /** There are never more pieces than parts. */
  lemma {:induction false} PiecesBound(parts: seq<CmdPart>, params: Dict<Value>)
    ensures |Pieces(parts, params)| <= |parts|
    decreases |parts|
  {
    if parts != [] {
      PiecesBound(parts[..|parts| - 1], params);
    }
  }

  /** Parts of any other shape contribute nothing. */
  lemma {:induction false} MalformedIgnored(parts: seq<CmdPart>, params: Dict<Value>)
    ensures Pieces(parts, params) == Pieces(WellFormed(parts), params)
    decreases |parts|
  {
    if parts != [] {
      var n := |parts| - 1;
      MalformedIgnored(parts[..n], params);
      var w := WellFormed(parts[..n]);
      if parts[n].Malformed? {
        assert WellFormed(parts) == w;
      } else {
        var w' := WellFormed(parts);
        assert w' == w + [parts[n]];
        assert w'[..|w'| - 1] == w;
        assert Pieces(w', params) == Pieces(w, params) + PartPiece(parts[n], params);
      }
    }
  }

  function WellFormed(parts: seq<CmdPart>): (r: seq<CmdPart>)
    ensures forall k | 0 <= k < |r| :: !r[k].Malformed?
    ensures |r| <= |parts|
  {
    if parts == [] then []
    else
      var n := |parts| - 1;
      WellFormed(parts[..n]) + (if parts[n].Malformed? then [] else [parts[n]])
  }

  /**
   * When no piece is empty or holds a space, splitting the command on spaces
   * recovers the pieces.
   */
  lemma CommandSplits(tool: ToolDef, inputs: map<string, Value>)
    requires var p := Pieces(tool.cmd, ActiveParams(tool.args, inputs));
      p != [] && forall k | 0 <= k < |p| :: ' ' !in p[k]
    ensures var p := Pieces(tool.cmd, ActiveParams(tool.args, inputs));
      Split(Join(p, " "), ' ') == p
  {
    SplitJoin(Pieces(tool.cmd, ActiveParams(tool.args, inputs)), ' ');
  }
}
