/**
 * Tool definitions as the catalog (tools.yaml, the `tools` table) supplies
 * them: argument specifications and a command template of literal parts and
 * argument placeholders.
 */
module Tools {
  import opened Wrappers
  import opened Values

  /** One declared argument (`args` / `args_schema` entry). */
  datatype ArgSpec = ArgSpec(
    name: string,
    typ: string,                // "string", "number", "boolean", "enum", "list<string>", ...
    labelText: Option<string>,                // `label`
    default: Option<Value>,     // None when the key "default" is absent
    options: seq<string>,
    required: bool)

  /** One element of the command template (`cmd` / `command_structure`). */
  datatype CmdPart =
    | Lit(text: string)                       // a plain string part
    | ArgRef(name: string,                    // {"kind": "arg", ...}
             flag: Option<string>,            // None when "flag" is absent
             mode: Option<string>,            // None when "mode" is absent
             sep: Option<string>)             // None when "sep" is absent
    | Malformed(repr: string)                 // any other part, by its printed form

  datatype ToolDef = ToolDef(
    id: string,
    labelText: Option<string>,                // `label`
    cmd: seq<CmdPart>,
    args: seq<ArgSpec>,
    outPath: Option<string>)                  // `out.path` / `output_config["path"]`

  /** A parameter as the front end sends it: `{ "value": v }`. */
  datatype ArgValue = ArgValue(value: Value)

  /** The exceptions the backend can raise on these paths. */
  datatype Failure =
    | HttpError(status: int, detail: string)
    | TypeError(detail: string)
    | KeyError(key: string)

  /** The last spec in `args` with the given name (later specs override earlier ones). */
  function LastSpec(args: seq<ArgSpec>, name: string): (r: Option<ArgSpec>)
    ensures r.Some? ==> r.value in args && r.value.name == name
    ensures r.None? <==> forall k | 0 <= k < |args| :: args[k].name != name
  {
    if args == [] then None
    else if args[|args| - 1].name == name then Some(args[|args| - 1])
    else LastSpec(args[..|args| - 1], name)
  }

  function Names(args: seq<ArgSpec>): (r: seq<string>)
    ensures |r| == |args|
    ensures forall k | 0 <= k < |args| :: r[k] == args[k].name
  {
    if args == [] then [] else [args[0].name] + Names(args[1..])
  }

  /** `{a["name"]: a for a in args}`: first position, last value. */
  function SpecDict(args: seq<ArgSpec>): Dict<ArgSpec>
  {
    if args == [] then []
    else Put(SpecDict(args[..|args| - 1]), args[|args| - 1].name, args[|args| - 1])
  }

  /** The dictionary holds, for each declared name, its last spec. */
  lemma {:induction false} SpecDictLookup(args: seq<ArgSpec>, name: string)
    ensures Lookup(SpecDict(args), name) == LastSpec(args, name)
    decreases |args|
  {
    if args != [] {
      var n := |args| - 1;
      SpecDictLookup(args[..n], name);
      if args[n].name != name {
        assert LastSpec(args, name) == LastSpec(args[..n], name);
      }
    }
  }

  /** Its keys are exactly the declared names. */
  lemma SpecDictKeys(args: seq<ArgSpec>, name: string)
    ensures HasKey(SpecDict(args), name) <==> name in Names(args)
  {
    SpecDictLookup(args, name);
    if name in Names(args) {
      var k :| 0 <= k < |args| && Names(args)[k] == name;
      assert args[k].name == name;
    }
  }

  lemma {:induction false} SpecDictDistinct(args: seq<ArgSpec>)
    ensures DistinctKeys(SpecDict(args))
    decreases |args|
  {
    if args != [] {
      var n := |args| - 1;
      SpecDictDistinct(args[..n]);
      PutDistinct(SpecDict(args[..n]), args[n].name, args[n]);
    }
  }

  /** Each entry of the dictionary carries its name's last spec. */
  lemma SpecDictEntry(args: seq<ArgSpec>, j: nat)
    requires j < |SpecDict(args)|
    ensures LastSpec(args, SpecDict(args)[j].0).Some?
    ensures SpecDict(args)[j].1 == LastSpec(args, SpecDict(args)[j].0).value
  {
    SpecDictDistinct(args);
    LookupAt(SpecDict(args), j);
    SpecDictLookup(args, SpecDict(args)[j].0);
  }

  /** Every declared name has an entry. */
  lemma SpecDictCovers(args: seq<ArgSpec>, j: nat) returns (k: nat)
    requires j < |args|
    ensures k < |SpecDict(args)| && SpecDict(args)[k].0 == args[j].name
  {
    SpecDictKeys(args, args[j].name);
    assert Names(args)[j] == args[j].name;
    k :| 0 <= k < |SpecDict(args)| && Keys(SpecDict(args))[k] == args[j].name;
  }

  /** Every entry is a declared name. */
  lemma SpecDictDeclared(args: seq<ArgSpec>, j: nat) returns (k: nat)
    requires j < |SpecDict(args)|
    ensures k < |args| && args[k].name == SpecDict(args)[j].0
  {
    SpecDictKeys(args, SpecDict(args)[j].0);
    assert Keys(SpecDict(args))[j] == SpecDict(args)[j].0;
    k :| 0 <= k < |args| && Names(args)[k] == SpecDict(args)[j].0;
  }
}
