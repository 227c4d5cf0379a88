/**
 * The dynamically typed values that flow through the workflow engine (YAML
 * defaults, JSON parameters, JavaScript form state), with the Python
 * operations the backend applies to them: `str()`, truthiness and `==`.
 */
module Values {
  import opened Wrappers
  import opened Text

  datatype Value =
    | VNone                     // Python None / JSON null
    | VBool(b: bool)
    | VInt(i: int)              // numbers are integers in this model
    | VStr(s: string)
    | VList(items: seq<Value>)

  /** Python's `str(v)`. */
  function Str(v: Value): string
    decreases v, 2
  {
    match v
    case VNone => "None"
    case VBool(b) => if b then "True" else "False"
    case VInt(n) => IntToString(n)
    case VStr(s) => s
    case VList(xs) => "[" + Join(ReprAll(xs, v), ", ") + "]"
  }

  /** Python's `repr(v)`: a string in the quote `QuoteFor` picks, its characters escaped. */
  function Repr(v: Value): string
    decreases v, 3
  {
    match v
    case VStr(s) => [QuoteFor(s)] + Escape(s, QuoteFor(s)) + [QuoteFor(s)]
    case _ => Str(v)
  }

  function ReprAll(xs: seq<Value>, ghost parent: Value): seq<string>
    requires forall k | 0 <= k < |xs| :: xs[k] < parent
    decreases parent, 0, |xs|
  {
    if xs == [] then [] else [Repr(xs[0])] + ReprAll(xs[1..], parent)
  }

  // ---------------------------------------------------------------------------
  // The text `repr` gives a string

  /** The quote around a string's `repr`: `"` when it holds `'` but no `"`, else `'`. */
  function QuoteFor(s: string): char {
    if '\'' in s && '"' !in s then '"' else '\''
  }

  /** A lower-case hexadecimal digit. */
  function HexDigit(d: nat): char
    requires d < 16
  {
    if d < 10 then ('0' as int + d) as char else ('a' as int + d - 10) as char
  }

  predicate IsHexChar(c: char) {
    '0' <= c <= '9' || 'a' <= c <= 'f' || 'A' <= c <= 'F'
  }

  function HexValue(c: char): (d: nat)
    requires IsHexChar(c)
    ensures d < 16
  {
    if '0' <= c <= '9' then c as int - '0' as int
    else if 'a' <= c <= 'f' then c as int - 'a' as int + 10
    else c as int - 'A' as int + 10
  }

  /**
   * The characters `repr` writes as `\xhh`: the ASCII controls other than tab,
   * newline and carriage return, DEL, the Latin-1 controls, the no-break space
   * and the soft hyphen (the characters up to U+00FF that Python does not
   * consider printable).
   */
  predicate HexEscaped(c: char) {
    (c as int < 0x20 && c != '\t' && c != '\n' && c != '\r') ||
    (0x7f <= c as int <= 0xa0) || c as int == 0xad
  }

  /** How `repr` writes one character inside the quote `q`. */
  function EscChar(c: char, q: char): string {
    if c == q || c == '\\' then ['\\', c]
    else if c == '\t' then "\\t"
    else if c == '\n' then "\\n"
    else if c == '\r' then "\\r"
    else if HexEscaped(c) then ['\\', 'x', HexDigit(c as int / 16), HexDigit(c as int % 16)]
    else [c]
  }

  /** The characters of a string as `repr` writes them between the quotes. */
  function Escape(s: string, q: char): string
    decreases |s|
  {
    if s == [] then [] else EscChar(s[0], q) + Escape(s[1..], q)
  }

  function Cons(c: char, o: Option<string>): Option<string> {
    if o.Some? then Some([c] + o.value) else None
  }

  /**
   * Python's reading of the text between the quotes `q` of a string literal,
   * for the escapes `repr` writes (`\\`, `\'`, `\"`, `\t`, `\n`, `\r`, `\xhh`):
   * None for a bare quote, a bare newline or any other escape.
   */
  function ReadEscaped(t: string, q: char): Option<string>
    decreases |t|
  {
    if t == [] then Some([])
    else if t[0] == q || t[0] == '\n' then None
    else if t[0] != '\\' then Cons(t[0], ReadEscaped(t[1..], q))
    else if |t| < 2 then None
    else if t[1] in "\\'\"" then Cons(t[1], ReadEscaped(t[2..], q))
    else if t[1] == 't' then Cons('\t', ReadEscaped(t[2..], q))
    else if t[1] == 'n' then Cons('\n', ReadEscaped(t[2..], q))
    else if t[1] == 'r' then Cons('\r', ReadEscaped(t[2..], q))
    else if t[1] == 'x' && |t| >= 4 && IsHexChar(t[2]) && IsHexChar(t[3]) then
      Cons((HexValue(t[2]) * 16 + HexValue(t[3])) as char, ReadEscaped(t[4..], q))
    else None
  }

  /** Reading back one escaped character. */
  lemma ReadEscChar(c: char, q: char, rest: string)
    requires q == '\'' || q == '"'
    ensures ReadEscaped(EscChar(c, q) + rest, q) == Cons(c, ReadEscaped(rest, q))
  {
    var t := EscChar(c, q) + rest;
    if c == q || c == '\\' {
      assert t[2..] == rest;
    } else if c == '\t' || c == '\n' || c == '\r' {
      assert t[2..] == rest;
    } else if HexEscaped(c) {
      var n := c as int;
      assert HexValue(HexDigit(n / 16)) == n / 16;
      assert HexValue(HexDigit(n % 16)) == n % 16;
      assert t[4..] == rest;
    } else {
      assert t[1..] == rest;
    }
  }

  /** Python reads the escaped text back as the original string. */
  lemma {:induction false} EscapeReadsBack(s: string, q: char)
    requires q == '\'' || q == '"'
    ensures ReadEscaped(Escape(s, q), q) == Some(s)
    decreases |s|
  {
    if s != [] {
      EscapeReadsBack(s[1..], q);
      ReadEscChar(s[0], q, Escape(s[1..], q));
      assert [s[0]] + s[1..] == s;
    }
  }

  /**
   * The `repr` of a string is a Python literal: it opens and closes with the
   * quote `QuoteFor` picks, and its text reads back as the string.
   */
  lemma ReprReadsBack(s: string)
    ensures var r := Repr(VStr(s));
      |r| >= 2 && r[0] == QuoteFor(s) && r[|r| - 1] == QuoteFor(s) &&
      ReadEscaped(r[1..|r| - 1], r[0]) == Some(s)
  {
    var q := QuoteFor(s);
    var r := Repr(VStr(s));
    assert r[1..|r| - 1] == Escape(s, q);
    EscapeReadsBack(s, q);
  }

  /** A character that `repr` writes as itself inside either quote. */
  predicate Printable(c: char) {
    0x20 <= c as int && !HexEscaped(c) && c != '\\'
  }

  lemma {:induction false} EscapePlain(s: string, q: char)
    requires forall k | 0 <= k < |s| :: Printable(s[k]) && s[k] != q
    ensures Escape(s, q) == s
    decreases |s|
  {
    if s != [] {
      EscapePlain(s[1..], q);
      assert [s[0]] + s[1..] == s;
    }
  }

  /**
   * A string of printable characters that does not hold both quotes is shown
   * as itself: in `'...'`, or in `"..."` when it holds `'`.
   */
  lemma ReprPlain(s: string)
    requires forall k | 0 <= k < |s| :: Printable(s[k])
    requires !('\'' in s && '"' in s)
    ensures '\'' !in s ==> Repr(VStr(s)) == "'" + s + "'"
    ensures '\'' in s ==> Repr(VStr(s)) == "\"" + s + "\""
  {
    EscapePlain(s, QuoteFor(s));
  }

  /** A list holding `it's` is shown with double quotes, as Python shows it. */
  lemma ReprApostrophe()
    ensures Str(VList([VStr("it's")])) == "[\"it's\"]"
  {
    var s := "it's";
    assert s[2] == '\'' && '"' !in s;
    ReprPlain(s);
    var xs := [VStr(s)];
    assert ReprAll(xs, VList(xs)) == [Repr(xs[0])] + ReprAll(xs[1..], VList(xs));
    assert xs[1..] == [];
  }

  /** A list of strings as a list value. */
  function Strings(xs: seq<string>): (r: seq<Value>)
    ensures |r| == |xs| && forall k | 0 <= k < |xs| :: r[k] == VStr(xs[k])
  {
    if xs == [] then [] else [VStr(xs[0])] + Strings(xs[1..])
  }

  /** `[str(x) for x in xs]` */
  function StrAll(xs: seq<Value>): (r: seq<string>)
    ensures |r| == |xs|
    ensures forall k | 0 <= k < |xs| :: r[k] == Str(xs[k])
  {
    if xs == [] then [] else [Str(xs[0])] + StrAll(xs[1..])
  }

  /** Python truthiness (`if v:`). */
  predicate Truthy(v: Value) {
    match v
    case VNone => false
    case VBool(b) => b
    case VInt(n) => n != 0
    case VStr(s) => s != []
    case VList(xs) => xs != []
  }

  /** The numeric value of a bool or an int (Python's `bool` is a subclass of `int`). */
  function Numeric(v: Value): int
    requires v.VBool? || v.VInt?
  {
    if v.VBool? then (if v.b then 1 else 0) else v.i
  }

  /** Python's `==` on these values: `True == 1`, `False == 0`, lists elementwise. */
  predicate PyEq(a: Value, b: Value)
    decreases a
  {
    if (a.VBool? || a.VInt?) && (b.VBool? || b.VInt?) then Numeric(a) == Numeric(b)
    else match a
      case VNone => b.VNone?
      case VStr(s) => b.VStr? && b.s == s
      case VList(xs) =>
        b.VList? && |xs| == |b.items| &&
        forall k | 0 <= k < |xs| :: PyEq(xs[k], b.items[k])
      case _ => false
  }

  /** Python's `v in (c0, c1, ...)` on a literal tuple or list. */
  predicate PyIn(v: Value, choices: seq<Value>) {
    exists k | 0 <= k < |choices| :: PyEq(v, choices[k])
  }

  /**
   * An ordered dictionary with string keys, as Python and JavaScript keep them:
   * iteration follows insertion order.
   */
  type Dict<V> = seq<(string, V)>

  function Keys<V>(d: Dict<V>): (r: seq<string>)
    ensures |r| == |d|
    ensures forall k | 0 <= k < |d| :: r[k] == d[k].0
  {
    if d == [] then [] else [d[0].0] + Keys(d[1..])
  }

  predicate HasKey<V>(d: Dict<V>, k: string) {
    k in Keys(d)
  }

  predicate DistinctKeys<V>(d: Dict<V>) {
    forall i, j | 0 <= i < j < |d| :: d[i].0 != d[j].0
  }

  /** `d.get(k)`: the value stored under `k`, if any. */
  function Lookup<V>(d: Dict<V>, k: string): (r: Option<V>)
    ensures r.Some? <==> HasKey(d, k)
  {
    if d == [] then None
    else if d[0].0 == k then Some(d[0].1)
    else Lookup(d[1..], k)
  }

  /** `d[k] = v`: overwrite in place when `k` is present, else append. */
  function Put<V>(d: Dict<V>, k: string, v: V): (r: Dict<V>)
    ensures Lookup(r, k) == Some(v)
    ensures forall k' | k' != k :: Lookup(r, k') == Lookup(d, k')
  {
    if d == [] then [(k, v)]
    else if d[0].0 == k then [(k, v)] + d[1..]
    else [d[0]] + Put(d[1..], k, v)
  }

  /** Overwriting keeps the keys in place; a new key goes last. */
  lemma {:induction false} PutKeys<V>(d: Dict<V>, k: string, v: V)
    ensures Keys(Put(d, k, v)) == if HasKey(d, k) then Keys(d) else Keys(d) + [k]
    decreases |d|
  {
    if d != [] {
      var r := Put(d, k, v);
      assert Keys(d) == [d[0].0] + Keys(d[1..]);
      if d[0].0 == k {
        assert r[1..] == d[1..];
        assert Keys(r) == [k] + Keys(d[1..]);
      } else {
        PutKeys(d[1..], k, v);
        assert r[1..] == Put(d[1..], k, v);
        assert Keys(r) == [d[0].0] + Keys(Put(d[1..], k, v));
      }
    }
  }

  /** Writing a key keeps the keys distinct. */
  lemma PutDistinct<V>(d: Dict<V>, k: string, v: V)
    requires DistinctKeys(d)
    ensures DistinctKeys(Put(d, k, v))
  {
    var r := Put(d, k, v);
    PutKeys(d, k, v);
    forall i, j | 0 <= i < j < |r| ensures r[i].0 != r[j].0 {
      assert r[i].0 == Keys(r)[i] && r[j].0 == Keys(r)[j];
      if HasKey(d, k) || j < |d| {
        assert Keys(d)[i] == d[i].0 && Keys(d)[j] == d[j].0;
      } else {
        assert Keys(d)[i] == d[i].0;
      }
    }
  }

  /** `{**a, **b}`: the entries of `b` written over `a`, in `b`'s order. */
  function Merge<V>(a: Dict<V>, b: Dict<V>): Dict<V>
    decreases |b|
  {
    if b == [] then a else Merge(Put(a, b[0].0, b[0].1), b[1..])
  }

  /** In `{**a, **b}` the keys of `b` win over those of `a`. */
  lemma {:induction false} LookupMerge<V>(a: Dict<V>, b: Dict<V>, k: string)
    requires DistinctKeys(b)
    ensures Lookup(Merge(a, b), k) == if HasKey(b, k) then Lookup(b, k) else Lookup(a, k)
    decreases |b|
  {
    if b != [] {
      assert Keys(b) == [b[0].0] + Keys(b[1..]);
      assert b[0].0 !in Keys(b[1..]);
      LookupMerge(Put(a, b[0].0, b[0].1), b[1..], k);
    }
  }

  lemma {:induction false} MergeDistinct<V>(a: Dict<V>, b: Dict<V>)
    requires DistinctKeys(a)
    ensures DistinctKeys(Merge(a, b))
    decreases |b|
  {
    if b != [] {
      PutDistinct(a, b[0].0, b[0].1);
      MergeDistinct(Put(a, b[0].0, b[0].1), b[1..]);
    }
  }

  function LookupSplit<V>(front: Dict<V>, last: (string, V), k: string): Option<V> {
    if HasKey(front, k) then Lookup(front, k)
    else if k == last.0 then Some(last.1) else None
  }

  /** Looking up in a dictionary whose last entry is split off. */
  lemma {:induction false} LookupLast<V>(b: Dict<V>)
    requires b != []
    ensures forall k :: Lookup(b, k) == LookupSplit(b[..|b| - 1], b[|b| - 1], k)
    decreases |b|
  {
    if |b| > 1 {
      LookupLast(b[1..]);
      assert b[1..][..|b[1..]| - 1] == b[..|b| - 1][1..];
    }
  }

  /** The k-th entry of a dictionary with distinct keys is what lookup finds. */
  lemma {:induction false} LookupAt<V>(d: Dict<V>, k: nat)
    requires DistinctKeys(d) && k < |d|
    ensures Lookup(d, d[k].0) == Some(d[k].1)
    decreases k
  {
    if k > 0 {
      LookupAt(d[1..], k - 1);
    }
  }

}
