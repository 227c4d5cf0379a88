/**
 * Command templates: the `{{name}}` placeholders in literal command parts and
 * the rendering loop both backends run over them (one `replace` per key).
 */
module Templates {
  import opened Wrappers
  import opened Text
  import opened Values

  /** The placeholder `{{k}}`. */
  function Token(k: string): (r: string)
    ensures |r| == |k| + 4
  {
    "{{" + k + "}}"
  }

  /** `render(s)` over the first |d| entries: one `replace` per key, in order. */
  function RenderWith(s: string, d: Dict<Value>): string
    decreases |d|
  {
    if d == [] then s
    else
      var n := |d| - 1;
      ReplaceAll(RenderWith(s, d[..n]), Token(d[n].0), Str(d[n].1))
  }

  /** Keys made of characters other than braces. */
  predicate Plain(k: string) {
    forall i | 0 <= i < |k| :: k[i] != '{' && k[i] != '}'
  }

  predicate PlainKeys(d: Dict<Value>) {
    forall i | 0 <= i < |d| :: Plain(d[i].0)
  }

  /** Values whose text holds no opening brace. */
  predicate BraceFreeValues(d: Dict<Value>) {
    forall i | 0 <= i < |d| :: '{' !in Str(d[i].1)
  }

  lemma NoBraceNoToken(s: string, k: string)
    requires '{' !in s
    ensures !IsSubstring(Token(k), s)
  {
    assert Token(k)[0] == '{';
    SubstringHasChar(Token(k), s, 0);
  }

  /** A string without braces is not changed by rendering. */
  lemma {:induction false} RenderPlain(s: string, d: Dict<Value>)
    requires '{' !in s
    ensures RenderWith(s, d) == s
    decreases |d|
  {
    if d != [] {
      var n := |d| - 1;
      RenderPlain(s, d[..n]);
      NoBraceNoToken(s, d[n].0);
      ReplaceAbsent(s, Token(d[n].0), Str(d[n].1));
    }
  }

  /** The placeholder of one plain key does not occur in that of another. */
  lemma TokenNotInToken(k: string, k': string)
    requires Plain(k) && Plain(k') && k != k'
    ensures !IsSubstring(Token(k'), Token(k))
  {
    var t, t' := Token(k), Token(k');
    forall i: nat ensures !OccursAt(t', t, i) {
      if i + |t'| <= |t| {
        var w := t[i..i + |t'|];
        if i > 0 {
          assert w[1] == t[i + 1] != '{' == t'[1];
        } else if |k'| < |k| {
          assert w[2 + |k'|] == k[|k'|] != '}' == t'[2 + |k'|];
        } else {
          var m :| 0 <= m < |k| && k[m] != k'[m];
          assert w[2 + m] == k[m] != k'[m] == t'[2 + m];
        }
      }
    }
    NoOccurrence(t', t);
  }

  /** What a string that is exactly one placeholder renders to, in a prefix of the dictionary. */
  lemma {:induction false} RenderToken(k: string, d: Dict<Value>)
    requires Plain(k) && PlainKeys(d) && BraceFreeValues(d) && DistinctKeys(d)
    ensures RenderWith(Token(k), d) == if HasKey(d, k) then Str(Lookup(d, k).value) else Token(k)
    decreases |d|
  {
    if d != [] {
      var n := |d| - 1;
      var front := d[..n];
      assert PlainKeys(front) && BraceFreeValues(front) && DistinctKeys(front);
      RenderToken(k, front);
      LookupLast(d);
      var prev := RenderWith(Token(k), front);
      var pat := Token(d[n].0);
      assert RenderWith(Token(k), d) == ReplaceAll(prev, pat, Str(d[n].1));
      if HasKey(front, k) {
        EarlierEntry(d, k);
        NoBraceNoToken(prev, d[n].0);
        ReplaceAbsent(prev, pat, Str(d[n].1));
      } else if d[n].0 == k {
        ReplaceWhole(pat, Str(d[n].1));
      } else {
        TokenNotInToken(k, d[n].0);
        ReplaceAbsent(prev, pat, Str(d[n].1));
      }
    }
  }

  /** A key found before the last entry is not the last key, and its value is brace-free. */
  lemma EarlierEntry(d: Dict<Value>, k: string)
    requires d != [] && DistinctKeys(d) && BraceFreeValues(d) && HasKey(d[..|d| - 1], k)
    ensures d[|d| - 1].0 != k && '{' !in Str(Lookup(d[..|d| - 1], k).value)
  {
    var n := |d| - 1;
    var front := d[..n];
    var j :| 0 <= j < n && Keys(front)[j] == k;
    assert front[j] == d[j];
    assert DistinctKeys(front);
    LookupAt(front, j);
  }

  /** Merging keeps keys plain and values brace-free. */
  lemma {:induction false} MergePlain(a: Dict<Value>, b: Dict<Value>)
    requires PlainKeys(a) && BraceFreeValues(a) && PlainKeys(b) && BraceFreeValues(b)
    ensures PlainKeys(Merge(a, b)) && BraceFreeValues(Merge(a, b))
    decreases |b|
  {
    if b != [] {
      PutPlain(a, b[0].0, b[0].1);
      assert PlainKeys(b[1..]) && BraceFreeValues(b[1..]);
      MergePlain(Put(a, b[0].0, b[0].1), b[1..]);
    }
  }

  lemma {:induction false} PutPlain(a: Dict<Value>, k: string, v: Value)
    requires PlainKeys(a) && BraceFreeValues(a) && Plain(k) && '{' !in Str(v)
    ensures PlainKeys(Put(a, k, v)) && BraceFreeValues(Put(a, k, v))
    decreases |a|
  {
    if a != [] && a[0].0 != k {
      assert PlainKeys(a[1..]) && BraceFreeValues(a[1..]);
      PutPlain(a[1..], k, v);
    }
  }
}
