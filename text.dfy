/**
 * String primitives of Python and JavaScript that the core relies on:
 * substring search (`in` / `includes`), `str.replace`, `str.join`,
 * `split`, ASCII lower-casing and decimal rendering of integers.
 */
module Text {

  /** `sub in s` (Python) / `s.includes(sub)` (JavaScript). */
  predicate IsSubstring(sub: string, s: string)
    decreases |s|
  {
    if |s| < |sub| then false
    else s[..|sub|] == sub || IsSubstring(sub, s[1..])
  }

  lemma {:induction false} EmptyIsSubstring(s: string)
    ensures IsSubstring([], s)
  {
  }

  /** A substring found at any position is found by `IsSubstring`. */
  lemma {:induction false} SubstringAt(sub: string, s: string, i: nat)
    requires i + |sub| <= |s| && s[i..i + |sub|] == sub
    ensures IsSubstring(sub, s)
    decreases i
  {
    if i > 0 {
      assert s[1..][i - 1..i - 1 + |sub|] == s[i..i + |sub|];
      SubstringAt(sub, s[1..], i - 1);
    }
  }

  /** Every substring occurs at some position. */
  lemma {:induction false} SubstringPosition(sub: string, s: string) returns (i: nat)
    requires IsSubstring(sub, s)
    ensures i + |sub| <= |s| && s[i..i + |sub|] == sub
    decreases |s|
  {
    if s[..|sub|] == sub {
      i := 0;
    } else {
      var j := SubstringPosition(sub, s[1..]);
      i := j + 1;
      assert s[1..][j..j + |sub|] == s[i..i + |sub|];
    }
  }

  /** A character of a substring is a character of the string. */
  lemma {:induction false} SubstringHasChar(sub: string, s: string, k: nat)
    requires k < |sub|
    ensures IsSubstring(sub, s) ==> sub[k] in s
    decreases |s|
  {
    if |s| >= |sub| && !(s[..|sub|] == sub) {
      SubstringHasChar(sub, s[1..], k);
    } else if |s| >= |sub| {
      assert s[k] == sub[k];
    }
  }

  /** `sub` occurs in `s` at position `i`. */
  predicate OccursAt(sub: string, s: string, i: nat) {
    i + |sub| <= |s| && s[i..i + |sub|] == sub
  }

  /** A pattern found at no position is not a substring. */
  lemma NoOccurrence(sub: string, s: string)
    requires forall i: nat :: !OccursAt(sub, s, i)
    ensures !IsSubstring(sub, s)
  {
    if IsSubstring(sub, s) {
      var i := SubstringPosition(sub, s);
      assert OccursAt(sub, s, i);
    }
  }

  /**
   * Python's `s.replace(pat, rep)`: every non-overlapping occurrence of `pat`,
   * scanning left to right, is replaced by `rep`.
   */
  function ReplaceAll(s: string, pat: string, rep: string): string
    requires pat != []
    decreases |s|
  {
    if |s| < |pat| then s
    else if s[..|pat|] == pat then rep + ReplaceAll(s[|pat|..], pat, rep)
    else [s[0]] + ReplaceAll(s[1..], pat, rep)
  }

  /** A string that does not contain `pat` is left unchanged by `replace`. */
  lemma {:induction false} ReplaceAbsent(s: string, pat: string, rep: string)
    requires pat != [] && !IsSubstring(pat, s)
    ensures ReplaceAll(s, pat, rep) == s
    decreases |s|
  {
    if |s| >= |pat| {
      ReplaceAbsent(s[1..], pat, rep);
      assert [s[0]] + s[1..] == s;
    }
  }

  /** Replacing a string that is exactly the pattern yields the replacement. */
  lemma {:induction false} ReplaceWhole(pat: string, rep: string)
    requires pat != []
    ensures ReplaceAll(pat, pat, rep) == rep
  {
    assert pat[..|pat|] == pat;
    assert pat[|pat|..] == [];
    assert rep + [] == rep;
  }

  /** Python's `sep.join(parts)` / JavaScript's `parts.join(sep)`. */
  function Join(parts: seq<string>, sep: string): string
    decreases |parts|
  {
    if parts == [] then []
    else if |parts| == 1 then parts[0]
    else parts[0] + sep + Join(parts[1..], sep)
  }

  /** JavaScript's `s.split(c)` for a one-character separator. */
  function Split(s: string, c: char): (r: seq<string>)
    ensures |r| >= 1
    decreases |s|
  {
    if s == [] then [[]]
    else
      var rest := Split(s[1..], c);
      if s[0] == c then [[]] + rest
      else [[s[0]] + rest[0]] + rest[1..]
  }

  /** No piece produced by `Split` contains the separator. */
  lemma {:induction false} SplitPiecesFree(s: string, c: char)
    ensures forall k | 0 <= k < |Split(s, c)| :: c !in Split(s, c)[k]
    decreases |s|
  {
    if s != [] {
      SplitPiecesFree(s[1..], c);
    }
  }

  /** `Split` inverts `Join` on pieces that do not contain the separator. */
  lemma {:induction false} SplitJoin(parts: seq<string>, c: char)
    requires parts != []
    requires forall k | 0 <= k < |parts| :: c !in parts[k]
    ensures Split(Join(parts, [c]), c) == parts
    decreases |parts|, |parts[0]|
  {
    if parts[0] != [] {
      var p := parts[0];
      var tail := [p[1..]] + parts[1..];
      assert Join(parts, [c]) == [p[0]] + Join(tail, [c]);
      SplitJoin(tail, c);
      assert [p[0]] + tail[0] == p;
      assert parts == [[p[0]] + tail[0]] + tail[1..];
    } else if |parts| > 1 {
      assert Join(parts, [c]) == [c] + Join(parts[1..], [c]);
      SplitJoin(parts[1..], c);
    }
  }

  /** JavaScript's "nonempty strings only" filter (`filter(Boolean)` on strings). */
  function NonEmpty(parts: seq<string>): (r: seq<string>)
    ensures forall k | 0 <= k < |r| :: r[k] != []
    ensures |r| <= |parts|
  {
    if parts == [] then []
    else if parts[0] == [] then NonEmpty(parts[1..])
    else [parts[0]] + NonEmpty(parts[1..])
  }

  lemma {:induction false} NonEmptyKeeps(parts: seq<string>)
    requires forall k | 0 <= k < |parts| :: parts[k] != []
    ensures NonEmpty(parts) == parts
  {
    if parts != [] {
      NonEmptyKeeps(parts[1..]);
    }
  }

  lemma {:induction false} NonEmptyPreservesFree(parts: seq<string>, c: char)
    requires forall k | 0 <= k < |parts| :: c !in parts[k]
    ensures forall k | 0 <= k < |NonEmpty(parts)| :: c !in NonEmpty(parts)[k]
  {
    if parts != [] {
      NonEmptyPreservesFree(parts[1..], c);
    }
  }

  function LowerChar(c: char): char {
    if 'A' <= c <= 'Z' then (c as int + 32) as char else c
  }

  /** ASCII `toLowerCase` / `lower`. */
  function Lower(s: string): (r: string)
    ensures |r| == |s|
    ensures forall k | 0 <= k < |s| :: r[k] == LowerChar(s[k])
  {
    if s == [] then [] else [LowerChar(s[0])] + Lower(s[1..])
  }

  predicate IsDigitChar(c: char) {
    '0' <= c <= '9'
  }

  function DigitChar(d: nat): char
    requires d < 10
  {
    ((d + '0' as int) as char)
  }

  function NatToString(n: nat): (r: string)
    ensures r != []
    ensures forall k | 0 <= k < |r| :: IsDigitChar(r[k])
  {
    if n < 10 then [DigitChar(n)] else NatToString(n / 10) + [DigitChar(n % 10)]
  }

  /** Decimal rendering of an integer (`str(n)` / `String(n)`). */
  function IntToString(n: int): string {
    if n < 0 then "-" + NatToString(-n) else NatToString(n)
  }
}
