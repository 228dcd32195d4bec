/** The Python string builtins the scorer and the leaderboard code rely on
    (`in`, `startswith`, `split`, `join`, `strip`, `partition`, `lower`,
    `count`), stated on `seq<char>`. */
module Text {
  import opened Base

  /** `p` occurs in `s` starting at index `i`. */
  predicate OccursAt(s: string, p: string, i: int) {
    0 <= i && i + |p| <= |s| && s[i..i + |p|] == p
  }

  /** `s.startswith(p)` */
  predicate StartsWith(s: string, p: string) {
    OccursAt(s, p, 0)
  }

  /** The leftmost occurrence of `p` in `s` at or after `from` (`s.find(p, from)`). */
  function FindFrom(s: string, p: string, from: nat): (r: Option<nat>)
    ensures r.Some? ==> from <= r.value && OccursAt(s, p, r.value)
    ensures r.Some? ==> forall k :: from <= k < r.value ==> !OccursAt(s, p, k)
    ensures r.None? ==> forall k :: from <= k ==> !OccursAt(s, p, k)
    decreases |s| - from
  {
    if |s| < from + |p| then None
    else if OccursAt(s, p, from) then Some(from)
    else FindFrom(s, p, from + 1)
  }

  /** The search only looks at the text up to the end of the occurrence it
      finds, so any string that agrees with `s` that far gives the same answer. */
  lemma {:induction false} FindFromAgrees(s: string, t: string, p: string, from: nat, j: nat)
    requires FindFrom(s, p, from) == Some(j)
    requires j + |p| <= |t| && s[..j + |p|] == t[..j + |p|]
    ensures FindFrom(t, p, from) == Some(j)
    decreases j - from
  {
    assert OccursAt(s, p, j);
    assert forall k :: from <= k <= j ==> (OccursAt(s, p, k) <==> OccursAt(t, p, k)) by {
      forall k | from <= k <= j
        ensures OccursAt(s, p, k) <==> OccursAt(t, p, k)
      {
        SliceWithinPrefix(s, j + |p|, k, k + |p|);
        SliceWithinPrefix(t, j + |p|, k, k + |p|);
      }
    }
    if from < j {
      assert !OccursAt(s, p, from);
      FindFromAgrees(s, t, p, from + 1, j);
    }
  }

  /** A slice inside a prefix is the same slice of the prefix. */
  lemma SliceWithinPrefix(s: string, n: int, a: int, b: int)
    requires 0 <= a <= b <= n <= |s|
    ensures s[a..b] == s[..n][a..b]
  {
    assert forall x :: 0 <= x < b - a ==> s[a..b][x] == s[..n][a..b][x];
  }

  /** `p in s` */
  predicate Contains(s: string, p: string) {
    FindFrom(s, p, 0).Some?
  }

  lemma ContainsMeansOccurs(s: string, p: string)
    ensures Contains(s, p) <==> exists i :: OccursAt(s, p, i)
  {
    if exists i :: OccursAt(s, p, i) {
      var i :| OccursAt(s, p, i);
      assert 0 <= i;
    }
  }

  /** `any(n in hay for n in needles)` */
  predicate AnyOccurs(needles: seq<string>, hay: string) {
    exists i :: 0 <= i < |needles| && Contains(hay, needles[i])
  }

  /** `sum(1 for n in needles if n in hay)`: how many entries of `needles`
      (with repetitions) occur in `hay`. */
  function CountOccurring(needles: seq<string>, hay: string): (r: nat)
    ensures r <= |needles|
    ensures r == 0 <==> !AnyOccurs(needles, hay)
    decreases |needles|
  {
    if |needles| == 0 then 0
    else
      var front := needles[..|needles| - 1];
      assert forall i :: 0 <= i < |front| ==> front[i] == needles[i];
      CountOccurring(front, hay) + (if Contains(hay, needles[|needles| - 1]) then 1 else 0)
  }

  /** ASCII upper case to lower case; every other character is kept. */
  function LowerChar(c: char): char {
    if 'A' <= c <= 'Z' then (c as int + 32) as char else c
  }

  /** `s.lower()`, restricted to ASCII letters. */
  function Lower(s: string): (r: string)
    ensures |r| == |s|
    decreases |s|
  {
    if |s| == 0 then [] else Lower(s[..|s| - 1]) + [LowerChar(s[|s| - 1])]
  }

  /** The characters Python's `str.strip()` removes (those for which `isspace()` holds). */
  const Whitespace: set<char> := {
    '\t', '\n', '\U{B}', '\U{C}', '\r', '\U{1C}', '\U{1D}', '\U{1E}', '\U{1F}', ' ',
    '\U{85}', '\U{A0}', '\U{1680}', '\U{2000}', '\U{2001}', '\U{2002}', '\U{2003}',
    '\U{2004}', '\U{2005}', '\U{2006}', '\U{2007}', '\U{2008}', '\U{2009}', '\U{200A}',
    '\U{2028}', '\U{2029}', '\U{202F}', '\U{205F}', '\U{3000}'
  }

  /** `s.lstrip(cs)`: the longest suffix of `s` not starting with a character of `cs`. */
  function TrimStart(s: string, cs: set<char>): (r: string)
    ensures |r| <= |s|
    decreases |s|
  {
    if |s| > 0 && s[0] in cs then TrimStart(s[1..], cs) else s
  }

  lemma {:induction false} TrimStartFacts(s: string, cs: set<char>)
    ensures var r := TrimStart(s, cs);
      && r == s[|s| - |r|..]
      && (forall k :: 0 <= k < |s| - |r| ==> s[k] in cs)
      && (|r| > 0 ==> r[0] !in cs)
    decreases |s|
  {
    if |s| > 0 && s[0] in cs {
      TrimStartFacts(s[1..], cs);
    }
  }

  /** `s.rstrip(cs)`: the longest prefix of `s` not ending with a character of `cs`. */
  function TrimEnd(s: string, cs: set<char>): (r: string)
    ensures |r| <= |s|
    decreases |s|
  {
    if |s| > 0 && s[|s| - 1] in cs then TrimEnd(s[..|s| - 1], cs) else s
  }

  lemma {:induction false} TrimEndFacts(s: string, cs: set<char>)
    ensures var r := TrimEnd(s, cs);
      && r == s[..|r|]
      && (forall k :: |r| <= k < |s| ==> s[k] in cs)
      && (|r| > 0 ==> r[|r| - 1] !in cs)
    decreases |s|
  {
    if |s| > 0 && s[|s| - 1] in cs {
      TrimEndFacts(s[..|s| - 1], cs);
    }
  }

  /** `s.strip(cs)` */
  function StripSet(s: string, cs: set<char>): (r: string)
    ensures |r| <= |s|
  {
    TrimEnd(TrimStart(s, cs), cs)
  }

  /** What `strip` removes from either end is exactly the characters of `cs`
      there: the result is a slice of `s` that neither starts nor ends with
      one of them. */
  lemma StripSetFacts(s: string, cs: set<char>)
    ensures var r := StripSet(s, cs);
      && (exists i :: OccursAt(s, r, i))
      && (|r| > 0 ==> r[0] !in cs && r[|r| - 1] !in cs)
  {
    var t := TrimStart(s, cs);
    TrimStartFacts(s, cs);
    TrimEndFacts(t, cs);
    var r := TrimEnd(t, cs);
    var i := |s| - |t|;
    assert t == s[i..];
    assert r == t[..|r|];
    assert r == StripSet(s, cs);
    assert OccursAt(s, r, i);
    if |r| > 0 {
      assert r[0] == t[0];
    }
  }

  /** Stripping twice strips nothing more. */
  lemma StripSetIdempotent(s: string, cs: set<char>)
    ensures StripSet(StripSet(s, cs), cs) == StripSet(s, cs)
  {
    StripSetFacts(s, cs);
  }

  /** Stripping brings in no character the string did not have. */
  lemma StripSetWithout(s: string, cs: set<char>, c: char)
    requires c !in s
    ensures c !in StripSet(s, cs)
  {
    StripSetFacts(s, cs);
    var r := StripSet(s, cs);
    var i :| OccursAt(s, r, i);
    assert forall k :: 0 <= k < |r| ==> r[k] == s[i + k];
  }

  /** `s.strip()` */
  function Strip(s: string): string {
    StripSet(s, Whitespace)
  }

  /** `sep.join(parts)` for a one-character separator. */
  function Join(parts: seq<string>, sep: char): string
    decreases |parts|
  {
    if |parts| == 0 then []
    else if |parts| == 1 then parts[0]
    else parts[0] + [sep] + Join(parts[1..], sep)
  }

  /** The first index of `c` in `s`. */
  function IndexOfChar(s: string, c: char): (k: nat)
    requires c in s
    ensures k < |s| && s[k] == c && c !in s[..k]
  {
    if s[0] == c then 0 else 1 + IndexOfChar(s[1..], c)
  }

  /** `s.split(sep)` for a one-character separator: the pieces between the
      separators, which joined back give `s`. */
  function Split(s: string, sep: char): (r: seq<string>)
    ensures |r| >= 1
    ensures forall i :: 0 <= i < |r| ==> sep !in r[i]
    ensures Join(r, sep) == s
    decreases |s|
  {
    if sep !in s then [s]
    else
      var k := IndexOfChar(s, sep);
      var rest := Split(s[k + 1..], sep);
      var r := [s[..k]] + rest;
      assert r[1..] == rest;
      assert s == s[..k] + [sep] + s[k + 1..];
      r
  }

  /** Splitting undoes joining when no piece holds the separator. */
  lemma {:induction false} SplitJoin(parts: seq<string>, sep: char)
    requires |parts| >= 1
    requires forall i :: 0 <= i < |parts| ==> sep !in parts[i]
    ensures Split(Join(parts, sep), sep) == parts
    decreases |parts|
  {
    if |parts| > 1 {
      var rest := Join(parts[1..], sep);
      assert Join(parts, sep) == parts[0] + [sep] + rest;
      SplitCons(parts[0], rest, sep);
      SplitJoin(parts[1..], sep);
      assert [parts[0]] + parts[1..] == parts;
    }
  }

  /** A piece without the separator, then the separator, splits off first. */
  lemma SplitCons(a: string, b: string, sep: char)
    requires sep !in a
    ensures Split(a + [sep] + b, sep) == [a] + Split(b, sep)
  {
    var s := a + [sep] + b;
    assert s[|a|] == sep;
    var k := IndexOfChar(s, sep);
    assert forall x :: 0 <= x < |a| ==> s[x] == a[x];
    assert forall x :: 0 <= x < k ==> s[x] == s[..k][x];
    assert k == |a|;
    assert s[..k] == a && s[k + 1..] == b;
  }

  /** `s.partition(c)` without the separator: the text before the first `c`
      and the text after it; `(s, "")` when `c` does not occur. */
  function Partition(s: string, c: char): (r: (string, string))
    ensures c in s ==> s == r.0 + [c] + r.1 && c !in r.0
    ensures c !in s ==> r == (s, [])
  {
    if c in s then
      var k := IndexOfChar(s, c);
      assert s == s[..k] + [c] + s[k + 1..];
      (s[..k], s[k + 1..])
    else (s, [])
  }

  /** `s.count(c)` */
  function CountChar(s: string, c: char): nat
    decreases |s|
  {
    if |s| == 0 then 0 else CountChar(s[..|s| - 1], c) + (if s[|s| - 1] == c then 1 else 0)
  }

  /** `s.replace(c, "")` */
  function RemoveChar(s: string, c: char): (r: string)
    ensures c !in r
    ensures c !in s ==> r == s
    decreases |s|
  {
    if |s| == 0 then []
    else
      var front := s[..|s| - 1];
      assert s == front + [s[|s| - 1]];
      RemoveChar(front, c) + (if s[|s| - 1] == c then [] else [s[|s| - 1]])
  }

  lemma {:induction false} RemoveCharAppend(a: string, b: string, c: char)
    ensures RemoveChar(a + b, c) == RemoveChar(a, c) + RemoveChar(b, c)
    decreases |b|
  {
    if |b| > 0 {
      var b' := b[..|b| - 1];
      assert (a + b)[..|a + b| - 1] == a + b';
      RemoveCharAppend(a, b', c);
    } else {
      assert a + b == a;
    }
  }
}
