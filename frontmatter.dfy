/** The minimal YAML frontmatter parser of the quick evaluation
    (`parse_frontmatter`): the fields of the first `---` block, the body after
    it, and the parse errors. */
module Frontmatter {
  import opened Base
  import opened Text
  import opened Issues

  const Delimiter: string := "---"

  /** One `key: value` entry of the frontmatter. */
  datatype Field = Field(key: string, value: string)

  /** A Python dict from string to string: its entries in insertion order, one per key. */
  type Dict = seq<Field>

  function Keys(d: Dict): (r: seq<string>)
    ensures |r| == |d|
    ensures forall i :: 0 <= i < |d| ==> r[i] == d[i].key
    decreases |d|
  {
    if |d| == 0 then [] else [d[0].key] + Keys(d[1..])
  }

  predicate DistinctKeys(d: Dict) {
    var ks := Keys(d);
    forall i, j :: 0 <= i < j < |ks| ==> ks[i] != ks[j]
  }

  /** `d.get(k)` */
  function Get(d: Dict, k: string): (r: Option<string>)
    ensures r.None? <==> k !in Keys(d)
    ensures DistinctKeys(d) ==> forall i :: 0 <= i < |d| && d[i].key == k ==> r == Some(d[i].value)
    decreases |d|
  {
    if |d| == 0 then None
    else if d[0].key == k then Some(d[0].value)
    else Get(d[1..], k)
  }

  predicate HasKey(d: Dict, k: string) {
    k in Keys(d)
  }

  /** `d[k] = v`. */
  function Put(d: Dict, k: string, v: string): (r: Dict)
    ensures |r| == if k in Keys(d) then |d| else |d| + 1
    decreases |d|
  {
    if |d| == 0 then [Field(k, v)]
    else if d[0].key == k then [Field(k, v)] + d[1..]
    else [d[0]] + Put(d[1..], k, v)
  }

  /** An existing key keeps its place and takes the new value, a new key is
      added at the end, and no other key changes its value. */
  lemma {:induction false} PutFacts(d: Dict, k: string, v: string)
    ensures Keys(Put(d, k, v)) == if k in Keys(d) then Keys(d) else Keys(d) + [k]
    ensures Get(Put(d, k, v), k) == Some(v)
    ensures forall k' :: k' != k ==> Get(Put(d, k, v), k') == Get(d, k')
    decreases |d|
  {
    if |d| == 0 {
    } else if d[0].key == k {
      PutFront(d, k, v);
    } else {
      var rest := Put(d[1..], k, v);
      PutFacts(d[1..], k, v);
      PutBehindKeys(d[0], d[1..], rest, k);
      PutBehindGet(d[0], rest, k, v);
      PutBehindOthers(d[0], d[1..], rest, k);
      assert d == [d[0]] + d[1..];
    }
  }

  /** `Put`'s contract when the key is the first one. */
  lemma PutFront(d: Dict, k: string, v: string)
    requires |d| > 0 && d[0].key == k
    ensures k in Keys(d) && Keys([Field(k, v)] + d[1..]) == Keys(d)
    ensures Get([Field(k, v)] + d[1..], k) == Some(v)
    ensures forall k' :: k' != k ==> Get([Field(k, v)] + d[1..], k') == Get(d, k')
  {
    var r := [Field(k, v)] + d[1..];
    assert r[1..] == d[1..];
    assert Keys(r) == [k] + Keys(d[1..]) && Keys(d) == [k] + Keys(d[1..]);
  }

  /** `Put`'s contract carries over to a dict with one more entry in front,
      whose key is not the one put: first the keys, ... */
  lemma PutBehindKeys(x: Field, d: Dict, r: Dict, k: string)
    requires x.key != k
    requires Keys(r) == if k in Keys(d) then Keys(d) else Keys(d) + [k]
    ensures Keys([x] + r) == if k in Keys([x] + d) then Keys([x] + d) else Keys([x] + d) + [k]
  {
    assert ([x] + r)[1..] == r && ([x] + d)[1..] == d;
    assert Keys([x] + r) == [x.key] + Keys(r) && Keys([x] + d) == [x.key] + Keys(d);
    if k !in Keys(d) {
      var ks := Keys(d);
      assert [x.key] + (ks + [k]) == ([x.key] + ks) + [k];
    }
  }

  /** ... then the value put, ... */
  lemma PutBehindGet(x: Field, r: Dict, k: string, v: string)
    requires x.key != k && Get(r, k) == Some(v)
    ensures Get([x] + r, k) == Some(v)
  {
    GetFront(x, r, k);
  }

  /** ... and the other keys' values. */
  lemma PutBehindOthers(x: Field, d: Dict, r: Dict, k: string)
    requires forall k' :: k' != k ==> Get(r, k') == Get(d, k')
    ensures forall k' :: k' != k ==> Get([x] + r, k') == Get([x] + d, k')
  {
    forall k' | k' != k
      ensures Get([x] + r, k') == Get([x] + d, k')
    {
      GetFront(x, r, k');
      GetFront(x, d, k');
    }
  }

  lemma GetFront(x: Field, d: Dict, k: string)
    ensures Get([x] + d, k) == if x.key == k then Some(x.value) else Get(d, k)
  {
    assert ([x] + d)[1..] == d;
  }

  lemma PutKeepsKeysDistinct(d: Dict, k: string, v: string)
    requires DistinctKeys(d)
    ensures DistinctKeys(Put(d, k, v))
  {
    var ks := Keys(d);
    PutFacts(d, k, v);
    if k !in ks {
      var ks' := ks + [k];
      assert Keys(Put(d, k, v)) == ks';
      forall i, j | 0 <= i < j < |ks'| ensures ks'[i] != ks'[j] {
        if j == |ks| {
          assert ks'[i] == ks[i];
        }
      }
    }
  }

  /** `v.strip('"').strip("'")` */
  function Unquote(v: string): (r: string)
    ensures |r| > 0 ==> r[0] != '\'' && r[|r| - 1] != '\''
  {
    StripSetFacts(StripSet(v, {'"'}), {'\''});
    StripSet(StripSet(v, {'"'}), {'\''})
  }

  /** The stripped line `l` has its first colon at `j`, and `f` is the text
      before it, stripped, with the text after it, stripped and unquoted. */
  predicate SplitsAt(l: string, j: int, f: Field) {
    && 0 <= j < |l| && l[j] == ':' && ':' !in l[..j]
    && f.key == Strip(l[..j]) && f.value == Unquote(Strip(l[j + 1..]))
  }

  /** One line of the frontmatter: blank lines, `#` comments and lines without
      a colon give nothing; otherwise the key is the stripped text before the
      first colon and the value the stripped text after it with surrounding
      double quotes, then single quotes, removed. */
  function ParseLine(line: string): (r: Option<Field>)
    ensures r.Some? <==> ':' in Strip(line) && Strip(line)[0] != '#'
    ensures r.Some? ==> exists j :: SplitsAt(Strip(line), j, r.value)
    ensures r.Some? ==> ':' !in r.value.key && Strip(r.value.key) == r.value.key
    ensures r.Some? && |r.value.value| > 0 ==> r.value.value[0] != '\'' && r.value.value[|r.value.value| - 1] != '\''
  {
    var l := Strip(line);
    if |l| == 0 || l[0] == '#' then None
    else if ':' !in l then None
    else
      var (key, value) := Partition(l, ':');
      var f := Field(Strip(key), Unquote(Strip(value)));
      ParseLineSplits(l, key, value, f);
      Some(f)
  }

  lemma ParseLineSplits(l: string, key: string, value: string, f: Field)
    requires ':' in l && (key, value) == Partition(l, ':') && f == Field(Strip(key), Unquote(Strip(value)))
    ensures SplitsAt(l, |key|, f)
    ensures ':' !in f.key && Strip(f.key) == f.key
  {
    assert l[..|key|] == key && l[|key| + 1..] == value;
    StripSetWithout(key, Whitespace, ':');
    StripSetIdempotent(key, Whitespace);
  }

  /** The dict the parser's loop builds from the frontmatter lines. */
  function FieldsOf(lines: seq<string>): (d: Dict)
    ensures DistinctKeys(d)
    decreases |lines|
  {
    if |lines| == 0 then []
    else
      var d := FieldsOf(lines[..|lines| - 1]);
      match ParseLine(lines[|lines| - 1])
      case None => d
      case Some(f) =>
        PutKeepsKeysDistinct(d, f.key, f.value);
        Put(d, f.key, f.value)
  }

  /** Reference definition of a key's value: the value on the LAST line that
      parses to that key. */
  function LastValue(lines: seq<string>, k: string): Option<string>
    decreases |lines|
  {
    if |lines| == 0 then None
    else
      match ParseLine(lines[|lines| - 1])
      case Some(f) => if f.key == k then Some(f.value) else LastValue(lines[..|lines| - 1], k)
      case None => LastValue(lines[..|lines| - 1], k)
  }

  /** A later line with the same key overwrites an earlier one, and a key is
      present exactly when some line parses to it. */
  lemma {:induction false} FieldsOfLastWins(lines: seq<string>, k: string)
    ensures Get(FieldsOf(lines), k) == LastValue(lines, k)
    decreases |lines|
  {
    if |lines| > 0 {
      FieldsOfLastWins(lines[..|lines| - 1], k);
      var f := ParseLine(lines[|lines| - 1]);
      if f.Some? {
        PutFacts(FieldsOf(lines[..|lines| - 1]), f.value.key, f.value.value);
      }
    }
  }

  /** Keys keep the order of their first appearance: extending the lines only
      ever appends keys. */
  lemma {:induction false} FieldsOfKeysGrow(lines: seq<string>, more: seq<string>)
    ensures Keys(FieldsOf(lines)) <= Keys(FieldsOf(lines + more))
    decreases |more|
  {
    if |more| > 0 {
      var front := more[..|more| - 1];
      assert (lines + more)[..|lines + more| - 1] == lines + front;
      FieldsOfKeysGrow(lines, front);
      var f := ParseLine(more[|more| - 1]);
      if f.Some? {
        PutFacts(FieldsOf(lines + front), f.value.key, f.value.value);
      }
    } else {
      assert lines + more == lines;
    }
  }

  /** What `parse_frontmatter` returns: the fields (None on a parse error),
      the body, and the parse issues. */
  datatype Parsed = Parsed(fields: Option<Dict>, body: string, issues: seq<Issue>)

  /** Reference definition of `parse_frontmatter`, following
      `content.split("---", 2)`: the opening delimiter at index 0 and the
      closing one at the next occurrence from index 3. */
  function Parse(content: string): Parsed {
    if !StartsWith(content, Delimiter) then
      Parsed(None, content, [Issue(Error, NoFrontmatter, "")])
    else
      match FindFrom(content, Delimiter, 3)
      case None => Parsed(None, content, [Issue(Error, MalformedFrontmatter, "")])
      case Some(j) =>
        var body := Strip(content[j + 3..]);
        Parsed(Some(FieldsOf(Split(Strip(content[3..j]), '\n'))), body,
               When(StartsWith(body, Delimiter), Issue(Error, DuplicateFrontmatter, "")))
  }

  const ParseCodes: set<Code> := {NoFrontmatter, MalformedFrontmatter, DuplicateFrontmatter}

  /** The parser reports only parse codes. A parse error leaves the body as
      the whole content and reports exactly one error, NO_FRONTMATTER or
      MALFORMED_FRONTMATTER; a successful parse reports at most
      DUPLICATE_FRONTMATTER, exactly when the body starts with another
      delimiter. */
  lemma ParseIssues(content: string)
    ensures Appends([], Parse(content).issues, ParseCodes)
    ensures var p := Parse(content);
      && (p.fields.None? ==> p.body == content && |p.issues| == 1 && p.issues[0].severity == Error)
      && (p.fields.None? <==> HasCode(p.issues, Error, NoFrontmatter) || HasCode(p.issues, Error, MalformedFrontmatter))
      && (p.fields.Some? ==> |p.issues| <= 1 && OnlyCodes(p.issues, {DuplicateFrontmatter}))
      && (HasCode(p.issues, Error, DuplicateFrontmatter) <==> p.fields.Some? && StartsWith(p.body, Delimiter))
  {
    var p := Parse(content);
    if StartsWith(content, Delimiter) && FindFrom(content, Delimiter, 3).Some? {
      assert p.fields.Some? && p.issues == When(StartsWith(p.body, Delimiter), Issue(Error, DuplicateFrontmatter, ""));
    }
    ParseIssuesOfShape(p, content);
  }

  /** The issue facts of `ParseIssues` for the three shapes a parse result takes. */
  lemma ParseIssuesOfShape(p: Parsed, content: string)
    requires || p == Parsed(None, content, [Issue(Error, NoFrontmatter, "")])
             || p == Parsed(None, content, [Issue(Error, MalformedFrontmatter, "")])
             || (p.fields.Some? && p.issues == When(StartsWith(p.body, Delimiter), Issue(Error, DuplicateFrontmatter, "")))
    ensures Appends([], p.issues, ParseCodes)
    ensures && (p.fields.None? ==> p.body == content && |p.issues| == 1 && p.issues[0].severity == Error)
            && (p.fields.None? <==> HasCode(p.issues, Error, NoFrontmatter) || HasCode(p.issues, Error, MalformedFrontmatter))
            && (p.fields.Some? ==> |p.issues| <= 1 && OnlyCodes(p.issues, {DuplicateFrontmatter}))
            && (HasCode(p.issues, Error, DuplicateFrontmatter) <==> p.fields.Some? && StartsWith(p.body, Delimiter))
  {
    var issue := Issue(Error, DuplicateFrontmatter, "");
    if p.fields.None? {
      assert p.issues[0] in p.issues;
    } else if StartsWith(p.body, Delimiter) {
      assert issue in p.issues;
    }
  }

  /** Missing opening delimiter: no fields, the body is the whole content. */
  lemma NoOpeningDelimiter(content: string)
    requires !StartsWith(content, Delimiter)
    ensures Parse(content) == Parsed(None, content, [Issue(Error, NoFrontmatter, "")])
  {
  }

  /** Opening delimiter without a closing one: MALFORMED_FRONTMATTER, body unchanged. */
  lemma NoClosingDelimiter(content: string)
    requires StartsWith(content, Delimiter)
    requires forall k :: 3 <= k ==> !OccursAt(content, Delimiter, k)
    ensures Parse(content) == Parsed(None, content, [Issue(Error, MalformedFrontmatter, "")])
  {
  }

  /** The fields come only from the text between the first two delimiters:
      whatever follows the closing delimiter, including a second `---` block
      (which only adds DUPLICATE_FRONTMATTER), leaves them unchanged, and the
      body is that text stripped. */
  lemma {:induction false} FieldsFromFirstBlock(content: string, j: nat, tail: string)
    requires StartsWith(content, Delimiter) && FindFrom(content, Delimiter, 3) == Some(j)
    ensures Parse(content[..j + 3] + tail).fields == Parse(content).fields
    ensures Parse(content[..j + 3] + tail).body == Strip(tail)
    ensures Parse(content[..j + 3] + tail).issues ==
            When(StartsWith(Strip(tail), Delimiter), Issue(Error, DuplicateFrontmatter, ""))
  {
    var c2 := content[..j + 3] + tail;
    assert c2[..j + 3] == content[..j + 3];
    FindFromAgrees(content, c2, Delimiter, 3, j);
    assert c2[..3] == content[..3];
    assert StartsWith(c2, Delimiter);
    assert c2[3..j] == content[3..j];
    assert c2[j + 3..] == tail;
  }

  /** `parse_frontmatter`. */
  method ParseFrontmatter(content: string) returns (p: Parsed)
    ensures p == Parse(content)
  {
    if !StartsWith(content, Delimiter) {
      return Parsed(None, content, [Issue(Error, NoFrontmatter, "")]);
    }
    var close := FindFrom(content, Delimiter, 3);
    if close.None? {
      return Parsed(None, content, [Issue(Error, MalformedFrontmatter, "")]);
    }
    var j := close.value;
    var frontmatterText := Strip(content[3..j]);
    var body := Strip(content[j + 3..]);
    var issues: seq<Issue> := [];
    if StartsWith(body, Delimiter) {
      issues := [Issue(Error, DuplicateFrontmatter, "")];
    }
    var fields := ReadFields(Split(frontmatterText, '\n'));
    return Parsed(Some(fields), body, issues);
  }

  /** The loop of `parse_frontmatter` that fills the field dict line by line. */
  method ReadFields(lines: seq<string>) returns (fields: Dict)
    ensures fields == FieldsOf(lines)
  {
    fields := [];
    for i := 0 to |lines|
      invariant fields == FieldsOf(lines[..i])
    {
      ghost var upto := lines[..i + 1];
      assert upto[..|upto| - 1] == lines[..i] && upto[|upto| - 1] == lines[i];
      var f := ParseLine(lines[i]);
      if f.Some? {
        fields := Put(fields, f.value.key, f.value.value);
      }
    }
    assert lines[..|lines|] == lines;
  }
}
