/** The `Issue` record every checker of the quick evaluation appends to the report. */
module Issues {

  datatype Severity = Error | Warning | Info

  /** The issue codes the parser and the five checkers emit. */
  datatype Code =
    | NoFrontmatter | MalformedFrontmatter | DuplicateFrontmatter
    | NoSkillMd | MissingName | MissingDescription | ExtraField | NoResources
    | NoUsageContext | ShortDescription | NoTriggerExamples
    | NoSteps | NoCodeBlocks | VagueLanguage | FewImperatives
    | BrokenScriptRef | ScriptsDirMissing | NoToolRefs
    | PlaceholdersFound | ManyPlaceholders | NoExampleSection | NoOutputFormat

  /** An issue, without its message, line and suggestion; `subject` is the
      frontmatter key of an EXTRA_FIELD warning or
      the path of a BROKEN_SCRIPT_REF error, and empty for every other code. */
  datatype Issue = Issue(severity: Severity, code: Code, subject: string)

  /** `code in [i.code for i in issues if i.severity == severity]` */
  predicate HasCode(issues: seq<Issue>, severity: Severity, code: Code) {
    exists x :: x in issues && x.severity == severity && x.code == code
  }

  /** Every issue in the list has one of the codes `codes`. */
  predicate OnlyCodes(issues: seq<Issue>, codes: set<Code>) {
    forall x :: x in issues ==> x.code in codes
  }

  /** `r` is `prev` with issues appended, each with one of the codes `codes`. */
  predicate Appends(prev: seq<Issue>, r: seq<Issue>, codes: set<Code>) {
    prev <= r && forall i :: |prev| <= i < |r| ==> r[i].code in codes
  }

  /** Zero or one issue, depending on `c`. */
  function When(c: bool, issue: Issue): seq<Issue> {
    if c then [issue] else []
  }

  lemma AppendsWhen(prev: seq<Issue>, c: bool, issue: Issue, codes: set<Code>)
    requires issue.code in codes
    ensures Appends(prev, prev + When(c, issue), codes)
  {
  }

  lemma AppendsTrans(a: seq<Issue>, b: seq<Issue>, c: seq<Issue>, codes: set<Code>)
    requires Appends(a, b, codes) && Appends(b, c, codes)
    ensures Appends(a, c, codes)
  {
    forall i | |a| <= i < |c|
      ensures c[i].code in codes
    {
      if i < |b| {
        assert c[i] == b[i];
      }
    }
  }

  /** Appending one issue adds its code, with its severity, and nothing else. */
  lemma HasCodeSnoc(prev: seq<Issue>, issue: Issue, severity: Severity, code: Code)
    ensures HasCode(prev + [issue], severity, code) <==>
              HasCode(prev, severity, code) || (issue.severity == severity && issue.code == code)
  {
    var r := prev + [issue];
    if HasCode(r, severity, code) {
      var x :| x in r && x.severity == severity && x.code == code;
      assert x in prev || x == issue;
    } else {
      assert issue in r;
      forall x | x in prev
        ensures !(x.severity == severity && x.code == code)
      {
        assert x in r;
      }
    }
  }

  lemma HasCodeWhen(prev: seq<Issue>, c: bool, issue: Issue, severity: Severity, code: Code)
    ensures HasCode(prev + When(c, issue), severity, code) <==>
              HasCode(prev, severity, code) || (c && issue.severity == severity && issue.code == code)
  {
    if c {
      HasCodeSnoc(prev, issue, severity, code);
    } else {
      assert prev + When(c, issue) == prev;
    }
  }

  /** Issues appended with other codes leave the presence of `code` unchanged. */
  lemma HasCodeAppends(prev: seq<Issue>, r: seq<Issue>, codes: set<Code>, severity: Severity, code: Code)
    requires Appends(prev, r, codes) && code !in codes
    ensures HasCode(r, severity, code) <==> HasCode(prev, severity, code)
  {
    if HasCode(r, severity, code) {
      var x :| x in r && x.severity == severity && x.code == code;
      var i :| 0 <= i < |r| && r[i] == x;
      assert i < |prev|;
      assert prev[i] == x;
    }
    if HasCode(prev, severity, code) {
      var x :| x in prev && x.severity == severity && x.code == code;
      var i :| 0 <= i < |prev| && prev[i] == x;
      assert r[i] == x;
    }
  }
}
