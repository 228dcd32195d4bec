/** The five static checkers of the quick evaluation. Each takes the issue
    list built so far, appends its own issues, and returns its score; the
    `...Score` and `...Issues` functions say what that score and that
    extended list are. */
module Checks {
  import opened Base
  import opened Text
  import opened Issues
  import opened Frontmatter

  /** What the checkers learn from the file system of the skill directory. */
  datatype SkillDir = SkillDir(
    skillMd: Option<string>,   // the text of SKILL.md; None when the file does not exist
    paths: set<string>,        // the relative paths that exist under the skill directory
    scriptsNonEmpty: bool)     // scripts/ holds at least one entry

  /** What the regular expressions of the checkers find in a body. */
  datatype BodyFeatures = BodyFeatures(
    hasTriggerPhrase: bool,    // a trigger/usage heading, a *...trigger...* span or a quoted phrase
    hasSteps: bool,            // a numbered, bulleted or "Step" heading line
    hasCodeBlock: bool,        // a closed ``` fence
    verbHits: set<string>,     // the words w for which \bw\b matches, ignoring case
    scriptRefs: seq<string>,   // the matches of scripts?/[\w\-\.]+, in order
    hasDocRefs: bool,          // a references?/ path or a markdown link to a .md file
    placeholderCount: nat,     // matches of the nine placeholder patterns, summed
    hasExampleSection: bool,   // an example, sample or demo heading
    hasOutputFormat: bool)     // an output heading, a json or yaml fence, or a table row

  /** `w` points when `c` holds. */
  function Points(c: bool, w: real): real { if c then w else 0.0 }

  function Clamp01(x: real): (r: real)
    ensures 0.0 <= r <= 1.0
    ensures 0.0 <= x <= 1.0 ==> r == x
  {
    MaxReal(0.0, MinReal(1.0, x))
  }

  // ---------------------------------------------------------------------------
  // check_structure

  const AllowedFields: set<string> := {"name", "description", "license", "tags"}

  const ResourceDirs: seq<string> := ["scripts", "references", "assets"]

  const StructureCodes: set<Code> := {NoSkillMd, MissingName, MissingDescription, ExtraField, NoResources}

  /** The keys outside the allowed set, in the order given. */
  function ExtraKeys(keys: seq<string>): (r: seq<string>)
    ensures |r| <= |keys|
    decreases |keys|
  {
    if |keys| == 0 then []
    else
      var last := keys[|keys| - 1];
      ExtraKeys(keys[..|keys| - 1]) + (if last in AllowedFields then [] else [last])
  }

  /** A key is extra exactly when it is one of the keys and not an allowed field. */
  lemma {:induction false} ExtraKeysMembers(keys: seq<string>, k: string)
    ensures k in ExtraKeys(keys) <==> k in keys && k !in AllowedFields
    decreases |keys|
  {
    if |keys| > 0 {
      var front := keys[..|keys| - 1];
      assert keys == front + [keys[|keys| - 1]];
      ExtraKeysMembers(front, k);
    }
  }

  /** `prev` followed by one EXTRA_FIELD warning per extra key, in key order:
      as many warnings as extra keys. */
  function ExtraFieldWarnings(prev: seq<Issue>, keys: seq<string>): (r: seq<Issue>)
    ensures |r| == |prev| + |ExtraKeys(keys)|
    decreases |keys|
  {
    if |keys| == 0 then prev
    else
      var last := keys[|keys| - 1];
      ExtraFieldWarnings(prev, keys[..|keys| - 1]) + When(last !in AllowedFields, Issue(Warning, ExtraField, last))
  }

  /** The warnings appended are EXTRA_FIELD warnings, and an issue is among
      them exactly when it names a key outside the allowed set. */
  lemma {:induction false} ExtraFieldWarningsFacts(prev: seq<Issue>, keys: seq<string>, x: Issue)
    ensures Appends(prev, ExtraFieldWarnings(prev, keys), {ExtraField})
    ensures x in ExtraFieldWarnings(prev, keys) <==>
              x in prev || (x == Issue(Warning, ExtraField, x.subject) && x.subject in keys && x.subject !in AllowedFields)
    decreases |keys|
  {
    if |keys| > 0 {
      var front := keys[..|keys| - 1];
      var last := keys[|keys| - 1];
      assert keys == front + [last];
      ExtraFieldWarningsFacts(prev, front, x);
      AppendsWhen(ExtraFieldWarnings(prev, front), last !in AllowedFields, Issue(Warning, ExtraField, last), {ExtraField});
      AppendsTrans(prev, ExtraFieldWarnings(prev, front), ExtraFieldWarnings(prev, keys), {ExtraField});
    }
  }

  predicate HasResources(dir: SkillDir) {
    exists i :: 0 <= i < |ResourceDirs| && ResourceDirs[i] in dir.paths
  }

  /** `frontmatter.get("description", "")` */
  function Description(d: Dict): string {
    match Get(d, "description")
    case Some(v) => v
    case None => ""
  }

  /** 1 less 0.3 per missing required field and 0.05 per extra field, floored
      at 0; 0 without SKILL.md or without a parsed frontmatter. */
  function StructureScore(dir: SkillDir, fm: Option<Dict>): (r: real)
    ensures 0.0 <= r <= 1.0
  {
    if dir.skillMd.None? || fm.None? then 0.0
    else
      var d := fm.value;
      MaxReal(0.0, 1.0 - (Points(!HasKey(d, "name"), 0.3) + Points(!HasKey(d, "description"), 0.3)
                          + 0.05 * |ExtraKeys(Keys(d))| as real))
  }

  /** `issues` after `check_structure` has appended to `prev`. */
  function StructureIssues(prev: seq<Issue>, dir: SkillDir, fm: Option<Dict>): seq<Issue> {
    if dir.skillMd.None? then prev + [Issue(Error, NoSkillMd, "")]
    else if fm.None? then prev
    else
      var d := fm.value;
      ExtraFieldWarnings(prev + When(!HasKey(d, "name"), Issue(Error, MissingName, ""))
                              + When(!HasKey(d, "description"), Issue(Error, MissingDescription, "")),
                         Keys(d))
      + When(!HasResources(dir), Issue(Info, NoResources, ""))
  }

  /** Only structure codes are appended, and a missing required field is
      reported exactly when SKILL.md and its frontmatter exist and the field
      is absent. */
  lemma StructureIssuesFacts(prev: seq<Issue>, dir: SkillDir, fm: Option<Dict>)
    ensures Appends(prev, StructureIssues(prev, dir, fm), StructureCodes)
    ensures HasCode(StructureIssues(prev, dir, fm), Error, MissingName) <==>
              HasCode(prev, Error, MissingName) || (dir.skillMd.Some? && fm.Some? && !HasKey(fm.value, "name"))
    ensures HasCode(StructureIssues(prev, dir, fm), Error, MissingDescription) <==>
              HasCode(prev, Error, MissingDescription)
              || (dir.skillMd.Some? && fm.Some? && !HasKey(fm.value, "description"))
  {
    if dir.skillMd.None? {
      AppendsWhen(prev, true, Issue(Error, NoSkillMd, ""), StructureCodes);
      HasCodeWhen(prev, true, Issue(Error, NoSkillMd, ""), Error, MissingName);
      HasCodeWhen(prev, true, Issue(Error, NoSkillMd, ""), Error, MissingDescription);
    } else if fm.Some? {
      var d := fm.value;
      var a := prev + When(!HasKey(d, "name"), Issue(Error, MissingName, ""));
      var b := a + When(!HasKey(d, "description"), Issue(Error, MissingDescription, ""));
      var c := ExtraFieldWarnings(b, Keys(d));
      var r := c + When(!HasResources(dir), Issue(Info, NoResources, ""));
      assert StructureIssues(prev, dir, fm) == r;
      RequiredFieldsStage(prev, a, b, !HasKey(d, "name"), !HasKey(d, "description"));
      ExtraFieldWarningsFacts(b, Keys(d), Issue(Warning, ExtraField, ""));
      ResourcesStage(prev, b, c, r, !HasResources(dir));
    }
  }

  /** The two required-field errors, appended to `prev` in turn. */
  lemma RequiredFieldsStage(prev: seq<Issue>, a: seq<Issue>, b: seq<Issue>, noName: bool, noDescription: bool)
    requires a == prev + When(noName, Issue(Error, MissingName, ""))
    requires b == a + When(noDescription, Issue(Error, MissingDescription, ""))
    ensures Appends(prev, b, StructureCodes)
    ensures HasCode(b, Error, MissingName) <==> HasCode(prev, Error, MissingName) || noName
    ensures HasCode(b, Error, MissingDescription) <==> HasCode(prev, Error, MissingDescription) || noDescription
  {
    AppendsWhen(prev, noName, Issue(Error, MissingName, ""), StructureCodes);
    AppendsWhen(a, noDescription, Issue(Error, MissingDescription, ""), StructureCodes);
    AppendsTrans(prev, a, b, StructureCodes);
    HasCodeWhen(prev, noName, Issue(Error, MissingName, ""), Error, MissingName);
    HasCodeWhen(a, noDescription, Issue(Error, MissingDescription, ""), Error, MissingName);
    HasCodeWhen(prev, noName, Issue(Error, MissingName, ""), Error, MissingDescription);
    HasCodeWhen(a, noDescription, Issue(Error, MissingDescription, ""), Error, MissingDescription);
  }

  /** The extra-field warnings and the resources notice leave the
      required-field errors as they were. */
  lemma ResourcesStage(prev: seq<Issue>, b: seq<Issue>, c: seq<Issue>, r: seq<Issue>, noResources: bool)
    requires Appends(prev, b, StructureCodes) && Appends(b, c, {ExtraField})
    requires r == c + When(noResources, Issue(Info, NoResources, ""))
    ensures Appends(prev, r, StructureCodes)
    ensures HasCode(r, Error, MissingName) <==> HasCode(b, Error, MissingName)
    ensures HasCode(r, Error, MissingDescription) <==> HasCode(b, Error, MissingDescription)
  {
    assert Appends(b, c, StructureCodes);
    AppendsWhen(c, noResources, Issue(Info, NoResources, ""), StructureCodes);
    AppendsTrans(prev, b, c, StructureCodes);
    AppendsTrans(prev, c, r, StructureCodes);
    HasCodeAppends(b, c, {ExtraField}, Error, MissingName);
    HasCodeAppends(b, c, {ExtraField}, Error, MissingDescription);
    HasCodeWhen(c, noResources, Issue(Info, NoResources, ""), Error, MissingName);
    HasCodeWhen(c, noResources, Issue(Info, NoResources, ""), Error, MissingDescription);
  }

  /** One EXTRA_FIELD warning for each key outside name, description, license
      and tags, and each such warning names such a key. */
  lemma ExtraFieldPerKey(prev: seq<Issue>, dir: SkillDir, d: Dict, k: string)
    requires dir.skillMd.Some?
    ensures Issue(Warning, ExtraField, k) in StructureIssues(prev, dir, Some(d)) <==>
              Issue(Warning, ExtraField, k) in prev || (k in Keys(d) && k !in AllowedFields)
  {
    var x := Issue(Warning, ExtraField, k);
    var a := prev + When(!HasKey(d, "name"), Issue(Error, MissingName, ""));
    var b := a + When(!HasKey(d, "description"), Issue(Error, MissingDescription, ""));
    ExtraFieldWarningsFacts(b, Keys(d), x);
  }

  /** `check_structure` */
  method CheckStructure(dir: SkillDir, fm: Option<Dict>, issues: seq<Issue>)
    returns (score: real, issues': seq<Issue>)
    ensures score == StructureScore(dir, fm)
    ensures issues' == StructureIssues(issues, dir, fm)
    ensures 0.0 <= score <= 1.0
  {
    score := 1.0;
    issues' := issues;
    if dir.skillMd.None? {
      issues' := issues' + [Issue(Error, NoSkillMd, "")];
      return 0.0, issues';
    }
    if fm.None? {
      return 0.0, issues';
    }
    var d := fm.value;
    var deductions := 0.0;
    if !HasKey(d, "name") {
      issues' := issues' + [Issue(Error, MissingName, "")];
      deductions := deductions + 0.3;
    }
    if !HasKey(d, "description") {
      issues' := issues' + [Issue(Error, MissingDescription, "")];
      deductions := deductions + 0.3;
    }
    assert issues' == issues + When(!HasKey(d, "name"), Issue(Error, MissingName, ""))
                             + When(!HasKey(d, "description"), Issue(Error, MissingDescription, ""));
    var extraDeduction;
    issues', extraDeduction := FlagExtraFields(Keys(d), issues');
    deductions := deductions + extraDeduction;
    var existing := ExistingResources(dir);
    if |existing| == 0 {
      issues' := issues' + [Issue(Info, NoResources, "")];
    }
    score := MaxReal(0.0, score - deductions);
  }

  /** The loop over the frontmatter keys: an EXTRA_FIELD warning and a 0.05
      deduction for each key outside the allowed set. */
  method FlagExtraFields(keys: seq<string>, issues: seq<Issue>) returns (issues': seq<Issue>, deduction: real)
    ensures issues' == ExtraFieldWarnings(issues, keys)
    ensures deduction == 0.05 * |ExtraKeys(keys)| as real
  {
    issues' := issues;
    deduction := 0.0;
    for i := 0 to |keys|
      invariant issues' == ExtraFieldWarnings(issues, keys[..i])
      invariant deduction == 0.05 * |ExtraKeys(keys[..i])| as real
    {
      ghost var upto := keys[..i + 1];
      assert upto[..|upto| - 1] == keys[..i] && upto[|upto| - 1] == keys[i];
      if keys[i] !in AllowedFields {
        issues' := issues' + [Issue(Warning, ExtraField, keys[i])];
        deduction := deduction + 0.05;
      }
    }
    assert keys[..|keys|] == keys;
  }

  /** The loop over scripts/, references/ and assets/: those that exist, in order. */
  method ExistingResources(dir: SkillDir) returns (existing: seq<string>)
    ensures forall x :: x in existing <==> x in ResourceDirs && x in dir.paths
    ensures |existing| == 0 <==> !HasResources(dir)
  {
    existing := [];
    for i := 0 to |ResourceDirs|
      invariant forall x :: x in existing <==> x in ResourceDirs[..i] && x in dir.paths
    {
      assert ResourceDirs[..i + 1] == ResourceDirs[..i] + [ResourceDirs[i]];
      if ResourceDirs[i] in dir.paths {
        existing := existing + [ResourceDirs[i]];
      }
    }
    assert ResourceDirs[..|ResourceDirs|] == ResourceDirs;
    if |existing| > 0 {
      assert existing[0] in existing;
    }
  }

  /** The structure score is 1 exactly when SKILL.md and its frontmatter exist,
      both required fields are present and no other field is; each extra
      field costs 0.05 until the score reaches 0. */
  lemma StructurePerfect(dir: SkillDir, d: Dict)
    requires dir.skillMd.Some?
    ensures StructureScore(dir, Some(d)) == 1.0 <==>
              HasKey(d, "name") && HasKey(d, "description") && ExtraKeys(Keys(d)) == []
    ensures HasKey(d, "name") && HasKey(d, "description") && |ExtraKeys(Keys(d))| <= 20 ==>
              StructureScore(dir, Some(d)) == 1.0 - 0.05 * |ExtraKeys(Keys(d))| as real
    ensures StructureScore(dir, None) == 0.0
  {
  }

  // ---------------------------------------------------------------------------
  // check_triggers

  const UsageKeywords: seq<string> := ["use when", "use for", "triggers", "invoke", "activate", "call this"]

  const TriggerCodes: set<Code> := {NoUsageContext, ShortDescription, NoTriggerExamples}

  predicate HasUsageContext(description: string) {
    AnyOccurs(UsageKeywords, Lower(description))
  }

  /** 0.4 for a usage keyword in the description, 0.2 for a description of at
      least 50 characters, 0.4 for a trigger phrase in the body; 0 without a
      parsed frontmatter. */
  function TriggerScore(fm: Option<Dict>, f: BodyFeatures): (r: real)
    ensures 0.0 <= r <= 1.0
  {
    match fm
    case None => 0.0
    case Some(d) =>
      var desc := Description(d);
      MinReal(1.0, Points(HasUsageContext(desc), 0.4) + Points(|desc| >= 50, 0.2) + Points(f.hasTriggerPhrase, 0.4))
  }

  /** `issues` after `check_triggers` has appended to `prev`. */
  function TriggerIssues(prev: seq<Issue>, fm: Option<Dict>, f: BodyFeatures): seq<Issue> {
    match fm
    case None => prev
    case Some(d) =>
      var desc := Description(d);
      prev + When(!HasUsageContext(desc), Issue(Warning, NoUsageContext, ""))
           + When(|desc| < 50, Issue(Warning, ShortDescription, ""))
           + When(!f.hasTriggerPhrase, Issue(Info, NoTriggerExamples, ""))
  }

  /** Only trigger codes are appended, and NO_USAGE_CONTEXT exactly when the
      description lacks every usage keyword. */
  lemma TriggerIssuesFacts(prev: seq<Issue>, fm: Option<Dict>, f: BodyFeatures)
    ensures Appends(prev, TriggerIssues(prev, fm, f), TriggerCodes)
    ensures HasCode(TriggerIssues(prev, fm, f), Warning, NoUsageContext) <==>
              HasCode(prev, Warning, NoUsageContext) || (fm.Some? && !HasUsageContext(Description(fm.value)))
  {
    if fm.Some? {
      var desc := Description(fm.value);
      var i1 := Issue(Warning, NoUsageContext, "");
      var i2 := Issue(Warning, ShortDescription, "");
      var i3 := Issue(Info, NoTriggerExamples, "");
      var a := prev + When(!HasUsageContext(desc), i1);
      var b := a + When(|desc| < 50, i2);
      var c := b + When(!f.hasTriggerPhrase, i3);
      AppendsWhen(prev, !HasUsageContext(desc), i1, TriggerCodes);
      AppendsWhen(a, |desc| < 50, i2, TriggerCodes);
      AppendsWhen(b, !f.hasTriggerPhrase, i3, TriggerCodes);
      AppendsTrans(prev, a, b, TriggerCodes);
      AppendsTrans(prev, b, c, TriggerCodes);
      HasCodeWhen(prev, !HasUsageContext(desc), i1, Warning, NoUsageContext);
      HasCodeWhen(a, |desc| < 50, i2, Warning, NoUsageContext);
      HasCodeWhen(b, !f.hasTriggerPhrase, i3, Warning, NoUsageContext);
    }
  }

  /** `check_triggers`; the trigger-phrase patterns are read from `f`. */
  method CheckTriggers(fm: Option<Dict>, f: BodyFeatures, issues: seq<Issue>)
    returns (score: real, issues': seq<Issue>)
    ensures score == TriggerScore(fm, f)
    ensures issues' == TriggerIssues(issues, fm, f)
    ensures 0.0 <= score <= 1.0
  {
    score := 0.0;
    issues' := issues;
    if fm.None? {
      return 0.0, issues';
    }
    var description := Description(fm.value);
    if HasUsageContext(description) {
      score := score + 0.4;
    } else {
      issues' := issues' + [Issue(Warning, NoUsageContext, "")];
    }
    if |description| < 50 {
      issues' := issues' + [Issue(Warning, ShortDescription, "")];
    } else {
      score := score + 0.2;
    }
    assert issues' == issues + When(!HasUsageContext(description), Issue(Warning, NoUsageContext, ""))
                             + When(|description| < 50, Issue(Warning, ShortDescription, ""));
    assert score == Points(HasUsageContext(description), 0.4) + Points(|description| >= 50, 0.2);
    if f.hasTriggerPhrase {
      score := score + 0.4;
    } else {
      issues' := issues' + [Issue(Info, NoTriggerExamples, "")];
    }
    score := MinReal(1.0, score);
  }

  /** Each missing bonus comes with its issue: the score is 1 exactly when
      the description has a usage keyword and 50 characters and the body a
      trigger phrase, which is exactly when no trigger issue is appended. */
  lemma TriggerFullIffNoIssues(prev: seq<Issue>, d: Dict, f: BodyFeatures)
    ensures TriggerScore(Some(d), f) == 1.0 <==>
              HasUsageContext(Description(d)) && |Description(d)| >= 50 && f.hasTriggerPhrase
    ensures TriggerScore(Some(d), f) == 1.0 <==> |TriggerIssues(prev, Some(d), f)| == |prev|
  {
  }

  // ---------------------------------------------------------------------------
  // check_actionability

  const VaguePhrases: seq<string> :=
    ["as needed", "if necessary", "when appropriate", "as applicable", "etc.", "and so on", "various"]

  const ImperativeVerbs: seq<string> :=
    ["run", "execute", "create", "add", "remove", "update", "check", "verify", "use"]

  const ActionabilityCodes: set<Code> := {NoSteps, NoCodeBlocks, VagueLanguage, FewImperatives}

  /** How many of the vague phrases occur in the lower-cased body. */
  function VagueCount(body: string): (r: nat)
    ensures r <= |VaguePhrases|
  {
    CountOccurring(VaguePhrases, Lower(body))
  }

  /** `sum(1 for w in words if w in hits)` */
  function CountIn(words: seq<string>, hits: set<string>): (r: nat)
    ensures r <= |words|
    ensures r == 0 <==> forall i :: 0 <= i < |words| ==> words[i] !in hits
    decreases |words|
  {
    if |words| == 0 then 0
    else
      var front := words[..|words| - 1];
      assert forall i :: 0 <= i < |front| ==> front[i] == words[i];
      CountIn(front, hits) + (if words[|words| - 1] in hits then 1 else 0)
  }

  /** How many of the imperative verbs occur as whole words. */
  function ImperativeCount(f: BodyFeatures): nat {
    CountIn(ImperativeVerbs, f.verbHits)
  }

  /** The vague-language term: minus 0.1 per vague phrase, counting at most
      three, when there are more than three; plus 0.2 otherwise. */
  function VagueTerm(vagueCount: nat): real {
    if vagueCount > 3 then -(0.1 * MinInt(vagueCount, 3) as real) else 0.2
  }

  /** The sum of the four parts before clamping. */
  function ActionabilityRaw(body: string, f: BodyFeatures): real {
    Points(f.hasSteps, 0.35) + Points(f.hasCodeBlock, 0.25) + VagueTerm(VagueCount(body))
    + Points(ImperativeCount(f) >= 3, 0.2)
  }

  function ActionabilityScore(body: string, f: BodyFeatures): (r: real)
    ensures 0.0 <= r <= 1.0
  {
    Clamp01(ActionabilityRaw(body, f))
  }

  /** `issues` after `check_actionability` has appended to `prev`. */
  function ActionabilityIssues(prev: seq<Issue>, body: string, f: BodyFeatures): seq<Issue> {
    prev + When(!f.hasSteps, Issue(Warning, NoSteps, ""))
         + When(!f.hasCodeBlock, Issue(Info, NoCodeBlocks, ""))
         + When(VagueCount(body) > 3, Issue(Warning, VagueLanguage, ""))
         + When(ImperativeCount(f) == 0, Issue(Info, FewImperatives, ""))
  }

  /** Only actionability codes are appended; NO_STEPS, VAGUE_LANGUAGE and
      FEW_IMPERATIVES exactly when their causes hold. */
  lemma ActionabilityIssuesFacts(prev: seq<Issue>, body: string, f: BodyFeatures)
    ensures Appends(prev, ActionabilityIssues(prev, body, f), ActionabilityCodes)
    ensures HasCode(ActionabilityIssues(prev, body, f), Warning, NoSteps) <==>
              HasCode(prev, Warning, NoSteps) || !f.hasSteps
    ensures HasCode(ActionabilityIssues(prev, body, f), Warning, VagueLanguage) <==>
              HasCode(prev, Warning, VagueLanguage) || VagueCount(body) > 3
    ensures HasCode(ActionabilityIssues(prev, body, f), Info, FewImperatives) <==>
              HasCode(prev, Info, FewImperatives) || ImperativeCount(f) == 0
  {
    var i1 := Issue(Warning, NoSteps, "");
    var i2 := Issue(Info, NoCodeBlocks, "");
    var i3 := Issue(Warning, VagueLanguage, "");
    var i4 := Issue(Info, FewImperatives, "");
    var c1, c2, c3, c4 := !f.hasSteps, !f.hasCodeBlock, VagueCount(body) > 3, ImperativeCount(f) == 0;
    var a := prev + When(c1, i1);
    var b := a + When(c2, i2);
    var c := b + When(c3, i3);
    var e := c + When(c4, i4);
    AppendsWhen(prev, c1, i1, ActionabilityCodes);
    AppendsWhen(a, c2, i2, ActionabilityCodes);
    AppendsWhen(b, c3, i3, ActionabilityCodes);
    AppendsWhen(c, c4, i4, ActionabilityCodes);
    AppendsTrans(prev, a, b, ActionabilityCodes);
    AppendsTrans(prev, b, c, ActionabilityCodes);
    AppendsTrans(prev, c, e, ActionabilityCodes);
    HasCodeWhen(prev, c1, i1, Warning, NoSteps);
    HasCodeWhen(a, c2, i2, Warning, NoSteps);
    HasCodeWhen(b, c3, i3, Warning, NoSteps);
    HasCodeWhen(c, c4, i4, Warning, NoSteps);
    HasCodeWhen(prev, c1, i1, Warning, VagueLanguage);
    HasCodeWhen(a, c2, i2, Warning, VagueLanguage);
    HasCodeWhen(b, c3, i3, Warning, VagueLanguage);
    HasCodeWhen(c, c4, i4, Warning, VagueLanguage);
    HasCodeWhen(prev, c1, i1, Info, FewImperatives);
    HasCodeWhen(a, c2, i2, Info, FewImperatives);
    HasCodeWhen(b, c3, i3, Info, FewImperatives);
    HasCodeWhen(c, c4, i4, Info, FewImperatives);
  }

  /** `check_actionability`; the step and code-fence patterns and the
      whole-word verb matches are read from `f`. */
  method CheckActionability(body: string, f: BodyFeatures, issues: seq<Issue>)
    returns (score: real, issues': seq<Issue>)
    ensures score == ActionabilityScore(body, f)
    ensures issues' == ActionabilityIssues(issues, body, f)
    ensures 0.0 <= score <= 1.0
  {
    score := 0.0;
    issues' := issues;
    if f.hasSteps {
      score := score + 0.35;
    } else {
      issues' := issues' + [Issue(Warning, NoSteps, "")];
    }
    if f.hasCodeBlock {
      score := score + 0.25;
    } else {
      issues' := issues' + [Issue(Info, NoCodeBlocks, "")];
    }
    assert issues' == issues + When(!f.hasSteps, Issue(Warning, NoSteps, ""))
                             + When(!f.hasCodeBlock, Issue(Info, NoCodeBlocks, ""));
    var vagueCount := CountOccurring(VaguePhrases, Lower(body));
    if vagueCount > 3 {
      issues' := issues' + [Issue(Warning, VagueLanguage, "")];
      score := score - 0.1 * MinInt(vagueCount, 3) as real;
    } else {
      score := score + 0.2;
    }
    assert issues' == issues + When(!f.hasSteps, Issue(Warning, NoSteps, ""))
                             + When(!f.hasCodeBlock, Issue(Info, NoCodeBlocks, ""))
                             + When(VagueCount(body) > 3, Issue(Warning, VagueLanguage, ""));
    var imperativeCount := CountIn(ImperativeVerbs, f.verbHits);
    if imperativeCount >= 3 {
      score := score + 0.2;
    } else if imperativeCount == 0 {
      issues' := issues' + [Issue(Info, FewImperatives, "")];
    }
    score := MaxReal(0.0, MinReal(1.0, score));
  }

  /** More than three vague phrases take exactly 0.3 off (so the score is at
      most 0.5), otherwise they add 0.2; the 0.2 verb bonus needs three
      distinct verbs; the raw sum never leaves [-0.3, 1], so only the lower
      clamp ever acts. */
  lemma ActionabilityParts(body: string, f: BodyFeatures)
    ensures VagueCount(body) > 3 ==> VagueTerm(VagueCount(body)) == -0.3 && ActionabilityScore(body, f) <= 0.5
    ensures VagueCount(body) <= 3 && f.hasSteps && f.hasCodeBlock && ImperativeCount(f) >= 3 ==>
              ActionabilityScore(body, f) == 1.0
    ensures ImperativeCount(f) < 3 ==> ActionabilityScore(body, f) <= 0.8
    ensures -0.3 <= ActionabilityRaw(body, f) <= 1.0
    ensures ActionabilityScore(body, f) == MaxReal(0.0, ActionabilityRaw(body, f))
  {
  }

  // ---------------------------------------------------------------------------
  // check_tool_refs

  const ToolKeywords: seq<string> := ["mcp", "tool", "api", "endpoint", "function", "command"]

  /** The fences the shell-block pattern ```(?:bash|shell|sh|zsh) matches. */
  const ShellFences: seq<string> := ["```bash", "```shell", "```sh", "```zsh"]

  const ToolRefsCodes: set<Code> := {BrokenScriptRef, ScriptsDirMissing, NoToolRefs}

  /** scripts/ exists and has at least one entry. */
  predicate ScriptsPresent(dir: SkillDir) {
    "scripts" in dir.paths && dir.scriptsNonEmpty
  }

  function ToolMentions(body: string): nat {
    CountOccurring(ToolKeywords, Lower(body))
  }

  predicate HasShellBlock(body: string) {
    AnyOccurs(ShellFences, body)
  }

  /** The points before the neutral-score rule. */
  function ToolRaw(dir: SkillDir, body: string, f: BodyFeatures): real {
    Points(ScriptsPresent(dir), 0.3) + Points(f.hasDocRefs, 0.3)
    + Points(ToolMentions(body) >= 2, 0.2) + Points(HasShellBlock(body), 0.2)
  }

  /** A raw total of 0 becomes the neutral 0.5. */
  function ToolRefsScore(dir: SkillDir, body: string, f: BodyFeatures): (r: real)
    ensures 0.2 <= r <= 1.0
  {
    var raw := ToolRaw(dir, body, f);
    if raw == 0.0 then 0.5 else MinReal(1.0, raw)
  }

  /** `prev` followed by one BROKEN_SCRIPT_REF error per reference
      (repetitions included) that is not an existing path, in order. */
  function BrokenRefIssues(prev: seq<Issue>, refs: seq<string>, paths: set<string>): (r: seq<Issue>)
    ensures |prev| <= |r| <= |prev| + |refs|
    decreases |refs|
  {
    if |refs| == 0 then prev
    else
      var last := refs[|refs| - 1];
      BrokenRefIssues(prev, refs[..|refs| - 1], paths) + When(last !in paths, Issue(Error, BrokenScriptRef, last))
  }

  /** The errors appended are BROKEN_SCRIPT_REF errors, and an issue is among
      them exactly when it names a reference that is not an existing path. */
  lemma {:induction false} BrokenRefIssuesFacts(prev: seq<Issue>, refs: seq<string>, paths: set<string>, x: Issue)
    ensures Appends(prev, BrokenRefIssues(prev, refs, paths), {BrokenScriptRef})
    ensures x in BrokenRefIssues(prev, refs, paths) <==>
              x in prev || (x == Issue(Error, BrokenScriptRef, x.subject) && x.subject in refs && x.subject !in paths)
    decreases |refs|
  {
    if |refs| > 0 {
      var front := refs[..|refs| - 1];
      var last := refs[|refs| - 1];
      assert refs == front + [last];
      BrokenRefIssuesFacts(prev, front, paths, x);
      AppendsWhen(BrokenRefIssues(prev, front, paths), last !in paths, Issue(Error, BrokenScriptRef, last), {BrokenScriptRef});
      AppendsTrans(prev, BrokenRefIssues(prev, front, paths), BrokenRefIssues(prev, refs, paths), {BrokenScriptRef});
    }
  }

  /** The references, or the missing-directory error, before NO_TOOL_REFS. */
  function ScriptRefIssues(prev: seq<Issue>, dir: SkillDir, f: BodyFeatures): seq<Issue> {
    if ScriptsPresent(dir) then BrokenRefIssues(prev, f.scriptRefs, dir.paths)
    else prev + When(f.scriptRefs != [], Issue(Error, ScriptsDirMissing, ""))
  }

  /** `issues` after `check_tool_refs` has appended to `prev`. */
  function ToolRefsIssues(prev: seq<Issue>, dir: SkillDir, body: string, f: BodyFeatures): seq<Issue> {
    ScriptRefIssues(prev, dir, f) + When(ToolRaw(dir, body, f) == 0.0, Issue(Info, NoToolRefs, ""))
  }

  /** `check_tool_refs`; the script-reference and doc-link patterns are read
      from `f`, existence of a referenced script from `dir.paths`. */
  method CheckToolRefs(dir: SkillDir, body: string, f: BodyFeatures, issues: seq<Issue>)
    returns (score: real, issues': seq<Issue>)
    ensures score == ToolRefsScore(dir, body, f)
    ensures issues' == ToolRefsIssues(issues, dir, body, f)
    ensures 0.0 < score <= 1.0
  {
    score := 0.0;
    issues' := issues;
    var scriptRefs := f.scriptRefs;
    if "scripts" in dir.paths && dir.scriptsNonEmpty {
      score := score + 0.3;
      issues' := FlagBrokenRefs(scriptRefs, dir.paths, issues');
    } else if |scriptRefs| > 0 {
      issues' := issues' + [Issue(Error, ScriptsDirMissing, "")];
    }
    assert issues' == ScriptRefIssues(issues, dir, f);
    assert score == Points(ScriptsPresent(dir), 0.3);
    if f.hasDocRefs {
      score := score + 0.3;
    }
    var toolMentions := CountOccurring(ToolKeywords, Lower(body));
    if toolMentions >= 2 {
      score := score + 0.2;
    }
    if AnyOccurs(ShellFences, body) {
      score := score + 0.2;
    }
    assert score == ToolRaw(dir, body, f);
    if score == 0.0 {
      issues' := issues' + [Issue(Info, NoToolRefs, "")];
      score := 0.5;
    }
    score := MinReal(1.0, score);
  }

  /** The loop over the script references: a BROKEN_SCRIPT_REF error for
      each one that is not an existing path. */
  method FlagBrokenRefs(refs: seq<string>, paths: set<string>, issues: seq<Issue>) returns (issues': seq<Issue>)
    ensures issues' == BrokenRefIssues(issues, refs, paths)
  {
    issues' := issues;
    for i := 0 to |refs|
      invariant issues' == BrokenRefIssues(issues, refs[..i], paths)
    {
      ghost var upto := refs[..i + 1];
      assert upto[..|upto| - 1] == refs[..i] && upto[|upto| - 1] == refs[i];
      if refs[i] !in paths {
        issues' := issues' + [Issue(Error, BrokenScriptRef, refs[i])];
      }
    }
    assert refs[..|refs|] == refs;
  }

  /** The tool score is never 0: a zero total becomes exactly 0.5 and comes
      with NO_TOOL_REFS; only reference codes are appended, broken-reference
      errors only when scripts/ has entries, and SCRIPTS_DIR_MISSING exactly
      when it has none but the body references scripts. */
  lemma ToolRefsRules(prev: seq<Issue>, dir: SkillDir, body: string, f: BodyFeatures)
    ensures 0.2 <= ToolRefsScore(dir, body, f) <= 1.0
    ensures ToolRaw(dir, body, f) == 0.0 ==> ToolRefsScore(dir, body, f) == 0.5
    ensures Appends(prev, ToolRefsIssues(prev, dir, body, f), ToolRefsCodes)
    ensures HasCode(ToolRefsIssues(prev, dir, body, f), Info, NoToolRefs) <==>
              HasCode(prev, Info, NoToolRefs) || ToolRaw(dir, body, f) == 0.0
    ensures HasCode(ToolRefsIssues(prev, dir, body, f), Error, ScriptsDirMissing) <==>
              HasCode(prev, Error, ScriptsDirMissing) || (!ScriptsPresent(dir) && f.scriptRefs != [])
    ensures !ScriptsPresent(dir) ==>
              (HasCode(ToolRefsIssues(prev, dir, body, f), Error, BrokenScriptRef) <==> HasCode(prev, Error, BrokenScriptRef))
  {
    var a := ScriptRefIssues(prev, dir, f);
    ScriptRefStage(prev, dir, f);
    NoToolRefsStage(prev, a, ToolRefsIssues(prev, dir, body, f), ToolRaw(dir, body, f) == 0.0);
  }

  /** The script-reference part of `check_tool_refs`. */
  lemma ScriptRefStage(prev: seq<Issue>, dir: SkillDir, f: BodyFeatures)
    ensures var a := ScriptRefIssues(prev, dir, f);
      && Appends(prev, a, ToolRefsCodes)
      && (HasCode(a, Info, NoToolRefs) <==> HasCode(prev, Info, NoToolRefs))
      && (HasCode(a, Error, ScriptsDirMissing) <==>
            HasCode(prev, Error, ScriptsDirMissing) || (!ScriptsPresent(dir) && f.scriptRefs != []))
      && (!ScriptsPresent(dir) ==> (HasCode(a, Error, BrokenScriptRef) <==> HasCode(prev, Error, BrokenScriptRef)))
  {
    var a := ScriptRefIssues(prev, dir, f);
    var missing := Issue(Error, ScriptsDirMissing, "");
    if ScriptsPresent(dir) {
      BrokenRefIssuesFacts(prev, f.scriptRefs, dir.paths, missing);
      HasCodeAppends(prev, a, {BrokenScriptRef}, Info, NoToolRefs);
      HasCodeAppends(prev, a, {BrokenScriptRef}, Error, ScriptsDirMissing);
      assert Appends(prev, a, ToolRefsCodes);
    } else {
      AppendsWhen(prev, f.scriptRefs != [], missing, {ScriptsDirMissing});
      HasCodeWhen(prev, f.scriptRefs != [], missing, Info, NoToolRefs);
      HasCodeWhen(prev, f.scriptRefs != [], missing, Error, ScriptsDirMissing);
      HasCodeWhen(prev, f.scriptRefs != [], missing, Error, BrokenScriptRef);
      assert Appends(prev, a, ToolRefsCodes);
    }
  }

  /** The NO_TOOL_REFS notice, appended after the script references. */
  lemma NoToolRefsStage(prev: seq<Issue>, a: seq<Issue>, r: seq<Issue>, c: bool)
    requires Appends(prev, a, ToolRefsCodes)
    requires r == a + When(c, Issue(Info, NoToolRefs, ""))
    ensures Appends(prev, r, ToolRefsCodes)
    ensures HasCode(r, Info, NoToolRefs) <==> HasCode(a, Info, NoToolRefs) || c
    ensures HasCode(r, Error, ScriptsDirMissing) <==> HasCode(a, Error, ScriptsDirMissing)
    ensures HasCode(r, Error, BrokenScriptRef) <==> HasCode(a, Error, BrokenScriptRef)
  {
    var issue := Issue(Info, NoToolRefs, "");
    AppendsWhen(a, c, issue, ToolRefsCodes);
    AppendsTrans(prev, a, r, ToolRefsCodes);
    HasCodeWhen(a, c, issue, Info, NoToolRefs);
    HasCodeWhen(a, c, issue, Error, ScriptsDirMissing);
    HasCodeWhen(a, c, issue, Error, BrokenScriptRef);
  }

  /** With a non-empty scripts/, there is one BROKEN_SCRIPT_REF error for
      each referenced path that does not exist, and no other. */
  lemma BrokenRefPerPath(prev: seq<Issue>, dir: SkillDir, body: string, f: BodyFeatures, ref: string)
    requires ScriptsPresent(dir)
    ensures Issue(Error, BrokenScriptRef, ref) in ToolRefsIssues(prev, dir, body, f) <==>
              Issue(Error, BrokenScriptRef, ref) in prev || (ref in f.scriptRefs && ref !in dir.paths)
  {
    BrokenRefIssuesFacts(prev, f.scriptRefs, dir.paths, Issue(Error, BrokenScriptRef, ref));
  }

  // ---------------------------------------------------------------------------
  // check_examples

  const ExamplesCodes: set<Code> := {PlaceholdersFound, ManyPlaceholders, NoExampleSection, NoOutputFormat}

  /** The placeholder term: 0.4 without placeholders, 0.2 for one or two, 0 for more. */
  function PlaceholderTerm(placeholderCount: nat): real {
    if placeholderCount == 0 then 0.4 else if placeholderCount <= 2 then 0.2 else 0.0
  }

  /** The placeholder term, 0.3 for an example section and 0.3 for an output format. */
  function ExamplesScore(f: BodyFeatures): (r: real)
    ensures 0.0 <= r <= 1.0
  {
    MinReal(1.0, PlaceholderTerm(f.placeholderCount) + Points(f.hasExampleSection, 0.3) + Points(f.hasOutputFormat, 0.3))
  }

  /** `issues` after `check_examples` has appended to `prev`. */
  function ExamplesIssues(prev: seq<Issue>, f: BodyFeatures): seq<Issue> {
    prev + When(1 <= f.placeholderCount <= 2, Issue(Warning, PlaceholdersFound, ""))
         + When(f.placeholderCount > 2, Issue(Error, ManyPlaceholders, ""))
         + When(!f.hasExampleSection, Issue(Info, NoExampleSection, ""))
         + When(!f.hasOutputFormat, Issue(Info, NoOutputFormat, ""))
  }

  /** Only example codes are appended; PLACEHOLDERS_FOUND for one or two
      placeholders and MANY_PLACEHOLDERS for more. */
  lemma ExamplesIssuesFacts(prev: seq<Issue>, f: BodyFeatures)
    ensures Appends(prev, ExamplesIssues(prev, f), ExamplesCodes)
    ensures HasCode(ExamplesIssues(prev, f), Warning, PlaceholdersFound) <==>
              HasCode(prev, Warning, PlaceholdersFound) || 1 <= f.placeholderCount <= 2
    ensures HasCode(ExamplesIssues(prev, f), Error, ManyPlaceholders) <==>
              HasCode(prev, Error, ManyPlaceholders) || f.placeholderCount >= 3
  {
    var i1 := Issue(Warning, PlaceholdersFound, "");
    var i2 := Issue(Error, ManyPlaceholders, "");
    var i3 := Issue(Info, NoExampleSection, "");
    var i4 := Issue(Info, NoOutputFormat, "");
    var c1, c2, c3, c4 := 1 <= f.placeholderCount <= 2, f.placeholderCount > 2, !f.hasExampleSection, !f.hasOutputFormat;
    var a := prev + When(c1, i1);
    var b := a + When(c2, i2);
    var c := b + When(c3, i3);
    var e := c + When(c4, i4);
    AppendsWhen(prev, c1, i1, ExamplesCodes);
    AppendsWhen(a, c2, i2, ExamplesCodes);
    AppendsWhen(b, c3, i3, ExamplesCodes);
    AppendsWhen(c, c4, i4, ExamplesCodes);
    AppendsTrans(prev, a, b, ExamplesCodes);
    AppendsTrans(prev, b, c, ExamplesCodes);
    AppendsTrans(prev, c, e, ExamplesCodes);
    HasCodeWhen(prev, c1, i1, Warning, PlaceholdersFound);
    HasCodeWhen(a, c2, i2, Warning, PlaceholdersFound);
    HasCodeWhen(b, c3, i3, Warning, PlaceholdersFound);
    HasCodeWhen(c, c4, i4, Warning, PlaceholdersFound);
    HasCodeWhen(prev, c1, i1, Error, ManyPlaceholders);
    HasCodeWhen(a, c2, i2, Error, ManyPlaceholders);
    HasCodeWhen(b, c3, i3, Error, ManyPlaceholders);
    HasCodeWhen(c, c4, i4, Error, ManyPlaceholders);
  }

  /** `check_examples`; the placeholder, example-section and output-format
      patterns are read from `f`. */
  method CheckExamples(f: BodyFeatures, issues: seq<Issue>) returns (score: real, issues': seq<Issue>)
    ensures score == ExamplesScore(f)
    ensures issues' == ExamplesIssues(issues, f)
    ensures 0.0 <= score <= 1.0
  {
    score := 0.0;
    issues' := issues;
    var placeholderCount := f.placeholderCount;
    if placeholderCount == 0 {
      score := score + 0.4;
    } else if placeholderCount <= 2 {
      issues' := issues' + [Issue(Warning, PlaceholdersFound, "")];
      score := score + 0.2;
    } else {
      issues' := issues' + [Issue(Error, ManyPlaceholders, "")];
    }
    assert issues' == issues + When(1 <= placeholderCount <= 2, Issue(Warning, PlaceholdersFound, ""))
                             + When(placeholderCount > 2, Issue(Error, ManyPlaceholders, ""));
    assert score == PlaceholderTerm(placeholderCount);
    if f.hasExampleSection {
      score := score + 0.3;
    } else {
      issues' := issues' + [Issue(Info, NoExampleSection, "")];
    }
    assert issues' == issues + When(1 <= placeholderCount <= 2, Issue(Warning, PlaceholdersFound, ""))
                             + When(placeholderCount > 2, Issue(Error, ManyPlaceholders, ""))
                             + When(!f.hasExampleSection, Issue(Info, NoExampleSection, ""));
    if f.hasOutputFormat {
      score := score + 0.3;
    } else {
      issues' := issues' + [Issue(Info, NoOutputFormat, "")];
    }
    score := MinReal(1.0, score);
  }

  /** The three parts never sum past 1, so the cap never acts; three or more
      placeholders contribute nothing, one or two contribute 0.2; the score
      is 1 exactly when no example issue is appended. */
  lemma PlaceholderTiers(prev: seq<Issue>, f: BodyFeatures)
    ensures ExamplesScore(f) == PlaceholderTerm(f.placeholderCount) + Points(f.hasExampleSection, 0.3)
                                + Points(f.hasOutputFormat, 0.3)
    ensures f.placeholderCount >= 3 ==> ExamplesScore(f) <= 0.6
    ensures 1 <= f.placeholderCount <= 2 ==> 0.2 <= ExamplesScore(f) <= 0.8
    ensures ExamplesScore(f) == 1.0 <==> |ExamplesIssues(prev, f)| == |prev|
  {
  }
}
