/** `evaluate_skill`: the parser and the five checkers run in order over one
    shared issue list, then the weighted overall score, the badge and the
    recommendations derived from the collected issue codes. */
module Evaluate {
  import opened Base
  import opened Text
  import opened Issues
  import opened Frontmatter
  import opened Checks

  /** The five dimension scores. */
  datatype Scores = Scores(structure: real, triggers: real, actionability: real, toolRefs: real, examples: real)

  predicate InUnit(x: real) { 0.0 <= x <= 1.0 }

  predicate ScoresInUnit(s: Scores) {
    InUnit(s.structure) && InUnit(s.triggers) && InUnit(s.actionability) && InUnit(s.toolRefs) && InUnit(s.examples)
  }

  /** `Scores.overall`: structure 20%, triggers 15%, actionability 25%, tool
      references 20%, examples 20%. */
  function Overall(s: Scores): (r: real)
    ensures ScoresInUnit(s) ==> InUnit(r)
  {
    s.structure * 0.20 + s.triggers * 0.15 + s.actionability * 0.25 + s.toolRefs * 0.20 + s.examples * 0.20
  }

  /** The weights sum to 1, so equal dimension scores give that score, and
      raising one dimension never lowers the overall score. */
  lemma OverallWeights(x: real, s: Scores, t: Scores)
    ensures Overall(Scores(x, x, x, x, x)) == x
    ensures (s.structure <= t.structure && s.triggers <= t.triggers && s.actionability <= t.actionability
             && s.toolRefs <= t.toolRefs && s.examples <= t.examples) ==> Overall(s) <= Overall(t)
  {
  }

  datatype Badge = Gold | Silver | Bronze | Fail

  function BadgeRank(b: Badge): nat {
    match b
    case Fail => 0
    case Bronze => 1
    case Silver => 2
    case Gold => 3
  }

  /** The badge step function: each badge covers one interval of the overall score. */
  function BadgeFor(overall: real): (b: Badge)
    ensures b == Gold <==> 0.85 <= overall
    ensures b == Silver <==> 0.70 <= overall < 0.85
    ensures b == Bronze <==> 0.50 <= overall < 0.70
    ensures b == Fail <==> overall < 0.50
  {
    if overall >= 0.85 then Gold
    else if overall >= 0.70 then Silver
    else if overall >= 0.50 then Bronze
    else Fail
  }

  /** A higher overall score never earns a lower badge. */
  lemma BadgeMonotone(x: real, y: real)
    requires x <= y
    ensures BadgeRank(BadgeFor(x)) <= BadgeRank(BadgeFor(y))
  {
  }

  /** The five recommendations, in the order `evaluate_skill` considers them. */
  datatype Advice =
    | RemoveDuplicateFrontmatter
    | AddRequiredFields
    | AddUsageClause
    | AddSteps
    | ReplacePlaceholders

  function AdviceRank(a: Advice): nat {
    match a
    case RemoveDuplicateFrontmatter => 0
    case AddRequiredFields => 1
    case AddUsageClause => 2
    case AddSteps => 3
    case ReplacePlaceholders => 4
  }

  /** The issue codes, with their severities, that call for each recommendation. */
  predicate Triggered(issues: seq<Issue>, a: Advice) {
    match a
    case RemoveDuplicateFrontmatter => HasCode(issues, Error, DuplicateFrontmatter)
    case AddRequiredFields => HasCode(issues, Error, MissingName) || HasCode(issues, Error, MissingDescription)
    case AddUsageClause => HasCode(issues, Warning, NoUsageContext)
    case AddSteps => HasCode(issues, Warning, NoSteps)
    case ReplacePlaceholders => HasCode(issues, Error, ManyPlaceholders) || HasCode(issues, Warning, PlaceholdersFound)
  }

  function Advise(c: bool, a: Advice): seq<Advice> {
    if c then [a] else []
  }

  /** The five recommendations in the order of the `if` chain. */
  const AllAdvice: seq<Advice> :=
    [RemoveDuplicateFrontmatter, AddRequiredFields, AddUsageClause, AddSteps, ReplacePlaceholders]

  /** The candidates whose codes were collected, in candidate order. */
  function Select(candidates: seq<Advice>, issues: seq<Issue>): (r: seq<Advice>)
    ensures |r| <= |candidates|
    decreases |candidates|
  {
    if |candidates| == 0 then []
    else
      var last := candidates[|candidates| - 1];
      Select(candidates[..|candidates| - 1], issues) + Advise(Triggered(issues, last), last)
  }

  /** The recommendation list `evaluate_skill` builds from the collected issues. */
  function Recommendations(issues: seq<Issue>): seq<Advice> {
    Select(AllAdvice, issues)
  }

  /** Strictly in the order of the `if` chain (so no recommendation repeats). */
  predicate InAdviceOrder(r: seq<Advice>) {
    forall i, j :: 0 <= i < j < |r| ==> AdviceRank(r[i]) < AdviceRank(r[j])
  }

  lemma {:induction false} SelectMembers(candidates: seq<Advice>, issues: seq<Issue>, a: Advice)
    ensures a in Select(candidates, issues) <==> a in candidates && Triggered(issues, a)
    decreases |candidates|
  {
    if |candidates| > 0 {
      var front := candidates[..|candidates| - 1];
      assert candidates == front + [candidates[|candidates| - 1]];
      SelectMembers(front, issues, a);
    }
  }

  /** Selecting from ordered candidates keeps them ordered. */
  lemma {:induction false} SelectOrder(candidates: seq<Advice>, issues: seq<Issue>)
    requires InAdviceOrder(candidates)
    ensures InAdviceOrder(Select(candidates, issues))
    decreases |candidates|
  {
    if |candidates| > 0 {
      var front := candidates[..|candidates| - 1];
      var last := candidates[|candidates| - 1];
      var r := Select(front, issues);
      var r' := r + Advise(Triggered(issues, last), last);
      SelectOrder(front, issues);
      forall i, j | 0 <= i < j < |r'|
        ensures AdviceRank(r'[i]) < AdviceRank(r'[j])
      {
        if j >= |r| {
          assert r'[i] in r;
          SelectMembers(front, issues, r'[i]);
          var k :| 0 <= k < |front| && front[k] == r'[i];
          assert candidates[k] == front[k];
        }
      }
    }
  }

  /** At most five recommendations, in the fixed order, and each present
      exactly when its code is present with the stated severity. */
  lemma RecommendationsFacts(issues: seq<Issue>, a: Advice)
    ensures |Recommendations(issues)| <= 5
    ensures InAdviceOrder(Recommendations(issues))
    ensures a in Recommendations(issues) <==> Triggered(issues, a)
  {
    assert InAdviceOrder(AllAdvice);
    SelectOrder(AllAdvice, issues);
    SelectMembers(AllAdvice, issues, a);
    assert a in AllAdvice by {
      assert AllAdvice[AdviceRank(a)] == a;
    }
  }

  /** The report fields the model keeps (the path and the timestamp are left out). */
  datatype Report = Report(skillId: string, scores: Scores, issues: seq<Issue>, recommendations: seq<Advice>, badge: Badge)

  /** The issue list after the parser and the five checkers, in the order
      `evaluate_skill` runs them. */
  function CheckedIssues(dir: SkillDir, p: Parsed, f: BodyFeatures): seq<Issue> {
    var s1 := StructureIssues(p.issues, dir, p.fields);
    var s2 := TriggerIssues(s1, p.fields, f);
    var s3 := ActionabilityIssues(s2, p.body, f);
    var s4 := ToolRefsIssues(s3, dir, p.body, f);
    ExamplesIssues(s4, f)
  }

  function CheckedScores(dir: SkillDir, p: Parsed, f: BodyFeatures): Scores {
    Scores(StructureScore(dir, p.fields), TriggerScore(p.fields, f), ActionabilityScore(p.body, f),
           ToolRefsScore(dir, p.body, f), ExamplesScore(f))
  }

  /** Reference definition of `evaluate_skill`; `probe` gives what the
      regular expressions of the checkers find in a body. Without SKILL.md
      the report keeps its defaults: zero scores, no recommendations, a
      failing badge and the one NO_SKILL_MD error. */
  function Evaluation(skillId: string, dir: SkillDir, probe: string -> BodyFeatures): Report {
    match dir.skillMd
    case None => Report(skillId, Scores(0.0, 0.0, 0.0, 0.0, 0.0), [Issue(Error, NoSkillMd, "")], [], Fail)
    case Some(content) =>
      var p := Parse(content);
      var f := probe(p.body);
      var scores := CheckedScores(dir, p, f);
      var issues := CheckedIssues(dir, p, f);
      Report(skillId, scores, issues, Recommendations(issues), BadgeFor(Overall(scores)))
  }

  /** `evaluate_skill` */
  method EvaluateSkill(skillId: string, dir: SkillDir, probe: string -> BodyFeatures) returns (report: Report)
    ensures report == Evaluation(skillId, dir, probe)
  {
    if dir.skillMd.None? {
      return Report(skillId, Scores(0.0, 0.0, 0.0, 0.0, 0.0), [Issue(Error, NoSkillMd, "")], [], Fail);
    }
    var content := dir.skillMd.value;
    var p := ParseFrontmatter(content);
    var f := probe(p.body);
    var issues := p.issues;
    var structure, triggers, actionability, toolRefs, examples;
    structure, issues := CheckStructure(dir, p.fields, issues);
    triggers, issues := CheckTriggers(p.fields, f, issues);
    actionability, issues := CheckActionability(p.body, f, issues);
    toolRefs, issues := CheckToolRefs(dir, p.body, f, issues);
    examples, issues := CheckExamples(f, issues);
    var scores := Scores(structure, triggers, actionability, toolRefs, examples);
    var overall := Overall(scores);
    var badge;
    if overall >= 0.85 {
      badge := Gold;
    } else if overall >= 0.70 {
      badge := Silver;
    } else if overall >= 0.50 {
      badge := Bronze;
    } else {
      badge := Fail;
    }
    var recommendations := Recommend(issues);
    assert issues == CheckedIssues(dir, p, f);
    assert scores == CheckedScores(dir, p, f);
    report := Report(skillId, scores, issues, recommendations, badge);
  }

  /** The `if` chain of `evaluate_skill` that appends the recommendations. */
  method Recommend(issues: seq<Issue>) returns (recommendations: seq<Advice>)
    ensures recommendations == Recommendations(issues)
  {
    var duplicate := HasCode(issues, Error, DuplicateFrontmatter);
    var required := HasCode(issues, Error, MissingName) || HasCode(issues, Error, MissingDescription);
    var usage := HasCode(issues, Warning, NoUsageContext);
    var steps := HasCode(issues, Warning, NoSteps);
    var placeholders := HasCode(issues, Error, ManyPlaceholders) || HasCode(issues, Warning, PlaceholdersFound);
    recommendations := [];
    if duplicate {
      recommendations := recommendations + [RemoveDuplicateFrontmatter];
    }
    assert recommendations == Advise(duplicate, RemoveDuplicateFrontmatter);
    ghost var r1 := recommendations;
    if required {
      recommendations := recommendations + [AddRequiredFields];
    }
    assert recommendations == r1 + Advise(required, AddRequiredFields);
    ghost var r2 := recommendations;
    if usage {
      recommendations := recommendations + [AddUsageClause];
    }
    assert recommendations == r2 + Advise(usage, AddUsageClause);
    ghost var r3 := recommendations;
    if steps {
      recommendations := recommendations + [AddSteps];
    }
    assert recommendations == r3 + Advise(steps, AddSteps);
    ghost var r4 := recommendations;
    if placeholders {
      recommendations := recommendations + [ReplacePlaceholders];
    }
    assert recommendations == r4 + Advise(placeholders, ReplacePlaceholders);
    RecommendationsChain(issues);
  }

  /** The recommendations are the `if` chain's five tests, in order. */
  lemma RecommendationsChain(issues: seq<Issue>)
    ensures Recommendations(issues) ==
              Advise(Triggered(issues, RemoveDuplicateFrontmatter), RemoveDuplicateFrontmatter)
              + Advise(Triggered(issues, AddRequiredFields), AddRequiredFields)
              + Advise(Triggered(issues, AddUsageClause), AddUsageClause)
              + Advise(Triggered(issues, AddSteps), AddSteps)
              + Advise(Triggered(issues, ReplacePlaceholders), ReplacePlaceholders)
  {
    SelectFive(AllAdvice, issues);
  }

  lemma SelectFive(c: seq<Advice>, issues: seq<Issue>)
    requires |c| == 5
    ensures Select(c, issues) ==
              Advise(Triggered(issues, c[0]), c[0]) + Advise(Triggered(issues, c[1]), c[1])
              + Advise(Triggered(issues, c[2]), c[2]) + Advise(Triggered(issues, c[3]), c[3])
              + Advise(Triggered(issues, c[4]), c[4])
  {
    assert c[..0] == [];
    SelectNext(c, issues, 0);
    SelectNext(c, issues, 1);
    SelectNext(c, issues, 2);
    SelectNext(c, issues, 3);
    SelectNext(c, issues, 4);
    assert c[..5] == c;
  }

  lemma SelectNext(candidates: seq<Advice>, issues: seq<Issue>, n: int)
    requires 0 <= n < |candidates|
    ensures Select(candidates[..n + 1], issues) ==
              Select(candidates[..n], issues) + Advise(Triggered(issues, candidates[n]), candidates[n])
  {
    assert candidates[..n + 1][..n] == candidates[..n];
  }

  /** Every dimension score and the overall score of a report lie in [0, 1],
      the tool score is never 0 once SKILL.md exists, and the badge is the
      step function of the overall score. */
  lemma ReportBounds(skillId: string, dir: SkillDir, probe: string -> BodyFeatures)
    ensures ScoresInUnit(Evaluation(skillId, dir, probe).scores)
    ensures InUnit(Overall(Evaluation(skillId, dir, probe).scores))
    ensures dir.skillMd.Some? ==> Evaluation(skillId, dir, probe).scores.toolRefs >= 0.2
    ensures Evaluation(skillId, dir, probe).badge == BadgeFor(Overall(Evaluation(skillId, dir, probe).scores))
  {
    if dir.skillMd.Some? {
      var p := Parse(dir.skillMd.value);
      var f := probe(p.body);
      assert Evaluation(skillId, dir, probe).scores == CheckedScores(dir, p, f);
    }
  }

  /** What each recommendation means in terms of the skill itself, once
      SKILL.md exists. */
  predicate Cause(a: Advice, p: Parsed, f: BodyFeatures) {
    match a
    case RemoveDuplicateFrontmatter => p.fields.Some? && StartsWith(p.body, Delimiter)
    case AddRequiredFields => p.fields.Some? && (!HasKey(p.fields.value, "name") || !HasKey(p.fields.value, "description"))
    case AddUsageClause => p.fields.Some? && !HasUsageContext(Description(p.fields.value))
    case AddSteps => !f.hasSteps
    case ReplacePlaceholders => f.placeholderCount >= 1
  }

  /** Each stage appends only its own codes. */
  lemma StagesAppend(dir: SkillDir, p: Parsed, f: BodyFeatures)
    ensures var s1 := StructureIssues(p.issues, dir, p.fields);
      var s2 := TriggerIssues(s1, p.fields, f);
      var s3 := ActionabilityIssues(s2, p.body, f);
      var s4 := ToolRefsIssues(s3, dir, p.body, f);
      && Appends(p.issues, s1, StructureCodes) && Appends(s1, s2, TriggerCodes)
      && Appends(s2, s3, ActionabilityCodes) && Appends(s3, s4, ToolRefsCodes)
      && Appends(s4, ExamplesIssues(s4, f), ExamplesCodes)
  {
    var s1 := StructureIssues(p.issues, dir, p.fields);
    var s2 := TriggerIssues(s1, p.fields, f);
    var s3 := ActionabilityIssues(s2, p.body, f);
    var s4 := ToolRefsIssues(s3, dir, p.body, f);
    StructureIssuesFacts(p.issues, dir, p.fields);
    TriggerIssuesFacts(s1, p.fields, f);
    ActionabilityIssuesFacts(s2, p.body, f);
    ToolRefsRules(s3, dir, p.body, f);
    ExamplesIssuesFacts(s4, f);
  }

  /** Once SKILL.md exists, each recommendation is given exactly when its
      cause holds: a second frontmatter block, a missing required field, a
      description without usage keywords, a body without steps, or at least
      one placeholder. */
  lemma AdviceMatchesFindings(skillId: string, dir: SkillDir, probe: string -> BodyFeatures, a: Advice)
    requires dir.skillMd.Some?
    ensures var p := Parse(dir.skillMd.value);
      a in Evaluation(skillId, dir, probe).recommendations <==> Cause(a, p, probe(p.body))
  {
    var p := Parse(dir.skillMd.value);
    var f := probe(p.body);
    assert Evaluation(skillId, dir, probe).recommendations == Recommendations(CheckedIssues(dir, p, f));
    RecommendationsFacts(CheckedIssues(dir, p, f), a);
    AdviceFromIssues(dir, dir.skillMd.value, f, a);
  }

  /** The codes behind each recommendation, traced back through the checkers
      to their causes. */
  lemma AdviceFromIssues(dir: SkillDir, content: string, f: BodyFeatures, a: Advice)
    requires dir.skillMd.Some?
    ensures Triggered(CheckedIssues(dir, Parse(content), f), a) <==> Cause(a, Parse(content), f)
  {
    var p := Parse(content);
    var s1 := StructureIssues(p.issues, dir, p.fields);
    var s2 := TriggerIssues(s1, p.fields, f);
    var s3 := ActionabilityIssues(s2, p.body, f);
    var s4 := ToolRefsIssues(s3, dir, p.body, f);
    var s5 := ExamplesIssues(s4, f);
    assert CheckedIssues(dir, p, f) == s5;
    ParseIssues(content);
    StagesAppend(dir, p, f);
    match a
    case RemoveDuplicateFrontmatter => DuplicateAdvice(p, s1, s2, s3, s4, s5);
    case AddRequiredFields => RequiredFieldsAdvice(dir, p, s1, s2, s3, s4, s5);
    case AddUsageClause => UsageAdvice(p, f, s1, s2, s3, s4, s5);
    case AddSteps =>
      ActionabilityIssuesFacts(s2, p.body, f);
      StepsAdvice(p, f, s1, s2, s3, s4, s5);
    case ReplacePlaceholders => PlaceholderAdvice(p, f, s1, s2, s3, s4, s5);
  }

  /** The stages of `CheckedIssues`, each appending its own codes. */
  predicate Staged(p: Parsed, s1: seq<Issue>, s2: seq<Issue>, s3: seq<Issue>, s4: seq<Issue>, s5: seq<Issue>) {
    && Appends([], p.issues, ParseCodes)
    && Appends(p.issues, s1, StructureCodes) && Appends(s1, s2, TriggerCodes)
    && Appends(s2, s3, ActionabilityCodes) && Appends(s3, s4, ToolRefsCodes) && Appends(s4, s5, ExamplesCodes)
  }

  lemma DuplicateAdvice(p: Parsed, s1: seq<Issue>, s2: seq<Issue>, s3: seq<Issue>, s4: seq<Issue>, s5: seq<Issue>)
    requires Staged(p, s1, s2, s3, s4, s5)
    ensures HasCode(s5, Error, DuplicateFrontmatter) <==> HasCode(p.issues, Error, DuplicateFrontmatter)
  {
    BeforeExamples(p, s1, s2, s3, s4, Error, DuplicateFrontmatter);
    HasCodeAppends(s4, s5, ExamplesCodes, Error, DuplicateFrontmatter);
  }

  lemma RequiredFieldsAdvice(dir: SkillDir, p: Parsed, s1: seq<Issue>, s2: seq<Issue>, s3: seq<Issue>,
                             s4: seq<Issue>, s5: seq<Issue>)
    requires Staged(p, s1, s2, s3, s4, s5) && s1 == StructureIssues(p.issues, dir, p.fields) && dir.skillMd.Some?
    ensures HasCode(s5, Error, MissingName) || HasCode(s5, Error, MissingDescription) <==>
              p.fields.Some? && (!HasKey(p.fields.value, "name") || !HasKey(p.fields.value, "description"))
  {
    StructureIssuesFacts(p.issues, dir, p.fields);
    HasCodeAppends([], p.issues, ParseCodes, Error, MissingName);
    HasCodeAppends([], p.issues, ParseCodes, Error, MissingDescription);
    AfterStructure(s1, s2, s3, s4, s5, Error, MissingName);
    AfterStructure(s1, s2, s3, s4, s5, Error, MissingDescription);
  }

  lemma UsageAdvice(p: Parsed, f: BodyFeatures, s1: seq<Issue>, s2: seq<Issue>, s3: seq<Issue>,
                    s4: seq<Issue>, s5: seq<Issue>)
    requires Staged(p, s1, s2, s3, s4, s5) && s2 == TriggerIssues(s1, p.fields, f)
    ensures HasCode(s5, Warning, NoUsageContext) <==> p.fields.Some? && !HasUsageContext(Description(p.fields.value))
  {
    TriggerIssuesFacts(s1, p.fields, f);
    BeforeTriggers(p, s1, Warning, NoUsageContext);
    AfterTriggers(s2, s3, s4, s5, Warning, NoUsageContext);
  }

  lemma StepsAdvice(p: Parsed, f: BodyFeatures, s1: seq<Issue>, s2: seq<Issue>, s3: seq<Issue>,
                    s4: seq<Issue>, s5: seq<Issue>)
    requires Staged(p, s1, s2, s3, s4, s5)
    requires HasCode(s3, Warning, NoSteps) <==> HasCode(s2, Warning, NoSteps) || !f.hasSteps
    ensures HasCode(s5, Warning, NoSteps) <==> !f.hasSteps
  {
    BeforeTriggers(p, s1, Warning, NoSteps);
    HasCodeAppends(s1, s2, TriggerCodes, Warning, NoSteps);
    HasCodeAppends(s3, s4, ToolRefsCodes, Warning, NoSteps);
    HasCodeAppends(s4, s5, ExamplesCodes, Warning, NoSteps);
  }

  lemma PlaceholderAdvice(p: Parsed, f: BodyFeatures, s1: seq<Issue>, s2: seq<Issue>, s3: seq<Issue>,
                          s4: seq<Issue>, s5: seq<Issue>)
    requires Staged(p, s1, s2, s3, s4, s5) && s5 == ExamplesIssues(s4, f)
    ensures HasCode(s5, Error, ManyPlaceholders) || HasCode(s5, Warning, PlaceholdersFound) <==> f.placeholderCount >= 1
  {
    ExamplesIssuesFacts(s4, f);
    HasCodeAppends([], p.issues, ParseCodes, Error, ManyPlaceholders);
    HasCodeAppends([], p.issues, ParseCodes, Warning, PlaceholdersFound);
    BeforeExamples(p, s1, s2, s3, s4, Error, ManyPlaceholders);
    BeforeExamples(p, s1, s2, s3, s4, Warning, PlaceholdersFound);
  }

  lemma BeforeTriggers(p: Parsed, s1: seq<Issue>, severity: Severity, code: Code)
    requires Appends([], p.issues, ParseCodes) && Appends(p.issues, s1, StructureCodes)
    requires code !in ParseCodes && code !in StructureCodes
    ensures !HasCode(s1, severity, code)
  {
    HasCodeAppends([], p.issues, ParseCodes, severity, code);
    HasCodeAppends(p.issues, s1, StructureCodes, severity, code);
  }

  lemma AfterTriggers(s2: seq<Issue>, s3: seq<Issue>, s4: seq<Issue>, s5: seq<Issue>, severity: Severity, code: Code)
    requires Appends(s2, s3, ActionabilityCodes) && Appends(s3, s4, ToolRefsCodes) && Appends(s4, s5, ExamplesCodes)
    requires code !in ActionabilityCodes && code !in ToolRefsCodes && code !in ExamplesCodes
    ensures HasCode(s5, severity, code) <==> HasCode(s2, severity, code)
  {
    HasCodeAppends(s2, s3, ActionabilityCodes, severity, code);
    HasCodeAppends(s3, s4, ToolRefsCodes, severity, code);
    HasCodeAppends(s4, s5, ExamplesCodes, severity, code);
  }

  lemma AfterStructure(s1: seq<Issue>, s2: seq<Issue>, s3: seq<Issue>, s4: seq<Issue>, s5: seq<Issue>,
                       severity: Severity, code: Code)
    requires Appends(s1, s2, TriggerCodes)
    requires Appends(s2, s3, ActionabilityCodes) && Appends(s3, s4, ToolRefsCodes) && Appends(s4, s5, ExamplesCodes)
    requires code !in TriggerCodes && code !in ActionabilityCodes && code !in ToolRefsCodes && code !in ExamplesCodes
    ensures HasCode(s5, severity, code) <==> HasCode(s1, severity, code)
  {
    HasCodeAppends(s1, s2, TriggerCodes, severity, code);
    AfterTriggers(s2, s3, s4, s5, severity, code);
  }

  /** A code none of the checkers before check_examples emits is present
      after check_tool_refs exactly when the parser reported it. */
  lemma BeforeExamples(p: Parsed, s1: seq<Issue>, s2: seq<Issue>, s3: seq<Issue>, s4: seq<Issue>,
                       severity: Severity, code: Code)
    requires Appends(p.issues, s1, StructureCodes) && Appends(s1, s2, TriggerCodes)
    requires Appends(s2, s3, ActionabilityCodes) && Appends(s3, s4, ToolRefsCodes)
    requires code !in StructureCodes && code !in TriggerCodes && code !in ActionabilityCodes && code !in ToolRefsCodes
    ensures HasCode(s4, severity, code) <==> HasCode(p.issues, severity, code)
  {
    HasCodeAppends(p.issues, s1, StructureCodes, severity, code);
    HasCodeAppends(s1, s2, TriggerCodes, severity, code);
    HasCodeAppends(s2, s3, ActionabilityCodes, severity, code);
    HasCodeAppends(s3, s4, ToolRefsCodes, severity, code);
  }
}
