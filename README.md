# Skill evaluator and skills.sh searcher, modelled in Dafny

Two parts of the repository are modelled here.

**The quick evaluator.** It scores a skill directory that holds a `SKILL.md` file.
- It parses the YAML frontmatter of `SKILL.md`.
- It runs five static checkers: structure, triggers, actionability, tool references and examples. Each checker appends issues to a shared list and returns a score in [0, 1].
- It combines the five scores into a weighted overall score and maps that score to a badge (gold, silver, bronze or fail).
- It derives up to five recommendations from the issue codes collected.

**The skills.sh searcher.** It turns the anchors of the leaderboard page into skill records:
- it keeps the links shaped `/owner/repo/skill`;
- it reads an install count from each anchor's text;
- it deduplicates the records by id, sorts them by installs (descending) and cuts the list to a limit.

Its keyword filter scores every record against the search keywords: three points per keyword in the name, two in the text snippet, one in the tags. It keeps the records scoring above zero, sorted by score. A search runs the filter over the top hundred of the leaderboard and cuts the result.

Modules:
- `Base`: Option, min/max, and Python's `s[:n]` (including a negative `n`).
- `Text`:
  - Python string built-ins: `in`, `startswith`, `find`, `split`, `join`, `strip` and `partition`;
  - `lower` on ASCII;
  - `replace` of one character by nothing.
- `Issues`: issues, issue codes, and the predicates saying which codes a stage appends.
- `Frontmatter`: `parse_frontmatter`, with a dict modelled as an insertion-ordered list of fields.
- `Checks`: the five checkers. Each is a method proved equal to a pair of reference functions: the score, and the issue list after the checker has run.
- `Evaluate`: the weighted overall score, the badge, the recommendations and `evaluate_skill`.
- `StableSort`: Python's stable `list.sort(key=..., reverse=True)`. It is an in-place insertion sort on an array, proved equal to a reference definition. That definition is proved sorted, a permutation and stable.
- `Leaderboard`: `fetch_skills_sh_leaderboard` on the page's anchors, and the install parsing of `get_skill_details`.
- `KeywordSearch`: `filter_by_keywords` and `search_skills`.

Where a checker relies on a regular expression that matches structure (headings, fences, list items, word boundaries), the match is an input. The evaluator takes a function `probe` from a body to a `BodyFeatures` record of what those patterns find. The checkers' literal substring tests are modelled exactly: usage keywords, vague phrases, tool keywords, shell fences.

## Model

| member | source | states |
|---|---|---|
| Text.Split | skills/ontos-skill-evaluator/scripts/quick_eval.py:164 | `str.split(sep)` (no limit): at least one piece, no piece holds the separator, and the pieces joined with the separator give back the string |
| Text.CountOccurring | skills/ontos-skill-evaluator/scripts/quick_eval.py:320 | `sum(1 for kw in needles if kw in s)`: at most one per needle, zero exactly when no needle occurs |
| Frontmatter.ParseIssues | skills/ontos-skill-evaluator/scripts/quick_eval.py:138-161 | parsing reports only parse codes. Without fields, the body is the whole content and there is exactly one issue, an error; NO_FRONTMATTER or MALFORMED_FRONTMATTER is present exactly when there are no fields. With fields there is at most DUPLICATE_FRONTMATTER, reported exactly when the body starts with `---` |
| Frontmatter.NoOpeningDelimiter | skills/ontos-skill-evaluator/scripts/quick_eval.py:143-145 | content not starting with `---` gives no fields, the whole content as body, and NO_FRONTMATTER |
| Frontmatter.NoClosingDelimiter | skills/ontos-skill-evaluator/scripts/quick_eval.py:148-151 | no second `---` from index 3 on gives no fields, the whole content as body, and MALFORMED_FRONTMATTER |
| Frontmatter.FieldsFromFirstBlock | skills/ontos-skill-evaluator/scripts/quick_eval.py:148-158 | whatever follows the closing delimiter (a second block included) leaves the fields unchanged; the body is that tail stripped, and it adds at most DUPLICATE_FRONTMATTER |
| Frontmatter.ParseLine | skills/ontos-skill-evaluator/scripts/quick_eval.py:165-172 | a line gives a field exactly when its stripped text has a colon and does not start with `#`. The key is then the stripped text before the first colon, so it holds no colon and has nothing left to strip. The value is the stripped text after that colon with double, then single, quotes stripped, so it neither starts nor ends with a single quote |
| Frontmatter.PutFacts | skills/ontos-skill-evaluator/scripts/quick_eval.py:172 | `d[k] = v`: an existing key keeps its place, a new key goes last, `k` reads back `v`, and every other key keeps its value |
| Frontmatter.FieldsOf | skills/ontos-skill-evaluator/scripts/quick_eval.py:165-173 | the dict built by the line loop never holds a key twice |
| Frontmatter.FieldsOfLastWins | skills/ontos-skill-evaluator/scripts/quick_eval.py:165-173 | a key's value is the one on the last line that parses to that key, and a key is absent exactly when no line parses to it |
| Frontmatter.FieldsOfKeysGrow | skills/ontos-skill-evaluator/scripts/quick_eval.py:165-173 | more lines only ever append keys: keys stay in the order of their first appearance |
| Frontmatter.ParseFrontmatter | skills/ontos-skill-evaluator/scripts/quick_eval.py:138-174 | the parser, with its loop over the lines, returns `Parse(content)`: the opening `---` at index 0, the closing one at its next occurrence from index 3, the fields read from the text between, and the stripped rest as body |
| Frontmatter.ReadFields | skills/ontos-skill-evaluator/scripts/quick_eval.py:163-173 | the loop over the frontmatter lines returns `FieldsOf(lines)` |
| Checks.StructureIssuesFacts | skills/ontos-skill-evaluator/scripts/quick_eval.py:181-227 | `check_structure` appends only structure codes. MISSING_NAME (MISSING_DESCRIPTION) is added exactly when SKILL.md and its frontmatter exist and the field is absent |
| Checks.ExtraFieldPerKey | skills/ontos-skill-evaluator/scripts/quick_eval.py:206-212 | there is an EXTRA_FIELD warning for a key exactly when the frontmatter has that key and it is not name, description, license or tags |
| Checks.StructurePerfect | skills/ontos-skill-evaluator/scripts/quick_eval.py:196-227 | the structure score is 1 exactly when both required fields are present and there is no extra field. With both present and up to twenty extra fields, the score is 1 less 0.05 per extra field. No frontmatter scores 0 |
| Checks.CheckStructure | skills/ontos-skill-evaluator/scripts/quick_eval.py:181-227 | `check_structure` returns `StructureScore` and `StructureIssues`, the score in [0, 1] |
| Checks.FlagExtraFields | skills/ontos-skill-evaluator/scripts/quick_eval.py:205-212 | the loop over the keys appends one EXTRA_FIELD warning per extra key and deducts 0.05 per extra key |
| Checks.ExistingResources | skills/ontos-skill-evaluator/scripts/quick_eval.py:214-218 | the resource loop collects exactly the directories among scripts, references and assets that exist; the list is empty iff none does |
| Checks.TriggerIssuesFacts | skills/ontos-skill-evaluator/scripts/quick_eval.py:230-278 | `check_triggers` appends only trigger codes, and NO_USAGE_CONTEXT exactly when there is a frontmatter whose description holds no usage keyword |
| Checks.TriggerFullIffNoIssues | skills/ontos-skill-evaluator/scripts/quick_eval.py:240-278 | the trigger score is 1 exactly when the description has a usage keyword, is at least 50 characters long, and the body has a trigger phrase; that holds exactly when the checker appends nothing |
| Checks.CheckTriggers | skills/ontos-skill-evaluator/scripts/quick_eval.py:230-278 | `check_triggers` returns `TriggerScore` and `TriggerIssues`, the score in [0, 1] |
| Checks.ActionabilityIssuesFacts | skills/ontos-skill-evaluator/scripts/quick_eval.py:281-341 | `check_actionability` appends only its codes. NO_STEPS exactly when there are no steps; VAGUE_LANGUAGE exactly when more than three vague phrases occur; FEW_IMPERATIVES exactly when no imperative verb occurs |
| Checks.ActionabilityParts | skills/ontos-skill-evaluator/scripts/quick_eval.py:306-341 | more than three vague phrases subtract exactly 0.3 and cap the score at 0.5. Steps, a code block, at most three vague phrases and three or more imperatives score 1. Fewer than three imperatives cap it at 0.8. The raw sum lies in [-0.3, 1] and is floored at 0 |
| Checks.CheckActionability | skills/ontos-skill-evaluator/scripts/quick_eval.py:281-341 | `check_actionability` returns `ActionabilityScore` and `ActionabilityIssues`, the score in [0, 1] |
| Checks.ToolRefsRules | skills/ontos-skill-evaluator/scripts/quick_eval.py:344-390 | the tool score lies in [0.2, 1], and a raw total of 0 becomes exactly 0.5 together with NO_TOOL_REFS. Only tool codes are appended. SCRIPTS_DIR_MISSING is added exactly when scripts/ is missing or empty and the body references scripts. Without scripts/, no BROKEN_SCRIPT_REF is added |
| Checks.BrokenRefPerPath | skills/ontos-skill-evaluator/scripts/quick_eval.py:352-359 | with a non-empty scripts/, there is a BROKEN_SCRIPT_REF error for a path exactly when the body references it and it does not exist |
| Checks.CheckToolRefs | skills/ontos-skill-evaluator/scripts/quick_eval.py:344-390 | `check_tool_refs` returns `ToolRefsScore` and `ToolRefsIssues`, the score in (0, 1] |
| Checks.FlagBrokenRefs | skills/ontos-skill-evaluator/scripts/quick_eval.py:355-359 | the loop over the references appends one BROKEN_SCRIPT_REF error per missing path, in order |
| Checks.ExamplesIssuesFacts | skills/ontos-skill-evaluator/scripts/quick_eval.py:393-440 | `check_examples` appends only its codes. PLACEHOLDERS_FOUND exactly for one or two placeholders; MANY_PLACEHOLDERS exactly for three or more |
| Checks.PlaceholderTiers | skills/ontos-skill-evaluator/scripts/quick_eval.py:405-440 | the examples score is the placeholder tier plus 0.3 per section found. Three or more placeholders cap it at 0.6, one or two keep it in [0.2, 0.8]. It is 1 exactly when the checker appends nothing |
| Checks.CheckExamples | skills/ontos-skill-evaluator/scripts/quick_eval.py:393-440 | `check_examples` returns `ExamplesScore` and `ExamplesIssues`, the score in [0, 1] |
| Evaluate.Overall | skills/ontos-skill-evaluator/scripts/quick_eval.py:46-55 | the weighted overall score lies in [0, 1] when every dimension does |
| Evaluate.OverallWeights | skills/ontos-skill-evaluator/scripts/quick_eval.py:46-55 | the weights sum to 1 (equal scores give that score back), and the overall score is monotone in every dimension |
| Evaluate.BadgeFor | skills/ontos-skill-evaluator/scripts/quick_eval.py:476-485 | gold iff overall >= 0.85, silver iff 0.70 <= overall < 0.85, bronze iff 0.50 <= overall < 0.70, fail iff overall < 0.50 |
| Evaluate.BadgeMonotone | skills/ontos-skill-evaluator/scripts/quick_eval.py:476-485 | a higher overall score never gives a lower badge |
| Evaluate.RecommendationsFacts | skills/ontos-skill-evaluator/scripts/quick_eval.py:487-500 | at most five recommendations, in the order of the `if` chain and without repetition; each is present exactly when its codes were collected |
| Evaluate.RecommendationsChain | skills/ontos-skill-evaluator/scripts/quick_eval.py:491-500 | the recommendation list is the five tests of the `if` chain, in order |
| Evaluate.Recommend | skills/ontos-skill-evaluator/scripts/quick_eval.py:487-500 | the `if` chain of `evaluate_skill` builds `Recommendations(issues)` |
| Evaluate.EvaluateSkill | skills/ontos-skill-evaluator/scripts/quick_eval.py:447-502 | `evaluate_skill` returns `Evaluation`. Without SKILL.md that is one NO_SKILL_MD error, zero scores and a failing badge. Otherwise it is the parser and the five checkers in order, the badge of the overall score, and the recommendations |
| Evaluate.ReportBounds | skills/ontos-skill-evaluator/scripts/quick_eval.py:447-502 | every score of a report and its overall score lie in [0, 1]; with SKILL.md the tool score is at least 0.2; the badge is the step function of the overall score |
| Evaluate.AdviceMatchesFindings | skills/ontos-skill-evaluator/scripts/quick_eval.py:447-500 | once SKILL.md exists, each recommendation is given exactly when its cause holds: a second frontmatter block, a missing required field, a description without usage keywords, a body without steps, or at least one placeholder |
| Evaluate.AdviceFromIssues | skills/ontos-skill-evaluator/scripts/quick_eval.py:465-500 | the codes each recommendation tests are present after all five checkers exactly when that recommendation's cause holds |
| Evaluate.StagesAppend | skills/ontos-skill-evaluator/scripts/quick_eval.py:467-474 | each of the five checkers, run in order on the shared list, keeps what is there and appends only its own codes |
| StableSort.SortDescFacts | test-skills/skills-sh-searcher/scripts/fetch_skills_sh.py:94 | the reference sort is a permutation, non-increasing in the key, and stable: the elements of each key keep their original order |
| StableSort.SortDescDistinct | test-skills/skills-sh-searcher/scripts/fetch_skills_sh.py:94 | sorting never makes two elements share an id |
| StableSort.PrefixKeepsTop | test-skills/skills-sh-searcher/scripts/fetch_skills_sh.py:93-96 | cutting a sorted list keeps its largest keys: nothing cut off has a larger key than anything kept |
| StableSort.SortByKeyDesc | test-skills/skills-sh-searcher/scripts/fetch_skills_sh.py:94 | the in-place sort leaves the array equal to the reference sort of its old contents |
| StableSort.InsertNext | test-skills/skills-sh-searcher/scripts/fetch_skills_sh.py:94 | one insertion step puts the next element behind every element of the sorted prefix with a key at least as large, and leaves the rest of the array alone |
| Base.PyPrefix | test-skills/skills-sh-searcher/scripts/fetch_skills_sh.py:96 | `s[:n]` is a prefix of `s`, of length `min(n, len(s))` for `n >= 0` and `max(0, len(s) + n)` for negative `n` |
| Leaderboard.SkillIdShape | test-skills/skills-sh-searcher/scripts/fetch_skills_sh.py:52-74 | the id of an accepted link is its first three path segments, and the skill name is the third |
| Leaderboard.SearchNumber | test-skills/skills-sh-searcher/scripts/fetch_skills_sh.py:62 | the leftmost match of `\d+(?:\.\d+)?[Kk]?`: none exactly when the text has no digit. Otherwise the match starts at the first digit, has the pattern's shape (digits, at most one dot between digits, then at most one K or k), and stops where the greedy pattern must |
| Leaderboard.LongestAtUnique | test-skills/skills-sh-searcher/scripts/fetch_skills_sh.py:62 | at most one match of the pattern's shape stops where the greedy pattern must at a given start, so the match is determined by where it starts |
| Leaderboard.SearchNumberIsTheMatch | test-skills/skills-sh-searcher/scripts/fetch_skills_sh.py:62 | any greedy match at the first digit is the one `SearchNumber` returns |
| Leaderboard.MatchDigits | test-skills/skills-sh-searcher/scripts/fetch_skills_sh.py:65-71 | in a match there is no comma; removing the dot leaves only digits exactly when there is no K suffix; and K or k occurs exactly when the match ends in it |
| Leaderboard.PyInt | test-skills/skills-sh-searcher/scripts/fetch_skills_sh.py:66 | on the strings that reach it (the match with its commas and dots removed), `int()` succeeds exactly when the string is non-empty and all digits |
| Leaderboard.LinkInstallsRules | test-skills/skills-sh-searcher/scripts/fetch_skills_sh.py:62-71 | no number gives 0 installs; a number with a K suffix makes `int()` raise; otherwise a number with a dot is read with the dot removed, and a plain number as it is |
| Leaderboard.KiloCountRaises | test-skills/skills-sh-searcher/scripts/fetch_skills_sh.py:62-71 | a link reading "15K installs" makes `int()` raise |
| Leaderboard.DottedCountLosesDot | test-skills/skills-sh-searcher/scripts/fetch_skills_sh.py:62-71 | a link reading "1.5 installs" counts 15 installs |
| Leaderboard.SeparatedCountCut | test-skills/skills-sh-searcher/scripts/fetch_skills_sh.py:62-71 | a link reading "2,345 installs" counts 2 installs, because the pattern stops at the comma |
| Leaderboard.InstallParsesAgree | test-skills/skills-sh-searcher/scripts/fetch_skills_sh.py:144-154 | the details page's count equals the leaderboard's count wherever the latter does not raise, and is 0 for a K-suffixed match |
| Leaderboard.OutcomeFacts | test-skills/skills-sh-searcher/scripts/fetch_skills_sh.py:48-83 | an anchor raises exactly when it is an accepted link whose count does not parse; an appended record is that anchor's, with its count |
| Leaderboard.SkillLinksFacts | test-skills/skills-sh-searcher/scripts/fetch_skills_sh.py:48-102 | the link loop fails exactly when some anchor raises. Otherwise its result is the filter `KeptSkills` of the outcomes: every accepted anchor whose count parses gives its record, in page order, and every record comes from such an anchor |
| Leaderboard.GatherKept | test-skills/skills-sh-searcher/scripts/fetch_skills_sh.py:48-83 | when no outcome raises, the loop gathers exactly the records of the kept outcomes, in order |
| Leaderboard.KeptSkillsMembers | test-skills/skills-sh-searcher/scripts/fetch_skills_sh.py:48-83 | every kept outcome's record is among the kept records |
| Leaderboard.CollectLinks | test-skills/skills-sh-searcher/scripts/fetch_skills_sh.py:45-83 | the link loop returns `SkillLinks(anchors)`, stopping at the first raise |
| Leaderboard.UniqueIds | test-skills/skills-sh-searcher/scripts/fetch_skills_sh.py:86-91 | dedup loses no id |
| Leaderboard.UniqueDistinct | test-skills/skills-sh-searcher/scripts/fetch_skills_sh.py:86-91 | the ids dedup keeps are pairwise distinct |
| Leaderboard.UniqueFirsts | test-skills/skills-sh-searcher/scripts/fetch_skills_sh.py:86-91 | a record is kept exactly when it is the first with its id |
| Leaderboard.UniqueInOrder | test-skills/skills-sh-searcher/scripts/fetch_skills_sh.py:86-91 | the kept records are a subsequence of the links, in encounter order |
| Leaderboard.Dedupe | test-skills/skills-sh-searcher/scripts/fetch_skills_sh.py:86-91 | the loop with its `seen` dict returns `Unique(links)` |
| Leaderboard.RankedSorted | test-skills/skills-sh-searcher/scripts/fetch_skills_sh.py:93-96 | the ranking is non-increasing in installs and holds at most `limit` records |
| Leaderboard.RankedDistinct | test-skills/skills-sh-searcher/scripts/fetch_skills_sh.py:86-96 | no two ranked records share an id |
| Leaderboard.RankedFromLinks | test-skills/skills-sh-searcher/scripts/fetch_skills_sh.py:86-96 | each ranked record is the first link with its id |
| Leaderboard.RankedKeepsTop | test-skills/skills-sh-searcher/scripts/fetch_skills_sh.py:93-96 | no deduplicated record left out by the cut has more installs than a ranked one |
| Leaderboard.RankedKeepsAll | test-skills/skills-sh-searcher/scripts/fetch_skills_sh.py:93-96 | a limit of at least the number of distinct records keeps all of them |
| Leaderboard.LeaderboardFacts | test-skills/skills-sh-searcher/scripts/fetch_skills_sh.py:19-102 | a fetch that raised returns nothing; otherwise the result is sorted by installs, holds at most `limit` records for `limit >= 0`, and has distinct ids |
| Leaderboard.RaisingAnchorEmptiesLeaderboard | test-skills/skills-sh-searcher/scripts/fetch_skills_sh.py:48-102 | one accepted anchor whose count does not parse makes the whole leaderboard empty |
| Leaderboard.AcceptedAnchorRanked | test-skills/skills-sh-searcher/scripts/fetch_skills_sh.py:48-96 | with no raise and a limit that covers every distinct id, the id of each accepted anchor is on the leaderboard |
| Leaderboard.FetchLeaderboard | test-skills/skills-sh-searcher/scripts/fetch_skills_sh.py:45-102 | the fetch on the page's anchors returns `Leaderboard(anchors, limit)` |
| KeywordSearch.Relevance | test-skills/skills-sh-searcher/scripts/fetch_skills_sh.py:188-203 | the score is at most six per keyword, and positive exactly when some keyword occurs in the lower-cased name, snippet or tags |
| KeywordSearch.MatchesMembers | test-skills/skills-sh-searcher/scripts/fetch_skills_sh.py:188-209 | a record is kept exactly when its score is positive, and it is kept unchanged with that score added |
| KeywordSearch.MatchesInOrder | test-skills/skills-sh-searcher/scripts/fetch_skills_sh.py:188-209 | the kept records of each score are in input order |
| KeywordSearch.FilteredFacts | test-skills/skills-sh-searcher/scripts/fetch_skills_sh.py:184-215 | with keywords, the filter returns exactly the records with a positive score, each with its score. They come sorted by score, descending; equal scores stay in input order |
| KeywordSearch.FilteredNoKeywords | test-skills/skills-sh-searcher/scripts/fetch_skills_sh.py:182-183 | without keywords, the input comes back unchanged, with no score |
| KeywordSearch.ScoreSkills | test-skills/skills-sh-searcher/scripts/fetch_skills_sh.py:188-209 | the scoring loop returns `Matches(skills, keywords)` |
| KeywordSearch.FilterByKeywords | test-skills/skills-sh-searcher/scripts/fetch_skills_sh.py:171-215 | `filter_by_keywords` returns `Filtered(skills, keywords)` |
| KeywordSearch.SearchFacts | test-skills/skills-sh-searcher/scripts/fetch_skills_sh.py:218-237 | a search returns at most `limit` records and at most a hundred. With keywords, they are leaderboard records with a positive score, sorted by score. Without keywords, they are the first leaderboard records, unchanged |
| KeywordSearch.SearchSkills | test-skills/skills-sh-searcher/scripts/fetch_skills_sh.py:218-237 | `search_skills` returns `Search(anchors, keywords, limit)` |

## Left out

- Reading files, the HTTP requests, HTML parsing, logging, the timestamp and the report's path, JSON and Markdown output, `evaluate_batch` and `main`. These are I/O; file-system facts come in as the `SkillDir` record, and the page's anchors as a sequence.
- The regular expressions that match structure: the trigger, step, code-block, word-boundary verb, script-reference, doc-link, placeholder, example-section and output-format patterns. What they find is the `BodyFeatures` input; no matcher is modelled.
- Floating point. Scores are exact reals, so `score == 0` in `check_tool_refs` and the badge thresholds are read without rounding.
- Characters and case: `lower()` and `isdigit()` are ASCII only; Unicode case folding and non-ASCII digits are not modelled.
- Frontmatter.Parse: the length-3 check of `split("---", 2)` is modelled by searching for the next delimiter; a missing second part cannot happen after that check.
- The `line_num` counter of the parser loop is unused by the source and not modelled.
- Leaderboard.LinkInstalls: a `ValueError` from `int()` (a K-suffixed count) abandons the whole fetch, which then returns the empty list; the model returns None for the whole link loop and `[]` for the fetch, as written.
- Leaderboard.SkillOf: the records the leaderboard builds have no `tags` key; the model gives them an empty tag list, which is what `skill.get('tags', [])` reads.
- `get_skill_details`: only its install parsing is modelled (as `DetailInstalls`); the title, description and tag extraction are HTML queries.
- Issue messages, line numbers and suggestions are not modelled: an issue is its severity, its code and (for EXTRA_FIELD and BROKEN_SCRIPT_REF) the key or path it names. The counts some messages quote are lost with them: the description length, the number of vague phrases, the number of placeholders.
- Leaderboard.PyInt: only models `int()` on the strings the install parse hands it (ASCII digits, possibly with a K or k). Python's `int` also accepts surrounding whitespace, a sign and underscores, which cannot occur there.
- `Scored.relevanceScore` stands for the `relevance_score` key the filter adds; the filter's other fields are those of the `Skill` record.
