/** Keyword search over the leaderboard (`filter_by_keywords` and
    `search_skills`): a weighted relevance score, the records scoring above
    zero, by score, descending. */
module KeywordSearch {
  import opened Base
  import opened Text
  import opened StableSort
  import opened Leaderboard

  /** A record as the keyword filter returns it: the leaderboard entry and
      the `relevance_score` the filter adds to it (None: not added). */
  datatype Scored = Scored(skill: Skill, relevanceScore: Option<nat>)

  /** `[kw.lower() for kw in ws]` */
  function LowerAll(ws: seq<string>): (r: seq<string>)
    ensures |r| == |ws| && forall i :: 0 <= i < |ws| ==> r[i] == Lower(ws[i])
    decreases |ws|
  {
    if |ws| == 0 then [] else LowerAll(ws[..|ws| - 1]) + [Lower(ws[|ws| - 1])]
  }

  /** `' '.join(tags_lower)`: the lower-cased tags as one string. */
  function TagText(tags: seq<string>): string {
    Join(LowerAll(tags), ' ')
  }

  /** `total_score` for the lower-cased keywords `kws`: three points per
      keyword in the name, two per keyword in the snippet, one per keyword in
      the tags. */
  function Relevance(kws: seq<string>, skill: Skill): (r: nat)
    ensures r <= 6 * |kws|
    ensures r > 0 <==> AnyOccurs(kws, Lower(skill.skillName)) || AnyOccurs(kws, Lower(skill.textSnippet)) ||
                       AnyOccurs(kws, TagText(skill.tags))
  {
    CountOccurring(kws, Lower(skill.skillName)) * 3 + CountOccurring(kws, Lower(skill.textSnippet)) * 2 +
    CountOccurring(kws, TagText(skill.tags))
  }

  /** `x.get('relevance_score', 0)` */
  function RelevanceKey(x: Scored): int {
    if x.relevanceScore.Some? then x.relevanceScore.value else 0
  }

  /** Reference definition of `filtered_skills` before the sort: every
      record with a positive score, with that score added, in input order. */
  function Matches(skills: seq<Skill>, kws: seq<string>): (r: seq<Scored>)
    ensures |r| <= |skills|
    decreases |skills|
  {
    if |skills| == 0 then []
    else
      var skill := skills[|skills| - 1];
      var score := Relevance(kws, skill);
      Matches(skills[..|skills| - 1], kws) + (if score > 0 then [Scored(skill, Some(score))] else [])
  }

  /** The records handed back as they came, without a score. */
  function Unscored(skills: seq<Skill>): (r: seq<Scored>)
    ensures |r| == |skills| && forall i :: 0 <= i < |skills| ==> r[i] == Scored(skills[i], None)
    decreases |skills|
  {
    if |skills| == 0 then [] else Unscored(skills[..|skills| - 1]) + [Scored(skills[|skills| - 1], None)]
  }

  /** Reference definition of `filter_by_keywords`. */
  function Filtered(skills: seq<Skill>, keywords: seq<string>): seq<Scored> {
    if |keywords| == 0 then Unscored(skills)
    else SortDesc(Matches(skills, LowerAll(keywords)), RelevanceKey)
  }

  /** A record is matched exactly when its score is positive, and it is then
      the input record unchanged with that score added. */
  lemma {:induction false} MatchesMembers(skills: seq<Skill>, kws: seq<string>)
    ensures forall x :: x in Matches(skills, kws) <==>
              x.skill in skills && Relevance(kws, x.skill) > 0 && x.relevanceScore == Some(Relevance(kws, x.skill))
    decreases |skills|
  {
    if |skills| > 0 {
      var front := skills[..|skills| - 1];
      MatchesMembers(front, kws);
      assert skills == front + [skills[|skills| - 1]];
    }
  }

  /** The filter keeps the records in input order before sorting. */
  lemma {:induction false} MatchesInOrder(skills: seq<Skill>, kws: seq<string>)
    ensures forall k :: WithKey(Matches(skills, kws), RelevanceKey, k) == Matched(skills, kws, k)
    decreases |skills|
  {
    if |skills| > 0 {
      var front := skills[..|skills| - 1];
      var skill := skills[|skills| - 1];
      MatchesInOrder(front, kws);
      var tail := if Relevance(kws, skill) > 0 then [Scored(skill, Some(Relevance(kws, skill)))] else [];
      forall k
        ensures WithKey(Matches(skills, kws), RelevanceKey, k) == Matched(skills, kws, k)
      {
        WithKeyAppend(Matches(front, kws), tail, RelevanceKey, k);
        if |tail| == 1 {
          assert tail[..0] == [];
        }
      }
    }
  }

  /** Reference order of the records with score `k`: the input order. */
  function Matched(skills: seq<Skill>, kws: seq<string>, k: int): seq<Scored>
    decreases |skills|
  {
    if |skills| == 0 then []
    else
      var skill := skills[|skills| - 1];
      Matched(skills[..|skills| - 1], kws, k) +
        (if Relevance(kws, skill) > 0 && Relevance(kws, skill) == k then [Scored(skill, Some(k))] else [])
  }

  /** With keywords, the filter returns exactly the matched records, sorted
      by score, descending, records with equal scores in input order. */
  lemma FilteredFacts(skills: seq<Skill>, keywords: seq<string>)
    requires |keywords| > 0
    ensures var r := Filtered(skills, keywords);
      && multiset(r) == multiset(Matches(skills, LowerAll(keywords)))
      && SortedDesc(r, RelevanceKey)
      && (forall k :: WithKey(r, RelevanceKey, k) == Matched(skills, LowerAll(keywords), k))
      && (forall x :: x in r <==> x.skill in skills && Relevance(LowerAll(keywords), x.skill) > 0 &&
                                  x.relevanceScore == Some(Relevance(LowerAll(keywords), x.skill)))
  {
    var m := Matches(skills, LowerAll(keywords));
    SortDescFacts(m, RelevanceKey);
    MatchesInOrder(skills, LowerAll(keywords));
    MatchesMembers(skills, LowerAll(keywords));
    forall x
      ensures x in Filtered(skills, keywords) <==> x in m
    {
      assert x in multiset(m) <==> x in m;
    }
  }

  /** Without keywords, the filter returns its input unchanged and adds no score. */
  lemma FilteredNoKeywords(skills: seq<Skill>, keywords: seq<string>)
    requires |keywords| == 0
    ensures |Filtered(skills, keywords)| == |skills|
    ensures forall i :: 0 <= i < |skills| ==>
              Filtered(skills, keywords)[i].skill == skills[i] && Filtered(skills, keywords)[i].relevanceScore.None?
  {
  }

  /** `filter_by_keywords`. */
  method FilterByKeywords(skills: seq<Skill>, keywords: seq<string>) returns (r: seq<Scored>)
    ensures r == Filtered(skills, keywords)
  {
    if |keywords| == 0 {
      return Unscored(skills);
    }
    var keywordsLower := LowerAll(keywords);
    var filteredSkills := ScoreSkills(skills, keywordsLower);
    var a := new Scored[|filteredSkills|](i requires 0 <= i < |filteredSkills| => filteredSkills[i]);
    assert a[..] == filteredSkills;
    SortByKeyDesc(a, RelevanceKey);
    r := a[..];
  }

  /** The scoring loop of `filter_by_keywords`, before the sort. */
  method ScoreSkills(skills: seq<Skill>, keywordsLower: seq<string>) returns (filteredSkills: seq<Scored>)
    ensures filteredSkills == Matches(skills, keywordsLower)
  {
    filteredSkills := [];
    for i := 0 to |skills|
      invariant filteredSkills == Matches(skills[..i], keywordsLower)
    {
      var skill := skills[i];
      MatchesNext(skills, keywordsLower, i);
      var nameMatches := CountOccurring(keywordsLower, Lower(skill.skillName));
      var descMatches := CountOccurring(keywordsLower, Lower(skill.textSnippet));
      var tagMatches := CountOccurring(keywordsLower, TagText(skill.tags));
      var totalScore := nameMatches * 3 + descMatches * 2 + tagMatches;
      assert totalScore == Relevance(keywordsLower, skill);
      if totalScore > 0 {
        filteredSkills := filteredSkills + [Scored(skill, Some(totalScore))];
      }
    }
    assert skills[..|skills|] == skills;
  }

  lemma MatchesNext(skills: seq<Skill>, kws: seq<string>, i: int)
    requires 0 <= i < |skills|
    ensures Matches(skills[..i + 1], kws) == Matches(skills[..i], kws) +
              (if Relevance(kws, skills[i]) > 0 then [Scored(skills[i], Some(Relevance(kws, skills[i])))] else [])
  {
    assert skills[..i + 1][..i] == skills[..i];
  }

  /** Reference definition of `search_skills`. */
  function Search(anchors: seq<Anchor>, keywords: seq<string>, limit: int): seq<Scored> {
    PyPrefix(Filtered(Leaderboard.Leaderboard(anchors, SearchPool), keywords), limit)
  }

  /** A search returns at most `limit` and at most a hundred records. With
      keywords they are leaderboard entries with a positive score, by score,
      descending; without, the leaderboard's first entries unchanged. */
  lemma SearchFacts(anchors: seq<Anchor>, keywords: seq<string>, limit: int)
    ensures var r := Search(anchors, keywords, limit);
      && (limit >= 0 ==> |r| <= limit)
      && |r| <= SearchPool
      && (|keywords| > 0 ==> SortedDesc(r, RelevanceKey))
      && (|keywords| > 0 ==> forall x :: x in r ==>
            (x.skill in Leaderboard.Leaderboard(anchors, SearchPool) &&
             x.relevanceScore == Some(Relevance(LowerAll(keywords), x.skill)) &&
             Relevance(LowerAll(keywords), x.skill) > 0))
      && (|keywords| == 0 ==> forall i :: 0 <= i < |r| ==> r[i] == Scored(Leaderboard.Leaderboard(anchors, SearchPool)[i], None))
  {
    var board := Leaderboard.Leaderboard(anchors, SearchPool);
    var f := Filtered(board, keywords);
    var r := PyPrefix(f, limit);
    LeaderboardFacts(anchors, SearchPool);
    assert forall i :: 0 <= i < |r| ==> r[i] == f[i];
    if |keywords| > 0 {
      FilteredFacts(board, keywords);
      forall x | x in r
        ensures x in f
      {
      }
    }
  }

  /** `search_skills` on the anchors of the leaderboard page. */
  method SearchSkills(anchors: seq<Anchor>, keywords: seq<string>, limit: int) returns (r: seq<Scored>)
    ensures r == Search(anchors, keywords, limit)
  {
    var allSkills := FetchLeaderboard(anchors, SearchPool);
    var matchingSkills := FilterByKeywords(allSkills, keywords);
    r := PyPrefix(matchingSkills, limit);
  }
}
