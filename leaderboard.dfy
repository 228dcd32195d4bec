/** The post-processing of the skills.sh leaderboard page
    (`fetch_skills_sh_leaderboard`) and the install-count parse of a skill's
    own page (`get_skill_details`), starting from the anchors the HTML parser
    yields. */
module Leaderboard {
  import opened Base
  import opened Text
  import opened StableSort

  /** An `<a href=...>` of the page: its `href` and its stripped text. */
  datatype Anchor = Anchor(href: string, text: string)

  /** A leaderboard entry. The leaderboard never sets `tags` (empty here);
      the keyword filter reads it when a record carries one. */
  datatype Skill = Skill(skillId: string, skillName: string, installs: int,
                         skillUrl: string, fullUrl: string, textSnippet: string, tags: seq<string>)

  const SiteUrl: string := "https://skills.sh"

  /** How many entries `search_skills` asks the leaderboard for. */
  const SearchPool: int := 100

  // ---------------------------------------------------------------- links

  /** `href.strip('/').split('/')` */
  function Segments(href: string): (r: seq<string>)
    ensures |r| >= 1 && forall i :: 0 <= i < |r| ==> '/' !in r[i]
  {
    Split(StripSet(href, {'/'}), '/')
  }

  /** The guard of the link loop: the href starts with `/`, holds at least
      three `/`, and still has three segments once the slashes at either end
      are stripped. */
  predicate IsSkillLink(href: string) {
    |href| > 0 && StartsWith(href, "/") && CountChar(href, '/') >= 3 && |Segments(href)| >= 3
  }

  /** `'/'.join(parts[:3])`: the `owner/repo/name` id. */
  function SkillIdOf(href: string): string
    requires |Segments(href)| >= 3
  {
    Join(Segments(href)[..3], '/')
  }

  /** `skill_id.split('/')[-1]` */
  function LastSegment(id: string): string {
    var parts := Split(id, '/');
    parts[|parts| - 1]
  }

  /** The id of an accepted link is made of exactly its first three segments,
      and its name is the third. */
  lemma SkillIdShape(href: string)
    requires IsSkillLink(href)
    ensures Split(SkillIdOf(href), '/') == Segments(href)[..3]
    ensures LastSegment(SkillIdOf(href)) == Segments(href)[2]
  {
    var parts := Segments(href)[..3];
    assert forall i :: 0 <= i < |parts| ==> parts[i] == Segments(href)[i];
    SplitJoin(parts, '/');
  }

  // ------------------------------------------------------- install counts

  predicate IsDigit(c: char) { '0' <= c <= '9' }

  predicate IsKilo(c: char) { c == 'K' || c == 'k' }

  predicate AllDigits(s: string) {
    forall k :: 0 <= k < |s| ==> IsDigit(s[k])
  }

  /** `s.isdigit()` for ASCII digits: non-empty and digits only. */
  predicate PyIsDigit(s: string) {
    |s| > 0 && AllDigits(s)
  }

  /** The number a string of decimal digits denotes. */
  function DigitsValue(s: string): (n: nat)
    requires AllDigits(s)
    decreases |s|
  {
    if |s| == 0 then 0
    else DigitsValue(s[..|s| - 1]) * 10 + (s[|s| - 1] as int - '0' as int)
  }

  /** `int(s)` on the strings that reach it here (digits, possibly with a K
      or k): None stands for the ValueError anything but digits raises. */
  function PyInt(s: string): (r: Option<nat>)
    ensures r.Some? <==> PyIsDigit(s)
  {
    if PyIsDigit(s) then Some(DigitsValue(s)) else None
  }

  /** The end of the run of digits starting at `i`. */
  function DigitRunEnd(s: string, i: nat): (e: nat)
    requires i <= |s|
    ensures i <= e <= |s|
    ensures forall k :: i <= k < e ==> IsDigit(s[k])
    ensures e < |s| ==> !IsDigit(s[e])
    decreases |s| - i
  {
    if i < |s| && IsDigit(s[i]) then DigitRunEnd(s, i + 1) else i
  }

  /** The first digit at or after `i`. */
  function FirstDigit(s: string, i: nat): (r: Option<nat>)
    requires i <= |s|
    ensures r.Some? ==> i <= r.value < |s| && IsDigit(s[r.value])
    ensures r.Some? ==> forall k :: i <= k < r.value ==> !IsDigit(s[k])
    ensures r.None? ==> forall k :: i <= k < |s| ==> !IsDigit(s[k])
    decreases |s| - i
  {
    if i == |s| then None
    else if IsDigit(s[i]) then Some(i)
    else FirstDigit(s, i + 1)
  }

  /** `\d+(?:\.\d+)?`: digits, with at most one dot, which has a digit on
      either side. */
  predicate Decimal(b: string) {
    && |b| > 0 && IsDigit(b[0]) && IsDigit(b[|b| - 1])
    && (forall k :: 0 <= k < |b| ==> IsDigit(b[k]) || b[k] == '.')
    && (forall k, l :: 0 <= k < l < |b| && b[k] == '.' ==> b[l] != '.')
  }

  /** A match of `\d+(?:\.\d+)?[Kk]?`: a decimal, optionally followed by one
      K or k. */
  predicate NumberShaped(m: string) {
    Decimal(m) || (|m| > 1 && IsKilo(m[|m| - 1]) && Decimal(m[..|m| - 1]))
  }

  /** The characters of a match: digits and dots, with a K or k only as its
      last character. */
  predicate NumberChars(m: string) {
    && |m| > 0 && IsDigit(m[0])
    && forall k :: 0 <= k < |m| ==> IsDigit(m[k]) || m[k] == '.' || (IsKilo(m[k]) && k == |m| - 1)
  }

  lemma ShapedChars(m: string)
    requires NumberShaped(m)
    ensures NumberChars(m)
  {
    if !Decimal(m) {
      var b := m[..|m| - 1];
      assert forall k :: 0 <= k < |b| ==> b[k] == m[k];
    }
  }

  /** `s[i..e]` is the match the regex engine takes at `i`: it has the
      pattern's shape, and the greedy pattern could not have gone on. Without
      a suffix the next character is no digit and no K or k; without a dot
      it does not start a dot and a digit either. */
  predicate LongestAt(s: string, i: int, e: int) {
    && 0 <= i < e <= |s|
    && NumberShaped(s[i..e])
    && (!IsKilo(s[e - 1]) ==>
          (e == |s| ||
           (!IsDigit(s[e]) && !IsKilo(s[e]) &&
            ('.' in s[i..e] || !(e + 1 < |s| && s[e] == '.' && IsDigit(s[e + 1]))))))
  }

  /** At most one match fits at a position: the pattern's extent is
      determined by where it starts. */
  lemma LongestAtUnique(s: string, i: int, e1: int, e2: int)
    requires LongestAt(s, i, e1) && LongestAt(s, i, e2)
    ensures e1 == e2
  {
    LongestAtIsEnd(s, i, e1);
    LongestAtIsEnd(s, i, e2);
  }

  /** A digit run from `a` that stops at `b` is the one `DigitRunEnd` finds. */
  lemma DigitRunEndAt(s: string, a: nat, b: nat)
    requires a <= b <= |s| && (forall k :: a <= k < b ==> IsDigit(s[k])) && (b == |s| || !IsDigit(s[b]))
    ensures DigitRunEnd(s, a) == b
  {
  }

  /** Any match at `i` ends where `NumberEnd` says. */
  lemma LongestAtIsEnd(s: string, i: int, e: int)
    requires LongestAt(s, i, e)
    ensures IsDigit(s[i]) && e == NumberEnd(s, i)
  {
    var eb := if IsKilo(s[e - 1]) then e - 1 else e;
    LongestAtDecimal(s, i, e);
    DecimalRunEnds(s, i, eb);
    assert s[i..eb][0] == s[i];
  }

  /** A match without its suffix is a decimal that ends the digits there. */
  lemma LongestAtDecimal(s: string, i: int, e: int)
    requires LongestAt(s, i, e)
    ensures var eb := if IsKilo(s[e - 1]) then e - 1 else e;
      && i < eb && Decimal(s[i..eb]) && ('.' in s[i..eb] <==> '.' in s[i..e])
      && (eb == |s| || !IsDigit(s[eb]))
      && (eb < e ==> e == eb + 1 && IsKilo(s[eb]))
  {
    var m := s[i..e];
    assert m[|m| - 1] == s[e - 1];
    if IsKilo(s[e - 1]) {
      assert m == m[..|m| - 1] + [s[e - 1]];
      assert m[..|m| - 1] == s[i..e - 1];
    }
  }

  /** How `NumberEnd`'s digit runs cover a decimal that stops at `eb`. */
  lemma DecimalRunEnds(s: string, i: int, eb: int)
    requires 0 <= i < eb <= |s| && Decimal(s[i..eb]) && (eb == |s| || !IsDigit(s[eb]))
    ensures var j := DigitRunEnd(s, i);
      && ('.' in s[i..eb] ==> j + 1 < eb && s[j] == '.' && IsDigit(s[j + 1]) && DigitRunEnd(s, j + 1) == eb)
      && ('.' !in s[i..eb] ==> j == eb)
  {
    var b := s[i..eb];
    if '.' in b {
      var d :| 0 <= d < |b| && b[d] == '.';
      DecimalDotRuns(s, i, eb, d);
    } else {
      assert forall k :: i <= k < eb ==> s[k] == b[k - i];
      DigitRunEndAt(s, i, eb);
    }
  }

  /** A decimal with its dot at `d`: digits before it, digits after it. */
  lemma DecimalDotRuns(s: string, i: int, eb: int, d: int)
    requires 0 <= i < eb <= |s| && Decimal(s[i..eb]) && (eb == |s| || !IsDigit(s[eb]))
    requires 0 <= d < eb - i && s[i..eb][d] == '.'
    ensures DigitRunEnd(s, i) == i + d && i + d + 1 < eb && s[i + d] == '.' && IsDigit(s[i + d + 1])
    ensures DigitRunEnd(s, i + d + 1) == eb
  {
    var b := s[i..eb];
    assert forall k :: i <= k < eb ==> s[k] == b[k - i];
    assert forall k :: 0 <= k < |b| && k != d ==> IsDigit(b[k]);
    DigitRunEndAt(s, i, i + d);
    DigitRunEndAt(s, i + d + 1, eb);
  }

  /** Where the match that starts at the digit `s[i]` ends: the digits, then
      a dot and digits if they follow, then one K or k if it follows. */
  function NumberEnd(s: string, i: nat): (e: nat)
    requires i < |s| && IsDigit(s[i])
    ensures LongestAt(s, i, e)
  {
    var j := DigitRunEnd(s, i);
    var j' := if j + 1 < |s| && s[j] == '.' && IsDigit(s[j + 1]) then DigitRunEnd(s, j + 1) else j;
    var e := if j' < |s| && IsKilo(s[j']) then j' + 1 else j';
    LongestEnd(s, i, j, j', e);
    e
  }

  lemma LongestEnd(s: string, i: nat, j: nat, j': nat, e: nat)
    requires i < |s| && IsDigit(s[i]) && j == DigitRunEnd(s, i)
    requires j' == if j + 1 < |s| && s[j] == '.' && IsDigit(s[j + 1]) then DigitRunEnd(s, j + 1) else j
    requires e == if j' < |s| && IsKilo(s[j']) then j' + 1 else j'
    ensures LongestAt(s, i, e)
  {
    DecimalRun(s, i, j, j');
    if e == j' + 1 {
      assert s[i..e][..|s[i..e]| - 1] == s[i..j'];
    } else if j' != j {
      assert '.' in s[i..e] by {
        assert s[i..e][j - i] == s[j];
      }
    }
  }

  /** The digits from `i` to `j`, then possibly a dot and the digits up to
      `j'`, form a decimal with its dot at `j` only. */
  lemma DecimalRun(s: string, i: nat, j: nat, j': nat)
    requires i < j <= |s| && (forall k :: i <= k < j ==> IsDigit(s[k])) && (j < |s| ==> !IsDigit(s[j]))
    requires j' == j || (j + 1 < j' <= |s| && s[j] == '.' && forall k :: j < k < j' ==> IsDigit(s[k]))
    ensures Decimal(s[i..j'])
    ensures '.' in s[i..j'] <==> j' != j
  {
    var b := s[i..j'];
    assert forall k :: 0 <= k < |b| ==> b[k] == s[i + k];
    if '.' in b {
      var d :| 0 <= d < |b| && b[d] == '.';
      assert i + d == j;
    }
    if j' != j {
      assert b[j - i] == '.';
    }
  }

  /** `re.search(r'(\d+(?:\.\d+)?[Kk]?)', s)`: the text of the leftmost
      match, which starts at the first digit of `s` and reaches as far as the
      greedy pattern goes. */
  function SearchNumber(s: string): (m: Option<string>)
    ensures m.None? <==> forall k :: 0 <= k < |s| ==> !IsDigit(s[k])
    ensures m.Some? ==> exists i, e :: LongestAt(s, i, e) && m.value == s[i..e] && forall k :: 0 <= k < i ==> !IsDigit(s[k])
  {
    match FirstDigit(s, 0)
    case None => None
    case Some(i) =>
      var e := NumberEnd(s, i);
      Some(s[i..e])
  }

  /** The match found is the only one the pattern allows: any match at the
      first digit is it. */
  lemma SearchNumberIsTheMatch(s: string, i: int, e: int)
    requires LongestAt(s, i, e) && forall k :: 0 <= k < i ==> !IsDigit(s[k])
    ensures SearchNumber(s) == Some(s[i..e])
  {
    assert s[i..e][0] == s[i];
    LongestAtUnique(s, i, e, NumberEnd(s, i));
  }

  /** Removing the dots from a match leaves digits, with the K or k at the
      end of the match still at the end. */
  lemma {:induction false} RemoveDotFacts(m: string)
    requires forall k :: 0 <= k < |m| ==> IsDigit(m[k]) || m[k] == '.'
    ensures AllDigits(RemoveChar(m, '.'))
    ensures |m| > 0 && IsDigit(m[0]) ==> |RemoveChar(m, '.')| > 0
    decreases |m|
  {
    if |m| > 0 {
      var front := m[..|m| - 1];
      RemoveDotFacts(front);
      if |front| > 0 && IsDigit(m[0]) {
        assert front[0] == m[0];
      }
    }
  }

  /** What the parse sees of a match: there is no comma to drop, the dots
      dropped leave digits exactly when the match has no K or k suffix, and
      the suffix is the only K or k. */
  lemma MatchDigits(m: string)
    requires NumberShaped(m)
    ensures RemoveChar(m, ',') == m
    ensures !IsKilo(m[|m| - 1]) <==> PyIsDigit(RemoveChar(m, '.'))
    ensures 'K' in m || 'k' in m <==> IsKilo(m[|m| - 1])
  {
    ShapedChars(m);
    NoComma(m);
    KiloOnlyAtEnd(m);
    if IsKilo(m[|m| - 1]) {
      KiloSurvives(m);
    } else {
      RemoveDotFacts(m);
    }
  }

  lemma NoComma(m: string)
    requires NumberChars(m)
    ensures RemoveChar(m, ',') == m
  {
    assert ',' !in m by {
      forall k | 0 <= k < |m|
        ensures m[k] != ','
      {
      }
    }
  }

  lemma KiloOnlyAtEnd(m: string)
    requires NumberChars(m)
    ensures 'K' in m || 'k' in m <==> IsKilo(m[|m| - 1])
  {
    if 'K' in m || 'k' in m {
      var k :| 0 <= k < |m| && IsKilo(m[k]);
      assert IsDigit(m[k]) || m[k] == '.' || (IsKilo(m[k]) && k == |m| - 1);
    }
  }

  lemma KiloSurvives(m: string)
    requires |m| > 0 && IsKilo(m[|m| - 1])
    ensures !PyIsDigit(RemoveChar(m, '.'))
  {
    var r := RemoveChar(m, '.');
    assert r == RemoveChar(m[..|m| - 1], '.') + [m[|m| - 1]];
    assert r[|r| - 1] == m[|m| - 1];
  }

  /** The install count of one leaderboard link (lines 62-71); None when
      `int()` raises on it. */
  function LinkInstalls(text: string): Option<int> {
    match SearchNumber(text)
    case None => Some(0)
    case Some(m) =>
      match PyInt(RemoveChar(RemoveChar(m, ','), '.'))
      case None => None
      case Some(n) => Some(if 'K' in m || 'k' in m then n * 1000 else n)
  }

  /** The leaderboard count is 0 without a digit, the first number with its
      dots dropped otherwise ("1.5" gives 15), and no count at all (the
      ValueError) when that number carries a K or k. */
  lemma LinkInstallsRules(text: string)
    ensures (forall k :: 0 <= k < |text| ==> !IsDigit(text[k])) ==> LinkInstalls(text) == Some(0)
    ensures SearchNumber(text).Some? ==> var m := SearchNumber(text).value;
      (LinkInstalls(text).None? <==> IsKilo(m[|m| - 1]))
    ensures SearchNumber(text).Some? ==> var m := SearchNumber(text).value;
      !IsKilo(m[|m| - 1]) ==> AllDigits(RemoveChar(m, '.')) && LinkInstalls(text) == Some(DigitsValue(RemoveChar(m, '.')))
  {
    if SearchNumber(text).Some? {
      var m := SearchNumber(text).value;
      MatchDigits(m);
      assert RemoveChar(m, ',') == m;
    }
  }

  /** The install count of a skill page (lines 146-154): the `isdigit()`
      guard turns the would-be ValueError into 0. */
  function DetailInstalls(text: string): nat {
    match SearchNumber(text)
    case None => 0
    case Some(m) =>
      var digits := RemoveChar(RemoveChar(m, ','), '.');
      var n := if PyIsDigit(digits) then DigitsValue(digits) else 0;
      if 'K' in m || 'k' in m then n * 1000 else n
  }

  /** A count with a K suffix makes `int()` raise. */
  lemma KiloCountRaises()
    ensures LinkInstalls("15K installs").None?
  {
    var s := "15K installs";
    assert s[0..3] == "15K" && "15K"[..2] == "15";
    assert Decimal("15");
    assert LongestAt(s, 0, 3);
    SearchNumberIsTheMatch(s, 0, 3);
    LinkInstallsRules(s);
  }

  /** A dotted count is read with its dot dropped. */
  lemma DottedCountLosesDot()
    ensures LinkInstalls("1.5 installs") == Some(15)
  {
    var s := "1.5 installs";
    DottedMatch();
    SearchNumberIsTheMatch(s, 0, 3);
    assert s[0..3] == "1.5";
    LinkInstallsRules(s);
    DottedDigits();
  }

  lemma DottedMatch()
    ensures LongestAt("1.5 installs", 0, 3)
  {
    var s := "1.5 installs";
    assert s[0..3] == "1.5";
    assert Decimal("1.5");
  }

  lemma DottedDigits()
    ensures RemoveChar("1.5", '.') == "15" && DigitsValue("15") == 15
  {
    assert "1.5"[..2] == "1." && "1."[..1] == "1" && "1"[..0] == "";
    assert "15"[..1] == "1";
  }

  /** The pattern never takes a comma, so a separated count keeps only its
      leading digits. */
  lemma SeparatedCountCut()
    ensures LinkInstalls("2,345 installs") == Some(2)
  {
    var s := "2,345 installs";
    assert s[0..1] == "2";
    assert LongestAt(s, 0, 1);
    SearchNumberIsTheMatch(s, 0, 1);
    assert RemoveChar("2", ',') == "2" && RemoveChar("2", '.') == "2";
    assert DigitsValue("2") == 2 by {
      assert "2"[..0] == "";
    }
  }

  /** The skill page count agrees with the leaderboard count wherever the
      latter exists, and is 0 exactly where the leaderboard raises: a K or k
      suffix never multiplies anything. */
  lemma InstallParsesAgree(text: string)
    ensures DetailInstalls(text) == match LinkInstalls(text) case Some(n) => n case None => 0
    ensures SearchNumber(text).Some? && IsKilo(SearchNumber(text).value[|SearchNumber(text).value| - 1]) ==>
              DetailInstalls(text) == 0
  {
    if SearchNumber(text).Some? {
      MatchDigits(SearchNumber(text).value);
    }
  }

  // ------------------------------------------------------- the link loop

  /** The record the link loop appends for an accepted anchor. */
  function SkillOf(a: Anchor, installs: int): (s: Skill)
    requires IsSkillLink(a.href)
    ensures s.skillId == SkillIdOf(a.href) && s.installs == installs && s.tags == []
  {
    var id := SkillIdOf(a.href);
    Skill(id, LastSegment(id), installs, SiteUrl + a.href, SiteUrl + a.href, a.text, [])
  }

  /** What the link loop does with one anchor: skip it, raise on its
      count, or append its record. */
  datatype LinkOutcome = Skipped | Raised | Kept(skill: Skill)

  function OutcomeOf(a: Anchor): LinkOutcome {
    if !IsSkillLink(a.href) then Skipped
    else match LinkInstalls(a.text)
      case None => Raised
      case Some(n) => Kept(SkillOf(a, n))
  }

  function Outcomes(anchors: seq<Anchor>): (r: seq<LinkOutcome>)
    ensures |r| == |anchors| && forall i :: 0 <= i < |anchors| ==> r[i] == OutcomeOf(anchors[i])
    decreases |anchors|
  {
    if |anchors| == 0 then [] else Outcomes(anchors[..|anchors| - 1]) + [OutcomeOf(anchors[|anchors| - 1])]
  }

  /** One turn of the link loop over the records gathered so far. */
  function Step(acc: Option<seq<Skill>>, o: LinkOutcome): Option<seq<Skill>> {
    match acc
    case None => None
    case Some(links) =>
      match o
      case Skipped => Some(links)
      case Raised => None
      case Kept(x) => Some(links + [x])
  }

  /** The loop over the outcomes: the appended records, None from the first
      raise on. */
  function Gather(outs: seq<LinkOutcome>): Option<seq<Skill>>
    decreases |outs|
  {
    if |outs| == 0 then Some([]) else Step(Gather(outs[..|outs| - 1]), outs[|outs| - 1])
  }

  lemma GatherNext(outs: seq<LinkOutcome>, i: int)
    requires 0 <= i < |outs|
    ensures Gather(outs[..i + 1]) == Step(Gather(outs[..i]), outs[i])
  {
    assert outs[..i + 1][..i] == outs[..i];
  }

  /** Reference definition of `skill_links`: one record per accepted anchor,
      in page order; None once `int()` raised on an accepted anchor. */
  function SkillLinks(anchors: seq<Anchor>): Option<seq<Skill>> {
    Gather(Outcomes(anchors))
  }

  lemma {:induction false} GatherFacts(outs: seq<LinkOutcome>)
    ensures Gather(outs).None? <==> exists i :: 0 <= i < |outs| && outs[i].Raised?
    ensures Gather(outs).Some? ==> forall x :: x in Gather(outs).value ==> exists i :: 0 <= i < |outs| && outs[i] == Kept(x)
    decreases |outs|
  {
    if |outs| > 0 {
      var front := outs[..|outs| - 1];
      GatherFacts(front);
      assert forall i :: 0 <= i < |front| ==> front[i] == outs[i];
      if Gather(front).None? {
        var i :| 0 <= i < |front| && front[i].Raised?;
        assert outs[i].Raised?;
      }
    }
  }

  /** Once the loop has raised it stays raised. */
  lemma {:induction false} GatherFailureSticks(outs: seq<LinkOutcome>, i: nat)
    requires i <= |outs| && Gather(outs[..i]).None?
    ensures Gather(outs).None?
    decreases |outs| - i
  {
    if i < |outs| {
      assert outs[..i + 1][..i] == outs[..i];
      GatherFailureSticks(outs, i + 1);
    } else {
      assert outs[..i] == outs;
    }
  }

  /** An anchor raises exactly when it is accepted and its count does not
      parse; an appended record is the accepted anchor's, with its count. */
  lemma OutcomeFacts(a: Anchor)
    ensures OutcomeOf(a).Raised? <==> IsSkillLink(a.href) && LinkInstalls(a.text).None?
    ensures OutcomeOf(a).Kept? ==> var x := OutcomeOf(a).skill;
      IsSkillLink(a.href) && LinkInstalls(a.text) == Some(x.installs) && x == SkillOf(a, x.installs)
  {
  }

  /** The records of the kept outcomes, in order: the filter the loop
      amounts to when nothing raises. */
  function KeptSkills(outs: seq<LinkOutcome>): seq<Skill>
    decreases |outs|
  {
    if |outs| == 0 then []
    else (if outs[0].Kept? then [outs[0].skill] else []) + KeptSkills(outs[1..])
  }

  lemma {:induction false} KeptSkillsSnoc(outs: seq<LinkOutcome>, o: LinkOutcome)
    ensures KeptSkills(outs + [o]) == KeptSkills(outs) + (if o.Kept? then [o.skill] else [])
    decreases |outs|
  {
    if |outs| == 0 {
      assert [o][1..] == [];
    } else {
      assert (outs + [o])[1..] == outs[1..] + [o];
      KeptSkillsSnoc(outs[1..], o);
    }
  }

  /** Every kept outcome's record is among the kept records. */
  lemma {:induction false} KeptSkillsMembers(outs: seq<LinkOutcome>)
    ensures forall i :: 0 <= i < |outs| && outs[i].Kept? ==> outs[i].skill in KeptSkills(outs)
    decreases |outs|
  {
    if |outs| > 0 {
      KeptSkillsMembers(outs[1..]);
      forall i | 0 <= i < |outs| && outs[i].Kept?
        ensures outs[i].skill in KeptSkills(outs)
      {
        if i > 0 {
          assert outs[1..][i - 1] == outs[i];
        }
      }
    }
  }

  /** Without a raise, the loop gathers exactly the kept records. */
  lemma {:induction false} GatherKept(outs: seq<LinkOutcome>)
    requires forall i :: 0 <= i < |outs| ==> !outs[i].Raised?
    ensures Gather(outs) == Some(KeptSkills(outs))
    decreases |outs|
  {
    if |outs| > 0 {
      var front := outs[..|outs| - 1];
      assert forall i :: 0 <= i < |front| ==> front[i] == outs[i];
      var last := outs[|outs| - 1];
      GatherKept(front);
      assert outs == front + [last];
      KeptSkillsSnoc(front, last);
      assert KeptSkills(front) + [] == KeptSkills(front);
    }
  }

  /** The loop fails exactly when some anchor raises. Otherwise it holds
      the record of every accepted anchor whose count parses, once each and
      in page order, and nothing else. */
  lemma SkillLinksFacts(anchors: seq<Anchor>)
    ensures SkillLinks(anchors).None? <==> exists i :: 0 <= i < |anchors| && OutcomeOf(anchors[i]).Raised?
    ensures SkillLinks(anchors).Some? ==> SkillLinks(anchors).value == KeptSkills(Outcomes(anchors))
    ensures SkillLinks(anchors).Some? ==> forall i :: 0 <= i < |anchors| && OutcomeOf(anchors[i]).Kept? ==>
              OutcomeOf(anchors[i]).skill in SkillLinks(anchors).value
    ensures SkillLinks(anchors).Some? ==> forall x :: x in SkillLinks(anchors).value ==>
              exists i :: 0 <= i < |anchors| && OutcomeOf(anchors[i]) == Kept(x)
  {
    var outs := Outcomes(anchors);
    GatherFacts(outs);
    if SkillLinks(anchors).Some? {
      GatherKept(outs);
      KeptSkillsMembers(outs);
    }
  }

  /** One accepted anchor whose count does not parse empties the whole
      leaderboard. */
  lemma RaisingAnchorEmptiesLeaderboard(anchors: seq<Anchor>, i: int, limit: int)
    requires 0 <= i < |anchors| && IsSkillLink(anchors[i].href) && LinkInstalls(anchors[i].text).None?
    ensures Leaderboard(anchors, limit) == []
  {
    SkillLinksFacts(anchors);
    assert OutcomeOf(anchors[i]).Raised?;
  }

  /** With no raise and a limit that keeps every id, the id of each accepted
      anchor reaches the leaderboard. */
  lemma AcceptedAnchorRanked(anchors: seq<Anchor>, i: int, limit: int)
    requires 0 <= i < |anchors| && OutcomeOf(anchors[i]).Kept?
    requires SkillLinks(anchors).Some? && limit >= |Unique(SkillLinks(anchors).value)|
    ensures exists y :: y in Leaderboard(anchors, limit) && y.skillId == OutcomeOf(anchors[i]).skill.skillId
  {
    var links := SkillLinks(anchors).value;
    var x := OutcomeOf(anchors[i]).skill;
    SkillLinksFacts(anchors);
    var k :| 0 <= k < |links| && links[k] == x;
    assert x.skillId in IdList(links);
    UniqueIds(links);
    var u := Unique(links);
    var ids := IdList(u);
    var m :| 0 <= m < |ids| && ids[m] == x.skillId;
    RankedKeepsAll(links, limit);
    assert u[m] in multiset(Ranked(links, limit));
  }

  /** The link loop of `fetch_skills_sh_leaderboard`; None stands for the
      exception that abandons the whole fetch. */
  method CollectLinks(anchors: seq<Anchor>) returns (links: Option<seq<Skill>>)
    ensures links == SkillLinks(anchors)
  {
    ghost var outs := Outcomes(anchors);
    var skillLinks: seq<Skill> := [];
    for i := 0 to |anchors|
      invariant Gather(outs[..i]) == Some(skillLinks)
    {
      var a := anchors[i];
      GatherNext(outs, i);
      if IsSkillLink(a.href) {
        var installs := LinkInstalls(a.text);
        if installs.None? {
          GatherFailureSticks(outs, i + 1);
          return None;
        }
        skillLinks := skillLinks + [SkillOf(a, installs.value)];
      }
    }
    assert outs[..|anchors|] == outs;
    return Some(skillLinks);
  }

  // ------------------------------------------------------------ dedup

  /** The ids of `s`, in order. */
  function IdList(s: seq<Skill>): (r: seq<string>)
    ensures |r| == |s| && forall i :: 0 <= i < |s| ==> r[i] == s[i].skillId
    decreases |s|
  {
    if |s| == 0 then [] else IdList(s[..|s| - 1]) + [s[|s| - 1].skillId]
  }

  lemma IdListSnoc(s: seq<Skill>, x: Skill)
    ensures IdList(s + [x]) == IdList(s) + [x.skillId]
  {
    assert (s + [x])[..|s|] == s;
  }

  predicate DistinctIds(s: seq<Skill>) {
    forall i, j :: 0 <= i < j < |s| ==> s[i].skillId != s[j].skillId
  }

  /** `s[i]` is the first entry of `s` with its id. */
  predicate FirstWithId(s: seq<Skill>, i: int)
    requires 0 <= i < |s|
  {
    forall j :: 0 <= j < i ==> s[j].skillId != s[i].skillId
  }

  /** Reference definition of `unique_skills`: each entry whose id has not
      been seen earlier. */
  function Unique(s: seq<Skill>): (r: seq<Skill>)
    ensures |r| <= |s|
    decreases |s|
  {
    if |s| == 0 then []
    else
      var front := s[..|s| - 1];
      if s[|s| - 1].skillId in IdList(front) then Unique(front) else Unique(front) + [s[|s| - 1]]
  }

  /** `idx` lists, in increasing order, the positions of `s` that make up `r`. */
  predicate SubseqIndex(idx: seq<int>, r: seq<Skill>, s: seq<Skill>) {
    && |idx| == |r|
    && (forall k :: 0 <= k < |r| ==> 0 <= idx[k] < |s| && r[k] == s[idx[k]])
    && (forall k, l :: 0 <= k < l < |r| ==> idx[k] < idx[l])
  }

  /** `r` is `s` with entries left out, the rest in their order. */
  ghost predicate SubseqOf(r: seq<Skill>, s: seq<Skill>) {
    exists idx: seq<int> :: SubseqIndex(idx, r, s)
  }

  /** Dedup loses no id. */
  lemma {:induction false} UniqueIds(s: seq<Skill>)
    ensures forall id :: id in IdList(Unique(s)) <==> id in IdList(s)
    decreases |s|
  {
    if |s| > 0 {
      var front := s[..|s| - 1];
      var x := s[|s| - 1];
      UniqueIds(front);
      assert s == front + [x];
      IdListSnoc(front, x);
      if x.skillId !in IdList(front) {
        IdListSnoc(Unique(front), x);
      }
    }
  }

  /** The ids dedup keeps are pairwise distinct. */
  lemma {:induction false} UniqueDistinct(s: seq<Skill>)
    ensures DistinctIds(Unique(s))
    decreases |s|
  {
    if |s| > 0 {
      var front := s[..|s| - 1];
      var x := s[|s| - 1];
      UniqueDistinct(front);
      if x.skillId !in IdList(front) {
        UniqueIds(front);
        var u := Unique(front);
        assert x.skillId !in IdList(u);
        forall i, j | 0 <= i < j < |u + [x]|
          ensures (u + [x])[i].skillId != (u + [x])[j].skillId
        {
          if j == |u| {
            assert IdList(u)[i] == u[i].skillId;
          }
        }
      }
    }
  }

  /** Dedup keeps exactly the first entry of each id. */
  lemma {:induction false} UniqueFirsts(s: seq<Skill>)
    ensures forall x :: x in Unique(s) <==> exists i :: 0 <= i < |s| && s[i] == x && FirstWithId(s, i)
    decreases |s|
  {
    if |s| > 0 {
      var front := s[..|s| - 1];
      var x := s[|s| - 1];
      UniqueFirsts(front);
      assert s == front + [x];
      assert forall i :: 0 <= i < |front| ==> (FirstWithId(s, i) <==> FirstWithId(front, i));
      if x.skillId in IdList(front) {
        var j :| 0 <= j < |front| && IdList(front)[j] == x.skillId;
        assert !FirstWithId(s, |s| - 1) by {
          assert s[j].skillId == s[|s| - 1].skillId;
        }
      } else {
        assert FirstWithId(s, |s| - 1) by {
          forall j | 0 <= j < |s| - 1
            ensures s[j].skillId != x.skillId
          {
            assert IdList(front)[j] == s[j].skillId;
          }
        }
      }
    }
  }

  /** Dedup keeps the encounter order. */
  lemma {:induction false} UniqueInOrder(s: seq<Skill>)
    ensures SubseqOf(Unique(s), s)
    decreases |s|
  {
    if |s| == 0 {
      assert SubseqIndex([], Unique(s), s);
    } else {
      var front := s[..|s| - 1];
      var x := s[|s| - 1];
      assert s == front + [x];
      UniqueInOrder(front);
      if x.skillId in IdList(front) {
        SubseqDrop(Unique(front), front, x);
      } else {
        SubseqKeep(Unique(front), front, x);
      }
    }
  }

  lemma SubseqDrop(r: seq<Skill>, s: seq<Skill>, x: Skill)
    requires SubseqOf(r, s)
    ensures SubseqOf(r, s + [x])
  {
    var idx: seq<int> :| SubseqIndex(idx, r, s);
    assert forall k :: 0 <= k < |r| ==> r[k] == (s + [x])[idx[k]];
    assert SubseqIndex(idx, r, s + [x]);
  }

  lemma SubseqKeep(r: seq<Skill>, s: seq<Skill>, x: Skill)
    requires SubseqOf(r, s)
    ensures SubseqOf(r + [x], s + [x])
  {
    var idx: seq<int> :| SubseqIndex(idx, r, s);
    var idx' := idx + [|s|];
    assert forall k :: 0 <= k < |r| + 1 ==> 0 <= idx'[k] < |s| + 1 && (r + [x])[k] == (s + [x])[idx'[k]];
    assert SubseqIndex(idx', r + [x], s + [x]);
  }

  lemma UniqueNext(s: seq<Skill>, i: int)
    requires 0 <= i < |s|
    ensures IdList(s[..i + 1]) == IdList(s[..i]) + [s[i].skillId]
    ensures Unique(s[..i + 1]) == if s[i].skillId in IdList(s[..i]) then Unique(s[..i]) else Unique(s[..i]) + [s[i]]
  {
    assert s[..i + 1] == s[..i] + [s[i]];
    IdListSnoc(s[..i], s[i]);
  }

  /** The dedup loop of `fetch_skills_sh_leaderboard`, with its `seen` dict. */
  method Dedupe(skillLinks: seq<Skill>) returns (uniqueSkills: seq<Skill>)
    ensures uniqueSkills == Unique(skillLinks)
  {
    var seen: map<string, bool> := map[];
    uniqueSkills := [];
    for i := 0 to |skillLinks|
      invariant uniqueSkills == Unique(skillLinks[..i])
      invariant forall id :: id in seen <==> id in IdList(skillLinks[..i])
    {
      var skill := skillLinks[i];
      UniqueNext(skillLinks, i);
      if skill.skillId !in seen {
        seen := seen[skill.skillId := true];
        uniqueSkills := uniqueSkills + [skill];
      }
    }
    assert skillLinks[..|skillLinks|] == skillLinks;
  }

  // --------------------------------------------------- sort and truncate

  /** `x.get('installs', 0)` */
  function InstallsKey(x: Skill): int {
    x.installs
  }

  function SkillIdKey(x: Skill): string {
    x.skillId
  }

  /** The deduplicated links by installs, descending, cut to `limit`. */
  function Ranked(links: seq<Skill>, limit: int): seq<Skill> {
    PyPrefix(SortDesc(Unique(links), InstallsKey), limit)
  }

  /** Reference definition of `fetch_skills_sh_leaderboard` on the page's
      anchors: the ranked links, or nothing when the link loop raised. */
  function Leaderboard(anchors: seq<Anchor>, limit: int): seq<Skill> {
    match SkillLinks(anchors)
    case None => []
    case Some(links) => Ranked(links, limit)
  }

  /** The ranking is sorted by installs and holds at most `limit` entries. */
  lemma RankedSorted(links: seq<Skill>, limit: int)
    ensures SortedDesc(Ranked(links, limit), InstallsKey)
    ensures limit >= 0 ==> |Ranked(links, limit)| <= limit
  {
    var t := SortDesc(Unique(links), InstallsKey);
    SortDescFacts(Unique(links), InstallsKey);
    var r := PyPrefix(t, limit);
    assert forall k :: 0 <= k < |r| ==> r[k] == t[k];
  }

  /** No two ranked entries share an id. */
  lemma RankedDistinct(links: seq<Skill>, limit: int)
    ensures DistinctIds(Ranked(links, limit))
  {
    var u := Unique(links);
    var t := SortDesc(u, InstallsKey);
    UniqueDistinct(links);
    assert DistinctBy(u, SkillIdKey) by {
      forall i, j | 0 <= i < j < |u|
        ensures SkillIdKey(u[i]) != SkillIdKey(u[j])
      {
      }
    }
    SortDescDistinct(u, InstallsKey, SkillIdKey);
    var r := PyPrefix(t, limit);
    assert forall k :: 0 <= k < |r| ==> r[k] == t[k];
  }

  /** Every ranked entry is the first link with its id. */
  lemma RankedFromLinks(links: seq<Skill>, limit: int)
    ensures forall x :: x in Ranked(links, limit) ==>
              exists i :: 0 <= i < |links| && links[i] == x && FirstWithId(links, i)
  {
    var u := Unique(links);
    var t := SortDesc(u, InstallsKey);
    UniqueFirsts(links);
    SortDescFacts(u, InstallsKey);
    var r := PyPrefix(t, limit);
    forall x | x in r
      ensures x in u
    {
      assert x in t;
      assert x in multiset(u);
    }
  }

  /** Truncation keeps the entries with the most installs: whatever it
      drops has no more installs than anything it keeps. */
  lemma RankedKeepsTop(links: seq<Skill>, limit: int, x: Skill, y: Skill)
    requires x in Unique(links) && x !in Ranked(links, limit) && y in Ranked(links, limit)
    ensures y.installs >= x.installs
  {
    var u := Unique(links);
    var t := SortDesc(u, InstallsKey);
    var r := PyPrefix(t, limit);
    SortDescFacts(u, InstallsKey);
    assert x in multiset(t);
    PrefixKeepsTop(t, |r|, InstallsKey, x, y);
  }

  /** A limit at least the number of distinct ids drops nothing. */
  lemma RankedKeepsAll(links: seq<Skill>, limit: int)
    requires limit >= |Unique(links)|
    ensures multiset(Ranked(links, limit)) == multiset(Unique(links))
  {
    var t := SortDesc(Unique(links), InstallsKey);
    SortDescFacts(Unique(links), InstallsKey);
    assert PyPrefix(t, limit) == t;
  }

  /** The leaderboard is empty when a count raised, and otherwise the
      ranking of the links: sorted by installs, at most `limit` long, with
      distinct ids. */
  lemma LeaderboardFacts(anchors: seq<Anchor>, limit: int)
    ensures SkillLinks(anchors).None? ==> Leaderboard(anchors, limit) == []
    ensures SortedDesc(Leaderboard(anchors, limit), InstallsKey)
    ensures limit >= 0 ==> |Leaderboard(anchors, limit)| <= limit
    ensures DistinctIds(Leaderboard(anchors, limit))
  {
    if SkillLinks(anchors).Some? {
      RankedSorted(SkillLinks(anchors).value, limit);
      RankedDistinct(SkillLinks(anchors).value, limit);
    }
  }

  /** `fetch_skills_sh_leaderboard` from the anchors of the page. */
  method FetchLeaderboard(anchors: seq<Anchor>, limit: int) returns (skills: seq<Skill>)
    ensures skills == Leaderboard(anchors, limit)
  {
    skills := [];
    var skillLinks := CollectLinks(anchors);
    if skillLinks.None? {
      return;
    }
    var uniqueSkills := Dedupe(skillLinks.value);
    var a := new Skill[|uniqueSkills|](i requires 0 <= i < |uniqueSkills| => uniqueSkills[i]);
    assert a[..] == uniqueSkills;
    SortByKeyDesc(a, InstallsKey);
    skills := PyPrefix(a[..], limit);
  }
}
