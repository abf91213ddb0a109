/**
 * The job-description analysis of src/components/SmartAnalysis.jsx: the
 * years-of-experience figure, the skill phrases, the seniority and job-type
 * classifiers, the word and requirement counts, the complexity score and
 * the labels and colours shown for them.
 */
module SmartAnalysis {
  import opened Results
  import opened JsText
  import opened Markdown

  /** `!jobDescription || jobDescription.length < 50`: no analysis is made. */
  predicate Analysable(jobDescription: Option<string>) {
    jobDescription.Some? && |jobDescription.value| >= 50
  }

  /** The keyword `kw` (lower case) at `i`, ignoring ASCII case. */
  predicate KeywordAt(text: string, kw: string, i: nat) {
    i + |kw| <= |text| && Lower(text[i..i + |kw|]) == kw
  }

  // ---- yearsRequired: /(\d+)\+?\s*years?/gi ----

  /** The end of the run of ASCII digits starting at `i`. */
  function DigitsEnd(text: string, i: nat): (j: nat)
    requires i <= |text|
    ensures i <= j <= |text| && (j == |text| || !IsDigit(text[j]))
    ensures forall k :: i <= k < j ==> IsDigit(text[k])
    decreases |text| - i
  {
    if i < |text| && IsDigit(text[i]) then DigitsEnd(text, i + 1) else i
  }

  /**
   * The number a match starting at `i` reads: digits, an optional `+`,
   * whitespace and `year`. No backtracking can help a failed attempt, since
   * a digit, `+` and whitespace are never `y`.
   */
  function YearsAt(text: string, i: nat): Option<nat>
    requires i <= |text|
  {
    var j := DigitsEnd(text, i);
    if j == i then None
    else
      var k := if j < |text| && text[j] == '+' then j + 1 else j;
      var m := SkipSpaces(text, k);
      if KeywordAt(text, "year", m) then Some(ParseDigits(text[i..j])) else None
  }

  /** `parseInt(yearsMatch[0])` of the leftmost match at or after `i`, or None. */
  function YearsFrom(text: string, i: nat): Option<nat>
    requires i <= |text|
    decreases |text| - i
  {
    if i == |text| then None
    else match YearsAt(text, i)
      case Some(n) => Some(n)
      case None => YearsFrom(text, i + 1)
  }

  function YearsRequired(text: string): Option<nat> {
    YearsFrom(text, 0)
  }

  /**
   * The figure is read from the leftmost match: a position in the text where
   * digits reading it are followed by `year`, with no match before it.
   */
  lemma YearsFromSpec(text: string, i: nat)
    requires i <= |text|
    ensures YearsFrom(text, i).Some? <==> exists k :: i <= k < |text| && YearsAt(text, k).Some?
    ensures YearsFrom(text, i).Some? ==>
      exists k :: i <= k < |text| && YearsAt(text, k) == YearsFrom(text, i)
                  && forall j :: i <= j < k ==> YearsAt(text, j).None?
  {
    YearsFromLeftmost(text, i);
    YearsFromNone(text, i);
  }

  /** A figure found comes from a match with no match before it. */
  lemma {:induction false} YearsFromLeftmost(text: string, i: nat)
    requires i <= |text|
    ensures YearsFrom(text, i).Some? ==>
      exists k :: i <= k < |text| && YearsAt(text, k) == YearsFrom(text, i)
                  && forall j :: i <= j < k ==> YearsAt(text, j).None?
    decreases |text| - i
  {
    if i < |text| && YearsAt(text, i).None? {
      YearsFromLeftmost(text, i + 1);
      if YearsFrom(text, i + 1).Some? {
        var k :| i + 1 <= k < |text| && YearsAt(text, k) == YearsFrom(text, i + 1)
                 && forall j :: i + 1 <= j < k ==> YearsAt(text, j).None?;
        assert forall j :: i <= j < k ==> YearsAt(text, j).None?;
      }
    }
  }

  /** No figure is found only when no position from `i` on starts a match. */
  lemma {:induction false} YearsFromNone(text: string, i: nat)
    requires i <= |text|
    ensures YearsFrom(text, i).None? ==> forall k :: i <= k < |text| ==> YearsAt(text, k).None?
    decreases |text| - i
  {
    if i < |text| && YearsAt(text, i).None? {
      YearsFromNone(text, i + 1);
    }
  }

  /** `"5+ years"` reads 5. */
  lemma YearsExample()
    ensures YearsAt("5+ years", 0) == Some(5)
  {
    var t := "5+ years";
    assert DigitsEnd(t, 1) == 1;
    assert DigitsEnd(t, 0) == 1;
    assert SkipSpaces(t, 3) == 3;
    assert SkipSpaces(t, 2) == 3;
    assert t[3..7] == "year";
    assert t[0..1] == "5";
    assert ParseDigits("5") == 10 * ParseDigits("") + 5;
  }

  // ---- skills ----

  /** The alternatives of `(?:skills?|expertise|proficient|experience with)`, in the order they are tried. */
  const SKILL_WORDS: seq<string> := ["skills", "skill", "expertise", "proficient", "experience with"]

  /** The alternatives of `(?:required|must have)`. */
  const REQUIRED_WORDS: seq<string> := ["required", "must have"]

  predicate IsGapChar(c: char) {
    IsSpace(c) || c == ':'
  }

  /** The end of the run matched by `[\s:]+` from `j`, taken greedily. */
  function SkipGap(text: string, j: nat): (k: nat)
    requires j <= |text|
    ensures j <= k <= |text| && forall x :: j <= x < k ==> IsGapChar(text[x])
    ensures k == |text| || !IsGapChar(text[k])
    decreases |text| - j
  {
    if j < |text| && IsGapChar(text[j]) then SkipGap(text, j + 1) else j
  }

  /** The first `.` at or after `k`, or the end. */
  function NextDot(text: string, k: nat): (e: nat)
    requires k <= |text|
    ensures k <= e <= |text| && (e == |text| || text[e] == '.')
    ensures forall x :: k <= x < e ==> text[x] != '.'
    decreases |text| - k
  {
    if k < |text| && text[k] != '.' then NextDot(text, k + 1) else k
  }

  /**
   * `kw[\s:]+([^.]+)` at `i`: the captured group as (start, end), which is
   * also where the match ends. When nothing but a `.` or the end follows the
   * gap, the gap gives its last character back to the group.
   */
  function MatchWith(text: string, kw: string, i: nat): (g: Option<(nat, nat)>)
    requires |kw| > 0
    ensures g.Some? ==> i < g.value.0 < g.value.1 <= |text|
    ensures g.Some? ==> forall x :: g.value.0 <= x < g.value.1 ==> text[x] != '.'
    ensures g.Some? ==> KeywordAt(text, kw, i) && i + |kw| < g.value.0
    ensures g.Some? ==> forall x :: i + |kw| <= x < g.value.0 ==> IsGapChar(text[x])
    ensures g.Some? ==> g.value.1 == |text| || text[g.value.1] == '.'
    ensures g.Some? ==> !IsGapChar(text[g.value.0]) || g.value.1 == g.value.0 + 1
    ensures KeywordAt(text, kw, i) && SkipGap(text, i + |kw|) >= i + |kw| + 2 ==> g.Some?
    ensures (KeywordAt(text, kw, i) && i + |kw| < SkipGap(text, i + |kw|) < |text|
             && text[SkipGap(text, i + |kw|)] != '.') ==> g.Some?
  {
    if !KeywordAt(text, kw, i) then None
    else
      var j := i + |kw|;
      var k := SkipGap(text, j);
      if k == j then None
      else
        var e := NextDot(text, k);
        if e > k then Some((k, e))
        else if k - j >= 2 then Some((k - 1, k))
        else None
  }

  /** The first alternative that matches at `i`. */
  function MatchAt(text: string, words: seq<string>, i: nat): (g: Option<(nat, nat)>)
    requires forall w :: w in words ==> |w| > 0
    ensures g.Some? ==> i < g.value.0 < g.value.1 <= |text|
    ensures g.Some? ==> forall x :: g.value.0 <= x < g.value.1 ==> text[x] != '.'
  {
    if |words| == 0 then None
    else match MatchWith(text, words[0], i)
      case Some(g) => Some(g)
      case None => MatchAt(text, words[1..], i)
  }

  /** `pattern.exec(text)` from `lastIndex`: the leftmost match at or after it. */
  function Exec(text: string, words: seq<string>, lastIndex: nat): (g: Option<(nat, nat)>)
    requires forall w :: w in words ==> |w| > 0
    ensures g.Some? ==> lastIndex < g.value.0 < g.value.1 <= |text|
    ensures g.Some? ==> forall x :: g.value.0 <= x < g.value.1 ==> text[x] != '.'
    ensures g.Some? ==> exists p :: lastIndex <= p < g.value.0 && MatchAt(text, words, p) == g
                                    && forall q :: lastIndex <= q < p ==> MatchAt(text, words, q).None?
    ensures g.None? ==> forall q :: lastIndex <= q < |text| ==> MatchAt(text, words, q).None?
    decreases |text| - lastIndex
  {
    if lastIndex >= |text| then None
    else match MatchAt(text, words, lastIndex)
      case Some(g) => Some(g)
      case None => Exec(text, words, lastIndex + 1)
  }

  predicate IsSkillSeparator(c: char) {
    c == ',' || c == ';'
  }

  /** `s.split(/[,;]/)` */
  function SplitSkills(s: string): (parts: seq<string>)
    ensures |parts| >= 1
    decreases |s|
  {
    if |s| == 0 then [""]
    else
      var rest := SplitSkills(s[1..]);
      if IsSkillSeparator(s[0]) then [""] + rest
      else [[s[0]] + rest[0]] + rest[1..]
  }

  /** The pieces hold no separator and only characters of `s`. */
  lemma {:induction false} SplitSkillsSpec(s: string)
    ensures forall p :: p in SplitSkills(s) ==> forall x :: x in p ==> x in s && !IsSkillSeparator(x)
    decreases |s|
  {
    if |s| > 0 {
      SplitSkillsSpec(s[1..]);
      var rest := SplitSkills(s[1..]);
      assert forall x :: x in s[1..] ==> x in s;
      if !IsSkillSeparator(s[0]) {
        var parts := [[s[0]] + rest[0]] + rest[1..];
        forall p | p in parts
          ensures forall x :: x in p ==> x in s && !IsSkillSeparator(x)
        {
          if p == [s[0]] + rest[0] {
            assert s[0] in s && rest[0] in rest;
            assert forall x :: x in p ==> x == s[0] || x in rest[0];
          } else {
            assert p in rest;
          }
        }
      }
    }
  }

  /** `.map((s) => s.trim()).filter((s) => s.length > 2 && s.length < 50)` */
  function KeepSkills(parts: seq<string>): seq<string>
    decreases |parts|
  {
    if |parts| == 0 then []
    else
      var t := Trim(parts[0]);
      (if 2 < |t| < 50 then [t] else []) + KeepSkills(parts[1..])
  }

  /** What a detected skill looks like. */
  predicate IsSkill(s: string) {
    && 2 < |s| < 50
    && Trim(s) == s
    && forall x :: x in s ==> x != '.' && !IsSkillSeparator(x)
  }

  lemma {:induction false} KeepSkillsSpec(parts: seq<string>)
    requires forall p :: p in parts ==> forall x :: x in p ==> x != '.' && !IsSkillSeparator(x)
    ensures forall s :: s in KeepSkills(parts) ==> IsSkill(s)
    decreases |parts|
  {
    if |parts| > 0 {
      assert forall p :: p in parts[1..] ==> p in parts;
      KeepSkillsSpec(parts[1..]);
      var t := Trim(parts[0]);
      TrimShrinks(parts[0]);
      TrimIdempotent(parts[0]);
      if 2 < |t| < 50 {
        assert parts[0] in parts;
        assert IsSkill(t);
        assert KeepSkills(parts) == [t] + KeepSkills(parts[1..]);
      }
    }
  }

  /** The skill list of one captured group. */
  function SkillList(group: string): seq<string> {
    KeepSkills(SplitSkills(group))
  }

  lemma SkillListSpec(group: string)
    requires '.' !in group
    ensures forall s :: s in SkillList(group) ==> IsSkill(s)
  {
    SplitSkillsSpec(group);
    KeepSkillsSpec(SplitSkills(group));
  }

  predicate Distinct(s: seq<string>) {
    forall i, j :: 0 <= i < j < |s| ==> s[i] != s[j]
  }

  /** The `Set` of skills: distinct, in insertion order. */
  predicate GoodSkills(s: seq<string>) {
    Distinct(s) && forall x :: x in s ==> IsSkill(x)
  }

  /**
   * The skill phrases the `exec` loop of one pattern yields from `lastIndex`
   * on: the skill list of each successive match, in order.
   */
  function SkillsFrom(text: string, words: seq<string>, lastIndex: nat): seq<string>
    requires forall w :: w in words ==> |w| > 0
    decreases |text| - lastIndex
  {
    match Exec(text, words, lastIndex)
    case None => []
    case Some(g) => SkillList(text[g.0..g.1]) + SkillsFrom(text, words, g.1)
  }

  /** `slice(0, 8)` of a list of `n` items keeps this many. */
  function Min8(n: nat): nat {
    if n <= 8 then n else 8
  }

  /** Every phrase of the two patterns, in the order `skills.add` sees them. */
  function SkillPhrases(text: string): seq<string> {
    SkillsFrom(text, SKILL_WORDS, 0) + SkillsFrom(text, REQUIRED_WORDS, 0)
  }

  /** `list.forEach((x) => set.add(x))` on a `Set` holding `found`, as its insertion-ordered contents. */
  function AddSeq(found: seq<string>, list: seq<string>): seq<string>
    decreases |list|
  {
    if |list| == 0 then found
    else
      var r := AddSeq(found, list[..|list| - 1]);
      if list[|list| - 1] in r then r else r + [list[|list| - 1]]
  }

  /** Adding keeps what was there, first, and holds exactly the old and the new items, each once. */
  lemma {:induction false} AddSeqSpec(found: seq<string>, list: seq<string>)
    ensures found <= AddSeq(found, list)
    ensures forall x :: x in AddSeq(found, list) <==> x in found || x in list
    ensures Distinct(found) ==> Distinct(AddSeq(found, list))
    ensures forall j :: |found| <= j < |AddSeq(found, list)| ==> AddSeq(found, list)[j] !in found
    decreases |list|
  {
    if |list| > 0 {
      var init := list[..|list| - 1];
      AddSeqSpec(found, init);
      assert list == init + [list[|list| - 1]];
    }
  }

  /**
   * The items added come in the order of their first occurrence in the list:
   * an earlier new item occurs in the list before every occurrence of a later one.
   */
  lemma {:induction false} AddSeqOrder(found: seq<string>, list: seq<string>, i: nat, j: nat, k: nat)
    requires |found| <= i < j < |AddSeq(found, list)|
    requires k < |list| && list[k] == AddSeq(found, list)[j]
    ensures AddSeq(found, list)[i] in list[..k]
    decreases |list|
  {
    var n := |list| - 1;
    var init := list[..n];
    var r0 := AddSeq(found, init);
    AddSeqSpec(found, init);
    AddSeqSpec(found, list);
    var r := AddSeq(found, list);
    if list[n] in r0 {
      if k == n {
        // list[n] == r[j] is already in r0 at j, so it also occurs in init, earlier
        assert r[j] in init;
        var k' :| 0 <= k' < n && init[k'] == r[j];
        AddSeqOrder(found, init, i, j, k');
        assert init[..k'] <= list[..k];
      } else {
        AddSeqOrder(found, init, i, j, k);
        assert init[..k] == list[..k];
      }
    } else {
      assert r == r0 + [list[n]];
      if j < |r0| {
        // r[j] is in r0 and list[n] is not, so the occurrence k lies in init
        assert k < n;
        AddSeqOrder(found, init, i, j, k);
        assert init[..k] == list[..k];
      } else {
        // r[j] is the new last item, which does not occur in init
        assert r[j] == list[n] && list[n] !in init;
        assert k == n;
        assert r[i] == r0[i] && r0[i] !in found;
        assert r0[i] in init;
        assert list[..k] == init;
      }
    }
  }

  /** Adding a concatenation is adding its parts one after the other. */
  lemma {:induction false} AddSeqAppend(found: seq<string>, a: seq<string>, b: seq<string>)
    ensures AddSeq(found, a + b) == AddSeq(AddSeq(found, a), b)
    decreases |b|
  {
    if |b| == 0 {
      assert a + b == a;
    } else {
      var n := |b| - 1;
      AddSeqAppend(found, a, b[..n]);
      assert (a + b)[..|a + b| - 1] == a + b[..n];
      assert (a + b)[|a + b| - 1] == b[n];
    }
  }

  /** `skills.add(skill)` for each skill of the list. */
  method AddAll(found: seq<string>, list: seq<string>) returns (r: seq<string>)
    requires GoodSkills(found)
    requires forall x :: x in list ==> IsSkill(x)
    ensures r == AddSeq(found, list)
    ensures GoodSkills(r)
  {
    r := found;
    for q := 0 to |list|
      invariant r == AddSeq(found, list[..q])
    {
      assert list[..q + 1][..q] == list[..q];
      if list[q] !in r {
        r := r + [list[q]];
      }
    }
    assert list[..|list|] == list;
    AddSeqSpec(found, list);
  }

  /** Every phrase of a pattern's matches has the shape of a skill. */
  lemma {:induction false} SkillsFromAreSkills(text: string, words: seq<string>, lastIndex: nat)
    requires forall w :: w in words ==> |w| > 0
    ensures forall x :: x in SkillsFrom(text, words, lastIndex) ==> IsSkill(x)
    decreases |text| - lastIndex
  {
    match Exec(text, words, lastIndex)
    case None =>
    case Some(g) =>
      SkillListSpec(text[g.0..g.1]);
      SkillsFromAreSkills(text, words, g.1);
  }

  /** One skill pattern run to exhaustion with `exec`, adding to the set. */
  method ScanPattern(text: string, words: seq<string>, found: seq<string>) returns (r: seq<string>)
    requires forall w :: w in words ==> |w| > 0
    requires GoodSkills(found)
    ensures r == AddSeq(found, SkillsFrom(text, words, 0))
    ensures GoodSkills(r)
  {
    r := found;
    var lastIndex := 0;
    var m := Exec(text, words, lastIndex);
    while m.Some?
      invariant GoodSkills(r)
      invariant lastIndex <= |text|
      invariant m == Exec(text, words, lastIndex)
      invariant AddSeq(r, SkillsFrom(text, words, lastIndex)) == AddSeq(found, SkillsFrom(text, words, 0))
      decreases |text| - lastIndex
    {
      var group := text[m.value.0..m.value.1];
      SkillListSpec(group);
      AddSeqAppend(r, SkillList(group), SkillsFrom(text, words, m.value.1));
      r := AddAll(r, SkillList(group));
      lastIndex := m.value.1;
      m := Exec(text, words, lastIndex);
    }
  }

  /**
   * The skills shown: the first eight (or fewer) distinct phrases, in the
   * order the set first received them.
   */
  method DetectSkills(text: string) returns (skills: seq<string>)
    ensures |skills| <= 8 && GoodSkills(skills)
    ensures skills <= AddSeq([], SkillPhrases(text))
    ensures |skills| == Min8(|AddSeq([], SkillPhrases(text))|)
  {
    var found: seq<string> := [];
    found := ScanPattern(text, SKILL_WORDS, found);
    found := ScanPattern(text, REQUIRED_WORDS, found);
    AddSeqAppend([], SkillsFrom(text, SKILL_WORDS, 0), SkillsFrom(text, REQUIRED_WORDS, 0));
    skills := if |found| <= 8 then found else found[..8];
  }

  /**
   * A phrase is shown only if some match yielded it; a phrase that some match
   * yielded is left out only when eight others were shown first; and the
   * phrases shown appear in the order of their first occurrence.
   */
  lemma DetectedSkillsSpec(text: string, skills: seq<string>)
    requires skills <= AddSeq([], SkillPhrases(text))
    requires |skills| == Min8(|AddSeq([], SkillPhrases(text))|)
    ensures forall x :: x in skills ==> x in SkillPhrases(text)
    ensures forall x :: x in SkillPhrases(text) && x !in skills ==> |skills| == 8
    ensures forall i, j, k :: 0 <= i < j < |skills| && 0 <= k < |SkillPhrases(text)| && SkillPhrases(text)[k] == skills[j]
              ==> skills[i] in SkillPhrases(text)[..k]
  {
    var all := AddSeq([], SkillPhrases(text));
    AddSeqSpec([], SkillPhrases(text));
    forall i, j, k | 0 <= i < j < |skills| && 0 <= k < |SkillPhrases(text)| && SkillPhrases(text)[k] == skills[j]
      ensures skills[i] in SkillPhrases(text)[..k]
    {
      AddSeqOrder([], SkillPhrases(text), i, j, k);
    }
  }

  // ---- seniority and job type ----

  /** An entry of `seniorityKeywords` or `jobTypeKeywords`. */
  datatype Level = Level(name: string, keywords: seq<string>)

  function SeniorityLevels(): seq<Level> {
    [ Level("entry", ["junior", "entry-level", "entry level", "graduate", "fresh"]),
      Level("mid", ["mid-level", "mid level", "experienced", "professional"]),
      Level("senior", ["senior", "lead", "principal", "staff", "architect", "manager"]),
      Level("executive", ["director", "vp", "c-level", "cto", "cfo", "ceo"]) ]
  }

  function JobTypes(): seq<Level> {
    [ Level("remote", ["remote", "work from home", "distributed", "anywhere"]),
      Level("hybrid", ["hybrid", "flexible", "office"]),
      Level("onsite", ["on-site", "on site", "office-based", "location"]) ]
  }

  /** `keywords.some((kw) => lower.includes(kw))` */
  predicate AnyIn(lower: string, keywords: seq<string>) {
    exists k :: 0 <= k < |keywords| && Contains(lower, keywords[k])
  }

  /** The first level with a keyword in the text, or the default. */
  function FirstLevel(lower: string, levels: seq<Level>, default: string): string
    decreases |levels|
  {
    if |levels| == 0 then default
    else if AnyIn(lower, levels[0].keywords) then levels[0].name
    else FirstLevel(lower, levels[1..], default)
  }

  /** No level matches: the default. */
  lemma {:induction false} FirstLevelNone(lower: string, levels: seq<Level>, default: string)
    requires forall k :: 0 <= k < |levels| ==> !AnyIn(lower, levels[k].keywords)
    ensures FirstLevel(lower, levels, default) == default
    decreases |levels|
  {
    if |levels| > 0 {
      assert !AnyIn(lower, levels[0].keywords);
      FirstLevelNone(lower, levels[1..], default);
    }
  }

  /** Level `k` matches and none before it does: its name. */
  lemma {:induction false} FirstLevelFirst(lower: string, levels: seq<Level>, default: string, k: nat)
    requires k < |levels| && AnyIn(lower, levels[k].keywords)
    requires forall j :: 0 <= j < k ==> !AnyIn(lower, levels[j].keywords)
    ensures FirstLevel(lower, levels, default) == levels[k].name
    decreases k
  {
    if k > 0 {
      assert !AnyIn(lower, levels[0].keywords);
      assert levels[1..][k - 1] == levels[k];
      assert forall j :: 0 <= j < k - 1 ==> levels[1..][j] == levels[j + 1];
      FirstLevelFirst(lower, levels[1..], default, k - 1);
    }
  }

  /** The `for…of` with `break`. */
  method ClassifyLoop(text: string, levels: seq<Level>, default: string) returns (result: string)
    ensures result == FirstLevel(Lower(text), levels, default)
  {
    var lower := Lower(text);
    result := default;
    var i := 0;
    while i < |levels|
      invariant 0 <= i <= |levels|
      invariant FirstLevel(lower, levels, default) == FirstLevel(lower, levels[i..], default)
    {
      if AnyIn(lower, levels[i].keywords) {
        result := levels[i].name;
        return;
      }
      assert levels[i..][1..] == levels[i + 1..];
      i := i + 1;
    }
  }

  function Seniority(text: string): string {
    FirstLevel(Lower(text), SeniorityLevels(), "mid")
  }

  function JobType(text: string): string {
    FirstLevel(Lower(text), JobTypes(), "not specified")
  }

  lemma ContainsWithin(s: string, long: string, short: string)
    requires Contains(s, long) && short <= long
    ensures Contains(s, short)
  {
    var k := IndexOf(s, long).value;
    assert s[k..k + |short|] == long[..|short|];
    ContainsSlice(s, short, k);
  }

  /**
   * `office` is a hybrid keyword and hybrid is tried before on-site, so an
   * `office-based` description without a remote keyword is classed hybrid.
   */
  lemma OfficeBasedIsHybrid(text: string)
    requires Contains(Lower(text), "office-based")
    requires !AnyIn(Lower(text), JobTypes()[0].keywords)
    ensures JobType(text) == "hybrid"
  {
    ContainsWithin(Lower(text), "office-based", "office");
    assert JobTypes()[1].keywords[2] == "office";
    FirstLevelFirst(Lower(text), JobTypes(), "not specified", 1);
  }

  /** Senior keywords are tried before executive ones: `senior director` is senior. */
  lemma SeniorBeforeExecutive(text: string)
    requires Contains(Lower(text), "senior")
    ensures Seniority(text) in {"entry", "mid", "senior"}
  {
    assert SeniorityLevels()[2].keywords[0] == "senior";
    assert AnyIn(Lower(text), SeniorityLevels()[2].keywords);
  }

  // ---- counts and complexity ----

  /** Positions where a run of whitespace starts. */
  function RunStarts(text: string, i: nat): nat
    requires i <= |text|
    decreases |text| - i
  {
    if i == |text| then 0
    else (if IsSpace(text[i]) && (i == 0 || !IsSpace(text[i - 1])) then 1 else 0) + RunStarts(text, i + 1)
  }

  /** `text.split(/\s+/).length`: one more piece than there are whitespace runs. */
  function WordCount(text: string): nat {
    1 + RunStarts(text, 0)
  }

  /** Text without whitespace is one word; every run of whitespace adds one. */
  lemma {:induction false} RunStartsBound(text: string, i: nat)
    requires i <= |text|
    ensures RunStarts(text, i) <= |text| - i
    ensures (forall k :: i <= k < |text| ==> !IsSpace(text[k])) ==> RunStarts(text, i) == 0
    decreases |text| - i
  {
    if i < |text| {
      RunStartsBound(text, i + 1);
    }
  }

  const REQUIREMENT_WORDS: seq<string> := ["required", "must", "should", "nice to have"]

  /** The length of the alternative of `(?:required|must|should|nice to have)` matching at `i`. */
  function RequirementAt(text: string, i: nat): (n: nat)
    ensures n == 0 || 4 <= n
  {
    if KeywordAt(text, "required", i) then 8
    else if KeywordAt(text, "must", i) then 4
    else if KeywordAt(text, "should", i) then 6
    else if KeywordAt(text, "nice to have", i) then 12
    else 0
  }

  /** The number of matches of the global pattern from `i`, scanning left to right. */
  function RequirementsFrom(text: string, i: nat): nat
    decreases |text| - i
  {
    if i >= |text| then 0
    else if RequirementAt(text, i) > 0 then 1 + RequirementsFrom(text, i + RequirementAt(text, i))
    else RequirementsFrom(text, i + 1)
  }

  function RequirementCount(text: string): nat {
    RequirementsFrom(text, 0)
  }

  /** Matches do not overlap and each is at least four characters long. */
  lemma {:induction false} RequirementsBound(text: string, i: nat)
    ensures 4 * RequirementsFrom(text, i) <= if i >= |text| then 0 else |text| - i
    decreases |text| - i
  {
    if i < |text| {
      var n := RequirementAt(text, i);
      if n > 0 {
        assert KeywordAt(text, "required", i) || KeywordAt(text, "must", i) || KeywordAt(text, "should", i) || KeywordAt(text, "nice to have", i);
        assert i + n <= |text|;
        RequirementsBound(text, i + n);
      } else {
        RequirementsBound(text, i + 1);
      }
    }
  }

  /** `Math.min(100, Math.round((wordCount / 10 + requirementCount * 5) / 2))` in integers. */
  function Complexity(wordCount: nat, requirementCount: nat): (c: nat)
    ensures c <= 100
  {
    var rounded := (wordCount + 50 * requirementCount + 10) / 20;
    if rounded < 100 then rounded else 100
  }

  /**
   * The score is the nearest integer to `(wordCount + 50 * requirementCount) / 20`,
   * halves rounded up, capped at 100; it never falls when either count grows.
   */
  lemma ComplexitySpec(w: nat, r: nat, w2: nat, r2: nat)
    ensures var c := Complexity(w, r);
      c == 100 || 20 * c - 10 <= w + 50 * r < 20 * c + 10
    ensures Complexity(w, r) == 100 <==> w + 50 * r >= 1990
    ensures w <= w2 && r <= r2 ==> Complexity(w, r) <= Complexity(w2, r2)
  {
  }

  // ---- labels ----

  /** `getComplexityLabel` */
  function ComplexityLabel(score: int): string {
    if score < 30 then "Simple"
    else if score < 60 then "Moderate"
    else if score < 80 then "Complex"
    else "Very Complex"
  }

  /** The position of a label in the order Simple, Moderate, Complex, Very Complex. */
  function LabelRank(name: string): nat {
    if name == "Simple" then 0
    else if name == "Moderate" then 1
    else if name == "Complex" then 2
    else 3
  }

  /** The label never goes down as the score goes up. */
  lemma ComplexityLabelMonotone(a: int, b: int)
    requires a <= b
    ensures LabelRank(ComplexityLabel(a)) <= LabelRank(ComplexityLabel(b))
  {
  }

  const SENIORITY_COLOURS: map<string, string> := map[
    "entry" := "bg-green-50 border-green-200 text-green-700",
    "mid" := "bg-blue-50 border-blue-200 text-blue-700",
    "senior" := "bg-purple-50 border-purple-200 text-purple-700",
    "executive" := "bg-red-50 border-red-200 text-red-700"]

  /**
   * What `colors[level] || colors.mid` yields: the class string of a table
   * entry, or the member a plain object inherits from `Object.prototype`,
   * which is truthy and so wins over the `mid` fallback.
   */
  datatype Colour = Classes(classes: string) | InheritedMember(key: string)

  /** `colors[level] || colors.mid` */
  function SeniorityColour(level: string): Colour {
    if level in SENIORITY_COLOURS then Classes(SENIORITY_COLOURS[level])
    else if level in InheritedKeys() then InheritedMember(level)
    else Classes(SENIORITY_COLOURS["mid"])
  }

  /**
   * A level that is neither in the table nor an inherited key is shown with the
   * colours of `mid`; an inherited key such as `constructor` is not.
   */
  lemma UnknownLevelIsMid(level: string)
    requires level !in {"entry", "mid", "senior", "executive"} && level !in InheritedKeys()
    ensures SeniorityColour(level) == SeniorityColour("mid")
    ensures SeniorityColour("constructor") == InheritedMember("constructor") != SeniorityColour("mid")
  {
  }

  /** The level the analysis picks is always one of its levels or the default. */
  lemma {:induction false} FirstLevelIsALevel(lower: string, levels: seq<Level>, default: string)
    ensures FirstLevel(lower, levels, default) == default
         || exists k :: 0 <= k < |levels| && FirstLevel(lower, levels, default) == levels[k].name
    decreases |levels|
  {
    if |levels| > 0 && !AnyIn(lower, levels[0].keywords) {
      FirstLevelIsALevel(lower, levels[1..], default);
      if FirstLevel(lower, levels, default) != default {
        var k :| 0 <= k < |levels[1..]| && FirstLevel(lower, levels[1..], default) == levels[1..][k].name;
        assert levels[1..][k] == levels[k + 1];
      }
    }
  }

  /** Every level the analysis reports has its own table colours, so the inherited case never arises from it. */
  lemma AnalysedLevelColour(text: string)
    ensures SeniorityColour(Seniority(text)) == Classes(SENIORITY_COLOURS[Seniority(text)])
  {
    FirstLevelIsALevel(Lower(text), SeniorityLevels(), "mid");
  }

  // ---- the analysis ----

  datatype Analysis = Analysis(yearsRequired: Option<nat>, skills: seq<string>, seniority: string, jobType: string,
                               complexity: nat, wordCount: nat, requirementCount: nat)

  /** The effect and `analyzeJobDescription`: None when the description is falsy or short. */
  method Analyze(jobDescription: Option<string>) returns (analysis: Option<Analysis>)
    ensures analysis.None? <==> !Analysable(jobDescription)
    ensures analysis.Some? ==>
      var a := analysis.value;
      var text := jobDescription.value;
      && a.yearsRequired == YearsRequired(text)
      && |a.skills| <= 8 && GoodSkills(a.skills)
      && a.skills <= AddSeq([], SkillPhrases(text))
      && |a.skills| == Min8(|AddSeq([], SkillPhrases(text))|)
      && a.seniority == Seniority(text)
      && a.jobType == JobType(text)
      && a.wordCount == WordCount(text)
      && a.requirementCount == RequirementCount(text)
      && a.complexity == Complexity(a.wordCount, a.requirementCount)
  {
    if !Analysable(jobDescription) {
      return None;
    }
    var text := jobDescription.value;
    var skills := DetectSkills(text);
    var seniority := ClassifyLoop(text, SeniorityLevels(), "mid");
    var jobType := ClassifyLoop(text, JobTypes(), "not specified");
    var wordCount := WordCount(text);
    var requirementCount := RequirementCount(text);
    analysis := Some(Analysis(YearsRequired(text), skills, seniority, jobType,
                              Complexity(wordCount, requirementCount), wordCount, requirementCount));
  }
}
