/**
 * The text clean-up of src/components/ResultsDisplay.jsx: the cover-letter
 * placeholder removal, the bullet normalisation for applicant-tracking
 * systems, and the section-heading repair run before the resume is shown.
 */
module ResultsDisplay {
  import opened Results
  import opened JsText
  import opened Markdown

  // ---- formatResumeForATS ----

  /** The glyphs of the character class `[•●▪]`. */
  predicate IsBullet(c: char) {
    c == '•' || c == '●' || c == '▪'
  }

  function AtsChar(c: char): char {
    if IsBullet(c) then '-' else c
  }

  /** `text.replace(/[•●▪]/g, '-')` */
  function FormatResumeForAts(text: string): string {
    seq(|text|, i requires 0 <= i < |text| => AtsChar(text[i]))
  }

  /**
   * The bullet replacement keeps the length, rewrites each bullet as `-`,
   * leaves every other character where it was, and leaves no bullet behind.
   */
  lemma FormatResumeForAtsSpec(text: string)
    ensures var r := FormatResumeForAts(text);
      && |r| == |text|
      && (forall i :: 0 <= i < |text| ==> (IsBullet(text[i]) ==> r[i] == '-') && (!IsBullet(text[i]) ==> r[i] == text[i]))
      && (forall i :: 0 <= i < |r| ==> !IsBullet(r[i]))
  {
  }

  /** Normalising twice is normalising once. */
  lemma FormatResumeForAtsIdempotent(text: string)
    ensures FormatResumeForAts(FormatResumeForAts(text)) == FormatResumeForAts(text)
  {
    var r := FormatResumeForAts(text);
    assert forall i :: 0 <= i < |r| ==> AtsChar(r[i]) == r[i];
  }

  /** A string with no bullet in it, such as a section marker, is found at the same place afterwards. */
  lemma FormatKeepsOccurrence(text: string, p: string, k: int)
    requires OccursAt(text, p, k)
    requires forall i :: 0 <= i < |p| ==> !IsBullet(p[i])
    ensures OccursAt(FormatResumeForAts(text), p, k)
  {
    var r := FormatResumeForAts(text);
    assert forall i :: 0 <= i < |p| ==> r[k + i] == text[k + i] == p[i];
    assert r[k..k + |p|] == p;
  }

  // ---- cleanCoverLetter ----

  /**
   * Where the lazy `(.*?)\]` closes: the index of the first `]` in `s`, when
   * no line terminator comes before it (`.` does not match one).
   */
  function Close(s: string): (r: Option<nat>)
    ensures r.Some? ==> r.value < |s| && s[r.value] == ']'
    decreases |s|
  {
    if |s| == 0 then None
    else if s[0] == ']' then Some(0)
    else if IsLineTerminator(s[0]) then None
    else match Close(s[1..])
      case None => None
      case Some(j) => Some(j + 1)
  }

  /** `text.replace(/\[(.*?)\]/g, '')`: each one-line `[...]` span, left to right. */
  function RemovePlaceholders(s: string): string
    decreases |s|
  {
    if |s| == 0 then ""
    else if s[0] == '[' && Close(s[1..]).Some? then RemovePlaceholders(s[Close(s[1..]).value + 2..])
    else [s[0]] + RemovePlaceholders(s[1..])
  }

  /** `.replace(/\n\n\n/g, '\n\n')` */
  function CollapseBlankLines(s: string): string {
    ReplaceAll(s, "\n\n\n", "\n\n")
  }

  /** `cleanCoverLetter` */
  function CleanCoverLetter(text: string): string {
    CollapseBlankLines(RemovePlaceholders(text))
  }

  /** A closed placeholder is deleted with its brackets; what follows is processed on. */
  lemma PlaceholderRemoved(t: string, rest: string)
    requires ']' !in t
    requires forall i :: 0 <= i < |t| ==> !IsLineTerminator(t[i])
    ensures RemovePlaceholders("[" + t + "]" + rest) == RemovePlaceholders(rest)
  {
    var s := "[" + t + "]" + rest;
    CloseFirst(t, rest);
    assert s[1..] == t + "]" + rest;
    assert s[|t| + 2..] == rest;
  }

  lemma {:induction false} CloseFirst(t: string, rest: string)
    requires ']' !in t
    requires forall i :: 0 <= i < |t| ==> !IsLineTerminator(t[i])
    ensures Close(t + "]" + rest) == Some(|t|)
    decreases |t|
  {
    if |t| > 0 {
      CloseFirst(t[1..], rest);
      assert (t + "]" + rest)[1..] == t[1..] + "]" + rest;
    }
  }

  lemma KeptChar(c: char, s: string)
    requires c != '['
    ensures RemovePlaceholders([c] + s) == [c] + RemovePlaceholders(s)
  {
    assert ([c] + s)[1..] == s;
  }

  /** Text before the first `[` is kept as it is. */
  lemma {:induction false} PlainPrefixKept(a: string, rest: string)
    requires '[' !in a
    ensures RemovePlaceholders(a + rest) == a + RemovePlaceholders(rest)
    decreases |a|
  {
    if |a| > 0 {
      var c, tail := a[0], a[1..];
      calc {
        RemovePlaceholders(a + rest);
        { assert a + rest == [c] + (tail + rest); }
        RemovePlaceholders([c] + (tail + rest));
        { KeptChar(c, tail + rest); }
        [c] + RemovePlaceholders(tail + rest);
        { PlainPrefixKept(tail, rest); }
        [c] + (tail + RemovePlaceholders(rest));
        ([c] + tail) + RemovePlaceholders(rest);
        { assert [c] + tail == a; }
        a + RemovePlaceholders(rest);
      }
    } else {
      assert a + rest == rest;
    }
  }

  /** A line without a closing `]` keeps that property when its placeholders are removed. */
  lemma {:induction false} UnclosedStaysUnclosed(s: string)
    requires Close(s).None?
    ensures Close(RemovePlaceholders(s)).None?
    decreases |s|
  {
    if |s| > 0 && !IsLineTerminator(s[0]) {
      assert s[0] != ']';
      if s[0] == '[' {
        assert Close(s[1..]).None?;
      }
      UnclosedStaysUnclosed(s[1..]);
      assert RemovePlaceholders(s) == [s[0]] + RemovePlaceholders(s[1..]);
      assert ([s[0]] + RemovePlaceholders(s[1..]))[1..] == RemovePlaceholders(s[1..]);
    }
  }

  /** No one-line placeholder survives: removing them again changes nothing. */
  lemma {:induction false} RemovePlaceholdersIdempotent(s: string)
    ensures RemovePlaceholders(RemovePlaceholders(s)) == RemovePlaceholders(s)
    decreases |s|
  {
    if |s| > 0 {
      if s[0] == '[' && Close(s[1..]).Some? {
        RemovePlaceholdersIdempotent(s[Close(s[1..]).value + 2..]);
      } else {
        var r := RemovePlaceholders(s[1..]);
        RemovePlaceholdersIdempotent(s[1..]);
        assert ([s[0]] + r)[1..] == r;
        if s[0] == '[' {
          UnclosedStaysUnclosed(s[1..]);
        }
      }
    }
  }

  lemma {:induction false} RemovePlaceholdersShrinks(s: string)
    ensures Shrinks(s, RemovePlaceholders(s))
    decreases |s|
  {
    if |s| > 0 {
      if s[0] == '[' && Close(s[1..]).Some? {
        RemovePlaceholdersShrinks(s[Close(s[1..]).value + 2..]);
        assert forall x :: x in s[Close(s[1..]).value + 2..] ==> x in s;
      } else {
        RemovePlaceholdersShrinks(s[1..]);
        assert forall x :: x in s[1..] ==> x in s;
      }
    }
  }

  lemma {:induction false} CollapseShrinks(s: string)
    ensures Shrinks(s, CollapseBlankLines(s))
    decreases |s|
  {
    if |s| >= 3 {
      if s[..3] == "\n\n\n" {
        CollapseShrinks(s[3..]);
        assert s[0] == '\n';
        assert forall x :: x in s[3..] ==> x in s;
      } else {
        CollapseShrinks(s[1..]);
        assert forall x :: x in s[1..] ==> x in s;
      }
    }
  }

  /** Four newlines collapse to three: one pass does not remove every triple. */
  lemma CollapseIsOnePass()
    ensures CollapseBlankLines("\n\n\n\n") == "\n\n\n"
  {
    assert "\n\n\n\n"[..3] == "\n\n\n";
    assert "\n\n\n\n"[3..] == "\n";
  }

  /** The cleaned letter is never longer than the letter and brings in no new character. */
  lemma CleanCoverLetterShrinks(text: string)
    ensures Shrinks(text, CleanCoverLetter(text))
  {
    RemovePlaceholdersShrinks(text);
    CollapseShrinks(RemovePlaceholders(text));
    ShrinksTrans(text, RemovePlaceholders(text), CleanCoverLetter(text));
  }

  // ---- preprocessResumeForTemplate ----

  const SECTIONS: seq<string> := ["SUMMARY", "SKILLS", "EXPERIENCE", "EDUCATION", "PROJECTS"]

  /** A section name: upper-case ASCII letters. */
  predicate IsSectionName(sec: string) {
    |sec| > 0 && forall i :: 0 <= i < |sec| ==> IsAsciiUpper(sec[i])
  }

  lemma SectionNames()
    ensures forall k :: 0 <= k < |SECTIONS| ==> IsSectionName(SECTIONS[k])
  {
  }

  /** `^` in multiline mode. */
  predicate LineStart(t: string, i: nat) {
    i <= |t| && (i == 0 || IsLineTerminator(t[i - 1]))
  }

  /**
   * The end of a match of `^SECTIONs?$\n` (case-insensitive, multiline)
   * starting at `i`, if there is one.
   */
  function HeadingEnd(t: string, sec: string, i: nat): (e: Option<nat>)
    ensures e.Some? ==> i + |sec| < e.value <= |t| && t[e.value - 1] == '\n'
  {
    if !LineStart(t, i) || i + |sec| > |t| || Upper(t[i..i + |sec|]) != sec then None
    else
      var k := i + |sec|;
      if k + 1 < |t| && UpperChar(t[k]) == 'S' && t[k + 1] == '\n' then Some(k + 2)
      else if k < |t| && t[k] == '\n' then Some(k + 1)
      else None
  }

  /** The first match at or after `i`: where it starts and where it ends. */
  function FindHeading(t: string, sec: string, i: nat): (r: Option<(nat, nat)>)
    ensures r.Some? ==> i <= r.value.0 && HeadingEnd(t, sec, r.value.0) == Some(r.value.1)
    ensures r.Some? ==> forall j :: i <= j < r.value.0 ==> HeadingEnd(t, sec, j).None?
    ensures r.None? ==> forall j :: i <= j ==> HeadingEnd(t, sec, j).None?
    decreases |t| - i
  {
    if i > |t| then None
    else match HeadingEnd(t, sec, i)
      case Some(e) => Some((i, e))
      case None => FindHeading(t, sec, i + 1)
  }

  /** `t` with `t[j..e]` replaced by `ins`. */
  function Splice(t: string, j: nat, e: nat, ins: string): string
    requires j <= e <= |t|
  {
    t[..j] + ins + t[e..]
  }

  function Marker(sec: string): string {
    sec + ":"
  }

  /** One turn of the `forEach`: repair the heading of `sec` unless its marker is already there. */
  function RepairSection(t: string, sec: string): string {
    if Contains(t, Marker(sec)) then t
    else match FindHeading(t, sec, 0)
      case None => t
      case Some((j, e)) => Splice(t, j, e, sec + ":\n")
  }

  /** The sections of `secs` repaired in turn. */
  function RepairAll(t: string, secs: seq<string>): string
    decreases |secs|
  {
    if |secs| == 0 then t else RepairSection(RepairAll(t, secs[..|secs| - 1]), secs[|secs| - 1])
  }

  /** `preprocessResumeForTemplate` */
  function Preprocess(text: string): string {
    RepairAll(text, SECTIONS)
  }

  /**
   * After a turn the section's marker is present exactly when it already was
   * or a heading line for it existed; when it was already there the text is
   * left as it is.
   */
  lemma RepairSectionSpec(t: string, sec: string)
    ensures Contains(t, Marker(sec)) ==> RepairSection(t, sec) == t
    ensures Contains(RepairSection(t, sec), Marker(sec)) <==> Contains(t, Marker(sec)) || FindHeading(t, sec, 0).Some?
  {
    if !Contains(t, Marker(sec)) && FindHeading(t, sec, 0).Some? {
      var (j, e) := FindHeading(t, sec, 0).value;
      var u := Splice(t, j, e, sec + ":\n");
      assert u[j..j + |sec| + 1] == sec + ":";
      ContainsSlice(u, Marker(sec), j);
    }
  }

  /** The matched heading line holds letters and a newline, never a `:`. */
  lemma HeadingHasNoColon(t: string, sec: string, i: nat, e: nat, k: nat)
    requires IsSectionName(sec)
    requires HeadingEnd(t, sec, i) == Some(e)
    requires i <= k < e
    ensures t[k] != ':'
  {
    if k < i + |sec| {
      assert Upper(t[i..i + |sec|])[k - i] == UpperChar(t[k]);
    }
  }

  /** Splicing `ins` in place of `t[j..e]` keeps an occurrence that lies wholly outside `t[j..e]`. */
  lemma SpliceKeeps(t: string, j: nat, e: nat, ins: string, pat: string, p: nat)
    requires j <= e <= |t|
    requires OccursAt(t, pat, p)
    requires p + |pat| <= j || e <= p
    ensures Contains(Splice(t, j, e, ins), pat)
  {
    var u := Splice(t, j, e, ins);
    if p + |pat| <= j {
      assert u[p..p + |pat|] == t[p..p + |pat|];
      ContainsSlice(u, pat, p);
    } else {
      var q := p - e + j + |ins|;
      assert u[q..q + |pat|] == t[p..p + |pat|];
      ContainsSlice(u, pat, q);
    }
  }

  /** A marker occurrence cannot overlap a matched heading line. */
  lemma MarkerOutsideHeading(t: string, sec: string, j: nat, e: nat, m: string, p: nat)
    requires IsSectionName(sec) && IsSectionName(m)
    requires HeadingEnd(t, sec, j) == Some(e)
    requires OccursAt(t, Marker(m), p)
    ensures p + |m| + 1 <= j || e <= p
  {
    assert t[p..p + |m| + 1] == Marker(m);
    assert t[p + |m|] == ':';
    if p + |m| >= j && p + |m| < e {
      HeadingHasNoColon(t, sec, j, e, p + |m|);
      assert false;
    }
    if p < e && p + |m| >= e {
      assert false;
    }
  }

  /** A marker already present survives the repair of another section. */
  lemma RepairKeepsMarker(t: string, sec: string, m: string)
    requires IsSectionName(sec) && IsSectionName(m)
    requires Contains(t, Marker(m))
    ensures Contains(RepairSection(t, sec), Marker(m))
  {
    if !Contains(t, Marker(sec)) && FindHeading(t, sec, 0).Some? {
      var (j, e) := FindHeading(t, sec, 0).value;
      var p := IndexOf(t, Marker(m)).value;
      MarkerOutsideHeading(t, sec, j, e, m, p);
      SpliceKeeps(t, j, e, sec + ":\n", Marker(m), p);
    }
  }

  /** Markers present before the repair of several sections are present after it. */
  lemma {:induction false} RepairAllKeepsMarker(t: string, secs: seq<string>, m: string)
    requires forall k :: 0 <= k < |secs| ==> IsSectionName(secs[k])
    requires IsSectionName(m) && Contains(t, Marker(m))
    ensures Contains(RepairAll(t, secs), Marker(m))
    decreases |secs|
  {
    if |secs| > 0 {
      RepairAllKeepsMarker(t, secs[..|secs| - 1], m);
      RepairKeepsMarker(RepairAll(t, secs[..|secs| - 1]), secs[|secs| - 1], m);
    }
  }

  /** When every marker is present the text is returned unchanged. */
  lemma {:induction false} AllMarkedUnchanged(t: string, secs: seq<string>)
    requires forall k :: 0 <= k < |secs| ==> Contains(t, Marker(secs[k]))
    ensures RepairAll(t, secs) == t
    decreases |secs|
  {
    if |secs| > 0 {
      AllMarkedUnchanged(t, secs[..|secs| - 1]);
      RepairSectionSpec(t, secs[|secs| - 1]);
    }
  }

  /**
   * Every section whose marker is in the resume still has it after the
   * repair, and a resume that has all five is returned as it is.
   */
  lemma PreprocessSpec(text: string)
    ensures forall k :: 0 <= k < |SECTIONS| && Contains(text, Marker(SECTIONS[k])) ==> Contains(Preprocess(text), Marker(SECTIONS[k]))
    ensures (forall k :: 0 <= k < |SECTIONS| ==> Contains(text, Marker(SECTIONS[k]))) ==> Preprocess(text) == text
  {
    SectionNames();
    forall k | 0 <= k < |SECTIONS| && Contains(text, Marker(SECTIONS[k]))
      ensures Contains(Preprocess(text), Marker(SECTIONS[k]))
    {
      RepairAllKeepsMarker(text, SECTIONS, SECTIONS[k]);
    }
    if forall k :: 0 <= k < |SECTIONS| ==> Contains(text, Marker(SECTIONS[k])) {
      AllMarkedUnchanged(text, SECTIONS);
    }
  }

  /** The `forEach` over the sections, reassigning `processedText`. */
  method PreprocessResumeForTemplate(text: string) returns (processedText: string)
    ensures processedText == Preprocess(text)
  {
    processedText := text;
    for k := 0 to |SECTIONS|
      invariant processedText == RepairAll(text, SECTIONS[..k])
    {
      var section := SECTIONS[k];
      assert SECTIONS[..k + 1][..k] == SECTIONS[..k];
      if !Contains(processedText, Marker(section)) {
        var found := FindHeading(processedText, section, 0);
        if found.Some? {
          processedText := Splice(processedText, found.value.0, found.value.1, section + ":\n");
        }
      }
    }
    assert SECTIONS[..|SECTIONS|] == SECTIONS;
  }

  /** `finalResume`: the sections are repaired first, then the bullets normalised. */
  function FinalResume(tailoredResume: string): string {
    FormatResumeForAts(Preprocess(tailoredResume))
  }

  /** The markers kept by the repair are still in the resume that is shown. */
  lemma FinalResumeKeepsMarkers(tailoredResume: string)
    ensures forall k :: 0 <= k < |SECTIONS| && Contains(tailoredResume, Marker(SECTIONS[k])) ==>
      Contains(FinalResume(tailoredResume), Marker(SECTIONS[k]))
    ensures forall i :: 0 <= i < |FinalResume(tailoredResume)| ==> !IsBullet(FinalResume(tailoredResume)[i])
  {
    PreprocessSpec(tailoredResume);
    FormatResumeForAtsSpec(Preprocess(tailoredResume));
    SectionNames();
    forall k | 0 <= k < |SECTIONS| && Contains(tailoredResume, Marker(SECTIONS[k]))
      ensures Contains(FinalResume(tailoredResume), Marker(SECTIONS[k]))
    {
      var t := Preprocess(tailoredResume);
      var p := IndexOf(t, Marker(SECTIONS[k])).value;
      FormatKeepsOccurrence(t, Marker(SECTIONS[k]), p);
      ContainsSlice(FinalResume(tailoredResume), Marker(SECTIONS[k]), p);
    }
  }
}
