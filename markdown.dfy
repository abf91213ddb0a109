/**
 * `cleanText` of WORKER_UPDATE.js: the replace chain the worker applies to
 * the assistant's reasoning, tailored resume and cover letter before
 * returning them. Each global regular-expression replace is written out as
 * the left-to-right, non-overlapping scan the regular expression performs.
 */
module Markdown {
  import opened Results
  import opened JsText

  /** `.replace(/##\s/g, '')`: every `##` followed by one whitespace character is deleted. */
  function RemoveHeaderMarks(s: string): string
    decreases |s|
  {
    if |s| == 0 then ""
    else if |s| >= 3 && s[0] == '#' && s[1] == '#' && IsSpace(s[2]) then RemoveHeaderMarks(s[3..])
    else [s[0]] + RemoveHeaderMarks(s[1..])
  }

  /** The first index at or after `i` holding `c`. */
  function FindChar(s: string, c: char, i: nat): (r: Option<nat>)
    ensures r.Some? ==> i <= r.value < |s|
    decreases |s| - i
  {
    if i >= |s| then None
    else if s[i] == c then Some(i)
    else FindChar(s, c, i + 1)
  }

  lemma {:induction false} FindCharSpec(s: string, c: char, i: nat)
    ensures var r := FindChar(s, c, i);
      && (r.Some? ==> s[r.value] == c && forall m :: i <= m < r.value ==> s[m] != c)
      && (r.None? ==> forall m :: i <= m < |s| ==> s[m] != c)
    decreases |s| - i
  {
    if i < |s| && s[i] != c {
      FindCharSpec(s, c, i + 1);
    }
  }

  /** `FindChar` finds a `c` that no earlier position from `i` on holds. */
  lemma {:induction false} FindCharAt(s: string, c: char, i: nat, j: nat)
    requires i <= j < |s| && s[j] == c
    requires forall m :: i <= m < j ==> s[m] != c
    ensures FindChar(s, c, i) == Some(j)
    decreases j - i
  {
    if i < j {
      FindCharAt(s, c, i + 1, j);
    }
  }

  /**
   * A match of `\[([^\]]+)\]\([^)]+\)` starting at `s[0]`: the positions of
   * its `]` and of its closing `)`. The group cannot contain `]` and the
   * target cannot contain `)`, so each ends at the first such character and
   * the match, when there is one, is unique.
   */
  function LinkAt(s: string): (r: Option<(nat, nat)>)
    ensures r.Some? ==> 2 <= r.value.0 && r.value.0 + 3 <= r.value.1 < |s|
  {
    if |s| == 0 || s[0] != '[' then None
    else match FindChar(s, ']', 1)
      case None => None
      case Some(j) =>
        if j < 2 || j + 1 >= |s| || s[j + 1] != '(' then None
        else match FindChar(s, ')', j + 2)
          case None => None
          case Some(k) => if k < j + 3 then None else Some((j, k))
  }

  /** `.replace(/\[([^\]]+)\]\([^)]+\)/g, '$1')`: every link is replaced by its text. */
  function StripLinks(s: string): string
    decreases |s|
  {
    if |s| == 0 then ""
    else match LinkAt(s)
      case Some((j, k)) => s[1..j] + StripLinks(s[k + 1..])
      case None => [s[0]] + StripLinks(s[1..])
  }

  /** The text before the final `trim()`. */
  function Unmarked(t: string): string {
    StripLinks(ReplaceAll(RemoveHeaderMarks(RemoveChar(ReplaceAll(t, "**", ""), '*')), "__", ""))
  }

  /** `cleanText(text)`: `''` for a falsy (absent or empty) text. */
  function CleanText(text: Option<string>): string {
    if text.None? || text.value == "" then "" else Trim(Unmarked(text.value))
  }

  /** Every character of `t` occurs in `s`, and `t` is no longer. */
  predicate Shrinks(s: string, t: string) {
    |t| <= |s| && forall x :: x in t ==> x in s
  }

  lemma {:induction false} RemoveHeaderMarksShrinks(s: string)
    ensures Shrinks(s, RemoveHeaderMarks(s))
    decreases |s|
  {
    if |s| >= 3 && s[0] == '#' && s[1] == '#' && IsSpace(s[2]) {
      RemoveHeaderMarksShrinks(s[3..]);
      assert forall x :: x in s[3..] ==> x in s;
    } else if |s| > 0 {
      RemoveHeaderMarksShrinks(s[1..]);
      assert forall x :: x in s[1..] ==> x in s;
    }
  }

  lemma {:induction false} DeleteAllShrinks(s: string, p: string)
    requires |p| > 0
    ensures Shrinks(s, ReplaceAll(s, p, ""))
    decreases |s|
  {
    if |s| >= |p| {
      if s[..|p|] == p {
        DeleteAllShrinks(s[|p|..], p);
        assert forall x :: x in s[|p|..] ==> x in s;
      } else {
        DeleteAllShrinks(s[1..], p);
        assert forall x :: x in s[1..] ==> x in s;
      }
    }
  }

  lemma {:induction false} StripLinksShrinks(s: string)
    ensures Shrinks(s, StripLinks(s))
    decreases |s|
  {
    if |s| > 0 {
      match LinkAt(s)
      case Some((j, k)) =>
        StripLinksShrinks(s[k + 1..]);
        assert forall x :: x in s[1..j] ==> x in s;
        assert forall x :: x in s[k + 1..] ==> x in s;
      case None =>
        StripLinksShrinks(s[1..]);
        assert forall x :: x in s[1..] ==> x in s;
    }
  }

  lemma TrimShrinks(s: string)
    ensures Shrinks(s, Trim(s))
  {
    TrimIsSlice(s);
    var a, b :| 0 <= a <= b <= |s| && Trim(s) == s[a..b] && AllSpace(s[..a]) && AllSpace(s[b..]);
    assert forall x :: x in s[a..b] ==> x in s;
  }

  lemma ShrinksTrans(a: string, b: string, c: string)
    requires Shrinks(a, b) && Shrinks(b, c)
    ensures Shrinks(a, c)
  {
  }

  lemma UnmarkedShrinks(t: string)
    ensures Shrinks(t, Unmarked(t))
    ensures '*' !in Unmarked(t)
  {
    var s1 := ReplaceAll(t, "**", "");
    var s2 := RemoveChar(s1, '*');
    var s3 := RemoveHeaderMarks(s2);
    var s4 := ReplaceAll(s3, "__", "");
    DeleteAllShrinks(t, "**");
    RemoveHeaderMarksShrinks(s2);
    DeleteAllShrinks(s3, "__");
    StripLinksShrinks(s4);
    ShrinksTrans(t, s1, s2);
    ShrinksTrans(t, s2, s3);
    ShrinksTrans(t, s3, s4);
    ShrinksTrans(s2, s3, s4);
    ShrinksTrans(s2, s4, Unmarked(t));
    ShrinksTrans(t, s4, Unmarked(t));
  }

  /**
   * The result of `cleanText` contains no `*`, starts and ends with a
   * non-whitespace character (or is empty), is no longer than its input and
   * holds only characters of its input; a falsy input gives `''`.
   */
  lemma CleanTextSpec(text: Option<string>)
    ensures var r := CleanText(text);
      && '*' !in r
      && (r == "" || (!IsSpace(r[0]) && !IsSpace(r[|r| - 1])))
      && (text.None? || text.value == "" ==> r == "")
      && (text.Some? ==> Shrinks(text.value, r))
  {
    if text.Some? && text.value != "" {
      var u := Unmarked(text.value);
      UnmarkedShrinks(text.value);
      TrimShrinks(u);
      TrimSpec(u);
      ShrinksTrans(text.value, u, Trim(u));
    }
  }

  /** No two adjacent copies of `c`. */
  predicate NoPair(s: string, c: char) {
    forall i :: 0 <= i < |s| - 1 ==> !(s[i] == c && s[i + 1] == c)
  }

  /** A deletion pass leaves the first character when it does not start the pattern. */
  lemma DeletePairsHead(s: string, c: char)
    requires |s| > 0 && s[0] != c
    ensures var r := ReplaceAll(s, [c, c], "");
      |r| > 0 && r[0] == s[0]
  {
  }

  /** After `.replace(/__/g, '')` no `__` is left: each run of underscores keeps its length modulo 2. */
  lemma {:induction false} DeletePairsLeavesNoPair(s: string, c: char)
    ensures NoPair(ReplaceAll(s, [c, c], ""), c)
    decreases |s|
  {
    var r := ReplaceAll(s, [c, c], "");
    if |s| < 2 {
    } else if s[..2] == [c, c] {
      DeletePairsLeavesNoPair(s[2..], c);
    } else {
      var rest := ReplaceAll(s[1..], [c, c], "");
      DeletePairsLeavesNoPair(s[1..], c);
      assert r == [s[0]] + rest;
      if s[0] == c {
        assert s[1] != c;
        DeletePairsHead(s[1..], c);
      }
      forall i | 0 <= i < |r| - 1
        ensures !(r[i] == c && r[i + 1] == c)
      {
        if i > 0 {
          assert r[i] == rest[i - 1] && r[i + 1] == rest[i];
        }
      }
    }
  }

  /** Deleting `## ` can bring together a new `## `: the scan does not look back. */
  lemma HeaderMarkCanReappear()
    ensures RemoveHeaderMarks("### # ") == "## "
  {
    assert "### # "[1..] == "## # ";
    assert "## # "[3..] == "# ";
    assert "# "[1..] == " ";
  }

  /** A link is reduced to its text. */
  lemma LinkKept(t: string, u: string)
    requires |t| > 0 && ']' !in t && |u| > 0 && ')' !in u
    ensures StripLinks("[" + t + "](" + u + ")") == t
  {
    var s := "[" + t + "](" + u + ")";
    var j := |t| + 1;
    var k := |t| + |u| + 3;
    assert s[j] == ']' && s[j + 1] == '(' && s[k] == ')';
    assert forall m :: 1 <= m < j ==> s[m] == t[m - 1];
    FindCharAt(s, ']', 1, j);
    assert forall m :: j + 2 <= m < k ==> s[m] == u[m - j - 2];
    FindCharAt(s, ')', j + 2, k);
    assert LinkAt(s) == Some((j, k));
    assert s[k + 1..] == "";
    assert s[1..j] == t;
  }

  /** Text without `[` passes the link stage unchanged. */
  lemma {:induction false} NoLinkUnchanged(s: string)
    requires '[' !in s
    ensures StripLinks(s) == s
    decreases |s|
  {
    if |s| > 0 {
      assert s[0] in s;
      assert forall x :: x in s[1..] ==> x in s;
      NoLinkUnchanged(s[1..]);
    }
  }

  lemma {:induction false} RemoveCharAbsent(s: string, c: char)
    requires c !in s
    ensures RemoveChar(s, c) == s
    decreases |s|
  {
    if |s| > 0 {
      assert s[0] in s;
      assert forall x :: x in s[1..] ==> x in s;
      RemoveCharAbsent(s[1..], c);
    }
  }

  lemma {:induction false} RemoveHeaderMarksAbsent(s: string)
    requires '#' !in s
    ensures RemoveHeaderMarks(s) == s
    decreases |s|
  {
    if |s| > 0 {
      assert s[0] in s;
      assert forall x :: x in s[1..] ==> x in s;
      RemoveHeaderMarksAbsent(s[1..]);
    }
  }

  lemma {:induction false} DeletePairsAbsent(s: string, c: char)
    requires NoPair(s, c)
    ensures ReplaceAll(s, [c, c], "") == s
    decreases |s|
  {
    if |s| >= 2 {
      assert !(s[0] == c && s[1] == c);
      assert s[..2] != [c, c];
      DeletePairsAbsent(s[1..], c);
    }
  }

  lemma ExampleUnmarked()
    ensures Unmarked("_[_](u)") == StripLinks("_[_](u)")
  {
    var s := "_[_](u)";
    assert '*' !in s && '#' !in s;
    assert NoPair(s, '*') && NoPair(s, '_');
    DeletePairsAbsent(s, '*');
    RemoveCharAbsent(s, '*');
    RemoveHeaderMarksAbsent(s);
    DeletePairsAbsent(s, '_');
  }

  lemma ExampleStripped()
    ensures StripLinks("_[_](u)") == "__"
  {
    var l := "[_](u)";
    FindCharAt(l, ']', 1, 2);
    FindCharAt(l, ')', 4, 5);
    assert LinkAt(l) == Some((2, 5));
    assert StripLinks(l) == "_" + StripLinks(l[6..]);
    assert "_[_](u)"[1..] == l;
  }

  /** The underscore pass runs before the link pass, so a link can leave a `__` behind. */
  lemma UnderscoresCanSurvive()
    ensures CleanText(Some("_[_](u)")) == "__"
  {
    ExampleUnmarked();
    ExampleStripped();
    assert SkipSpaces("__", 0) == 0;
    assert SkipSpacesBack("__", 2) == 2;
  }
}
