/**
 * The resume buttons of src/components/ResumeSelector.jsx: the label shown
 * for each stored resume and which button is highlighted for the current
 * selection (None is the automatic choice).
 */
module ResumeSelector {
  import opened Results
  import opened JsText
  import opened OriginalResumesFooter

  /** The parts after the first, joined by spaces (empty for a one-part stem). */
  function TailName(filename: string): string {
    Join(Split(Stem(filename), '_')[1..], " ")
  }

  /** `cleanName`: the tail of the stem, or the whole file name when that is empty. */
  function CleanName(filename: string): string {
    if TailName(filename) == "" then filename else TailName(filename)
  }

  /**
   * The label is never empty for a non-empty file name; it is the display
   * name of the footer whenever the tail is non-empty, and the full file name
   * (extension included) for a stem without `_`, where the footer shows the
   * stem instead.
   */
  lemma CleanNameSpec(filename: string)
    ensures filename != "" ==> CleanName(filename) != ""
    ensures TailName(filename) != "" ==> CleanName(filename) == FormatResumeName(filename) && '_' !in CleanName(filename)
    ensures '_' !in Stem(filename) ==> CleanName(filename) == filename && FormatResumeName(filename) == Stem(filename)
  {
    FormatResumeNameSpec(filename);
    var parts := Split(Stem(filename), '_');
    if |parts| <= 1 {
      assert parts[1..] == [];
    }
    if '_' !in Stem(filename) {
      SplitWithoutSeparator(Stem(filename), '_');
      assert parts[1..] == [];
    }
  }

  /** With an extension and no `_`, the two components label the same file differently. */
  lemma LabelsDiffer(stem: string)
    requires stem != "" && '_' !in stem && !HasDateSuffix(stem)
    ensures CleanName(stem + ".txt") == stem + ".txt"
    ensures FormatResumeName(stem + ".txt") == stem
  {
    var f := stem + ".txt";
    assert f[|f| - 4..] == ".txt";
    assert Lower(".txt") == ".txt";
    assert HasResumeExtension(f);
    assert f[..|f| - 4] == stem;
    assert Stem(f) == stem;
    CleanNameSpec(f);
  }

  /** A name ending in `_` has an empty tail part: the label falls back, the footer shows nothing. */
  lemma TrailingUnderscore(prefix: string)
    requires '_' !in prefix && !HasDateSuffix(prefix + "_") && !HasResumeExtension(prefix + "_")
    ensures CleanName(prefix + "_") == prefix + "_"
    ensures FormatResumeName(prefix + "_") == ""
  {
    var f := prefix + "_";
    assert Stem(f) == f;
    SplitAtFirst(prefix, "", '_');
    assert prefix + ['_'] + "" == f;
    assert Split(f, '_') == [prefix, ""];
    assert Split(f, '_')[1..] == [""];
  }

  // ---- highlighting ----

  /** The automatic-choice button is highlighted exactly when nothing is selected. */
  predicate AutoHighlighted(selected: Option<string>) {
    selected.None?
  }

  /** A resume button is highlighted exactly when its file name is the selection. */
  predicate Highlighted(selected: Option<string>, filename: string) {
    selected == Some(filename)
  }

  /** What the automatic-choice button passes to `onSelect`. */
  function ChooseAuto(): Option<string> {
    None
  }

  /** What a resume button passes to `onSelect`. */
  function Choose(filename: string): Option<string> {
    Some(filename)
  }

  /**
   * Choosing a button highlights that button alone: the automatic choice
   * highlights no resume, and a resume highlights no other resume with a
   * different name and not the automatic choice.
   */
  lemma ChoosingHighlightsOne(filenames: seq<string>, k: int)
    requires forall i, j :: 0 <= i < j < |filenames| ==> filenames[i] != filenames[j]
    ensures AutoHighlighted(ChooseAuto()) && forall i :: 0 <= i < |filenames| ==> !Highlighted(ChooseAuto(), filenames[i])
    ensures 0 <= k < |filenames| ==>
      && !AutoHighlighted(Choose(filenames[k]))
      && forall i :: 0 <= i < |filenames| ==> (Highlighted(Choose(filenames[k]), filenames[i]) <==> i == k)
  {
  }

  /** With distinct file names, at most one button is highlighted for any selection. */
  lemma AtMostOneHighlighted(selected: Option<string>, filenames: seq<string>)
    requires forall i, j :: 0 <= i < j < |filenames| ==> filenames[i] != filenames[j]
    ensures forall i, j :: 0 <= i < |filenames| && 0 <= j < |filenames| && Highlighted(selected, filenames[i]) && Highlighted(selected, filenames[j]) ==> i == j
    ensures forall i :: 0 <= i < |filenames| && Highlighted(selected, filenames[i]) ==> !AutoHighlighted(selected)
  {
  }
}
