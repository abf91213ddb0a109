/**
 * The file-name handling of src/components/OriginalResumesFooter.jsx: the
 * display name of a stored resume, the name of the PDF rendered from a text
 * resume, and the choice between downloading a file as it is and rendering it.
 */
module OriginalResumesFooter {
  import opened JsText

  /** `/\.(txt|pdf)$/i` matches: the name ends in `.txt` or `.pdf`, in any case. */
  predicate HasResumeExtension(name: string) {
    |name| >= 4 && (Lower(name[|name| - 4..]) == ".txt" || Lower(name[|name| - 4..]) == ".pdf")
  }

  /** `name.replace(/\.(txt|pdf)$/i, '')` */
  function StripExtension(name: string): string {
    if HasResumeExtension(name) then name[..|name| - 4] else name
  }

  /**
   * Exactly one extension comes off the end: the result is a prefix of the
   * name, and what is removed is nothing or one `.txt`/`.pdf` in any case,
   * so `cv.txt.txt` keeps its inner `.txt`.
   */
  lemma StripExtensionSpec(name: string)
    ensures StripExtension(name) <= name
    ensures var rest := name[|StripExtension(name)|..];
      rest == "" || (|rest| == 4 && (Lower(rest) == ".txt" || Lower(rest) == ".pdf"))
    ensures StripExtension("cv.txt.txt") == "cv.txt"
  {
    assert "cv.txt.txt"[6..] == ".txt";
  }

  /** `/_\d{8}$/` matches: an underscore and exactly eight ASCII digits end the name. */
  predicate HasDateSuffix(name: string) {
    |name| >= 9 && name[|name| - 9] == '_' && forall i :: |name| - 8 <= i < |name| ==> IsDigit(name[i])
  }

  /** `name.replace(/_\d{8}$/i, '')` */
  function StripDateSuffix(name: string): string {
    if HasDateSuffix(name) then name[..|name| - 9] else name
  }

  /**
   * Exactly one date stamp comes off the end: the result is a prefix of the
   * name, what is removed is nothing or `_` and eight digits, and a stamp of
   * nine digits is not one.
   */
  lemma StripDateSuffixSpec(name: string)
    ensures StripDateSuffix(name) <= name
    ensures var rest := name[|StripDateSuffix(name)|..];
      rest == "" || (|rest| == 9 && rest[0] == '_' && forall i :: 1 <= i < 9 ==> IsDigit(rest[i]))
    ensures StripDateSuffix("cv_20240101_20240102") == "cv_20240101"
    ensures StripDateSuffix("cv_202401011") == "cv_202401011"
  {
    assert "cv_202401011"[3] == '2';
    assert "cv_20240101_20240102"[11] == '_';
  }

  /** The name with its extension and then its date stamp removed. */
  function Stem(filename: string): string {
    StripDateSuffix(StripExtension(filename))
  }

  /** `formatResumeName`: the `_`-separated parts after the first, joined by spaces; the stem when there is one part. */
  function FormatResumeName(filename: string): string {
    var parts := Split(Stem(filename), '_');
    if |parts| > 1 then Join(parts[1..], " ") else Stem(filename)
  }

  /** One part means the name had no `_` in it. */
  lemma SinglePart(s: string)
    requires |Split(s, '_')| == 1
    ensures Split(s, '_') == [s]
    ensures '_' !in s
  {
    JoinSplit(s, '_');
  }

  /** A display name never holds an underscore, and a name without one is its stem. */
  lemma FormatResumeNameSpec(filename: string)
    ensures '_' !in FormatResumeName(filename)
    ensures '_' !in Stem(filename) ==> FormatResumeName(filename) == Stem(filename)
    ensures '_' in Stem(filename) ==> FormatResumeName(filename) == Join(Split(Stem(filename), '_')[1..], " ")
  {
    var parts := Split(Stem(filename), '_');
    if |parts| > 1 {
      JoinNotContaining(parts[1..], " ", '_');
      if '_' !in Stem(filename) {
        SplitWithoutSeparator(Stem(filename), '_');
      }
    } else {
      SinglePart(Stem(filename));
    }
  }

  /** Splitting a string without the separator gives the string alone. */
  lemma {:induction false} SplitWithoutSeparator(s: string, c: char)
    requires c !in s
    ensures Split(s, c) == [s]
    decreases |s|
  {
    if |s| > 0 {
      SplitWithoutSeparator(s[1..], c);
      assert s == [s[0]] + s[1..];
    }
  }

  /** Splitting at the first separator. */
  lemma {:induction false} SplitAtFirst(a: string, b: string, c: char)
    requires c !in a
    ensures Split(a + [c] + b, c) == [a] + Split(b, c)
    decreases |a|
  {
    if |a| == 0 {
      assert a + [c] + b == [c] + b;
      assert ([c] + b)[1..] == b;
    } else {
      SplitAtFirst(a[1..], b, c);
      assert (a + [c] + b)[1..] == a[1..] + [c] + b;
      assert [a[0]] + a[1..] == a;
    }
  }

  /** The stem of `<prefix>_<name>_<8 digits>.txt` is `<prefix>_<name>`. */
  lemma StoredNameStem(stem: string, date: string)
    requires |date| == 8 && forall i :: 0 <= i < 8 ==> IsDigit(date[i])
    ensures Stem(stem + "_" + date + ".txt") == stem
  {
    var f := stem + "_" + date + ".txt";
    assert f[|f| - 4..] == ".txt";
    var g := stem + "_" + date;
    assert f[..|f| - 4] == g;
    assert g[|g| - 9] == '_';
    assert forall i :: |g| - 8 <= i < |g| ==> g[i] == date[i - |g| + 8];
    assert g[..|g| - 9] == stem;
  }

  /**
   * A stored name `<prefix>_<name>_<date>.txt` is shown as `<name>` with its
   * underscores turned into spaces.
   */
  lemma StoredNameShown(prefix: string, name: string, date: string)
    requires '_' !in prefix
    requires |date| == 8 && forall i :: 0 <= i < 8 ==> IsDigit(date[i])
    ensures FormatResumeName(prefix + "_" + name + "_" + date + ".txt") == Join(Split(name, '_'), " ")
  {
    var stem := prefix + "_" + name;
    assert prefix + "_" + name + "_" + date + ".txt" == stem + "_" + date + ".txt";
    StoredNameStem(stem, date);
    SplitAtFirst(prefix, name, '_');
    assert Split(stem, '_')[1..] == Split(name, '_');
  }

  // ---- handleDownload ----

  /** `cleanName.replace(/\s+/g, '_')`: each run of whitespace becomes one `_`. */
  function UnderscoreSpaces(s: string): string
    decreases |s|
  {
    if |s| == 0 then ""
    else if IsSpace(s[0]) then
      var r := SkipSpaces(s, 1);
      "_" + UnderscoreSpaces(s[r..])
    else [s[0]] + UnderscoreSpaces(s[1..])
  }

  /** The result holds no whitespace, and a string without whitespace comes back as it is. */
  lemma {:induction false} UnderscoreSpacesSpec(s: string)
    ensures NoSpace(UnderscoreSpaces(s))
    ensures NoSpace(s) ==> UnderscoreSpaces(s) == s
    decreases |s|
  {
    if |s| > 0 {
      if IsSpace(s[0]) {
        UnderscoreSpacesSpec(s[SkipSpaces(s, 1)..]);
      } else {
        UnderscoreSpacesSpec(s[1..]);
        assert s == [s[0]] + s[1..];
      }
    }
  }

  /**
   * Each whitespace run becomes a single `_`: a run `w` between a part
   * without whitespace and a rest that does not start with whitespace is
   * replaced by one underscore.
   */
  lemma UnderscoreRun(a: string, w: string, b: string)
    requires NoSpace(a) && |w| > 0 && AllSpace(w)
    requires b == [] || !IsSpace(b[0])
    ensures UnderscoreSpaces(a + w + b) == a + "_" + UnderscoreSpaces(b)
  {
    NoSpacePrefixKept(a, w + b);
    assert a + w + b == a + (w + b);
    RunThenRest(w, b);
  }

  /** A leading whitespace run becomes one `_`. */
  lemma RunThenRest(w: string, b: string)
    requires |w| > 0 && AllSpace(w)
    requires b == [] || !IsSpace(b[0])
    ensures UnderscoreSpaces(w + b) == "_" + UnderscoreSpaces(b)
  {
    var s := w + b;
    assert forall x :: 1 <= x < |w| ==> IsSpace(s[x]);
    SkipSpacesRun(s, 1, |w|);
    assert s[|w|..] == b;
    assert IsSpace(s[0]);
  }

  /** The whitespace run from `i` ends at `j`. */
  lemma {:induction false} SkipSpacesRun(s: string, i: nat, j: nat)
    requires i <= j <= |s|
    requires forall x :: i <= x < j ==> IsSpace(s[x])
    requires j == |s| || !IsSpace(s[j])
    ensures SkipSpaces(s, i) == j
    decreases j - i
  {
    if i < j {
      SkipSpacesRun(s, i + 1, j);
    }
  }

  predicate NoSpace(s: string) {
    forall i :: 0 <= i < |s| ==> !IsSpace(s[i])
  }

  lemma PrefixHasNoSpace()
    ensures NoSpace("Original_")
  {
  }

  lemma NoSpaceConcat(a: string, b: string)
    requires NoSpace(a) && NoSpace(b)
    ensures NoSpace(a + b)
  {
    assert forall i :: |a| <= i < |a + b| ==> (a + b)[i] == b[i - |a|];
  }

  /** `Original_${cleanName.replace(/\s+/g, '_')}` */
  function PdfFilename(filename: string): string {
    "Original_" + UnderscoreSpaces(FormatResumeName(filename))
  }

  /** What a download does with the file. */
  datatype Download =
    | SaveAsIs(filename: string)    // a PDF: the fetched blob, under its own name
    | RenderText(pdfName: string)   // text: rendered to a PDF

  /** `isPDF` and its branch in `handleDownload`. */
  function DownloadOf(filename: string): Download {
    if EndsWith(Lower(filename), ".pdf") then SaveAsIs(filename) else RenderText(PdfFilename(filename))
  }

  /**
   * A file is saved as it is exactly when its lower-cased name ends in `.pdf`;
   * a text resume is rendered under `Original_` and a name with no whitespace.
   */
  lemma DownloadSpec(filename: string)
    ensures DownloadOf(filename).SaveAsIs? <==> EndsWith(Lower(filename), ".pdf")
    ensures DownloadOf(filename).SaveAsIs? ==> DownloadOf(filename).filename == filename
    ensures DownloadOf(filename).RenderText? ==>
      var n := DownloadOf(filename).pdfName;
      StartsWith(n, "Original_") && NoSpace(n)
  {
    var u := UnderscoreSpaces(FormatResumeName(filename));
    UnderscoreSpacesSpec(FormatResumeName(filename));
    PrefixHasNoSpace();
    NoSpaceConcat("Original_", u);
  }

  /** A prefix without whitespace is copied through. */
  lemma {:induction false} NoSpacePrefixKept(a: string, b: string)
    requires NoSpace(a)
    ensures UnderscoreSpaces(a + b) == a + UnderscoreSpaces(b)
    decreases |a|
  {
    if |a| == 0 {
      assert a + b == b;
    } else {
      NoSpacePrefixKept(a[1..], b);
      assert (a + b)[1..] == a[1..] + b;
      assert (a + b)[0] == a[0];
      assert [a[0]] + a[1..] == a;
    }
  }
}
