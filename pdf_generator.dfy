/**
 * The ATS-friendly single-column generator `generatePDF` and its two
 * wrappers (src/utils/pdfGenerator.js). A document is split on newlines;
 * each trimmed line is classified as blank, name, heading or body and its
 * wrapped fragments are streamed down the page.
 */
module PdfGenerator {
  import opened JsText
  import opened Layout

  const TOP_MARGIN := 150
  const LEFT_MARGIN := 150
  const RIGHT_MARGIN := 150
  const BOTTOM_MARGIN := 150
  const LINE_HEIGHT := 55
  const SECTION_SPACING := 30
  const HEADING_SPACING := 20

  const BODY_FONT := Font("Arial", false, 110)
  const HEADING_FONT := Font("Arial", true, 120)
  const NAME_FONT := Font("Arial", true, 140)

  /** A page break happens once the cursor is below `pageHeight - BOTTOM_MARGIN - 5`. */
  function Geo(ps: PageSize): Geometry {
    Geometry(TOP_MARGIN, ps.height - BOTTOM_MARGIN - 50, LEFT_MARGIN, LINE_HEIGHT)
  }

  function MaxWidth(ps: PageSize): int {
    ps.width - (LEFT_MARGIN + RIGHT_MARGIN)
  }

  /**
   * Equal to its upper-case form, shorter than 60 characters, not empty: no
   * minimum length and no letter needed.
   */
  predicate IsHeading(t: string) {
    IsAllCaps(t) && |t| < 60 && |t| > 0
  }

  /** Among the first five lines, short, starting with an ASCII capital. */
  predicate IsNameOrTitle(t: string, index: nat) {
    index < 5 && |t| < 50 && |t| > 0 && IsAsciiUpper(t[0])
  }

  datatype LineKind = Blank | Name | Heading | Body

  /** The role of raw line `index`, decided on its trimmed text; blank lines count towards the index. */
  function Classify(line: string, index: nat): LineKind {
    var t := Trim(line);
    if t == "" then Blank
    else if IsNameOrTitle(t, index) && index == 0 then Name
    else if IsHeading(t) then Heading
    else Body
  }

  function FontOf(k: LineKind): Font {
    match k
    case Name => NAME_FONT
    case Heading => HEADING_FONT
    case _ => BODY_FONT
  }

  /**
   * What one raw line turns into: whether it is blank, the fragments it is
   * drawn as, their font, and whether the 2 mm heading gap follows.
   */
  datatype LinePlan = LinePlan(blank: bool, frags: seq<string>, font: Font, heading: bool)

  /** The decisions `lines.forEach` takes for line `index`, before anything is drawn. */
  function PlanOf(line: string, index: nat, ps: PageSize, wrap: Wrapper): LinePlan {
    var t := Trim(line);
    var k := Classify(line, index);
    if k == Blank then LinePlan(true, [], BODY_FONT, false)
    else LinePlan(false, wrap(t, FontOf(k), MaxWidth(ps)), FontOf(k), IsHeading(t))
  }

  function Plans(lines: seq<string>, ps: PageSize, wrap: Wrapper): (plans: seq<LinePlan>)
    ensures |plans| == |lines|
  {
    seq(|lines|, i requires 0 <= i < |lines| => PlanOf(lines[i], i, ps, wrap))
  }

  /** One iteration of `lines.forEach`: the page check, then a gap or the fragments. */
  function LineStep(c: Cursor, p: LinePlan, g: Geometry): Cursor {
    var c1 := BreakIfNeeded(c, g);
    if p.blank then c1.(y := c1.y + SECTION_SPACING)
    else
      var c2 := Stream(c1, p.frags, p.font, g);
      if p.heading then c2.(y := c2.y + HEADING_SPACING) else c2
  }

  /** The state after the first `n` lines. */
  function Render(plans: seq<LinePlan>, n: nat, g: Geometry): Cursor
    requires n <= |plans|
  {
    if n == 0 then Cursor(g.top, 1, [])
    else LineStep(Render(plans, n - 1, g), plans[n - 1], g)
  }

  /** Every fragment of the first `n` lines, in source order. */
  function AllFragments(plans: seq<LinePlan>, n: nat): seq<string>
    requires n <= |plans|
  {
    if n == 0 then [] else AllFragments(plans, n - 1) + plans[n - 1].frags
  }

  /** The laid-out document for `content`. */
  function Document(content: string, ps: PageSize, wrap: Wrapper): Cursor {
    var plans := Plans(Lines(content), ps, wrap);
    Render(plans, |plans|, Geo(ps))
  }

  function Lines(content: string): seq<string> {
    Split(content, '\n')
  }

  /** `doc.save(`${filename}_${timestamp}.pdf`)` */
  function SaveName(filename: string, timestamp: string): string {
    filename + "_" + timestamp + ".pdf"
  }

  /** A page at least this tall leaves room for one line between the margins. */
  predicate TallEnough(ps: PageSize) {
    ps.height >= 350
  }

  // ---- classification ----

  /** Only raw line 0 can be styled as the name, and only when short and starting with a capital. */
  lemma NameOnlyFirstLine(line: string, index: nat)
    ensures Classify(line, index) == Name <==>
      index == 0 && 0 < |Trim(line)| < 50 && IsAsciiUpper(Trim(line)[0])
  {
  }

  /** Classification looks only at the trimmed text. */
  lemma ClassifyTrimmed(line: string, index: nat)
    ensures Classify(Trim(line), index) == Classify(line, index)
  {
    TrimIdempotent(line);
  }

  /** A line of digits and punctuation is a heading: there is no minimum length and no letter test. */
  lemma DigitsAreHeading()
    ensures Classify("2024", 3) == Heading
  {
    assert SkipSpaces("2024", 0) == 0;
    assert SkipSpacesBack("2024", 4) == 4;
  }

  /** The heading test is the source's `t === t.toUpperCase()` together with the length bounds. */
  lemma HeadingIff(t: string)
    ensures IsHeading(t) <==> Upper(t) == t && 0 < |t| < 60
  {
    AllCapsIffUpperUnchanged(t);
  }

  /** Upper-casing a short line that is not the first one turns it into a heading. */
  lemma UpperCasedIsHeading(t: string, index: nat)
    requires 0 < |t| < 60 && Trim(t) == t && index > 0
    ensures Classify(Upper(t), index) == Heading
  {
    var u := Upper(t);
    UpperKeepsTrim(t);
    assert Trim(u) == u;
    assert IsAllCaps(u);
    assert IsHeading(Trim(u));
    ClassifyHeading(u, index);
  }

  lemma ClassifyHeading(line: string, index: nat)
    requires index > 0 && Trim(line) != [] && IsHeading(Trim(line))
    ensures Classify(line, index) == Heading
  {
  }

  lemma UpperKeepsTrim(t: string)
    requires Trim(t) == t && t != []
    ensures Trim(Upper(t)) == Upper(t)
  {
    var u := Upper(t);
    TrimSpec(t);
    assert !IsSpace(u[0]) && !IsSpace(u[|u| - 1]);
    assert SkipSpaces(u, 0) == 0;
    assert SkipSpacesBack(u, |u|) == |u|;
  }

  /** A whitespace-only line is blank: it draws nothing. */
  lemma BlankPlan(line: string, index: nat, ps: PageSize, wrap: Wrapper)
    ensures PlanOf(line, index, ps, wrap).blank <==> AllSpace(line)
    ensures PlanOf(line, index, ps, wrap).blank ==> PlanOf(line, index, ps, wrap).frags == []
  {
    TrimEmptyIffAllSpace(line);
  }

  /** A heading gap follows exactly the non-blank lines whose trimmed text passes the heading test, names included. */
  lemma HeadingGapPlan(line: string, index: nat, ps: PageSize, wrap: Wrapper)
    ensures PlanOf(line, index, ps, wrap).heading <==> IsHeading(Trim(line))
    ensures PlanOf(line, index, ps, wrap).font
         == (if Classify(line, index) == Name then NAME_FONT
             else if IsHeading(Trim(line)) then HEADING_FONT else BODY_FONT)
  {
  }

  // ---- one line ----

  /** A blank line draws nothing and moves the cursor down by exactly 3 mm after the check. */
  lemma BlankLine(c: Cursor, p: LinePlan, g: Geometry)
    requires p.blank
    ensures var r := LineStep(c, p, g);
      var b := BreakIfNeeded(c, g);
      r.marks == c.marks && r.pages == b.pages && r.y == b.y + SECTION_SPACING
  {
  }

  /**
   * Without a page break, a non-blank line moves the cursor down 5.5 mm per
   * fragment, plus 2 mm for a heading.
   */
  lemma LineAdvance(c: Cursor, p: LinePlan, g: Geometry)
    requires !p.blank && c.y <= g.limit
    ensures var r := LineStep(c, p, g);
      r.pages == c.pages ==>
        r.y == c.y + |p.frags| * g.lineHeight + (if p.heading then HEADING_SPACING else 0)
  {
    StreamAdvance(c, p.frags, p.font, g);
  }

  /** One line keeps the page invariant. */
  lemma LineStepWellFormed(c: Cursor, p: LinePlan, g: Geometry)
    requires ValidGeometry(g) && WellFormed(c, g)
    ensures WellFormed(LineStep(c, p, g), g)
  {
    BreakWellFormed(c, g);
    var c1 := BreakIfNeeded(c, g);
    if p.blank {
      MoveDownWellFormed(c1, g, SECTION_SPACING);
    } else {
      StreamWellFormed(c1, p.frags, p.font, g);
      MoveDownWellFormed(Stream(c1, p.frags, p.font, g), g, HEADING_SPACING);
    }
  }

  /** One line appends the marks of its fragments and nothing else, and never loses a page. */
  lemma LineStepTexts(c: Cursor, p: LinePlan, g: Geometry)
    requires p.blank ==> p.frags == []
    ensures var r := LineStep(c, p, g);
      && Texts(r.marks) == Texts(c.marks) + p.frags
      && |r.marks| == |c.marks| + |p.frags|
      && r.marks[..|c.marks|] == c.marks
      && r.pages >= c.pages
  {
    var c1 := BreakIfNeeded(c, g);
    if !p.blank {
      StreamTexts(c1, p.frags, p.font, g);
      StreamExtends(c1, p.frags, p.font, g);
    }
  }

  // ---- the whole document ----

  /** The plans of a document: a blank plan never carries fragments. */
  predicate BlankHasNoFragments(plans: seq<LinePlan>) {
    forall i :: 0 <= i < |plans| ==> plans[i].blank ==> plans[i].frags == []
  }

  lemma PlansBlankHaveNoFragments(lines: seq<string>, ps: PageSize, wrap: Wrapper)
    ensures BlankHasNoFragments(Plans(lines, ps, wrap))
  {
  }

  /**
   * Every fragment is drawn at x = 15 mm with 15 mm <= y <= pageHeight - 20 mm,
   * there is at least one page and marks appear in page order.
   */
  lemma {:induction false} RenderWellFormed(plans: seq<LinePlan>, n: nat, g: Geometry)
    requires n <= |plans| && ValidGeometry(g)
    ensures WellFormed(Render(plans, n, g), g)
  {
    if n > 0 {
      RenderWellFormed(plans, n - 1, g);
      LineStepWellFormed(Render(plans, n - 1, g), plans[n - 1], g);
    }
  }

  /** The marks are exactly the fragments of the non-blank lines, in source order. */
  lemma {:induction false} RenderTexts(plans: seq<LinePlan>, n: nat, g: Geometry)
    requires n <= |plans| && BlankHasNoFragments(plans)
    ensures Texts(Render(plans, n, g).marks) == AllFragments(plans, n)
  {
    if n > 0 {
      RenderTexts(plans, n - 1, g);
      LineStepTexts(Render(plans, n - 1, g), plans[n - 1], g);
    }
  }

  /** The marks of a shorter prefix of the lines are a prefix of the marks, and the page count only grows. */
  lemma {:induction false} RenderMonotone(plans: seq<LinePlan>, m: nat, n: nat, g: Geometry)
    requires m <= n <= |plans| && BlankHasNoFragments(plans)
    ensures var a := Render(plans, m, g);
      var b := Render(plans, n, g);
      |a.marks| <= |b.marks| && b.marks[..|a.marks|] == a.marks && a.pages <= b.pages
    decreases n - m
  {
    if m < n {
      RenderMonotone(plans, m, n - 1, g);
      var a := Render(plans, m, g);
      var p := Render(plans, n - 1, g);
      var b := Render(plans, n, g);
      LineStepTexts(p, plans[n - 1], g);
      assert b.marks[..|a.marks|] == b.marks[..|p.marks|][..|a.marks|];
    }
  }

  lemma RenderNext(plans: seq<LinePlan>, n: nat, g: Geometry)
    requires n < |plans|
    ensures Render(plans, n + 1, g) == LineStep(Render(plans, n, g), plans[n], g)
  {
  }

  /** What the finished document satisfies when the page leaves room for the margins. */
  lemma DocumentFacts(content: string, ps: PageSize, wrap: Wrapper)
    ensures var plans := Plans(Lines(content), ps, wrap);
      Texts(Document(content, ps, wrap).marks) == AllFragments(plans, |plans|)
    ensures TallEnough(ps) ==> WellFormed(Document(content, ps, wrap), Geo(ps))
  {
    var plans := Plans(Lines(content), ps, wrap);
    PlansBlankHaveNoFragments(Lines(content), ps, wrap);
    RenderTexts(plans, |plans|, Geo(ps));
    if TallEnough(ps) {
      RenderWellFormed(plans, |plans|, Geo(ps));
    }
  }

  /** The body of `lines.forEach((line, index) => ...)`, run on the document. */
  method DrawLine(doc: Canvas, y0: int, line: string, index: nat, ps: PageSize, wrap: Wrapper)
    returns (yPosition: int)
    modifies doc
    ensures doc.At(yPosition) == LineStep(old(doc.At(y0)), PlanOf(line, index, ps, wrap), Geo(ps))
  {
    yPosition := y0;
    if yPosition > ps.height - BOTTOM_MARGIN - 50 {
      doc.AddPage();
      yPosition := TOP_MARGIN;
    }
    var trimmedLine := Trim(line);
    if trimmedLine == "" {
      yPosition := yPosition + SECTION_SPACING;
    } else {
      var isHeading := IsHeading(trimmedLine);
      var isNameOrTitle := IsNameOrTitle(trimmedLine, index);
      var font := if isNameOrTitle && index == 0 then NAME_FONT
                  else if isHeading then HEADING_FONT
                  else BODY_FONT;
      var splitLines := wrap(trimmedLine, font, MaxWidth(ps));
      yPosition := StreamFragments(doc, yPosition, splitLines, font, Geo(ps));
      if isHeading {
        yPosition := yPosition + HEADING_SPACING;
      }
    }
  }

  /**
   * `generatePDF(content, filename, title)`: lays the document out and saves
   * it as `<filename>_<timestamp>.pdf`. The title argument is unused, as in
   * the source; the timestamp is an input.
   */
  method GeneratePdf(content: string, filename: string, title: string, ps: PageSize, wrap: Wrapper, timestamp: string)
    returns (doc: Canvas, savedAs: string)
    ensures fresh(doc)
    ensures doc.At(Document(content, ps, wrap).y) == Document(content, ps, wrap)
    ensures savedAs == SaveName(filename, timestamp)
  {
    doc := new Canvas();
    var yPosition := DrawLines(doc, Lines(content), ps, wrap);
    savedAs := SaveName(filename, timestamp);
  }

  /** `lines.forEach(...)` over a fresh document. */
  method DrawLines(doc: Canvas, lines: seq<string>, ps: PageSize, wrap: Wrapper) returns (yPosition: int)
    requires doc.pages == 1 && doc.marks == []
    modifies doc
    ensures var plans := Plans(lines, ps, wrap);
      doc.At(yPosition) == Render(plans, |plans|, Geo(ps))
  {
    ghost var plans := Plans(lines, ps, wrap);
    yPosition := TOP_MARGIN;
    var index := 0;
    while index < |lines|
      invariant 0 <= index <= |lines|
      invariant doc.At(yPosition) == Render(plans, index, Geo(ps))
    {
      yPosition := DrawLine(doc, yPosition, lines[index], index, ps, wrap);
      assert plans[index] == PlanOf(lines[index], index, ps, wrap);
      RenderNext(plans, index, Geo(ps));
      index := index + 1;
    }
  }

  /** `generateResumePDF(content)`: always saved under the base name Tailored_Resume. */
  method GenerateResumePdf(content: string, ps: PageSize, wrap: Wrapper, timestamp: string)
    returns (doc: Canvas, savedAs: string)
    ensures fresh(doc)
    ensures doc.At(Document(content, ps, wrap).y) == Document(content, ps, wrap)
    ensures savedAs == SaveName("Tailored_Resume", timestamp)
  {
    doc, savedAs := GeneratePdf(content, "Tailored_Resume", "", ps, wrap, timestamp);
  }

  /** `generateCoverLetterPDF(content)`: always saved under the base name Cover_Letter. */
  method GenerateCoverLetterPdf(content: string, ps: PageSize, wrap: Wrapper, timestamp: string)
    returns (doc: Canvas, savedAs: string)
    ensures fresh(doc)
    ensures doc.At(Document(content, ps, wrap).y) == Document(content, ps, wrap)
    ensures savedAs == SaveName("Cover_Letter", timestamp)
  {
    doc, savedAs := GeneratePdf(content, "Cover_Letter", "", ps, wrap, timestamp);
  }
}
