/**
 * The three template generators of src/utils/pdfTemplates.js (Classic,
 * Modern, Executive), the TEMPLATES table and the lookup done by
 * `generateWithTemplate`. Each generator splits the document on newlines,
 * decides for every trimmed line whether it is blank, a header and/or the
 * name, and draws it with its own fonts, spacings and decorations. Lengths
 * are in tenths of a millimetre, font sizes in tenths of a point.
 */
module PdfTemplates {
  import opened Results
  import opened JsText
  import opened Layout

  // ---- line classification, shared by the three templates ----

  /** Equal to its upper-case form and 2 < length < 50. */
  predicate IsHeader(t: string) {
    IsAllCaps(t) && |t| > 2 && |t| < 50
  }

  /** Raw line 0 (blank lines count towards the index), shorter than 50 characters. */
  predicate IsName(t: string, index: nat) {
    index == 0 && |t| < 50
  }

  /** The decisions a template takes for one raw line before drawing it. */
  datatype LineInfo = LineInfo(blank: bool, text: string, header: bool, name: bool)

  function InfoOf(line: string, index: nat): LineInfo {
    var t := Trim(line);
    LineInfo(t == "", t, IsHeader(t), IsName(t, index))
  }

  function Infos(lines: seq<string>): (infos: seq<LineInfo>)
    ensures |infos| == |lines|
  {
    seq(|lines|, i requires 0 <= i < |lines| => InfoOf(lines[i], i))
  }

  /** The header test is the source's `trimmed === trimmed.toUpperCase()` with the length bounds. */
  lemma HeaderIff(t: string)
    ensures IsHeader(t) <==> Upper(t) == t && 2 < |t| < 50
  {
    AllCapsIffUpperUnchanged(t);
  }

  /** A line is blank exactly when it is whitespace only; only raw line 0 can be the name. */
  lemma InfoOfSpec(line: string, index: nat)
    ensures InfoOf(line, index).blank <==> AllSpace(line)
    ensures InfoOf(line, index).name ==> index == 0
    ensures InfoOf(line, index).text == Trim(line)
  {
    TrimEmptyIffAllSpace(line);
  }

  /** Short digit-only lines are not headers, unlike in the single-column generator: length 3 is the minimum. */
  lemma ShortLineIsNoHeader(t: string)
    requires |t| <= 2
    ensures !InfoOf(t, 1).header
  {
    TrimSpec(t);
  }

  // ---- the three layouts ----

  datatype TemplateKind = Classic | Modern | Executive

  /** `MARGIN` of each template. */
  function Margin(k: TemplateKind): int {
    match k
    case Classic => 200
    case Modern => 180
    case Executive => 200
  }

  function LineHeight(k: TemplateKind): int {
    match k
    case Classic => 60
    case Modern => 55
    case Executive => 58
  }

  /** `SECTION_SPACING / 2`, the gap left by a blank line. */
  function BlankGap(k: TemplateKind): int {
    match k
    case Classic => 40
    case Modern => 30
    case Executive => 35
  }

  /** The page breaks once the cursor is below `pageHeight - MARGIN - 10`. */
  function Geo(k: TemplateKind, ps: PageSize): Geometry {
    Geometry(Margin(k), ps.height - Margin(k) - 100, Margin(k), LineHeight(k))
  }

  function MaxWidth(k: TemplateKind, ps: PageSize): int {
    ps.width - Margin(k) * 2
  }

  /** A page on which the break limit is not above the top margin. */
  predicate TallEnough(k: TemplateKind, ps: PageSize) {
    ps.height >= 2 * Margin(k) + 100
  }

  lemma TallEnoughGeometry(k: TemplateKind, ps: PageSize)
    requires TallEnough(k, ps)
    ensures ValidGeometry(Geo(k, ps))
  {
  }

  /** Name styling wins over header styling. */
  function FontOf(k: TemplateKind, p: LineInfo): Font {
    match k
    case Classic =>
      if p.name then Font("Times", true, 160)
      else if p.header then Font("Times", true, 120)
      else Font("Times", false, 110)
    case Modern =>
      if p.name then Font("Helvetica", true, 180)
      else if p.header then Font("Helvetica", true, 110)
      else Font("Helvetica", false, 100)
    case Executive =>
      if p.name then Font("Helvetica", true, 200)
      else if p.header then Font("Helvetica", true, 120)
      else Font("Helvetica", false, 105)
  }

  const EXECUTIVE_BODY := Font("Helvetica", false, 105)

  /**
   * Classic, after the fragments: a header gets its underline one line up
   * plus 2 mm and a further 2 mm; a name that is not a header gets 2 mm.
   */
  function ClassicAfter(c: Cursor, p: LineInfo): Cursor {
    var c1 := if p.header then Draw(c, Rule(c.pages, c.y - 40)).(y := c.y + 20) else c;
    if p.header || p.name then c1.(y := c1.y + 20) else c1
  }

  /** Modern, after the fragments: a header gets a short accent rule and 2 mm, a name a full rule and 4 mm. */
  function ModernAfter(c: Cursor, p: LineInfo): Cursor {
    var c1 := if p.header then Draw(c, Rule(c.pages, c.y - 35)).(y := c.y + 20) else c;
    if p.name then Draw(c1, Rule(c1.pages, c1.y - 20)).(y := c1.y + 40) else c1
  }

  /**
   * Executive: the name, while still on the first page, is drawn unwrapped on
   * a banner and moves the cursor 12 mm; a header is drawn unwrapped on a
   * band and moves it 7.8 mm; everything else is wrapped in the body font.
   */
  function ExecutiveDraw(c: Cursor, p: LineInfo, g: Geometry, wrap: Wrapper, maxWidth: int): Cursor {
    if p.name && c.pages == 1 then
      Draw(Draw(c, Fill(c.pages, c.y - 60, 140)), Text(c.pages, g.x, c.y, p.text, Font("Helvetica", true, 200))).(y := c.y + 120)
    else if p.header then
      Draw(Draw(c, Fill(c.pages, c.y - 50, 70)), Text(c.pages, g.x, c.y, p.text, Font("Helvetica", true, 120))).(y := c.y + 78)
    else
      Stream(c, wrap(p.text, EXECUTIVE_BODY, maxWidth), EXECUTIVE_BODY, g)
  }

  /** One iteration of a template's `lines.forEach`. */
  function Step(k: TemplateKind, c: Cursor, p: LineInfo, ps: PageSize, wrap: Wrapper): Cursor {
    var g := Geo(k, ps);
    var c1 := BreakIfNeeded(c, g);
    if p.blank then c1.(y := c1.y + BlankGap(k))
    else
      match k
      case Classic =>
        ClassicAfter(Stream(c1, wrap(p.text, FontOf(k, p), MaxWidth(k, ps)), FontOf(k, p), g), p)
      case Modern =>
        ModernAfter(Stream(c1, wrap(p.text, FontOf(k, p), MaxWidth(k, ps)), FontOf(k, p), g), p)
      case Executive =>
        ExecutiveDraw(c1, p, g, wrap, MaxWidth(k, ps))
  }

  /** The state after the first `n` lines. */
  function Render(k: TemplateKind, infos: seq<LineInfo>, n: nat, ps: PageSize, wrap: Wrapper): Cursor
    requires n <= |infos|
  {
    if n == 0 then Cursor(Margin(k), 1, [])
    else Step(k, Render(k, infos, n - 1, ps, wrap), infos[n - 1], ps, wrap)
  }

  function Document(k: TemplateKind, content: string, ps: PageSize, wrap: Wrapper): Cursor {
    var infos := Infos(Split(content, '\n'));
    Render(k, infos, |infos|, ps, wrap)
  }

  /** The text a line contributes: its wrapped fragments, or for Executive names and headers the unwrapped line. */
  function Drawn(k: TemplateKind, c: Cursor, p: LineInfo, ps: PageSize, wrap: Wrapper): seq<string> {
    if p.blank then []
    else if k != Executive then wrap(p.text, FontOf(k, p), MaxWidth(k, ps))
    else if (p.name && BreakIfNeeded(c, Geo(k, ps)).pages == 1) || p.header then [p.text]
    else wrap(p.text, EXECUTIVE_BODY, MaxWidth(k, ps))
  }

  // ---- one line ----

  /** A blank line draws nothing and moves the cursor by `SECTION_SPACING / 2` after the check. */
  lemma BlankLine(k: TemplateKind, c: Cursor, p: LineInfo, ps: PageSize, wrap: Wrapper)
    requires p.blank
    ensures var r := Step(k, c, p, ps, wrap);
      var b := BreakIfNeeded(c, Geo(k, ps));
      r.marks == c.marks && r.pages == b.pages && r.y == b.y + BlankGap(k)
  {
  }

  lemma ClassicAfterWellFormed(c: Cursor, p: LineInfo, g: Geometry)
    requires WellFormed(c, g)
    ensures WellFormed(ClassicAfter(c, p), g)
  {
    if p.header {
      DecorateWellFormed(c, g, Rule(c.pages, c.y - 40), 20);
    }
  }

  lemma ModernAfterWellFormed(c: Cursor, p: LineInfo, g: Geometry)
    requires WellFormed(c, g)
    ensures WellFormed(ModernAfter(c, p), g)
  {
    if p.header {
      var c1 := Draw(c, Rule(c.pages, c.y - 35)).(y := c.y + 20);
      DecorateWellFormed(c, g, Rule(c.pages, c.y - 35), 20);
      if p.name {
        DecorateWellFormed(c1, g, Rule(c1.pages, c1.y - 20), 40);
      }
    } else if p.name {
      DecorateWellFormed(c, g, Rule(c.pages, c.y - 20), 40);
    }
  }

  lemma ExecutiveWellFormed(c: Cursor, p: LineInfo, g: Geometry, wrap: Wrapper, maxWidth: int)
    requires ValidGeometry(g) && WellFormed(c, g) && c.y <= g.limit
    ensures WellFormed(ExecutiveDraw(c, p, g, wrap, maxWidth), g)
  {
    if p.name && c.pages == 1 {
      BannerWellFormed(c, g, Fill(c.pages, c.y - 60, 140), p.text, Font("Helvetica", true, 200), 120);
    } else if p.header {
      BannerWellFormed(c, g, Fill(c.pages, c.y - 50, 70), p.text, Font("Helvetica", true, 120), 78);
    } else {
      StreamWellFormed(c, wrap(p.text, EXECUTIVE_BODY, maxWidth), EXECUTIVE_BODY, g);
    }
  }

  /** A band on the current page, a text on it at the cursor, and a move down keep the invariant. */
  lemma BannerWellFormed(c: Cursor, g: Geometry, f: Mark, t: string, font: Font, d: int)
    requires ValidGeometry(g) && WellFormed(c, g) && c.y <= g.limit
    requires !f.Text? && f.page == c.pages && d >= 0
    ensures WellFormed(Draw(Draw(c, f), Text(c.pages, g.x, c.y, t, font)).(y := c.y + d), g)
  {
    DrawDecorationWellFormed(c, g, f);
    DrawTextWellFormed(Draw(c, f), g, t, font);
    MoveDownWellFormed(Draw(Draw(c, f), Text(c.pages, g.x, c.y, t, font)), g, d);
  }

  /**
   * One line keeps the page invariant: every text is drawn at x = MARGIN
   * with MARGIN <= y <= pageHeight - MARGIN - 10, on an existing page.
   */
  lemma StepWellFormed(k: TemplateKind, c: Cursor, p: LineInfo, ps: PageSize, wrap: Wrapper)
    requires TallEnough(k, ps) && WellFormed(c, Geo(k, ps))
    ensures WellFormed(Step(k, c, p, ps, wrap), Geo(k, ps))
  {
    var g := Geo(k, ps);
    BreakWellFormed(c, g);
    var c1 := BreakIfNeeded(c, g);
    if p.blank {
      MoveDownWellFormed(c1, g, BlankGap(k));
    } else if k == Executive {
      ExecutiveWellFormed(c1, p, g, wrap, MaxWidth(k, ps));
    } else {
      var frags := wrap(p.text, FontOf(k, p), MaxWidth(k, ps));
      StreamWellFormed(c1, frags, FontOf(k, p), g);
      if k == Classic {
        ClassicAfterWellFormed(Stream(c1, frags, FontOf(k, p), g), p, g);
      } else {
        ModernAfterWellFormed(Stream(c1, frags, FontOf(k, p), g), p, g);
      }
    }
  }

  lemma TextsAfter(k: TemplateKind, c: Cursor, p: LineInfo)
    requires k != Executive
    ensures var r := if k == Classic then ClassicAfter(c, p) else ModernAfter(c, p);
      Texts(r.marks) == Texts(c.marks) && |c.marks| <= |r.marks| && r.marks[..|c.marks|] == c.marks && r.pages == c.pages
  {
    if k == Classic {
      if p.header {
        DrawKeepsTexts(c, Rule(c.pages, c.y - 40));
      }
    } else {
      var c1 := if p.header then Draw(c, Rule(c.pages, c.y - 35)).(y := c.y + 20) else c;
      if p.header {
        DrawKeepsTexts(c, Rule(c.pages, c.y - 35));
      }
      if p.name {
        var m := Rule(c1.pages, c1.y - 20);
        DrawKeepsTexts(c1, m);
        PrefixOfPrefix(Draw(c1, m).marks, c1.marks, c.marks);
      }
    }
  }

  /** Drawing a mark that is not text adds no text, keeps what was drawn and stays on the page. */
  lemma DrawKeepsTexts(c: Cursor, m: Mark)
    requires !m.Text?
    ensures var d := Draw(c, m);
      Texts(d.marks) == Texts(c.marks) && |c.marks| <= |d.marks| && d.marks[..|c.marks|] == c.marks && d.pages == c.pages
  {
    TextsSnoc(c.marks, m);
    assert Draw(c, m).marks[..|c.marks|] == c.marks;
  }

  lemma PrefixOfPrefix(a: seq<Mark>, b: seq<Mark>, c: seq<Mark>)
    requires |b| <= |a| && a[..|b|] == b && |c| <= |b| && b[..|c|] == c
    ensures a[..|c|] == c
  {
    assert a[..|c|] == a[..|b|][..|c|];
  }

  /** An Executive line draws its unwrapped text (name or header) or its wrapped fragments. */
  lemma ExecutiveTexts(c: Cursor, p: LineInfo, g: Geometry, wrap: Wrapper, maxWidth: int)
    ensures var r := ExecutiveDraw(c, p, g, wrap, maxWidth);
      && Texts(r.marks) == Texts(c.marks) + (if (p.name && c.pages == 1) || p.header then [p.text] else wrap(p.text, EXECUTIVE_BODY, maxWidth))
      && |c.marks| <= |r.marks| && r.marks[..|c.marks|] == c.marks && r.pages >= c.pages
  {
    if (p.name && c.pages == 1) || p.header {
      var font := if p.name && c.pages == 1 then Font("Helvetica", true, 200) else Font("Helvetica", true, 120);
      var f := if p.name && c.pages == 1 then Fill(c.pages, c.y - 60, 140) else Fill(c.pages, c.y - 50, 70);
      var t := Text(c.pages, g.x, c.y, p.text, font);
      TextsSnoc(c.marks, f);
      var d := Draw(c, f);
      assert Draw(d, t).marks[..|d.marks|] == d.marks;
      assert Draw(d, t).marks[..|c.marks|] == c.marks;
    } else {
      StreamTexts(c, wrap(p.text, EXECUTIVE_BODY, maxWidth), EXECUTIVE_BODY, g);
      StreamExtends(c, wrap(p.text, EXECUTIVE_BODY, maxWidth), EXECUTIVE_BODY, g);
    }
  }

  lemma WrappedTexts(k: TemplateKind, c: Cursor, p: LineInfo, ps: PageSize, wrap: Wrapper)
    requires k != Executive && !p.blank
    ensures var r := Step(k, c, p, ps, wrap);
      && Texts(r.marks) == Texts(c.marks) + wrap(p.text, FontOf(k, p), MaxWidth(k, ps))
      && |c.marks| <= |r.marks| && r.marks[..|c.marks|] == c.marks && r.pages >= c.pages
  {
    var g := Geo(k, ps);
    var c1 := BreakIfNeeded(c, g);
    var frags := wrap(p.text, FontOf(k, p), MaxWidth(k, ps));
    var c2 := Stream(c1, frags, FontOf(k, p), g);
    StreamTexts(c1, frags, FontOf(k, p), g);
    StreamExtends(c1, frags, FontOf(k, p), g);
    TextsAfter(k, c2, p);
    var r := Step(k, c, p, ps, wrap);
    assert r.marks[..|c.marks|] == r.marks[..|c2.marks|][..|c.marks|];
  }

  /** One line draws exactly its text (`Drawn`), appends only, and never loses a page. */
  lemma StepTexts(k: TemplateKind, c: Cursor, p: LineInfo, ps: PageSize, wrap: Wrapper)
    ensures var r := Step(k, c, p, ps, wrap);
      && Texts(r.marks) == Texts(c.marks) + Drawn(k, c, p, ps, wrap)
      && |c.marks| <= |r.marks| && r.marks[..|c.marks|] == c.marks
      && r.pages >= c.pages
  {
    if !p.blank {
      if k == Executive {
        var c1 := BreakIfNeeded(c, Geo(k, ps));
        assert Step(k, c, p, ps, wrap) == ExecutiveDraw(c1, p, Geo(k, ps), wrap, MaxWidth(k, ps));
        ExecutiveTexts(c1, p, Geo(k, ps), wrap, MaxWidth(k, ps));
      } else {
        WrappedTexts(k, c, p, ps, wrap);
      }
    }
  }

  /**
   * Classic spacing without a page break: one line height per fragment, then
   * 4 mm for a header (underline included) or 2 mm for a name that is not a
   * header; the underline is drawn even when the header is styled as the name.
   */
  lemma ClassicSpacing(c: Cursor, p: LineInfo, ps: PageSize, wrap: Wrapper)
    requires !p.blank && c.y <= Geo(Classic, ps).limit
    ensures var r := Step(Classic, c, p, ps, wrap);
      var frags := wrap(p.text, FontOf(Classic, p), MaxWidth(Classic, ps));
      && (r.pages == c.pages ==>
            r.y == c.y + |frags| * 60 + (if p.header then 40 else if p.name then 20 else 0))
      && (p.header ==> |r.marks| > 0 && r.marks[|r.marks| - 1] == Rule(r.pages, r.y - 80))
      && (!p.header ==> r.marks == Stream(c, frags, FontOf(Classic, p), Geo(Classic, ps)).marks)
  {
    var frags := wrap(p.text, FontOf(Classic, p), MaxWidth(Classic, ps));
    var g := Geo(Classic, ps);
    StreamAdvance(c, frags, FontOf(Classic, p), g);
  }

  /** Modern spacing without a page break: 2 mm after a header, 4 mm after a name, 6 mm for both. */
  lemma ModernSpacing(c: Cursor, p: LineInfo, ps: PageSize, wrap: Wrapper)
    requires !p.blank && c.y <= Geo(Modern, ps).limit
    ensures var r := Step(Modern, c, p, ps, wrap);
      var frags := wrap(p.text, FontOf(Modern, p), MaxWidth(Modern, ps));
      r.pages == c.pages ==>
        r.y == c.y + |frags| * 55 + (if p.header then 20 else 0) + (if p.name then 40 else 0)
  {
    StreamAdvance(c, wrap(p.text, FontOf(Modern, p), MaxWidth(Modern, ps)), FontOf(Modern, p), Geo(Modern, ps));
  }

  /**
   * Executive without a page break: the name on the first page moves 12 mm,
   * a header 7.8 mm, each unwrapped; a body line moves 5.8 mm per fragment.
   * Once a page has been added the name is no longer drawn on a banner.
   */
  lemma ExecutiveSpacing(c: Cursor, p: LineInfo, ps: PageSize, wrap: Wrapper)
    requires !p.blank && c.y <= Geo(Executive, ps).limit
    ensures var r := Step(Executive, c, p, ps, wrap);
      && (p.name && c.pages == 1 ==> r.y == c.y + 120 && r.marks == c.marks + [Fill(1, c.y - 60, 140), Text(1, 200, c.y, p.text, FontOf(Executive, p))])
      && (!(p.name && c.pages == 1) && p.header ==> r.y == c.y + 78 && |r.marks| == |c.marks| + 2)
      && (!(p.name && c.pages == 1) && !p.header ==>
            var frags := wrap(p.text, EXECUTIVE_BODY, MaxWidth(Executive, ps));
            r.pages == c.pages ==> r.y == c.y + |frags| * 58)
  {
    StreamAdvance(c, wrap(p.text, EXECUTIVE_BODY, MaxWidth(Executive, ps)), EXECUTIVE_BODY, Geo(Executive, ps));
  }

  // ---- the whole document ----

  lemma RenderNext(k: TemplateKind, infos: seq<LineInfo>, n: nat, ps: PageSize, wrap: Wrapper)
    requires n < |infos|
    ensures Render(k, infos, n + 1, ps, wrap) == Step(k, Render(k, infos, n, ps, wrap), infos[n], ps, wrap)
  {
  }

  /** The invariant holds over the whole document: at least one page, texts in the band, marks in page order. */
  lemma {:induction false} RenderWellFormed(k: TemplateKind, infos: seq<LineInfo>, n: nat, ps: PageSize, wrap: Wrapper)
    requires n <= |infos| && TallEnough(k, ps)
    ensures WellFormed(Render(k, infos, n, ps, wrap), Geo(k, ps))
  {
    if n > 0 {
      RenderWellFormed(k, infos, n - 1, ps, wrap);
      StepWellFormed(k, Render(k, infos, n - 1, ps, wrap), infos[n - 1], ps, wrap);
    }
  }

  /** Earlier lines' marks are never changed and the page count never decreases. */
  lemma {:induction false} RenderMonotone(k: TemplateKind, infos: seq<LineInfo>, m: nat, n: nat, ps: PageSize, wrap: Wrapper)
    requires m <= n <= |infos|
    ensures var a := Render(k, infos, m, ps, wrap);
      var b := Render(k, infos, n, ps, wrap);
      |a.marks| <= |b.marks| && b.marks[..|a.marks|] == a.marks && a.pages <= b.pages
    decreases n - m
  {
    if m < n {
      RenderMonotone(k, infos, m, n - 1, ps, wrap);
      var a := Render(k, infos, m, ps, wrap);
      var p := Render(k, infos, n - 1, ps, wrap);
      var b := Render(k, infos, n, ps, wrap);
      StepTexts(k, p, infos[n - 1], ps, wrap);
      assert b.marks[..|a.marks|] == b.marks[..|p.marks|][..|a.marks|];
    }
  }

  /** The text drawn by the first `n` lines, for the templates that wrap every line. */
  function AllFragments(k: TemplateKind, infos: seq<LineInfo>, n: nat, ps: PageSize, wrap: Wrapper): seq<string>
    requires n <= |infos|
  {
    if n == 0 then []
    else
      var p := infos[n - 1];
      AllFragments(k, infos, n - 1, ps, wrap) + (if p.blank then [] else wrap(p.text, FontOf(k, p), MaxWidth(k, ps)))
  }

  /** Classic and Modern draw exactly the wrapped fragments of the non-blank lines, in source order. */
  lemma {:induction false} RenderTexts(k: TemplateKind, infos: seq<LineInfo>, n: nat, ps: PageSize, wrap: Wrapper)
    requires k != Executive && n <= |infos|
    ensures Texts(Render(k, infos, n, ps, wrap).marks) == AllFragments(k, infos, n, ps, wrap)
  {
    if n > 0 {
      RenderTexts(k, infos, n - 1, ps, wrap);
      WrappedStepTexts(k, Render(k, infos, n - 1, ps, wrap), infos[n - 1], ps, wrap, AllFragments(k, infos, n - 1, ps, wrap));
    }
  }

  /** A Classic or Modern line appends its wrapped fragments to the text drawn so far. */
  lemma WrappedStepTexts(k: TemplateKind, c: Cursor, p: LineInfo, ps: PageSize, wrap: Wrapper, before: seq<string>)
    requires k != Executive && Texts(c.marks) == before
    ensures Texts(Step(k, c, p, ps, wrap).marks) == before + (if p.blank then [] else wrap(p.text, FontOf(k, p), MaxWidth(k, ps)))
  {
    StepTexts(k, c, p, ps, wrap);
  }

  /** The text an Executive document draws for its first `n` lines: the name line and headers unwrapped, the rest wrapped in the body font. */
  function ExecutiveTextOf(infos: seq<LineInfo>, n: nat, ps: PageSize, wrap: Wrapper): seq<string>
    requires n <= |infos|
  {
    if n == 0 then []
    else
      var p := infos[n - 1];
      ExecutiveTextOf(infos, n - 1, ps, wrap)
        + (if p.blank then [] else if p.name || p.header then [p.text] else wrap(p.text, EXECUTIVE_BODY, MaxWidth(Executive, ps)))
  }

  /**
   * On a page tall enough for one line, the Executive template draws the name
   * line (raw line 0) unwrapped: its page test never leaves the first page, so
   * the whole document's text is fixed by its lines alone.
   */
  lemma {:induction false} ExecutiveRenderTexts(infos: seq<LineInfo>, n: nat, ps: PageSize, wrap: Wrapper)
    requires TallEnough(Executive, ps) && n <= |infos|
    requires forall i :: 0 < i < |infos| ==> !infos[i].name
    ensures Texts(Render(Executive, infos, n, ps, wrap).marks) == ExecutiveTextOf(infos, n, ps, wrap)
  {
    if n > 0 {
      var c := Render(Executive, infos, n - 1, ps, wrap);
      var p := infos[n - 1];
      ExecutiveRenderTexts(infos, n - 1, ps, wrap);
      ExecutiveLineText(c, p, ps, wrap);
      StepTexts(Executive, c, p, ps, wrap);
    }
  }

  /** A name line is only ever drawn from the starting cursor, which the page test leaves on the first page. */
  lemma ExecutiveLineText(c: Cursor, p: LineInfo, ps: PageSize, wrap: Wrapper)
    requires TallEnough(Executive, ps) && (p.name ==> c == Cursor(Margin(Executive), 1, []))
    ensures Drawn(Executive, c, p, ps, wrap)
      == if p.blank then [] else if p.name || p.header then [p.text] else wrap(p.text, EXECUTIVE_BODY, MaxWidth(Executive, ps))
  {
  }

  /** The text of a whole Executive document. */
  lemma ExecutiveDocumentTexts(content: string, ps: PageSize, wrap: Wrapper)
    requires TallEnough(Executive, ps)
    ensures var infos := Infos(Split(content, '\n'));
      Texts(Document(Executive, content, ps, wrap).marks) == ExecutiveTextOf(infos, |infos|, ps, wrap)
  {
    var lines := Split(content, '\n');
    var infos := Infos(lines);
    forall i | 0 < i < |infos|
      ensures !infos[i].name
    {
      InfoOfSpec(lines[i], i);
    }
    ExecutiveRenderTexts(infos, |infos|, ps, wrap);
  }

  lemma RenderLine(k: TemplateKind, lines: seq<string>, n: nat, ps: PageSize, wrap: Wrapper)
    requires n < |lines|
    ensures Render(k, Infos(lines), n + 1, ps, wrap) == Step(k, Render(k, Infos(lines), n, ps, wrap), InfoOf(lines[n], n), ps, wrap)
  {
  }

  // ---- the generators ----

  /** What a generator returns: the blob of the document, or `true` after saving it under a name. */
  datatype Output = Blob(pages: nat, marks: seq<Mark>) | Saved(fileName: string, pages: nat, marks: seq<Mark>)

  function Label(k: TemplateKind): string {
    match k
    case Classic => "Classic"
    case Modern => "Modern"
    case Executive => "Executive"
  }

  /** `${filename}_<Template>_${timestamp}.pdf` */
  function SaveName(k: TemplateKind, filename: string, timestamp: string): string {
    filename + "_" + Label(k) + "_" + timestamp + ".pdf"
  }

  /** The result of template `k` on `content`. */
  function Generated(k: TemplateKind, content: string, filename: string, asBlob: bool, ps: PageSize, wrap: Wrapper, timestamp: string): Output {
    var d := Document(k, content, ps, wrap);
    if asBlob then Blob(d.pages, d.marks) else Saved(SaveName(k, filename, timestamp), d.pages, d.marks)
  }

  /** The blob flag decides between returning the document and saving it under the template's name. */
  lemma GeneratedSpec(k: TemplateKind, content: string, filename: string, asBlob: bool, ps: PageSize, wrap: Wrapper, timestamp: string)
    ensures var o := Generated(k, content, filename, asBlob, ps, wrap, timestamp);
      && (o.Blob? <==> asBlob)
      && (o.Saved? ==> o.fileName == filename + "_" + Label(k) + "_" + timestamp + ".pdf")
      && o.marks == Document(k, content, ps, wrap).marks
      && (TallEnough(k, ps) ==> o.pages >= 1 && InBand(o.marks, Geo(k, ps)))
  {
    if TallEnough(k, ps) {
      var infos := Infos(Split(content, '\n'));
      RenderWellFormed(k, infos, |infos|, ps, wrap);
    }
  }

  /** The page check, shared by every loop of the three generators. */
  method BreakIfNeededOn(doc: Canvas, y0: int, k: TemplateKind, ps: PageSize) returns (y: int)
    modifies doc
    ensures doc.At(y) == BreakIfNeeded(old(doc.At(y0)), Geo(k, ps))
  {
    y := y0;
    if y > ps.height - Margin(k) - 100 {
      doc.AddPage();
      y := Margin(k);
    }
  }

  /** The body of a Classic or Modern `lines.forEach`. */
  method WrappedLine(k: TemplateKind, doc: Canvas, y0: int, line: string, index: nat, ps: PageSize, wrap: Wrapper)
    returns (yPos: int)
    requires k != Executive
    modifies doc
    ensures doc.At(yPos) == Step(k, old(doc.At(y0)), InfoOf(line, index), ps, wrap)
  {
    var g := Geo(k, ps);
    yPos := BreakIfNeededOn(doc, y0, k, ps);
    var trimmed := Trim(line);
    if trimmed == "" {
      yPos := yPos + BlankGap(k);
      return;
    }
    var isHeader := IsHeader(trimmed);
    var isName := index == 0 && |trimmed| < 50;
    var info := LineInfo(false, trimmed, isHeader, isName);
    var font := FontOf(k, info);
    var splitLines := wrap(trimmed, font, MaxWidth(k, ps));
    yPos := StreamFragments(doc, yPos, splitLines, font, g);
    if k == Classic {
      yPos := ClassicAfterOn(doc, yPos, info);
    } else {
      yPos := ModernAfterOn(doc, yPos, info);
    }
  }

  /** Classic, after the fragments of a line: the header rule and the extra spacing. */
  method ClassicAfterOn(doc: Canvas, y0: int, info: LineInfo) returns (yPos: int)
    modifies doc
    ensures doc.At(yPos) == ClassicAfter(old(doc.At(y0)), info)
  {
    yPos := y0;
    if info.header {
      doc.DrawRule(yPos - 60 + 20);
      yPos := yPos + 20;
    }
    if info.header || info.name {
      yPos := yPos + 20;
    }
  }

  /** Modern, after the fragments of a line: the accent rule of a header and the rule under the name. */
  method ModernAfterOn(doc: Canvas, y0: int, info: LineInfo) returns (yPos: int)
    modifies doc
    ensures doc.At(yPos) == ModernAfter(old(doc.At(y0)), info)
  {
    yPos := y0;
    if info.header {
      doc.DrawRule(yPos - 55 + 20);
      yPos := yPos + 20;
    }
    if info.name {
      doc.DrawRule(yPos - 20);
      yPos := yPos + 40;
    }
  }

  /**
   * The body of the Executive `lines.forEach`. `isFirstPage` is threaded
   * through: it is false exactly when the document has more than one page.
   */
  method ExecutiveLine(doc: Canvas, y0: int, isFirstPage0: bool, line: string, index: nat, ps: PageSize, wrap: Wrapper)
    returns (yPos: int, isFirstPage: bool)
    requires isFirstPage0 == (doc.pages == 1) && doc.pages >= 1
    modifies doc
    ensures doc.At(yPos) == Step(Executive, old(doc.At(y0)), InfoOf(line, index), ps, wrap)
    ensures isFirstPage == (doc.pages == 1) && doc.pages >= 1
  {
    var g := Geo(Executive, ps);
    yPos := y0;
    isFirstPage := isFirstPage0;
    if yPos > ps.height - 200 - 100 {
      doc.AddPage();
      yPos := 200;
      isFirstPage := false;
    }
    var trimmed := Trim(line);
    if trimmed == "" {
      yPos := yPos + 35;
      return;
    }
    var isHeader := IsHeader(trimmed);
    var isName := index == 0 && |trimmed| < 50;
    if isName && isFirstPage {
      doc.DrawFill(yPos - 60, 140);
      doc.DrawText(trimmed, 200, yPos, Font("Helvetica", true, 200));
      yPos := yPos + 120;
    } else if isHeader {
      doc.DrawFill(yPos - 50, 70);
      doc.DrawText(trimmed, 200, yPos, Font("Helvetica", true, 120));
      yPos := yPos + 58 + 20;
    } else {
      var splitLines := wrap(trimmed, EXECUTIVE_BODY, MaxWidth(Executive, ps));
      yPos, isFirstPage := ExecutiveFragments(doc, yPos, isFirstPage, splitLines, ps);
    }
  }

  /** The Executive fragment loop, which also clears `isFirstPage` when it adds a page. */
  method ExecutiveFragments(doc: Canvas, y0: int, isFirstPage0: bool, splitLines: seq<string>, ps: PageSize)
    returns (yPos: int, isFirstPage: bool)
    requires isFirstPage0 == (doc.pages == 1) && doc.pages >= 1
    modifies doc
    ensures doc.At(yPos) == Stream(old(doc.At(y0)), splitLines, EXECUTIVE_BODY, Geo(Executive, ps))
    ensures isFirstPage == (doc.pages == 1) && doc.pages >= 1
  {
    yPos := y0;
    isFirstPage := isFirstPage0;
    var i := 0;
    while i < |splitLines|
      invariant 0 <= i <= |splitLines|
      invariant doc.At(yPos) == Stream(old(doc.At(y0)), splitLines[..i], EXECUTIVE_BODY, Geo(Executive, ps))
      invariant isFirstPage == (doc.pages == 1) && doc.pages >= 1
    {
      assert splitLines[..i + 1][..i] == splitLines[..i];
      if yPos > ps.height - 200 - 100 {
        doc.AddPage();
        yPos := 200;
        isFirstPage := false;
      }
      doc.DrawText(splitLines[i], 200, yPos, EXECUTIVE_BODY);
      yPos := yPos + 58;
      i := i + 1;
    }
    assert splitLines[..i] == splitLines;
  }

  /** One iteration of template `k`'s `lines.forEach`. */
  method DrawLine(k: TemplateKind, doc: Canvas, y0: int, isFirstPage0: bool, lines: seq<string>, index: nat, ps: PageSize, wrap: Wrapper)
    returns (yPos: int, isFirstPage: bool)
    requires index < |lines|
    requires doc.At(y0) == Render(k, Infos(lines), index, ps, wrap)
    requires isFirstPage0 == (doc.pages == 1) && doc.pages >= 1
    modifies doc
    ensures doc.At(yPos) == Render(k, Infos(lines), index + 1, ps, wrap)
    ensures isFirstPage == (doc.pages == 1) && doc.pages >= 1
  {
    var line := lines[index];
    RenderLine(k, lines, index, ps, wrap);
    if k == Executive {
      yPos, isFirstPage := ExecutiveLine(doc, y0, isFirstPage0, line, index, ps, wrap);
    } else {
      yPos := WrappedLine(k, doc, y0, line, index, ps, wrap);
      StepTexts(k, old(doc.At(y0)), InfoOf(line, index), ps, wrap);
      isFirstPage := doc.pages == 1;
    }
  }

  /** `lines.forEach(...)` of template `k` over a fresh document. */
  method DrawLines(k: TemplateKind, doc: Canvas, lines: seq<string>, ps: PageSize, wrap: Wrapper) returns (yPos: int)
    requires doc.pages == 1 && doc.marks == []
    modifies doc
    ensures var infos := Infos(lines);
      doc.At(yPos) == Render(k, infos, |infos|, ps, wrap)
  {
    yPos := Margin(k);
    var isFirstPage := true;
    for index := 0 to |lines|
      invariant doc.At(yPos) == Render(k, Infos(lines), index, ps, wrap)
      invariant isFirstPage == (doc.pages == 1) && doc.pages >= 1
    {
      yPos, isFirstPage := DrawLine(k, doc, yPos, isFirstPage, lines, index, ps, wrap);
    }
  }

  /**
   * `generateClassicTemplate`, `generateModernTemplate` and
   * `generateExecutiveTemplate`: lay the document out on a fresh A4-like
   * page size, then return the blob or save it and return true.
   */
  method Generate(k: TemplateKind, content: string, filename: string, asBlob: bool, ps: PageSize, wrap: Wrapper, timestamp: string)
    returns (out: Output)
    ensures out == Generated(k, content, filename, asBlob, ps, wrap, timestamp)
  {
    var doc := new Canvas();
    var yPos := DrawLines(k, doc, Split(content, '\n'), ps, wrap);
    if asBlob {
      return Blob(doc.pages, doc.marks);
    }
    out := Saved(SaveName(k, filename, timestamp), doc.pages, doc.marks);
  }

  // ---- TEMPLATES and the lookup ----

  /** The display part of a `TEMPLATES` entry; it plays no part in generation. */
  datatype Details = Details(name: string, description: string, font: string, style: string,
                             color: string, icon: string, features: seq<string>)

  function DetailsOf(k: TemplateKind): Details {
    match k
    case Classic =>
      Details("Classic Professional", "Traditional serif font, formal layout. Best for corporate, legal, finance.",
        "Times New Roman", "Formal & Traditional", "#2c3e50", "\U{1F4CB}",
        ["Serif font", "Underlined headers", "Generous spacing", "ATS-optimized"])
    case Modern =>
      Details("Modern Clean", "Sans-serif, minimalist design. Best for tech, startups, creative roles.",
        "Arial / Helvetica", "Clean & Minimal", "#0066cc", "\U{2728}",
        ["Sans-serif font", "Accent lines", "Compact layout", "Modern look"])
    case Executive =>
      Details("Executive Bold", "Bold headers, structured layout. Best for senior roles, management.",
        "Arial / Helvetica", "Bold & Structured", "#2c3e50", "\U{1F4BC}",
        ["Bold sections", "Background accents", "Professional", "Leadership roles"])
  }

  /** A `TEMPLATES` entry: its id and the generator it dispatches to; its display text is `DetailsOf(generator)`. */
  datatype TemplateInfo = TemplateInfo(id: string, generator: TemplateKind)

  /** The `TEMPLATES` object. */
  function Templates(): map<string, TemplateInfo> {
    map["classic" := TemplateInfo("classic", Classic),
        "modern" := TemplateInfo("modern", Modern),
        "executive" := TemplateInfo("executive", Executive)]
  }

  /** Each entry's `id` equals its key, each key names the generator of the same name (the names, descriptions and feature lists are display text, not modelled). */
  lemma TemplatesConsistent()
    ensures Templates().Keys == {"classic", "modern", "executive"}
    ensures forall key :: key in Templates() ==> Templates()[key].id == key
    ensures Templates()["classic"].generator == Classic
    ensures Templates()["modern"].generator == Modern
    ensures Templates()["executive"].generator == Executive
  {
  }

  datatype TemplateError =
    | NotFound(message: string)
    /** An inherited member was found but has no `generator` to call. */
    | NotAFunction(key: string)

  /**
   * `templateId = 'modern'`: the default applies only when the argument is
   * undefined (`None`); an explicit `null` is the key `"null"`, i.e. `Some("null")`.
   */
  function ResolveId(templateId: Option<string>): string {
    if templateId.None? then "modern" else templateId.value
  }

  /** `TEMPLATES[templateId]` and the `!template` test. */
  function Lookup(templateId: Option<string>): Result<TemplateKind, TemplateError> {
    var id := ResolveId(templateId);
    if id in Templates() then Ok(Templates()[id].generator)
    else if id in InheritedKeys() then Err(NotAFunction(id))
    else Err(NotFound("Template \"" + id + "\" not found"))
  }

  /**
   * The lookup succeeds exactly for the three template ids, picks the entry
   * of that id, defaults to Modern, and otherwise fails; the "not found"
   * message is produced for every other id except the inherited keys.
   */
  lemma LookupSpec(templateId: Option<string>)
    ensures var id := ResolveId(templateId);
      && (Lookup(templateId).Ok? <==> id in {"classic", "modern", "executive"})
      && (Lookup(templateId).Ok? ==> Lookup(templateId).value == Templates()[id].generator)
      && (templateId.None? ==> Lookup(templateId) == Ok(Modern))
      && (id !in Templates() && id !in InheritedKeys() ==>
            Lookup(templateId) == Err(NotFound("Template \"" + id + "\" not found")))
  {
    TemplatesConsistent();
  }

  /** An inherited key such as "constructor" fails with a TypeError rather than the "not found" message. */
  lemma InheritedKeyIsNotNotFound()
    ensures Lookup(Some("constructor")) == Err(NotAFunction("constructor"))
  {
    TemplatesConsistent();
  }

  /** `generateWithTemplate(content, filename, templateId, asBlob)`, with the timer left out. */
  method GenerateWithTemplate(content: string, filename: string, templateId: Option<string>, asBlob: bool,
                              ps: PageSize, wrap: Wrapper, timestamp: string)
    returns (r: Result<Output, TemplateError>)
    ensures Lookup(templateId).Err? ==> r == Err(Lookup(templateId).error)
    ensures Lookup(templateId).Ok? ==>
      r == Ok(Generated(Lookup(templateId).value, content, filename, asBlob, ps, wrap, timestamp))
  {
    var template := Lookup(templateId);
    if template.Err? {
      return Err(template.error);
    }
    var out := Generate(template.value, content, filename, asBlob, ps, wrap, timestamp);
    r := Ok(out);
  }
}
