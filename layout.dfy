/**
 * The page model shared by the four single-column PDF generators: a jsPDF
 * document reduced to its page count and the list of things drawn on it, and
 * the "check the bottom, maybe add a page, draw, move down" fragment loop they
 * all use. Lengths are in tenths of a millimetre, font sizes in tenths of a
 * point, so every constant of the source is an integer.
 */
module Layout {

  /** A font selection: family, weight and size (tenths of a point). */
  datatype Font = Font(family: string, bold: bool, size: int)

  /** One drawing operation, on a 1-based page. */
  datatype Mark =
    | Text(page: nat, x: int, y: int, text: string, font: Font)
    | Rule(page: nat, y: int)
    | Fill(page: nat, y: int, height: int)

  /** `doc.splitTextToSize(text, maxWidth)` with the current font: left uninterpreted. */
  type Wrapper = (string, Font, int) -> seq<string>

  datatype PageSize = PageSize(width: int, height: int)

  const A4 := PageSize(2100, 2970)

  /**
   * Where a generator's text column lives: a page break happens when the
   * cursor is below `limit`, and resets it to `top`; text is drawn at `x` and
   * each fragment moves the cursor down by `lineHeight`.
   */
  datatype Geometry = Geometry(top: int, limit: int, x: int, lineHeight: int)

  predicate ValidGeometry(g: Geometry) {
    g.top <= g.limit && g.lineHeight > 0
  }

  /** The abstract state of a generator: its `y` cursor, the page count and the marks so far. */
  datatype Cursor = Cursor(y: int, pages: nat, marks: seq<Mark>)

  /** The text of every Text mark, in drawing order. */
  function Texts(marks: seq<Mark>): seq<string> {
    if |marks| == 0 then []
    else if marks[|marks| - 1].Text? then Texts(marks[..|marks| - 1]) + [marks[|marks| - 1].text]
    else Texts(marks[..|marks| - 1])
  }

  /** Appending one mark adds its text if it is a Text mark, and nothing otherwise. */
  lemma TextsSnoc(a: seq<Mark>, m: Mark)
    ensures m.Text? ==> Texts(a + [m]) == Texts(a) + [m.text]
    ensures !m.Text? ==> Texts(a + [m]) == Texts(a)
  {
    assert (a + [m])[..|a|] == a;
  }

  /**
   * The invariant every generator keeps: the cursor is never above the top
   * margin, there is at least one page, marks are on existing pages in
   * nondecreasing page order, and every Text mark lies at `x` inside the
   * vertical band [top, limit].
   */
  ghost predicate WellFormed(c: Cursor, g: Geometry) {
    && g.top <= c.y
    && c.pages >= 1
    && (forall i :: 0 <= i < |c.marks| ==> 1 <= c.marks[i].page <= c.pages)
    && (forall i, j :: 0 <= i < j < |c.marks| ==> c.marks[i].page <= c.marks[j].page)
    && InBand(c.marks, g)
  }

  /** Every Text mark is drawn at the column's `x`, between the top margin and the break limit. */
  ghost predicate InBand(marks: seq<Mark>, g: Geometry) {
    forall i :: 0 <= i < |marks| && marks[i].Text? ==> marks[i].x == g.x && g.top <= marks[i].y <= g.limit
  }

  /** `if (y > limit) { doc.addPage(); y = top; }` */
  function BreakIfNeeded(c: Cursor, g: Geometry): Cursor {
    if c.y > g.limit then Cursor(g.top, c.pages + 1, c.marks) else c
  }

  /** Append a mark on the current page. */
  function Draw(c: Cursor, m: Mark): Cursor {
    c.(marks := c.marks + [m])
  }

  /**
   * The fragment loop: for each fragment, break if needed, draw it at the
   * cursor, move down one line. Defined on the prefix so that a loop over the
   * fragments extends it one step at a time.
   */
  function Stream(c: Cursor, frags: seq<string>, font: Font, g: Geometry): Cursor
    decreases |frags|
  {
    if |frags| == 0 then c
    else
      var b := BreakIfNeeded(Stream(c, frags[..|frags| - 1], font, g), g);
      Cursor(b.y + g.lineHeight, b.pages, b.marks + [Text(b.pages, g.x, b.y, frags[|frags| - 1], font)])
  }

  /** The fragment loop only appends, one mark per fragment, and never loses a page. */
  lemma {:induction false} StreamExtends(c: Cursor, frags: seq<string>, font: Font, g: Geometry)
    ensures var r := Stream(c, frags, font, g);
      |r.marks| == |c.marks| + |frags| && r.marks[..|c.marks|] == c.marks && r.pages >= c.pages
    decreases |frags|
  {
    if |frags| > 0 {
      var p := Stream(c, frags[..|frags| - 1], font, g);
      StreamExtends(c, frags[..|frags| - 1], font, g);
      var r := Stream(c, frags, font, g);
      assert r.marks[..|p.marks|] == p.marks;
      assert r.marks[..|c.marks|] == p.marks[..|c.marks|];
    }
  }

  /** Adding a Text mark at a checked position keeps the invariant. */
  lemma DrawTextWellFormed(c: Cursor, g: Geometry, t: string, font: Font)
    requires ValidGeometry(g) && WellFormed(c, g) && c.y <= g.limit
    ensures WellFormed(Draw(c, Text(c.pages, g.x, c.y, t, font)), g)
  {
  }

  /** Adding a decoration on the current page keeps the invariant. */
  lemma DrawDecorationWellFormed(c: Cursor, g: Geometry, m: Mark)
    requires WellFormed(c, g) && !m.Text? && m.page == c.pages
    ensures WellFormed(Draw(c, m), g)
  {
  }

  /**
   * A page-break test adds at most one page, and a second test right after
   * it never adds another: the cursor it leaves is not below the limit.
   */
  lemma BreakOnce(c: Cursor, g: Geometry)
    requires ValidGeometry(g)
    ensures BreakIfNeeded(c, g).pages <= c.pages + 1
    ensures BreakIfNeeded(c, g).y <= g.limit
    ensures BreakIfNeeded(BreakIfNeeded(c, g), g) == BreakIfNeeded(c, g)
  {
  }

  /** A decoration on the current page followed by a move down keeps the invariant. */
  lemma DecorateWellFormed(c: Cursor, g: Geometry, m: Mark, d: int)
    requires WellFormed(c, g) && !m.Text? && m.page == c.pages && d >= 0
    ensures WellFormed(Draw(c, m).(y := c.y + d), g)
  {
    DrawDecorationWellFormed(c, g, m);
  }

  lemma BreakWellFormed(c: Cursor, g: Geometry)
    requires ValidGeometry(g) && WellFormed(c, g)
    ensures WellFormed(BreakIfNeeded(c, g), g)
    ensures BreakIfNeeded(c, g).y <= g.limit
  {
  }

  lemma MoveDownWellFormed(c: Cursor, g: Geometry, d: int)
    requires WellFormed(c, g) && d >= 0
    ensures WellFormed(c.(y := c.y + d), g)
  {
  }

  /** The fragment loop keeps the invariant: every fragment lands inside the band. */
  lemma {:induction false} StreamWellFormed(c: Cursor, frags: seq<string>, font: Font, g: Geometry)
    requires ValidGeometry(g) && WellFormed(c, g)
    ensures WellFormed(Stream(c, frags, font, g), g)
    decreases |frags|
  {
    if |frags| > 0 {
      var prev := Stream(c, frags[..|frags| - 1], font, g);
      StreamWellFormed(c, frags[..|frags| - 1], font, g);
      var b := BreakIfNeeded(prev, g);
      BreakWellFormed(prev, g);
      DrawTextWellFormed(b, g, frags[|frags| - 1], font);
      MoveDownWellFormed(Draw(b, Text(b.pages, g.x, b.y, frags[|frags| - 1], font)), g, g.lineHeight);
    }
  }

  /** The fragment loop draws exactly the fragments, in order. */
  lemma {:induction false} StreamTexts(c: Cursor, frags: seq<string>, font: Font, g: Geometry)
    ensures Texts(Stream(c, frags, font, g).marks) == Texts(c.marks) + frags
    decreases |frags|
  {
    if |frags| > 0 {
      StreamTexts(c, frags[..|frags| - 1], font, g);
      StreamTextsStep(c, frags, font, g);
    }
  }

  /** The last fragment adds its own text to what the earlier ones drew. */
  lemma StreamTextsStep(c: Cursor, frags: seq<string>, font: Font, g: Geometry)
    requires |frags| > 0
    requires Texts(Stream(c, frags[..|frags| - 1], font, g).marks) == Texts(c.marks) + frags[..|frags| - 1]
    ensures Texts(Stream(c, frags, font, g).marks) == Texts(c.marks) + frags
  {
    var pre := frags[..|frags| - 1];
    var last := frags[|frags| - 1];
    var b := BreakIfNeeded(Stream(c, pre, font, g), g);
    var m := Text(b.pages, g.x, b.y, last, font);
    TextsSnoc(b.marks, m);
    SnocAssoc(Texts(c.marks), frags);
  }

  /** `(a + s[..n-1]) + [s[n-1]] == a + s` for a non-empty `s`. */
  lemma SnocAssoc<T>(a: seq<T>, s: seq<T>)
    requires |s| > 0
    ensures (a + s[..|s| - 1]) + [s[|s| - 1]] == a + s
  {
    assert s == s[..|s| - 1] + [s[|s| - 1]];
  }

  /** When the fragment loop added no page, it moved the cursor down by exactly one line per fragment. */
  lemma {:induction false} StreamAdvance(c: Cursor, frags: seq<string>, font: Font, g: Geometry)
    ensures var r := Stream(c, frags, font, g);
      r.pages == c.pages ==> r.y == c.y + |frags| * g.lineHeight
    decreases |frags|
  {
    if |frags| > 0 {
      var n := |frags|;
      var prev := Stream(c, frags[..n - 1], font, g);
      StreamAdvance(c, frags[..n - 1], font, g);
      StreamExtends(c, frags[..n - 1], font, g);
      if Stream(c, frags, font, g).pages == c.pages {
        assert prev.pages == c.pages;
        assert prev.y == c.y + (n - 1) * g.lineHeight;
        assert (n - 1) * g.lineHeight + g.lineHeight == n * g.lineHeight;
      }
    }
  }

  /** The last fragment drawn sits where the cursor was after the check, one line above the new cursor. */
  lemma StreamLast(c: Cursor, frags: seq<string>, font: Font, g: Geometry)
    requires |frags| > 0
    ensures var r := Stream(c, frags, font, g);
      var m := r.marks[|r.marks| - 1];
      m.Text? && m.page == r.pages && m.y == r.y - g.lineHeight
  {
  }

  /**
   * Consecutive fragments either sit one line apart on the same page, or the
   * second one starts a new page at the top margin.
   */
  lemma {:induction false} StreamSpacing(c: Cursor, frags: seq<string>, font: Font, g: Geometry, k: nat)
    requires 0 < k < |frags|
    ensures var r := Stream(c, frags, font, g);
      && |r.marks| == |c.marks| + |frags|
      && var m0 := r.marks[|c.marks| + k - 1];
      var m1 := r.marks[|c.marks| + k];
      || (m1.page == m0.page && m1.y == m0.y + g.lineHeight)
      || (m1.page == m0.page + 1 && m1.y == g.top)
    decreases |frags|
  {
    var pre := frags[..|frags| - 1];
    var r := Stream(c, frags, font, g);
    var p := Stream(c, pre, font, g);
    StreamExtends(c, pre, font, g);
    StreamExtends(c, frags, font, g);
    assert r.marks[..|p.marks|] == p.marks;
    if k < |frags| - 1 {
      StreamSpacing(c, pre, font, g, k);
      assert r.marks[|c.marks| + k - 1] == p.marks[|c.marks| + k - 1];
      assert r.marks[|c.marks| + k] == p.marks[|c.marks| + k];
    } else {
      StreamLast(c, pre, font, g);
      assert r.marks[|c.marks| + k - 1] == p.marks[|p.marks| - 1];
    }
  }

  /**
   * The jsPDF document as the generators use it: pages are only ever added
   * at the end and become current; drawing calls append to the mark list.
   */
  class Canvas {
    var pages: nat
    var marks: seq<Mark>

    /** `new jsPDF(...)`: one empty page. */
    constructor ()
      ensures pages == 1 && marks == []
    {
      pages := 1;
      marks := [];
    }

    /** The generator state with the given cursor position. */
    function At(y: int): Cursor
      reads this
    {
      Cursor(y, pages, marks)
    }

    /** `doc.addPage()` */
    method AddPage()
      modifies this
      ensures pages == old(pages) + 1 && marks == old(marks)
    {
      pages := pages + 1;
    }

    /** `doc.text(text, x, y)` with the current font. */
    method DrawText(text: string, x: int, y: int, font: Font)
      modifies this
      ensures pages == old(pages)
      ensures marks == old(marks) + [Text(pages, x, y, text, font)]
    {
      marks := marks + [Text(pages, x, y, text, font)];
    }

    /** `doc.line(...)`, a horizontal rule at height `y`; its extent is not modelled. */
    method DrawRule(y: int)
      modifies this
      ensures pages == old(pages)
      ensures marks == old(marks) + [Rule(pages, y)]
    {
      marks := marks + [Rule(pages, y)];
    }

    /** `doc.rect(..., 'F')`, a filled band starting at height `y`; its horizontal extent is not modelled. */
    method DrawFill(y: int, height: int)
      modifies this
      ensures pages == old(pages)
      ensures marks == old(marks) + [Fill(pages, y, height)]
    {
      marks := marks + [Fill(pages, y, height)];
    }
  }

  /**
   * `splitLines.forEach(...)` in every generator: the fragment loop run on
   * the document, which ends in the state `Stream` describes.
   */
  method StreamFragments(doc: Canvas, y0: int, frags: seq<string>, font: Font, g: Geometry) returns (y: int)
    modifies doc
    ensures doc.At(y) == Stream(old(doc.At(y0)), frags, font, g)
  {
    y := y0;
    var i := 0;
    while i < |frags|
      invariant 0 <= i <= |frags|
      invariant doc.At(y) == Stream(old(doc.At(y0)), frags[..i], font, g)
    {
      assert frags[..i + 1][..i] == frags[..i];
      if y > g.limit {
        doc.AddPage();
        y := g.top;
      }
      doc.DrawText(frags[i], g.x, y, font);
      y := y + g.lineHeight;
      i := i + 1;
    }
    assert frags[..i] == frags;
  }
}
