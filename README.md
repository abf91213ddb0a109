# resume-app in Dafny

This project models the deterministic core of resume-app. The app is a React front end with a Cloudflare Worker behind it. A user pastes a job description. The worker picks one of the user's stored plain-text resumes, has a language model tailor it, and writes a cover letter. The front end scores and analyses the result and renders resumes and letters to PDF.

The model covers four parts of the app:

- **The text-to-page flow of the PDF generators.**
  - These are `generatePDF` and its two wrappers (src/utils/pdfGenerator.js) and the Classic, Modern and Executive templates (src/utils/pdfTemplates.js).
  - A jsPDF document becomes a `Layout.Canvas` holding a page count and an append-only list of draw records (`Mark`).
  - The `y` cursor is an integer in tenths of a millimetre (5.5 mm is 55). Font sizes are in tenths of a point. The page size is a parameter (`Layout.A4` is 210 × 297 mm).
  - `doc.splitTextToSize` is an uninterpreted function `wrap`.
  - Each generator is imperative. A method walks the lines and the fragments with loops on the canvas. It is proved to end in the state of a specification function (`Render`, built from one step per line). The page invariants, the spacing and the text drawn are proved as lemmas about that function.
- **The string normalisers.**
  - `cleanText` in the worker (module `Markdown`).
  - `formatResumeForATS`, `cleanCoverLetter` and `preprocessResumeForTemplate` in the results view.
  - The two file-name prettifiers of the resume footer and the resume selector.
  - The few regular expressions involved are written out as string functions.
- **The request logic.**
  - The worker's routing, listing, download and bucket report, and the POST validation chain up to and after the language-model call. The bucket is a value: its listing and a key-to-content map.
  - In src/utils/api.js: the first-match-wins skeleton of `extractJobDetails`, the request body, and the branches on the worker's answer. The patterns themselves are abstract.
- **The scoring and classification heuristics.**
  - The match score and its bands.
  - The job-description analysis: years, skills, seniority, job type and complexity.
  - The progress bar's stage lookup and its component state.
  - The step indicator.

`Math.round((wordCount / 10 + requirementCount * 5) / 2)` in the job analysis is modelled in integer arithmetic as the nearest integer to `(words + 50·requirements) / 20`, halves up. This is exact. A tie needs `words` to be a multiple of 10, and then `wordCount / 10` is an integer, which floating point represents exactly. Away from a tie the value is at least 1/20 from one, far more than the floating-point error at any realistic word count.

JavaScript string primitives are modelled once in `JsText` and used everywhere: `trim`, ASCII `toUpperCase`/`toLowerCase`, `includes`, `indexOf`, `replace`, `split`, `join` and `String(n)`. A Dafny `char` stands for one UTF-16 code unit of the source.

Some behaviour of the code differs from what its names or comments suggest. The model follows the code in each case, and a lemma exhibits the behaviour:

- **Inherited template ids.** `TEMPLATES[templateId]` is a plain-object lookup. An id such as `constructor` finds an inherited `Object.prototype` member, so `!template` is false. The call `template.generator(...)` then throws a TypeError inside the executor, so the promise rejects with that TypeError instead of with `Template "<id>" not found` (`PdfTemplates.InheritedKeyIsNotNotFound`). The level-colour table of the job analysis is looked up the same way: `colors["constructor"] || colors.mid` yields the inherited member, not the `mid` colours (`SmartAnalysis.UnknownLevelIsMid`).
- **`cleanText` can leave markdown behind.**
  - Each pass of `cleanText` removes what it targets from the text it is given. Later passes can bring such text back.
  - Deleting `## ` can join a new `## ` (`Markdown.HeaderMarkCanReappear`).
  - The link pass runs after the `__` pass, so `_[_](u)` becomes `__` (`Markdown.UnderscoresCanSurvive`).
  - The guarantees that hold of the final output are stated in `Markdown.CleanTextSpec`: no `*`, trimmed, no longer than the input, no new characters.
- **A blank first match hides later patterns.** In `extractJobDetails` a field is `''` when no pattern matches. It is also `''` when the first pattern that matches captures only whitespace, and the later patterns are then never tried (`Api.FieldSpec`).
- **The client's fallback never fires against this worker.** A successful worker reply always carries `jobDetails: jobDetails || {}` (WORKER_UPDATE.js:508). So the client's fallback `data.jobDetails || jobDetails` (src/utils/api.js:107) receives an object and never uses the local details. `Api.HandleSpec` states the client's rule for any server. `Api.WorkerSeesRequest` shows that this worker echoes the details the client sent.
- **`null` is a template id.** The default `templateId = 'modern'` applies only to `undefined`. An explicit `null` is looked up as the key `"null"`, so the promise rejects with `Template "null" not found`. In the model `None` is `undefined` and `null` is `Some("null")` (`PdfTemplates.LookupSpec`).
- **Inner `.pdf` selections are always refused.** `.replace('.pdf', '.txt')` rewrites the first `.pdf`. A selection such as `cv.pdf.pdf` therefore still ends in `.pdf` afterwards and is always refused with 400 (`Worker.InnerPdfAlwaysRefused`).

## Model

| member | source | states |
|---|---|---|
| JsText.UpperSpec | src/utils/pdfGenerator.js:68 | `toUpperCase` leaves an all-caps string, changes no character that is not a lower-case letter, is idempotent, and lower-casing afterwards undoes it |
| JsText.LowerSpec | src/components/MatchScore.jsx:8 | `toLowerCase` leaves no upper-case letter, changes no other character, is idempotent, and upper-casing afterwards undoes it |
| JsText.ContainsLower | src/components/MatchScore.jsx:8-14 | a keyword that occurs in a text still occurs once both are lower-cased, so the case-insensitive test never misses an exact match |
| JsText.AllCapsIffUpperUnchanged | src/utils/pdfGenerator.js:68 | `t === t.toUpperCase()` holds exactly when `t` has no lower-case letter |
| JsText.TrimSpec | src/utils/pdfGenerator.js:67 | the trimmed text is no longer than the line and neither starts nor ends with whitespace |
| JsText.TrimIsSlice | src/utils/pdfGenerator.js:67 | `trim` returns a slice of its input; only whitespace lies outside that slice |
| JsText.TrimEmptyIffAllSpace | src/utils/pdfGenerator.js:61 | `line.trim() === ''` exactly for whitespace-only lines |
| JsText.TrimIdempotent | src/utils/pdfTemplates.js:42 | trimming twice is trimming once |
| JsText.FindFrom | WORKER_UPDATE.js:285 | the result is the first occurrence at or after the start; None means there is no occurrence from there on |
| JsText.ContainsIff | src/components/MatchScore.jsx:14 | `includes` holds exactly when the pattern occurs at some position |
| JsText.ReplaceFirstAt | WORKER_UPDATE.js:285 | a string-pattern `replace` rewrites the first occurrence of the pattern and nothing after it; a string without the pattern is returned unchanged |
| JsText.ReplaceAllOneChar | WORKER_UPDATE.js:491 | `.replace(/\*/g, '')` deletes exactly the `*` characters |
| JsText.RemovePairThenChar | WORKER_UPDATE.js:490-491 | deleting `**` pairs and then every `*` is the same as deleting every `*` |
| JsText.Split | src/utils/pdfGenerator.js:51 | `split` gives at least one part, and no part holds the separator |
| JsText.JoinSplit | src/utils/pdfGenerator.js:51 | joining the parts of `split(c)` with `c` gives the input back, so no text is lost between the lines |
| JsText.JoinNotContaining | src/components/OriginalResumesFooter.jsx:23 | parts without `c` joined by a separator without `c` hold no `c` |
| JsText.NatToString | src/utils/api.js:95 | `String(n)` is a non-empty run of decimal digits without a leading zero |
| JsText.ParseNatToString | src/utils/api.js:95 | reading the digits of `String(n)` back gives `n` |
| Layout.BreakOnce | src/utils/pdfGenerator.js:55-58 | the page-break test adds at most one page, always leaves the cursor at or above the limit, and a second test right after it changes nothing |
| Layout.BreakWellFormed | src/utils/pdfGenerator.js:92-95 | after the page-break test the cursor is not below the limit, and the page invariant still holds |
| Layout.StreamExtends | src/utils/pdfGenerator.js:90-100 | the fragment loop appends exactly one mark per fragment, keeps the earlier marks and never loses a page |
| Layout.StreamWellFormed | src/utils/pdfGenerator.js:90-100 | the fragment loop keeps the invariant: every text at the margin `x`, between the top margin and the break limit, on an existing page, pages in order |
| Layout.StreamTexts | src/utils/pdfGenerator.js:90-100 | the fragment loop draws exactly the fragments, in order |
| Layout.StreamAdvance | src/utils/pdfGenerator.js:98-99 | when no page was added, the cursor moved down one line height per fragment |
| Layout.StreamSpacing | src/utils/pdfGenerator.js:92-99 | consecutive fragments sit one line apart on the same page, or the second starts the next page at the top margin |
| Layout.Canvas.constructor | src/utils/pdfGenerator.js:17-21 | a new document has one page and nothing drawn |
| Layout.Canvas.AddPage | src/utils/pdfGenerator.js:56 | `addPage` adds one page and keeps the marks |
| Layout.Canvas.DrawText | src/utils/pdfGenerator.js:98 | `text` appends one text record on the current page |
| Layout.Canvas.DrawRule | src/utils/pdfTemplates.js:89 | `line` appends one rule on the current page |
| Layout.Canvas.DrawFill | src/utils/pdfTemplates.js:257 | a filled `rect` appends one band on the current page |
| Layout.StreamFragments | src/utils/pdfGenerator.js:90-100 | the `splitLines.forEach` loop on the document ends in the state the fragment-loop function describes |
| PdfGenerator.NameOnlyFirstLine | src/utils/pdfGenerator.js:73-78 | a line gets name styling exactly when it is raw line 0 and its trimmed text is non-empty, shorter than 50 and starts with an ASCII capital |
| PdfGenerator.Classify | src/utils/pdfGenerator.js:67-81 | definition of the line kinds; properties in `PdfGenerator.ClassifyTrimmed`, `PdfGenerator.HeadingIff`, `PdfGenerator.NameOnlyFirstLine` and `PdfGenerator.ClassifyHeading` |
| PdfGenerator.PlanOf | src/utils/pdfGenerator.js:59-105 | definition of what one line does; properties in `PdfGenerator.BlankPlan` and `PdfGenerator.HeadingGapPlan` |
| PdfGenerator.ClassifyTrimmed | src/utils/pdfGenerator.js:67-73 | the classification depends only on the trimmed text and the index |
| PdfGenerator.HeadingIff | src/utils/pdfGenerator.js:67-70 | a heading is a text equal to its upper-case form with 0 < length < 60 |
| PdfGenerator.DigitsAreHeading | src/utils/pdfGenerator.js:67-70 | with no letter test and no minimum length, a line `2024` is a heading |
| PdfGenerator.UpperCasedIsHeading | src/utils/pdfGenerator.js:67-70 | any short trimmed text past line 0, once upper-cased, is a heading |
| PdfGenerator.ClassifyHeading | src/utils/pdfGenerator.js:76-81 | past line 0 a non-blank line passing the heading test is styled as a heading |
| PdfGenerator.BlankPlan | src/utils/pdfGenerator.js:61-64 | a line is blank exactly when it is whitespace only, and a blank line has no fragments |
| PdfGenerator.HeadingGapPlan | src/utils/pdfGenerator.js:76-105 | the 2 mm heading gap follows exactly the lines whose trimmed text passes the heading test, names included; the font is the name font, else the heading font, else the body font |
| PdfGenerator.BlankLine | src/utils/pdfGenerator.js:55-64 | a blank line draws nothing and moves the cursor 3 mm below where the page-break test left it |
| PdfGenerator.LineAdvance | src/utils/pdfGenerator.js:90-105 | without a page break a line moves the cursor 5.5 mm per fragment plus 2 mm for a heading |
| PdfGenerator.LineStepWellFormed | src/utils/pdfGenerator.js:53-106 | one line keeps the page invariant |
| PdfGenerator.LineStepTexts | src/utils/pdfGenerator.js:88-100 | one line appends the marks of its fragments and nothing else, and never loses a page |
| PdfGenerator.Render | src/utils/pdfGenerator.js:53-106 | definition of the state after the first lines; properties in `PdfGenerator.RenderWellFormed`, `PdfGenerator.RenderTexts` and `PdfGenerator.RenderMonotone` |
| PdfGenerator.Document | src/utils/pdfGenerator.js:16-106 | definition of the whole document; properties in `PdfGenerator.DocumentFacts` |
| PdfGenerator.RenderWellFormed | src/utils/pdfGenerator.js:53-106 | after any number of lines the page invariant holds for any valid geometry: every text at the column `x` between the top margin and the break limit (for `generatePDF`, x = 15 mm and 15 mm ≤ y ≤ height − 20 mm), every mark on an existing page, pages in order, at least one page |
| PdfGenerator.RenderTexts | src/utils/pdfGenerator.js:53-106 | the text drawn is exactly the fragments of the non-blank lines, in source order |
| PdfGenerator.RenderMonotone | src/utils/pdfGenerator.js:53-106 | later lines never change earlier marks, and the page count never decreases |
| PdfGenerator.DocumentFacts | src/utils/pdfGenerator.js:16-106 | the finished document draws exactly the fragments, in order, and on a page that is tall enough it keeps the page invariant |
| PdfGenerator.DrawLine | src/utils/pdfGenerator.js:53-106 | one run of the `forEach` body on the document ends in the state of one line step |
| PdfGenerator.DrawLines | src/utils/pdfGenerator.js:53-106 | the `forEach` over the lines of a fresh document ends in the rendered state of all lines |
| PdfGenerator.GeneratePdf | src/utils/pdfGenerator.js:16-114 | `generatePDF` produces the rendered document and saves it as `<filename>_<timestamp>.pdf` |
| PdfGenerator.GenerateResumePdf | src/utils/pdfGenerator.js:120-122 | the resume is always saved under the base name `Tailored_Resume` |
| PdfGenerator.GenerateCoverLetterPdf | src/utils/pdfGenerator.js:128-130 | the cover letter is always saved under the base name `Cover_Letter` |
| PdfTemplates.HeaderIff | src/utils/pdfTemplates.js:49-50 | a header is a text equal to its upper-case form with 2 < length < 50 |
| PdfTemplates.InfoOfSpec | src/utils/pdfTemplates.js:42-51 | a line is blank exactly when whitespace only, only raw line 0 can be the name, and the text used is the trimmed line |
| PdfTemplates.ShortLineIsNoHeader | src/utils/pdfTemplates.js:49-50 | unlike the single-column generator, a 2-character line is never a header |
| PdfTemplates.BlankLine | src/utils/pdfTemplates.js:37-46 | in every template a blank line draws nothing and moves the cursor by SECTION_SPACING / 2 (4, 3 or 3.5 mm) after the page-break test |
| PdfTemplates.ClassicAfterWellFormed | src/utils/pdfTemplates.js:86-95 | the Classic underline and spacing keep the page invariant |
| PdfTemplates.ModernAfterWellFormed | src/utils/pdfTemplates.js:179-193 | the Modern accent rule, name rule and spacing keep the page invariant |
| PdfTemplates.ExecutiveWellFormed | src/utils/pdfTemplates.js:254-292 | the Executive banner, header band and body fragments keep the page invariant |
| PdfTemplates.Step | src/utils/pdfTemplates.js:35-293 | definition of one line of a template; properties in `PdfTemplates.StepWellFormed`, `PdfTemplates.StepTexts` and the three spacing lemmas |
| PdfTemplates.Render | src/utils/pdfTemplates.js:33-294 | definition of the state after the first lines; properties in `PdfTemplates.RenderWellFormed`, `PdfTemplates.RenderMonotone`, `PdfTemplates.RenderTexts` and `PdfTemplates.ExecutiveRenderTexts` |
| PdfTemplates.Document | src/utils/pdfTemplates.js:233-294 | definition of a whole template document; properties in `PdfTemplates.GeneratedSpec` and `PdfTemplates.ExecutiveDocumentTexts` |
| PdfTemplates.StepWellFormed | src/utils/pdfTemplates.js:35-96 | one line of any template keeps the invariant: texts at x = MARGIN with MARGIN ≤ y ≤ height − MARGIN − 10 |
| PdfTemplates.TextsAfter | src/utils/pdfTemplates.js:86-95 | the rules and spacing after a Classic or Modern line add no text, keep the marks and stay on the page |
| PdfTemplates.ExecutiveTexts | src/utils/pdfTemplates.js:254-292 | an Executive name on the first page, or a header, is drawn unwrapped; every other line draws its wrapped body fragments |
| PdfTemplates.WrappedTexts | src/utils/pdfTemplates.js:167-177 | a Classic or Modern line draws exactly its wrapped fragments and only appends |
| PdfTemplates.StepTexts | src/utils/pdfTemplates.js:237-293 | one line of any template draws exactly its text (wrapped fragments, or the Executive name or header unwrapped), only appends, and never loses a page |
| PdfTemplates.ClassicSpacing | src/utils/pdfTemplates.js:54-95 | Classic moves 6 mm per fragment, then 4 mm for a header or 2 mm for a name that is not one; the underline is drawn even when name styling wins |
| PdfTemplates.ModernSpacing | src/utils/pdfTemplates.js:180-193 | Modern adds 2 mm after a header, 4 mm after a name, and 6 mm for a line that is both |
| PdfTemplates.ExecutiveSpacing | src/utils/pdfTemplates.js:254-292 | Executive moves 12 mm for the first-page name (banner plus text), 7.8 mm for a header, and 5.8 mm per fragment for body lines |
| PdfTemplates.RenderWellFormed | src/utils/pdfTemplates.js:237-294 | the page invariant holds over the whole document of each template |
| PdfTemplates.RenderMonotone | src/utils/pdfTemplates.js:35-96 | earlier lines' marks are never changed, and the page count never decreases |
| PdfTemplates.RenderTexts | src/utils/pdfTemplates.js:135-194 | Classic and Modern draw exactly the wrapped fragments of the non-blank lines, in source order |
| PdfTemplates.ExecutiveRenderTexts | src/utils/pdfTemplates.js:237-292 | on a page tall enough for one line, Executive draws the name line and the headers unwrapped and every other non-blank line wrapped in the body font, in source order |
| PdfTemplates.ExecutiveDocumentTexts | src/utils/pdfTemplates.js:235-292 | on a page tall enough for one line, the text of a whole Executive document is that per-line text over the `\n`-separated lines of the content |
| PdfTemplates.GeneratedSpec | src/utils/pdfTemplates.js:98-104 | with `asBlob` the document is returned; otherwise it is saved as `<filename>_<Classic/Modern/Executive>_<timestamp>.pdf`; either way it holds the rendered marks, which on a tall-enough page lie inside the band |
| PdfTemplates.BreakIfNeededOn | src/utils/pdfTemplates.js:238-242 | the page-break test on the document matches the cursor-level one |
| PdfTemplates.WrappedLine | src/utils/pdfTemplates.js:137-194 | the body of a Classic or Modern `forEach` ends in the state of one template step |
| PdfTemplates.ClassicAfterOn | src/utils/pdfTemplates.js:86-95 | the underline and spacing code on the document matches the Classic after-step |
| PdfTemplates.ModernAfterOn | src/utils/pdfTemplates.js:179-193 | the accent and name-rule code on the document matches the Modern after-step |
| PdfTemplates.ExecutiveLine | src/utils/pdfTemplates.js:237-293 | the Executive `forEach` body ends in the state of one step, and `isFirstPage` holds exactly while there is one page |
| PdfTemplates.ExecutiveFragments | src/utils/pdfTemplates.js:281-292 | the Executive fragment loop matches the fragment-loop function and clears `isFirstPage` exactly when it adds a page |
| PdfTemplates.DrawLine | src/utils/pdfTemplates.js:237-293 | one iteration of any template's `forEach` extends the rendered state by one line |
| PdfTemplates.DrawLines | src/utils/pdfTemplates.js:233-294 | the `forEach` of a template over a fresh document ends in the rendered state of all lines; `isFirstPage` becomes false on the first added page and never resets |
| PdfTemplates.Generate | src/utils/pdfTemplates.js:211-303 | a generator returns the blob or saves under the template's name, as `Generated` describes |
| PdfTemplates.TemplatesConsistent | src/utils/pdfTemplates.js:308-348 | the table has exactly the keys classic, modern and executive; each entry's `id` equals its key and names the generator of the same name |
| PdfTemplates.Lookup | src/utils/pdfTemplates.js:353-364 | definition of the template lookup; properties in `PdfTemplates.LookupSpec` and `PdfTemplates.InheritedKeyIsNotNotFound` |
| PdfTemplates.LookupSpec | src/utils/pdfTemplates.js:353-362 | the lookup succeeds exactly for the three ids, picks that entry's generator, defaults to Modern when no id is given, and otherwise fails with `Template "<id>" not found` except for inherited keys |
| PdfTemplates.InheritedKeyIsNotNotFound | src/utils/pdfTemplates.js:358-364 | the id `constructor` passes the `!template` test and fails when the generator is called, not with the "not found" message |
| PdfTemplates.GenerateWithTemplate | src/utils/pdfTemplates.js:353-376 | `generateWithTemplate` rejects with the lookup's error, or resolves to the chosen generator's result |
| Markdown.RemoveHeaderMarksShrinks | WORKER_UPDATE.js:492 | deleting `##` plus one whitespace character never lengthens the text or adds a character |
| Markdown.StripLinksShrinks | WORKER_UPDATE.js:494 | replacing links by their text never lengthens the text or adds a character |
| Markdown.UnmarkedShrinks | WORKER_UPDATE.js:489-494 | the replace chain leaves no `*` and never lengthens the text or adds a character |
| Markdown.CleanText | WORKER_UPDATE.js:487-496 | definition of `cleanText`; properties in `Markdown.CleanTextSpec` and the per-pass lemmas |
| Markdown.CleanTextSpec | WORKER_UPDATE.js:487-496 | `cleanText` gives `''` for a falsy input; its output has no `*`, no whitespace at either end, is no longer than the input and holds only characters of the input |
| Markdown.DeletePairsLeavesNoPair | WORKER_UPDATE.js:493 | after `.replace(/__/g, '')` no `__` is left |
| Markdown.HeaderMarkCanReappear | WORKER_UPDATE.js:492 | the `## ` pass can create a new `## `: `### # ` becomes `## ` |
| Markdown.LinkKept | WORKER_UPDATE.js:494 | a link `[t](u)` with a non-empty text and URL is reduced to `t` |
| Markdown.NoLinkUnchanged | WORKER_UPDATE.js:494 | text without `[` passes the link pass unchanged |
| Markdown.RemoveCharAbsent | WORKER_UPDATE.js:491 | text without `*` passes the `*` pass unchanged |
| Markdown.RemoveHeaderMarksAbsent | WORKER_UPDATE.js:492 | text without `#` passes the `## ` pass unchanged |
| Markdown.DeletePairsAbsent | WORKER_UPDATE.js:493 | text without `_` passes the `__` pass unchanged |
| Markdown.UnderscoresCanSurvive | WORKER_UPDATE.js:493-494 | because the link pass runs after the `__` pass, `cleanText` turns `_[_](u)` into `__` |
| Worker.ListingSound | WORKER_UPDATE.js:16-23 | every listing entry comes from a bucket object ending in `.txt` or `.pdf`, keeps its size and upload time, and is typed `pdf` exactly when its name ends in `.pdf` |
| Worker.ListingComplete | WORKER_UPDATE.js:16-17 | every object ending in `.txt` or `.pdf` is listed |
| Worker.DebugCounts | WORKER_UPDATE.js:120-121 | the `.txt` and `.pdf` counts of the report add up to the listing's length |
| Worker.DownloadCaseDiffers | WORKER_UPDATE.js:82-83 | the download type ignores case (`cv.PDF` is a PDF), but the listing filter does not list it |
| Worker.RoutingSpec | WORKER_UPDATE.js:11-187 | the three paths are routed whatever the method; otherwise OPTIONS gets the preflight, POST is generated and any other method gets 405; the download name is the path after `/download/` |
| Worker.TxtKeysSpec | WORKER_UPDATE.js:251-253 | the POST keys are exactly the keys ending in `.txt`; their count equals the report's `.txt` count |
| Worker.FetchAllSpec | WORKER_UPDATE.js:327-336 | the resumes fetched are keys of the list with their bucket contents, and every key that loads is among them |
| Worker.ValidationOrder | WORKER_UPDATE.js:193-274 | a missing or short description gives 400 whatever else holds; then an empty bucket gives 404; then no `.txt` key gives 404 |
| Worker.SelectionSpec | WORKER_UPDATE.js:279-324 | a selected `.pdf` is refused with 400 exactly when its `.txt` name is not a `.txt` key; otherwise the name is fetched, giving that one resume or 404 |
| Worker.InnerPdfAlwaysRefused | WORKER_UPDATE.js:283-303 | a selection with an earlier `.pdf`, such as `cv.pdf.pdf`, still ends in `.pdf` after `.replace`, so it is always refused with 400 |
| Worker.RouteOf | WORKER_UPDATE.js:11-187 | definition of the route a path and method select; properties in `Worker.RoutingSpec` |
| Worker.Gather | WORKER_UPDATE.js:279-336 | definition of the resumes a request reads; properties in `Worker.SelectionSpec`, `Worker.FetchAllSpec` and `Worker.InnerPdfAlwaysRefused` |
| Worker.Post | WORKER_UPDATE.js:189-534 | definition of the POST reply; properties in `Worker.ValidationOrder`, `Worker.SelectionSpec` and `Worker.SuccessSpec` |
| Worker.Respond | WORKER_UPDATE.js:5-535 | definition of the reply to any request; properties in `Worker.RoutingSpec`, and `Worker.Fetch` is proved to return it |
| Worker.SuccessSpec | WORKER_UPDATE.js:499-510 | a tailored reply comes only from a valid request on a bucket with `.txt` keys; it lists those keys, counts one resume for a selection and at most one per key otherwise, has no `*` in its texts, and echoes the request's job details, or `{}` when none were sent |
| Worker.CorpusSingle | WORKER_UPDATE.js:356-358 | one resume gives `RESUME 1 (<name>):\n<content>` with no separator |
| Worker.CorpusCons | WORKER_UPDATE.js:356-358 | the entries appear in list order, numbered consecutively, joined by `\n\n---\n\n` |
| Worker.HandlePost | WORKER_UPDATE.js:189-534 | the POST branch, with its early returns and its reassignments of `resumeToFetch` and `resumes`, gives the reply of the validation chain |
| Worker.Fetch | WORKER_UPDATE.js:5-535 | `fetch` gives the reply of the routing function; the listing's `count` is its length |
| ResultsDisplay.FormatResumeForAts | src/components/ResultsDisplay.jsx:16-19 | definition of `formatResumeForATS`; properties in `ResultsDisplay.FormatResumeForAtsSpec` and `ResultsDisplay.FormatResumeForAtsIdempotent` |
| ResultsDisplay.FormatResumeForAtsSpec | src/components/ResultsDisplay.jsx:16-19 | the length is kept, every `•`, `●` and `▪` becomes `-`, no such glyph remains, and every other character is unchanged |
| ResultsDisplay.FormatResumeForAtsIdempotent | src/components/ResultsDisplay.jsx:16-19 | normalising twice is normalising once |
| ResultsDisplay.FormatKeepsOccurrence | src/components/ResultsDisplay.jsx:40 | text without a bullet, such as a section marker, is found at the same place after the bullets are normalised |
| ResultsDisplay.RemovePlaceholders | src/components/ResultsDisplay.jsx:13 | definition of the placeholder pass; properties in `ResultsDisplay.PlaceholderRemoved`, `ResultsDisplay.PlainPrefixKept`, `ResultsDisplay.RemovePlaceholdersIdempotent` and `ResultsDisplay.RemovePlaceholdersShrinks` |
| ResultsDisplay.PlaceholderRemoved | src/components/ResultsDisplay.jsx:13 | a one-line `[...]` span is deleted with its brackets |
| ResultsDisplay.PlainPrefixKept | src/components/ResultsDisplay.jsx:13 | text before the first `[` is kept as it is |
| ResultsDisplay.RemovePlaceholdersIdempotent | src/components/ResultsDisplay.jsx:13 | no one-line placeholder survives: a second removal changes nothing |
| ResultsDisplay.RemovePlaceholdersShrinks | src/components/ResultsDisplay.jsx:13 | removing placeholders never lengthens the text or adds a character |
| ResultsDisplay.CollapseShrinks | src/components/ResultsDisplay.jsx:13 | collapsing `\n\n\n` never lengthens the text or adds a character |
| ResultsDisplay.CollapseIsOnePass | src/components/ResultsDisplay.jsx:13 | the collapse is one left-to-right pass: four newlines become three |
| ResultsDisplay.CleanCoverLetter | src/components/ResultsDisplay.jsx:11-14 | definition of `cleanCoverLetter`; properties in `ResultsDisplay.CleanCoverLetterShrinks` |
| ResultsDisplay.CleanCoverLetterShrinks | src/components/ResultsDisplay.jsx:11-14 | the cleaned letter is never longer than the letter and brings in no new character |
| ResultsDisplay.FindHeading | src/components/ResultsDisplay.jsx:28-29 | the match of `^SECTIONs?$\n` (flags `im`) is the first line start from which the heading runs to a newline; None means no line matches |
| ResultsDisplay.RepairSection | src/components/ResultsDisplay.jsx:26-30 | definition of one section repair; properties in `ResultsDisplay.RepairSectionSpec` and `ResultsDisplay.RepairKeepsMarker` |
| ResultsDisplay.RepairSectionSpec | src/components/ResultsDisplay.jsx:26-30 | a text already holding `SECTION:` is unchanged, and after the repair `SECTION:` is present exactly when it was before or a heading line matched |
| ResultsDisplay.RepairKeepsMarker | src/components/ResultsDisplay.jsx:26-30 | repairing one section keeps a marker of another section that was present |
| ResultsDisplay.RepairAllKeepsMarker | src/components/ResultsDisplay.jsx:25-37 | markers present before the loop over the sections are present after it |
| ResultsDisplay.AllMarkedUnchanged | src/components/ResultsDisplay.jsx:25-37 | when every marker is present the loop changes nothing |
| ResultsDisplay.Preprocess | src/components/ResultsDisplay.jsx:21-38 | definition of `preprocessResumeForTemplate`; properties in `ResultsDisplay.PreprocessSpec`, and `ResultsDisplay.PreprocessResumeForTemplate` is proved to return it |
| ResultsDisplay.PreprocessSpec | src/components/ResultsDisplay.jsx:21-38 | every section marker in the input is in the output, and an input holding all five markers is returned unchanged |
| ResultsDisplay.PreprocessResumeForTemplate | src/components/ResultsDisplay.jsx:21-38 | the `forEach` reassigning `processedText` computes the repair of the five sections in order |
| ResultsDisplay.FinalResumeKeepsMarkers | src/components/ResultsDisplay.jsx:40 | the resume shown keeps every marker of the tailored resume and holds no bullet glyph |
| OriginalResumesFooter.StripExtensionSpec | src/components/OriginalResumesFooter.jsx:20 | the result is a prefix of the name and what is removed is nothing or one 4-character `.txt`/`.pdf` in any case; `cv.txt.txt` keeps its inner `.txt` |
| OriginalResumesFooter.StripDateSuffixSpec | src/components/OriginalResumesFooter.jsx:21 | the result is a prefix of the name and what is removed is nothing or `_` with exactly eight digits; only the last of two stamps comes off, and a nine-digit stamp is kept |
| OriginalResumesFooter.FormatResumeName | src/components/OriginalResumesFooter.jsx:18-25 | definition of `formatResumeName`; properties in `OriginalResumesFooter.FormatResumeNameSpec` and `OriginalResumesFooter.StoredNameShown` |
| OriginalResumesFooter.FormatResumeNameSpec | src/components/OriginalResumesFooter.jsx:18-25 | the display name never holds `_`; a stem without `_` is shown as it is, and otherwise the parts after the first are joined by spaces |
| OriginalResumesFooter.StoredNameStem | src/components/OriginalResumesFooter.jsx:20-21 | the stem of `<stem>_<8 digits>.txt` is `<stem>` |
| OriginalResumesFooter.StoredNameShown | src/components/OriginalResumesFooter.jsx:18-25 | a stored name `<prefix>_<name>_<8 digits>.txt` is shown as `<name>` with its `_` turned into spaces |
| OriginalResumesFooter.UnderscoreSpacesSpec | src/components/OriginalResumesFooter.jsx:48 | `.replace(/\s+/g, '_')` leaves no whitespace and leaves a name without whitespace unchanged |
| OriginalResumesFooter.UnderscoreRun | src/components/OriginalResumesFooter.jsx:48 | each maximal whitespace run becomes a single `_`: a part without whitespace, a run, and a rest not starting with whitespace give the part, one `_`, and the rest converted |
| OriginalResumesFooter.PdfFilename | src/components/OriginalResumesFooter.jsx:46-47 | definition of the rendered file name; properties in `OriginalResumesFooter.DownloadSpec` and `OriginalResumesFooter.UnderscoreSpacesSpec` |
| OriginalResumesFooter.DownloadOf | src/components/OriginalResumesFooter.jsx:30-50 | definition of the download branch; properties in `OriginalResumesFooter.DownloadSpec` |
| OriginalResumesFooter.DownloadSpec | src/components/OriginalResumesFooter.jsx:30-50 | a file is saved as it is exactly when its lower-cased name ends in `.pdf`; a text file is rendered under a name that starts with `Original_` and holds no whitespace |
| ResumeSelector.CleanName | src/components/ResumeSelector.jsx:50-55 | definition of the label cleaner; properties in `ResumeSelector.CleanNameSpec`, `ResumeSelector.LabelsDiffer` and `ResumeSelector.TrailingUnderscore` |
| ResumeSelector.CleanNameSpec | src/components/ResumeSelector.jsx:50-55 | the label is non-empty for a non-empty name; with a non-empty tail it equals the footer's name; for a stem without `_` it is the full file name while the footer shows the stem |
| ResumeSelector.LabelsDiffer | src/components/ResumeSelector.jsx:50-55 | `name.txt` is labelled `name.txt` by the selector and `name` by the footer |
| ResumeSelector.TrailingUnderscore | src/components/ResumeSelector.jsx:50-55 | for a name ending in `_` the selector falls back to the full name, while the footer shows an empty name |
| ResumeSelector.ChoosingHighlightsOne | src/components/ResumeSelector.jsx:36-62 | choosing the automatic button highlights it and no resume; choosing a resume highlights that resume and not the automatic button |
| ResumeSelector.AtMostOneHighlighted | src/components/ResumeSelector.jsx:39-62 | with distinct file names at most one resume button is highlighted, and never together with the automatic button |
| SmartAnalysis.YearsRequired | src/components/SmartAnalysis.jsx:26-27 | definition of the years figure; properties in `SmartAnalysis.YearsFromSpec` and `SmartAnalysis.YearsExample` |
| SmartAnalysis.YearsFromSpec | src/components/SmartAnalysis.jsx:26-27 | a figure is found exactly when some position starts a digits-then-`year` match, and it is the figure of the leftmost such match |
| SmartAnalysis.YearsExample | src/components/SmartAnalysis.jsx:26-27 | `5+ years` reads 5 |
| SmartAnalysis.MatchWith | src/components/SmartAnalysis.jsx:31-32 | a match at a position is the keyword there, a whitespace/colon gap, then a group that starts at the first non-gap character and runs to the next `.` or the end, with no `.` inside; a match exists whenever the keyword is followed by at least two gap characters, or by a gap and then a character other than `.` |
| SmartAnalysis.Exec | src/components/SmartAnalysis.jsx:35-37 | `exec` from `lastIndex` returns the match at the leftmost position at or after `lastIndex` that has one, and none when no such position exists |
| SmartAnalysis.SplitSkillsSpec | src/components/SmartAnalysis.jsx:40 | the pieces of `split(/[,;]/)` hold no separator and only characters of the group |
| SmartAnalysis.KeepSkillsSpec | src/components/SmartAnalysis.jsx:41-42 | the kept pieces are trimmed, 3 to 49 characters long and free of `.`, `,` and `;` |
| SmartAnalysis.SkillListSpec | src/components/SmartAnalysis.jsx:39-42 | every skill taken from a captured group has that shape |
| SmartAnalysis.AddAll | src/components/SmartAnalysis.jsx:43 | adding a phrase's skills to the `Set` gives `AddSeq`: what was there, then each new skill once, in insertion order; the set stays duplicate-free and well-formed |
| SmartAnalysis.ScanPattern | src/components/SmartAnalysis.jsx:35-44 | the `exec` loop of one pattern adds, in order, the skills of every successive match of the pattern from the start of the text |
| SmartAnalysis.AddSeqSpec | src/components/SmartAnalysis.jsx:38-43 | `Set.add` keeps what was there as a prefix, holds exactly the old and new items, stays duplicate-free, and appends only items not already present |
| SmartAnalysis.AddSeqOrder | src/components/SmartAnalysis.jsx:38-43 | a `Set` iterates in insertion order: a new item listed earlier occurs in the input before every occurrence of a later one |
| SmartAnalysis.AddSeqAppend | src/components/SmartAnalysis.jsx:38-43 | adding two lists one after the other is adding their concatenation |
| SmartAnalysis.SkillsFromAreSkills | src/components/SmartAnalysis.jsx:35-42 | every skill split from a match is trimmed, 3 to 49 characters long, and holds no `.`, `,` or `;` |
| SmartAnalysis.DetectSkills | src/components/SmartAnalysis.jsx:30-45 | the skills are the first `min(8, n)` of the `n` distinct skills of both patterns' matches, in insertion order |
| SmartAnalysis.DetectedSkillsSpec | src/components/SmartAnalysis.jsx:30-45 | every skill shown was matched; a matched skill is left out only when eight are shown; skills are shown in the order of their first occurrence |
| SmartAnalysis.Seniority | src/components/SmartAnalysis.jsx:48-61 | definition of the seniority level; properties in `SmartAnalysis.FirstLevelNone`, `SmartAnalysis.FirstLevelFirst` and `SmartAnalysis.SeniorBeforeExecutive` |
| SmartAnalysis.FirstLevelNone | src/components/SmartAnalysis.jsx:55-61 | when no level has a keyword in the text, the default is kept |
| SmartAnalysis.FirstLevelFirst | src/components/SmartAnalysis.jsx:55-61 | the first level in table order with a keyword in the text wins |
| SmartAnalysis.ClassifyLoop | src/components/SmartAnalysis.jsx:55-61 | the `for…of` with `break` gives the first matching level or the default |
| SmartAnalysis.JobType | src/components/SmartAnalysis.jsx:64-76 | definition of the job type; properties in `SmartAnalysis.OfficeBasedIsHybrid` |
| SmartAnalysis.OfficeBasedIsHybrid | src/components/SmartAnalysis.jsx:64-76 | a description with `office-based` and no remote keyword is classed hybrid |
| SmartAnalysis.SeniorBeforeExecutive | src/components/SmartAnalysis.jsx:48-61 | a description containing `senior` is never classed executive |
| SmartAnalysis.WordCount | src/components/SmartAnalysis.jsx:79 | definition of the word count; properties in `SmartAnalysis.RunStartsBound` |
| SmartAnalysis.RunStartsBound | src/components/SmartAnalysis.jsx:79 | text without whitespace is one word, and there are no more whitespace runs than characters |
| SmartAnalysis.RequirementCount | src/components/SmartAnalysis.jsx:80 | definition of the requirement count; properties in `SmartAnalysis.RequirementsBound` |
| SmartAnalysis.RequirementsBound | src/components/SmartAnalysis.jsx:80 | the matches do not overlap and each is at least four characters long, so their count is at most a quarter of the text's length |
| SmartAnalysis.Complexity | src/components/SmartAnalysis.jsx:81 | the score is at most 100 |
| SmartAnalysis.ComplexitySpec | src/components/SmartAnalysis.jsx:81 | the score is the nearest integer to `(words + 50·requirements) / 20`, halves up, capped at 100; it reaches 100 exactly from 1990; it never falls when a count grows |
| SmartAnalysis.ComplexityLabel | src/components/SmartAnalysis.jsx:108-113 | definition of the complexity label; properties in `SmartAnalysis.ComplexityLabelMonotone` |
| SmartAnalysis.ComplexityLabelMonotone | src/components/SmartAnalysis.jsx:108-113 | the label never goes down as the score goes up |
| SmartAnalysis.SeniorityColour | src/components/SmartAnalysis.jsx:98-106 | definition of the level colour as a plain-object lookup with inherited keys; properties in `SmartAnalysis.UnknownLevelIsMid` and `SmartAnalysis.AnalysedLevelColour` |
| SmartAnalysis.UnknownLevelIsMid | src/components/SmartAnalysis.jsx:98-106 | a level that is neither in the table nor an inherited `Object.prototype` key gets the colours of `mid`; `constructor` instead yields the inherited member, which is truthy and wins over the fallback |
| SmartAnalysis.AnalysedLevelColour | src/components/SmartAnalysis.jsx:48-61 | the level the analysis reports is always a table key, so it always gets its own table colours and never an inherited member |
| SmartAnalysis.Analyze | src/components/SmartAnalysis.jsx:8-91 | no analysis for a falsy or short description; otherwise the years, the first eight distinct matched skills, the seniority, job type, counts and complexity of the text |
| MatchScore.CalculateMatchScore | src/components/MatchScore.jsx:7-25 | the score is the clamped sum of the indicator weights on the lower-cased reasoning, and lies in [25, 100] |
| MatchScore.Tally | src/components/MatchScore.jsx:11-24 | the sequence of conditional updates and the clamp add up to the score of the indicators |
| MatchScore.Score | src/components/MatchScore.jsx:11-24 | definition of the score; properties in `MatchScore.ScoreRange`, `MatchScore.ScoreMonotone` and `MatchScore.SomethingCountsAsSome` |
| MatchScore.ScoreRange | src/components/MatchScore.jsx:11-24 | the unclamped score lies in [25, 110], so the clamp only cuts at the top; 25 and 100 are both reached |
| MatchScore.ScoreMonotone | src/components/MatchScore.jsx:14-22 | a positive indicator never lowers the score and a negative one never raises it |
| MatchScore.SomethingCountsAsSome | src/components/MatchScore.jsx:21 | any reasoning containing `something` loses the 10 points of `some` |
| MatchScore.ScoreColor | src/components/MatchScore.jsx:29-34 | definition of the score colour; properties in `MatchScore.BandsAgree` |
| MatchScore.Insights | src/components/MatchScore.jsx:72-91 | definition of the insight bands; properties in `MatchScore.BandsAgree` |
| MatchScore.BandsAgree | src/components/MatchScore.jsx:29-91 | the style's label names the score's band, exactly one insight is shown and it is of the same band, and the bands are ordered by score |
| ProgressBar.StagesIncreasing | src/components/ProgressBar.jsx:10-18 | stage times and progress values strictly increase, the first stage starts at 0, and no progress exceeds 90 |
| ProgressBar.FindLast | src/components/ProgressBar.jsx:40 | `findLast` gives the last stage whose time has passed; None means no stage time has passed |
| ProgressBar.StageLookupSpec | src/components/ProgressBar.jsx:40-42 | a stage is found exactly from elapsed time 0 on, and a later time never finds an earlier stage or a lower progress |
| ProgressBar.FindLastMonotone | src/components/ProgressBar.jsx:40 | over stages in time order, the stage found moves forward with the time |
| ProgressBar.StageBoundaries | src/components/ProgressBar.jsx:10-18 | the first three seconds show `Initializing...`, and from 25 s on `Finalizing documents...` is shown |
| ProgressBar.CeilSeconds | src/components/ProgressBar.jsx:44 | `Math.ceil(x / 1000)` is the least number of whole seconds covering `x` milliseconds |
| ProgressBar.Remaining | src/components/ProgressBar.jsx:44 | definition of the seconds left; properties in `ProgressBar.RemainingSpec` |
| ProgressBar.RemainingSpec | src/components/ProgressBar.jsx:44 | the estimate covers what is left of 25 s in whole seconds, lies in [0, 25] from the start, is 0 exactly from 25 s on, and never grows |
| ProgressBar.FindProgress | src/components/ProgressBar.jsx:53-55 | `find` by progress gives the first stage with that progress, or None when none has it |
| ProgressBar.CurrentStageAgrees | src/components/ProgressBar.jsx:53-55 | `currentStage`, looked up by the progress shown, is the stage the time lookup chose |
| ProgressBar.ShownProgressBelowReady | src/components/ProgressBar.jsx:96-131 | every progress a stage sets is at most 90: the ready message never shows, cancel always shows, and the shimmer shows except at 0 |
| ProgressBar.ProgressState.constructor | src/components/ProgressBar.jsx:5-8 | the initial state is progress 0, empty message, 25 s left, no start time |
| ProgressBar.ProgressState.Hide | src/components/ProgressBar.jsx:20-27 | hiding resets the state to its initial values |
| ProgressBar.ProgressState.Show | src/components/ProgressBar.jsx:29-32 | showing reads the clock only when there is no start time (or the falsy 0), leaves the other fields unchanged, and keeps the state valid |
| ProgressBar.ProgressState.Tick | src/components/ProgressBar.jsx:34-46 | one interval tick sets the progress, message and estimate of the stage for the elapsed time, or changes nothing before the start or before any stage; the state stays valid |
| ProcessSteps.Current | src/components/ProcessSteps.jsx:11 | definition of the current step; properties in `ProcessSteps.CurrentSpec` |
| ProcessSteps.CurrentSpec | src/components/ProcessSteps.jsx:11 | results win over loading, and the Analyze step is never active: it is done exactly with results or while loading |
| ProcessSteps.States | src/components/ProcessSteps.jsx:4-18 | one state per step, as many as there are steps; the full properties are in `ProcessSteps.StatesSpec` |
| ProcessSteps.StatesSpec | src/components/ProcessSteps.jsx:4-18 | exactly one step is active, the current one; earlier steps are done and later ones idle, so the states run done, active, idle |
| Api.FirstMatch | src/utils/api.js:26-32 | the first pattern in list order that matches, with its group; None means no pattern matches |
| Api.Field | src/utils/api.js:26-32 | definition of one extracted field; properties in `Api.FieldSpec` and `Api.FirstMatch` |
| Api.FieldSpec | src/utils/api.js:26-32 | patterns after a match are never consulted, non-matching ones in front can be dropped, and a field is `''` exactly when nothing matches or the first match is blank |
| Api.ExtractJobDetails | src/utils/api.js:12-63 | the three `for…of` loops with `break` give each field from its own pattern list, `''` by default |
| Api.RequestBodyOf | src/utils/api.js:76-82 | the body always carries the description and the details, and carries `selectedResume` exactly when it is truthy |
| Api.WorkerSeesRequest | src/utils/api.js:76-82 | the worker replies the same whether a falsy selection is dropped or sent, and a tailored reply echoes the details sent |
| Api.Handle | src/utils/api.js:93-108 | definition of the answer branches; properties in `Api.HandleSpec` |
| Api.HandleSpec | src/utils/api.js:93-108 | a non-ok answer throws the server's error or `HTTP error! status: <n>`; an unsuccessful body throws its error or `Failed to tailor resume`; a successful one is returned unchanged except that its job details fall back to the local ones; a thrown message is never empty |
| Api.HttpErrorNamesStatus | src/utils/api.js:95 | the status message starts `HTTP error! status: ` and its digits read back as the status |
| Api.TailorResume | src/utils/api.js:72-113 | `tailorResume` extracts the details, sends the body, and settles as the answer's branches say |

## Left out

- **jsPDF internals.**
  - Font metrics, `splitTextToSize` (the uninterpreted `wrap`), `getTextWidth`, colours, line widths, and the widths of rules and filled rectangles are not modelled. A rule or fill keeps only its page, its `y` and its height.
  - `setFont`/`setFontSize` are recorded as the font of each text mark.
  - `output('blob')` and `save` are modelled as the returned record of pages and marks, and the file name.
- **Time and locale.** ISO timestamps in file names are a `timestamp` parameter. `Date.now()` is a `now` parameter. The `setTimeout` of `generateWithTemplate` and the `setInterval` of the progress bar are left out: one interval run is one `Tick`. The SmartAnalysis 500 ms debounce and the "Copied" timers are also left out. The cover-letter date (`toLocaleDateString`) is not part of this model.
- **Storage and network.**
  - R2 `list`/`get` are modelled as a value (`Worker.Bucket`).
  - The OpenAI request and its prompt text are a function from the resume corpus and the description to a reply (`Worker.Assistant`).
  - `Response` headers, CORS and JSON serialisation are left out. So are the `hint`, `debug`, `details`, `stack`, `filename` and `timestamp` fields of the replies.
  - The client `fetch` is a function from the request body to a reply. Its rejection on a network error or abort is not modelled.
  - The download fetch, blob URLs and DOM anchors of the resume footer are left out; the download is the choice between saving the file as it is and rendering it.
- **`decodeURIComponent`** is a parameter that may fail (`Thrown`).
- **Exceptions inside the worker** are modelled only where the code can throw on its inputs: an unparsable request or model reply, and a failed decode. A rejected R2 call is not.
- **Text encoding.**
  - `toUpperCase`/`toLowerCase` are modelled on ASCII letters only. The full Unicode case mapping differs (for example `ß` or the Kelvin sign).
  - `trim` and `\s` use the ECMAScript whitespace set.
  - JavaScript lengths count UTF-16 code units. Here one `char` stands for one unit, so astral characters are not split.
- **JSON field types.** The request body, the model's reply and the worker's answer are modelled with string fields that are present or absent. A field holding a number, an object or an array makes the code throw (for example `.trim` at WORKER_UPDATE.js:210, `.endsWith` at WORKER_UPDATE.js:283, or `.replace` in `cleanText` at WORKER_UPDATE.js:489). That case is not modelled.
- **SmartAnalysis.YearsFromSpec**: `parseInt` is exact on unbounded integers. Precision loss past 2^53 is not modelled.
- **The two-column professional renderer** `generateProfessionalResumePDF` is called by the results view and the footer. Its source is not part of this model, so the model stops at the text handed to it and the base name it is given.
- **The company, manager and address regular expressions** of `extractJobDetails` stay abstract (`Api.Pattern`). Only the first-match-wins skeleton and the trimming are modelled.
- **The progress bar's icons and markup** are not modelled. The state machine and the conditions for the ready, cancel and shimmer parts are.
- **Purely presentational components** are not part of this model: header, tips, preview, template selector, theme toggle, download steps and comparison modal. So are the clipboard calls of the results view.
- **Markdown.CleanTextSpec** does not promise that no `## ` or `__` is left in the output, because the code does not guarantee it. The per-pass guarantees are stated instead.
- **Api.FieldSpec** does not state that a field is `''` only when no pattern matches, because a blank first match also gives `''`.
