/**
 * The request handler of WORKER_UPDATE.js: path routing, the resume listing
 * and download endpoints, the bucket report, and the validation chain of
 * the POST endpoint up to and after the call to the language model. The R2
 * bucket is a value (its listing and its contents), the model's reply and
 * `decodeURIComponent` are parameters.
 */
module Worker {
  import opened Results
  import opened JsText
  import opened Markdown

  // ---- error messages ----

  const NEEDS_TXT := "PDF resumes require a corresponding .txt file for AI processing"
  const AI_ERROR := "OpenAI API error"
  const AI_INVALID := "Invalid response from OpenAI API"
  const JD_REQUIRED := "Job description is required"
  const JD_SHORT := "Job description is too short. Please provide at least 50 characters."
  const NO_RESUMES := "No resumes found in R2 bucket"
  const NO_TXT := "No .txt resume files found in R2 bucket for AI processing"
  const READ_FAILED := "Failed to read resume files"
  const DOWNLOAD_MISSING := "Resume not found"
  const NOT_ALLOWED := "Method not allowed. Use POST for generating resumes."

  // ---- the bucket ----

  /** One entry of `MY_BUCKET.list().objects`. */
  datatype ObjectInfo = ObjectInfo(key: string, size: nat, uploaded: string)

  /**
   * A bucket as the handler sees it: what `list()` returns and what `get(key)`
   * finds. Nothing ties the two together, so a listed key may fail to load.
   */
  datatype Bucket = Bucket(objects: seq<ObjectInfo>, contents: map<string, string>, truncated: bool)

  /** `await (await MY_BUCKET.get(key))?.text()` */
  function Get(b: Bucket, key: string): Option<string> {
    if key in b.contents then Some(b.contents[key]) else None
  }

  // ---- GET /resumes ----

  datatype FileType = Txt | Pdf | Other

  datatype ResumeEntry = ResumeEntry(filename: string, size: nat, uploaded: string, kind: FileType)

  /** The listing filter: a case-sensitive `.txt` or `.pdf` ending. */
  predicate IsListed(key: string) {
    EndsWith(key, ".txt") || EndsWith(key, ".pdf")
  }

  /** The listing entry made for a listed object. */
  function ObjectEntry(o: ObjectInfo): ResumeEntry {
    ResumeEntry(o.key, o.size, o.uploaded, if EndsWith(o.key, ".pdf") then Pdf else Txt)
  }

  /** The object a listing entry was made from. */
  function EntryObject(e: ResumeEntry): ObjectInfo {
    ObjectInfo(e.filename, e.size, e.uploaded)
  }

  /** `listed.objects.filter(...).map(...)` */
  function ListResumes(objects: seq<ObjectInfo>): seq<ResumeEntry>
    decreases |objects|
  {
    if |objects| == 0 then []
    else (if IsListed(objects[0].key) then [ObjectEntry(objects[0])] else []) + ListResumes(objects[1..])
  }

  lemma EndingsExclusive(key: string)
    ensures !(EndsWith(key, ".txt") && EndsWith(key, ".pdf"))
  {
    if EndsWith(key, ".txt") {
      assert key[|key| - 1] == ".txt"[3];
    }
  }

  /**
   * Every listing entry comes from a listed object of the bucket, keeps its
   * size and upload time, and is typed `pdf` exactly when its name ends in
   * `.pdf` (otherwise `txt`).
   */
  lemma {:induction false} ListingSound(objects: seq<ObjectInfo>)
    ensures var r := ListResumes(objects);
      && |r| <= |objects|
      && forall e :: e in r ==>
        && EntryObject(e) in objects && IsListed(e.filename) && e == ObjectEntry(EntryObject(e))
        && e.kind != Other && (e.kind == Pdf <==> EndsWith(e.filename, ".pdf"))
    decreases |objects|
  {
    if |objects| > 0 {
      ListingSound(objects[1..]);
      EndingsExclusive(objects[0].key);
      var head := if IsListed(objects[0].key) then [ObjectEntry(objects[0])] else [];
      assert ListResumes(objects) == head + ListResumes(objects[1..]);
      assert forall o :: o in objects[1..] ==> o in objects;
    }
  }

  /** Every bucket object whose key ends in `.txt` or `.pdf` is listed. */
  lemma {:induction false} ListingComplete(objects: seq<ObjectInfo>)
    ensures forall o :: o in objects && IsListed(o.key) ==> ObjectEntry(o) in ListResumes(objects)
    decreases |objects|
  {
    if |objects| > 0 {
      ListingComplete(objects[1..]);
      var head := if IsListed(objects[0].key) then [ObjectEntry(objects[0])] else [];
      assert ListResumes(objects) == head + ListResumes(objects[1..]);
      assert forall o :: o in objects ==> o == objects[0] || o in objects[1..];
    }
  }

  // ---- GET /debug ----

  function DebugKind(key: string): FileType {
    if EndsWith(key, ".pdf") then Pdf else if EndsWith(key, ".txt") then Txt else Other
  }

  /** The number of keys ending in `suffix`. */
  function CountEnding(objects: seq<ObjectInfo>, suffix: string): nat
    decreases |objects|
  {
    if |objects| == 0 then 0
    else (if EndsWith(objects[0].key, suffix) then 1 else 0) + CountEnding(objects[1..], suffix)
  }

  /** The bucket report counts each listed resume exactly once, as `.txt` or as `.pdf`. */
  lemma {:induction false} DebugCounts(objects: seq<ObjectInfo>)
    ensures CountEnding(objects, ".txt") + CountEnding(objects, ".pdf") == |ListResumes(objects)| <= |objects|
    decreases |objects|
  {
    if |objects| > 0 {
      DebugCounts(objects[1..]);
      EndingsExclusive(objects[0].key);
    }
  }

  // ---- GET /download/<name> ----

  /** The content type chosen from the lower-cased name. */
  function ContentType(filename: string): string {
    if EndsWith(Lower(filename), ".pdf") then "application/pdf" else "text/plain; charset=utf-8"
  }

  /** The download type ignores case, unlike the listing filter. */
  lemma DownloadCaseDiffers()
    ensures ContentType("cv.PDF") == "application/pdf"
    ensures !IsListed("cv.PDF")
  {
    assert Lower("cv.PDF")[2..] == ".pdf";
    assert "cv.PDF"[2..] != ".pdf";
    assert "cv.PDF"[2..] != ".txt";
  }

  // ---- routing ----

  datatype Route = ListRoute | DownloadRoute(encoded: string) | DebugRoute | PreflightRoute | NotAllowedRoute | GenerateRoute

  /** The order of the `if`s in `fetch`: the three paths first, then the method. */
  function RouteOf(path: string, httpMethod: string): Route {
    if path == "/resumes" then ListRoute
    else if StartsWith(path, "/download/") then DownloadRoute(ReplaceFirst(path, "/download/", ""))
    else if path == "/debug" then DebugRoute
    else if httpMethod == "OPTIONS" then PreflightRoute
    else if httpMethod != "POST" then NotAllowedRoute
    else GenerateRoute
  }

  predicate IsPathRoute(path: string) {
    path == "/resumes" || StartsWith(path, "/download/") || path == "/debug"
  }

  /**
   * Path routes win over the method: for the three paths the method plays no
   * part; otherwise OPTIONS is preflighted, POST is generated and every other
   * method is refused. The download name is the path after its prefix.
   */
  lemma RoutingSpec(path: string, httpMethod: string, other: string)
    ensures IsPathRoute(path) ==> RouteOf(path, httpMethod) == RouteOf(path, other)
    ensures RouteOf(path, httpMethod) == GenerateRoute <==> !IsPathRoute(path) && httpMethod == "POST"
    ensures RouteOf(path, httpMethod) == PreflightRoute <==> !IsPathRoute(path) && httpMethod == "OPTIONS"
    ensures RouteOf(path, httpMethod) == NotAllowedRoute <==> !IsPathRoute(path) && httpMethod != "OPTIONS" && httpMethod != "POST"
    ensures RouteOf(path, httpMethod).DownloadRoute? ==> RouteOf(path, httpMethod).encoded == path[10..]
  {
    if path != "/resumes" && StartsWith(path, "/download/") {
      assert OccursAt(path, "/download/", 0);
      assert IndexOf(path, "/download/") == Some(0);
    }
  }

  // ---- POST ----

  /** The fields of the JSON body that the handler reads; absent or `null` fields are None. */
  datatype PostBody = PostBody(jobDescription: Option<string>, jobDetails: Option<JobDetails>, selectedResume: Option<string>)

  datatype JobDetails = JobDetails(companyName: string, hiringManager: string, address: string)

  /** A resume the model is given. */
  datatype Resume = Resume(filename: string, content: string)

  /** What `JSON.parse(choices[0].message.content)` yields; absent fields are None. */
  datatype Suggestion = Suggestion(selectedResume: Option<string>, reasoning: Option<string>,
                                   tailoredResume: Option<string>, coverLetter: Option<string>)

  /** The outcome of the model call. */
  datatype ModelReply =
    | HttpError(details: string)         // `!openaiResponse.ok`
    | NoMessage                          // no `choices[0].message`
    | Message(parsed: Option<Suggestion>) // None: the content is not JSON

  /** The model as a function of the resume corpus and the job description. */
  type Assistant = (string, string) -> ModelReply

  datatype Reply =
    | ResumeList(count: nat, resumes: seq<ResumeEntry>)
    | FileContent(filename: string, contentType: string, content: string)
    | DebugReport(bucketBindingExists: bool, totalObjects: nat, txtFiles: nat, pdfFiles: nat, files: seq<ResumeEntry>, truncated: bool)
    | Preflight
    | Failure(status: int, error: string)
    /** An exception: caught by the POST `try` (500 with its message) or escaping `fetch`. */
    | Thrown(caught: bool)
    | Tailored(totalResumesAnalyzed: nat, availableResumes: seq<string>, selectedResume: Option<string>,
               reasoning: string, tailoredResume: string, coverLetter: string, jobDetails: DetailsField)

  /** The `jobDetails` field of a tailored reply: never absent, `{}` when the request had none. */
  datatype DetailsField = EmptyObject | Details(details: JobDetails)

  /** `jobDetails || {}` */
  function DetailsOrEmpty(jobDetails: Option<JobDetails>): DetailsField {
    if jobDetails.Some? then Details(jobDetails.value) else EmptyObject
  }

  function Status(r: Reply): int {
    match r
    case Failure(status, _) => status
    case Thrown(_) => 500
    case _ => 200
  }

  /** The POST filter: keys ending in `.txt`, in bucket order. */
  function TxtKeys(objects: seq<ObjectInfo>): seq<string>
    decreases |objects|
  {
    if |objects| == 0 then []
    else (if EndsWith(objects[0].key, ".txt") then [objects[0].key] else []) + TxtKeys(objects[1..])
  }

  /** `selectedResume.replace('.pdf', '.txt')`: the first `.pdf` is replaced. */
  function TxtVersion(selected: string): string {
    ReplaceFirst(selected, ".pdf", ".txt")
  }

  /** `Promise.all(resumeFiles.map(get)).filter(r => r !== null)` */
  function FetchAll(keys: seq<string>, b: Bucket): seq<Resume>
    decreases |keys|
  {
    if |keys| == 0 then []
    else (match Get(b, keys[0]) case Some(c) => [Resume(keys[0], c)] case None => []) + FetchAll(keys[1..], b)
  }

  /** `RESUME ${idx + 1} (${r.filename}):\n${r.content}` */
  function Entry(n: nat, r: Resume): string {
    "RESUME " + NatToString(n) + " (" + r.filename + "):\n" + r.content
  }

  const SEPARATOR := "\n\n---\n\n"

  /** The entries numbered from `n`. */
  function Entries(rs: seq<Resume>, n: nat): (es: seq<string>)
    ensures |es| == |rs|
  {
    seq(|rs|, i requires 0 <= i < |rs| => Entry(n + i, rs[i]))
  }

  /** `resumesText`: the numbered entries joined by the separator. */
  function Corpus(rs: seq<Resume>): string {
    Join(Entries(rs, 1), SEPARATOR)
  }

  /** The resumes to analyse, or the reply that ends the request early. */
  function Gather(selected: Option<string>, txtKeys: seq<string>, b: Bucket): Result<seq<Resume>, Reply> {
    if selected.None? || selected.value == "" then Ok(FetchAll(txtKeys, b))
    else
      var sel := selected.value;
      if EndsWith(sel, ".pdf") && TxtVersion(sel) !in txtKeys then
        Err(Failure(400, NEEDS_TXT))
      else
        var toFetch := if EndsWith(sel, ".pdf") then TxtVersion(sel) else sel;
        match Get(b, toFetch)
        case None => Err(Failure(404, "Selected resume \"" + toFetch + "\" not found"))
        case Some(c) => Ok([Resume(toFetch, c)])
  }

  /** What the handler makes of the model's reply. */
  function Answer(reply: ModelReply, resumes: seq<Resume>, txtKeys: seq<string>, details: Option<JobDetails>): Reply {
    match reply
    case HttpError(_) => Failure(500, AI_ERROR)
    case NoMessage => Failure(500, AI_INVALID)
    case Message(None) => Thrown(true)
    case Message(Some(s)) =>
      Tailored(|resumes|, txtKeys, s.selectedResume, CleanText(s.reasoning), CleanText(s.tailoredResume),
               CleanText(s.coverLetter), DetailsOrEmpty(details))
  }

  /** The POST endpoint, check by check; `body` is None when `request.json()` fails. */
  function Post(body: Option<PostBody>, b: Bucket, ai: Assistant): Reply {
    if body.None? then Thrown(true)
    else
      var jd := body.value.jobDescription;
      if jd.None? || jd.value == "" then Failure(400, JD_REQUIRED)
      else if |Trim(jd.value)| < 50 then Failure(400, JD_SHORT)
      else if |b.objects| == 0 then Failure(404, NO_RESUMES)
      else
        var txtKeys := TxtKeys(b.objects);
        if |txtKeys| == 0 then Failure(404, NO_TXT)
        else match Gather(body.value.selectedResume, txtKeys, b)
          case Err(early) => early
          case Ok(resumes) =>
            if |resumes| == 0 then Failure(500, READ_FAILED)
            else Answer(ai(Corpus(resumes), jd.value), resumes, txtKeys, body.value.jobDetails)
  }

  datatype Request = Request(path: string, httpMethod: string, body: Option<PostBody>)

  /** `fetch(request, env)`; `decode` is `decodeURIComponent`, None when it throws. */
  function Respond(req: Request, b: Bucket, decode: string -> Option<string>, ai: Assistant): Reply {
    match RouteOf(req.path, req.httpMethod)
    case ListRoute =>
      var rs := ListResumes(b.objects);
      ResumeList(|rs|, rs)
    case DownloadRoute(encoded) =>
      (match decode(encoded)
       case None => Thrown(false)
       case Some(name) =>
         match Get(b, name)
         case None => Failure(404, DOWNLOAD_MISSING)
         case Some(c) => FileContent(name, ContentType(name), c))
    case DebugRoute =>
      DebugReport(true, |b.objects|, CountEnding(b.objects, ".txt"), CountEnding(b.objects, ".pdf"),
                  DebugFiles(b.objects), b.truncated)
    case PreflightRoute => Preflight
    case NotAllowedRoute => Failure(405, NOT_ALLOWED)
    case GenerateRoute => Post(req.body, b, ai)
  }

  /** `listed.objects.map(...)` of the bucket report: every found, typed pdf, txt or other. */
  function DebugFiles(objects: seq<ObjectInfo>): (files: seq<ResumeEntry>)
    ensures |files| == |objects|
  {
    seq(|objects|, i requires 0 <= i < |objects| => ResumeEntry(objects[i].key, objects[i].size, objects[i].uploaded, DebugKind(objects[i].key)))
  }

  // ---- properties of the POST chain ----

  lemma {:induction false} TxtKeysSpec(objects: seq<ObjectInfo>)
    ensures var t := TxtKeys(objects);
      && |t| == CountEnding(objects, ".txt")
      && (forall i :: 0 <= i < |t| ==> EndsWith(t[i], ".txt"))
      && (forall j :: 0 <= j < |objects| && EndsWith(objects[j].key, ".txt") ==> objects[j].key in t)
    decreases |objects|
  {
    if |objects| > 0 {
      TxtKeysSpec(objects[1..]);
      var t := TxtKeys(objects);
      var head := if EndsWith(objects[0].key, ".txt") then [objects[0].key] else [];
      assert t == head + TxtKeys(objects[1..]);
      forall j | 0 <= j < |objects| && EndsWith(objects[j].key, ".txt")
        ensures objects[j].key in t
      {
        if j > 0 {
          assert objects[j] == objects[1..][j - 1];
        }
      }
    }
  }

  /** Every resume fetched for analysis is one of the keys, loaded from the bucket, in key order. */
  lemma {:induction false} FetchAllSpec(keys: seq<string>, b: Bucket)
    ensures var rs := FetchAll(keys, b);
      && |rs| <= |keys|
      && (forall i :: 0 <= i < |rs| ==> rs[i].filename in keys && Get(b, rs[i].filename) == Some(rs[i].content))
      && (forall k :: k in keys && Get(b, k).Some? ==> Resume(k, Get(b, k).value) in rs)
    decreases |keys|
  {
    if |keys| > 0 {
      FetchAllSpec(keys[1..], b);
      var rs := FetchAll(keys, b);
      var head := match Get(b, keys[0]) case Some(c) => [Resume(keys[0], c)] case None => [];
      assert rs == head + FetchAll(keys[1..], b);
      forall i | 0 <= i < |rs|
        ensures rs[i].filename in keys && Get(b, rs[i].filename) == Some(rs[i].content)
      {
        if i >= |head| {
          assert rs[i] == FetchAll(keys[1..], b)[i - |head|];
        }
      }
    }
  }

  /**
   * The checks run in source order: each reply below is given whatever the
   * later inputs (bucket contents, selection, model) are.
   */
  lemma ValidationOrder(body: PostBody, b: Bucket, ai: Assistant)
    ensures body.jobDescription.None? || |Trim(body.jobDescription.value)| < 50 ==>
      Status(Post(Some(body), b, ai)) == 400
    ensures (body.jobDescription.Some? && |Trim(body.jobDescription.value)| >= 50 && |b.objects| == 0) ==>
      Post(Some(body), b, ai) == Failure(404, NO_RESUMES)
    ensures (body.jobDescription.Some? && |Trim(body.jobDescription.value)| >= 50 && |b.objects| > 0
             && CountEnding(b.objects, ".txt") == 0) ==>
      Post(Some(body), b, ai) == Failure(404, NO_TXT)
  {
    TxtKeysSpec(b.objects);
  }

  /**
   * A selected `.pdf` is analysed through its `.txt` twin and refused with
   * 400 when the twin is not among the `.txt` keys; any other selection is
   * fetched by its own name, listed or not.
   */
  lemma SelectionSpec(sel: string, txtKeys: seq<string>, b: Bucket)
    requires sel != ""
    ensures EndsWith(sel, ".pdf") ==>
      (Gather(Some(sel), txtKeys, b) == Err(Failure(400, NEEDS_TXT)) <==> TxtVersion(sel) !in txtKeys)
    ensures var name := if EndsWith(sel, ".pdf") then TxtVersion(sel) else sel;
      (!EndsWith(sel, ".pdf") || name in txtKeys) ==>
        match Get(b, name)
        case Some(c) => Gather(Some(sel), txtKeys, b) == Ok([Resume(name, c)])
        case None => Gather(Some(sel), txtKeys, b) == Err(Failure(404, "Selected resume \"" + name + "\" not found"))
  {
  }

  /**
   * `.replace('.pdf', '.txt')` rewrites the FIRST `.pdf`: a selected name with
   * an earlier `.pdf` (such as `cv.pdf.pdf`, which becomes `cv.txt.pdf`) still
   * ends in `.pdf` afterwards, so it is never a `.txt` key and the selection
   * is always refused.
   */
  lemma InnerPdfAlwaysRefused(sel: string, txtKeys: seq<string>, b: Bucket)
    requires EndsWith(sel, ".pdf") && Contains(sel[..|sel| - 4], ".pdf")
    requires forall i :: 0 <= i < |txtKeys| ==> EndsWith(txtKeys[i], ".txt")
    ensures EndsWith(TxtVersion(sel), ".pdf")
    ensures Gather(Some(sel), txtKeys, b) == Err(Failure(400, NEEDS_TXT))
  {
    var j := IndexOf(sel[..|sel| - 4], ".pdf").value;
    assert sel[..|sel| - 4][j..j + 4] == sel[j..j + 4];
    assert OccursAt(sel, ".pdf", j);
    var k := IndexOf(sel, ".pdf").value;
    assert k <= j;
    var t := TxtVersion(sel);
    assert t == sel[..k] + ".txt" + sel[k + 4..];
    assert t[|t| - 4..] == sel[|sel| - 4..];
    EndingsExclusive(t);
    assert t !in txtKeys;
  }

  /**
   * A successful reply comes only from a valid request on a bucket with `.txt`
   * keys; it lists every `.txt` key as available, counts at least one
   * analysed resume (exactly one for a selection, at most one per key
   * otherwise), and its texts are cleaned.
   */
  lemma SuccessSpec(body: PostBody, b: Bucket, ai: Assistant)
    ensures var r := Post(Some(body), b, ai);
      r.Tailored? ==>
        && body.jobDescription.Some? && |Trim(body.jobDescription.value)| >= 50
        && |b.objects| > 0
        && r.availableResumes == TxtKeys(b.objects) && |r.availableResumes| > 0
        && 1 <= r.totalResumesAnalyzed <= |TxtKeys(b.objects)| + 1
        && (body.selectedResume.Some? && body.selectedResume.value != "" ==> r.totalResumesAnalyzed == 1)
        && (body.selectedResume.None? || body.selectedResume == Some("") ==> r.totalResumesAnalyzed <= |TxtKeys(b.objects)|)
        && '*' !in r.reasoning && '*' !in r.tailoredResume && '*' !in r.coverLetter
        && (body.jobDetails.Some? ==> r.jobDetails == Details(body.jobDetails.value))
        && (body.jobDetails.None? ==> r.jobDetails == EmptyObject)
  {
    FetchAllSpec(TxtKeys(b.objects), b);
    var r := Post(Some(body), b, ai);
    if r.Tailored? {
      var jd := body.jobDescription.value;
      var rs := Gather(body.selectedResume, TxtKeys(b.objects), b).value;
      match ai(Corpus(rs), jd)
      case Message(Some(s)) =>
        CleanTextSpec(s.reasoning);
        CleanTextSpec(s.tailoredResume);
        CleanTextSpec(s.coverLetter);
      case _ =>
    }
  }

  /** One resume gives one numbered entry and no separator. */
  lemma CorpusSingle(r: Resume)
    ensures Corpus([r]) == "RESUME 1 (" + r.filename + "):\n" + r.content
  {
    assert NatToString(1) == "1";
    assert Entries([r], 1) == [Entry(1, r)];
  }

  /** The entries appear in list order, numbered from 1, each followed by the separator but the last. */
  lemma CorpusCons(rs: seq<Resume>, n: nat)
    requires |rs| >= 2
    ensures Join(Entries(rs, n), SEPARATOR) == Entry(n, rs[0]) + SEPARATOR + Join(Entries(rs[1..], n + 1), SEPARATOR)
  {
    var es := Entries(rs, n);
    assert es == [Entry(n, rs[0])] + Entries(rs[1..], n + 1);
    JoinCons(Entry(n, rs[0]), Entries(rs[1..], n + 1), SEPARATOR);
  }

  // ---- the handler ----

  /** The POST branch of `fetch`: early returns, `resumeToFetch` and `resumes` reassigned as in the source. */
  method HandlePost(body: Option<PostBody>, b: Bucket, ai: Assistant) returns (r: Reply)
    ensures r == Post(body, b, ai)
  {
    if body.None? {
      return Thrown(true);
    }
    var jobDescription := body.value.jobDescription;
    var selectedResume := body.value.selectedResume;
    if jobDescription.None? || jobDescription.value == "" {
      return Failure(400, JD_REQUIRED);
    }
    if |Trim(jobDescription.value)| < 50 {
      return Failure(400, JD_SHORT);
    }
    if |b.objects| == 0 {
      return Failure(404, NO_RESUMES);
    }
    var resumeFiles := TxtKeys(b.objects);
    if |resumeFiles| == 0 {
      return Failure(404, NO_TXT);
    }
    var resumes: seq<Resume> := [];
    if selectedResume.Some? && selectedResume.value != "" {
      var resumeToFetch := selectedResume.value;
      if EndsWith(selectedResume.value, ".pdf") {
        var txtVersion := TxtVersion(selectedResume.value);
        if txtVersion in resumeFiles {
          resumeToFetch := txtVersion;
        } else {
          return Failure(400, NEEDS_TXT);
        }
      }
      var found := Get(b, resumeToFetch);
      if found.Some? {
        resumes := [Resume(resumeToFetch, found.value)];
      } else {
        return Failure(404, "Selected resume \"" + resumeToFetch + "\" not found");
      }
    } else {
      resumes := FetchAll(resumeFiles, b);
    }
    if |resumes| == 0 {
      return Failure(500, READ_FAILED);
    }
    var reply := ai(Corpus(resumes), jobDescription.value);
    r := Answer(reply, resumes, resumeFiles, body.value.jobDetails);
  }

  /** `fetch(request, env)` */
  method Fetch(req: Request, b: Bucket, decode: string -> Option<string>, ai: Assistant) returns (r: Reply)
    ensures r == Respond(req, b, decode, ai)
  {
    if req.path == "/resumes" {
      var resumeFiles := ListResumes(b.objects);
      return ResumeList(|resumeFiles|, resumeFiles);
    }
    if StartsWith(req.path, "/download/") {
      var filename := decode(ReplaceFirst(req.path, "/download/", ""));
      if filename.None? {
        return Thrown(false);
      }
      var found := Get(b, filename.value);
      if found.None? {
        return Failure(404, DOWNLOAD_MISSING);
      }
      return FileContent(filename.value, ContentType(filename.value), found.value);
    }
    if req.path == "/debug" {
      return DebugReport(true, |b.objects|, CountEnding(b.objects, ".txt"), CountEnding(b.objects, ".pdf"),
                         DebugFiles(b.objects), b.truncated);
    }
    if req.httpMethod == "OPTIONS" {
      return Preflight;
    }
    if req.httpMethod != "POST" {
      return Failure(405, NOT_ALLOWED);
    }
    r := HandlePost(req.body, b, ai);
  }
}
