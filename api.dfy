/**
 * The client side of src/utils/api.js: the job details guessed from a job
 * description by lists of patterns tried in order, the body of the request
 * sent to the worker, and what `tailorResume` makes of the worker's answer.
 *
 * The company, manager and address regular expressions are not spelt out:
 * each is a `Pattern`, a function giving group 1 of its first match or None.
 * The network call is the parameter `server`.
 */
module Api {
  import opened Results
  import opened JsText
  import Worker

  /** A regular expression of `companyPatterns`, `managerPatterns` or `addressPatterns`: group 1 of `text.match(pattern)`. */
  type Pattern = string -> Option<string>

  // ---- extractJobDetails ----

  /** The first pattern in list order that matches, with its group 1. */
  function FirstMatch(patterns: seq<Pattern>, text: string): (r: Option<(nat, string)>)
    ensures r.Some? ==> r.value.0 < |patterns| && patterns[r.value.0](text) == Some(r.value.1)
    ensures r.Some? ==> forall j :: 0 <= j < r.value.0 ==> patterns[j](text).None?
    ensures r.None? ==> forall j :: 0 <= j < |patterns| ==> patterns[j](text).None?
  {
    if |patterns| == 0 then None
    else match patterns[0](text)
      case Some(g) => Some((0, g))
      case None =>
        match FirstMatch(patterns[1..], text)
        case None => None
        case Some((k, g)) => Some((k + 1, g))
  }

  /** A field: group 1 of the first matching pattern, trimmed; `''` when none matches. */
  function Field(patterns: seq<Pattern>, text: string): string {
    match FirstMatch(patterns, text)
    case None => ""
    case Some((_, g)) => Trim(g)
  }

  /** The first match is fixed by the first pattern that matches, whatever comes after it. */
  lemma FirstMatchAt(patterns: seq<Pattern>, text: string, i: nat, g: string)
    requires i < |patterns| && patterns[i](text) == Some(g)
    requires forall j :: 0 <= j < i ==> patterns[j](text).None?
    ensures FirstMatch(patterns, text) == Some((i, g))
  {
    var r := FirstMatch(patterns, text);
    assert r.Some?;
    assert !(r.value.0 < i);
  }

  /**
   * First match wins: patterns after a matching one are never consulted, and
   * patterns that do not match can be dropped from the front. A field is
   * `''` exactly when no pattern matches or the first match is blank, so a
   * blank first match hides a later pattern that would have given a value.
   */
  lemma FieldSpec(ps: seq<Pattern>, qs: seq<Pattern>, text: string)
    ensures FirstMatch(ps, text).Some? ==> Field(ps + qs, text) == Field(ps, text)
    ensures FirstMatch(ps, text).None? ==> Field(ps + qs, text) == Field(qs, text)
    ensures Field(ps, text) == "" <==> FirstMatch(ps, text).None? || Trim(FirstMatch(ps, text).value.1) == ""
  {
    var all := ps + qs;
    match FirstMatch(ps, text)
    case Some((i, g)) =>
      assert all[i] == ps[i];
      FirstMatchAt(all, text, i, g);
    case None =>
      match FirstMatch(qs, text)
      case Some((k, g)) =>
        assert all[|ps| + k] == qs[k];
        FirstMatchAt(all, text, |ps| + k, g);
      case None =>
        assert forall j :: 0 <= j < |all| ==> all[j] == if j < |ps| then ps[j] else qs[j - |ps|];
        assert forall j :: 0 <= j < |all| ==> all[j](text).None?;
  }

  /** The job details of `extractJobDetails`: each field from its own pattern list. */
  function ExtractedDetails(text: string, company: seq<Pattern>, manager: seq<Pattern>, address: seq<Pattern>): Worker.JobDetails {
    Worker.JobDetails(Field(company, text), Field(manager, text), Field(address, text))
  }

  /**
   * `extractJobDetails`: `details` starts with three empty fields, and each
   * `for…of` loop sets its field from the first matching pattern and breaks.
   */
  method ExtractJobDetails(jobDescription: string, company: seq<Pattern>, manager: seq<Pattern>, address: seq<Pattern>)
    returns (details: Worker.JobDetails)
    ensures details == ExtractedDetails(jobDescription, company, manager, address)
  {
    details := Worker.JobDetails("", "", "");
    for i := 0 to |company|
      invariant forall j :: 0 <= j < i ==> company[j](jobDescription).None?
      invariant details == Worker.JobDetails("", "", "")
    {
      var found := company[i](jobDescription);
      if found.Some? {
        FirstMatchAt(company, jobDescription, i, found.value);
        details := details.(companyName := Trim(found.value));
        break;
      }
    }
    assert details.companyName == Field(company, jobDescription);
    for i := 0 to |manager|
      invariant forall j :: 0 <= j < i ==> manager[j](jobDescription).None?
      invariant details == Worker.JobDetails(Field(company, jobDescription), "", "")
    {
      var found := manager[i](jobDescription);
      if found.Some? {
        FirstMatchAt(manager, jobDescription, i, found.value);
        details := details.(hiringManager := Trim(found.value));
        break;
      }
    }
    assert details.hiringManager == Field(manager, jobDescription);
    for i := 0 to |address|
      invariant forall j :: 0 <= j < i ==> address[j](jobDescription).None?
      invariant details == Worker.JobDetails(Field(company, jobDescription), Field(manager, jobDescription), "")
    {
      var found := address[i](jobDescription);
      if found.Some? {
        FirstMatchAt(address, jobDescription, i, found.value);
        details := details.(address := Trim(found.value));
        break;
      }
    }
  }

  // ---- the request ----

  /** JavaScript truthiness of an optional string: present and not empty. */
  predicate Truthy(s: Option<string>) {
    s.Some? && s.value != ""
  }

  /** `requestBody`: `selectedResume` is added only when it is truthy. */
  function RequestBodyOf(jobDescription: string, details: Worker.JobDetails, selectedResume: Option<string>): (body: Worker.PostBody)
    ensures body.jobDescription == Some(jobDescription) && body.jobDetails == Some(details)
    ensures body.selectedResume.Some? <==> Truthy(selectedResume)
    ensures body.selectedResume.Some? ==> body.selectedResume == selectedResume
  {
    Worker.PostBody(Some(jobDescription), Some(details), if Truthy(selectedResume) then selectedResume else None)
  }

  /**
   * The worker gives the same reply whether a falsy selection is dropped or
   * sent, and a tailored reply to this client echoes the details it sent.
   */
  lemma WorkerSeesRequest(jobDescription: string, details: Worker.JobDetails, selectedResume: Option<string>,
                          b: Worker.Bucket, ai: Worker.Assistant)
    ensures Worker.Post(Some(RequestBodyOf(jobDescription, details, selectedResume)), b, ai)
         == Worker.Post(Some(Worker.PostBody(Some(jobDescription), Some(details), selectedResume)), b, ai)
    ensures Worker.Post(Some(RequestBodyOf(jobDescription, details, selectedResume)), b, ai).Tailored? ==>
            Worker.Post(Some(RequestBodyOf(jobDescription, details, selectedResume)), b, ai).jobDetails == Worker.Details(details)
  {
    var body := RequestBodyOf(jobDescription, details, selectedResume);
    var sent := Worker.PostBody(Some(jobDescription), Some(details), selectedResume);
    assert Worker.Gather(body.selectedResume, Worker.TxtKeys(b.objects), b)
        == Worker.Gather(sent.selectedResume, Worker.TxtKeys(b.objects), b);
  }

  // ---- the response ----

  /** The parsed body of the worker's answer: the fields the client reads, and the rest. */
  datatype ResponseJson<Rest> = ResponseJson(success: bool, error: Option<string>, jobDetails: Option<Worker.JobDetails>, rest: Rest)

  /** The answer to `fetch`: `response.ok`, `response.status`, and `response.json()` (None when it rejects). */
  datatype ServerReply<Rest> = ServerReply(ok: bool, status: nat, json: Option<ResponseJson<Rest>>)

  /** What `tailorResume` settles with. */
  datatype Outcome<Rest> =
    | Threw(message: string)         // `throw new Error(message)`
    | Unreadable                     // `response.json()` rejected on an ok answer
    | Returned(data: ResponseJson<Rest>)

  const FAILED := "Failed to tailor resume"

  /** `HTTP error! status: ${response.status}` */
  function HttpError(status: nat): string {
    "HTTP error! status: " + NatToString(status)
  }

  /** The branches on the answer, with `jobDetails` the locally extracted details. */
  function Handle<Rest>(response: ServerReply<Rest>, jobDetails: Worker.JobDetails): Outcome<Rest> {
    if !response.ok then
      var error := if response.json.Some? then response.json.value.error else None;
      Threw(if Truthy(error) then error.value else HttpError(response.status))
    else if response.json.None? then Unreadable
    else
      var data := response.json.value;
      if !data.success then Threw(if Truthy(data.error) then data.error.value else FAILED)
      else Returned(data.(jobDetails := if data.jobDetails.Some? then data.jobDetails else Some(jobDetails)))
  }

  /**
   * A failed answer throws the server's error, or the status message when it
   * has none; an unsuccessful body throws its error or the fixed message; a
   * successful one is returned with the server's details when it sent any and
   * the local ones otherwise, and nothing else changed.
   */
  lemma HandleSpec<Rest>(response: ServerReply<Rest>, jobDetails: Worker.JobDetails)
    ensures var o := Handle(response, jobDetails);
      o.Returned? <==> response.ok && response.json.Some? && response.json.value.success
    ensures var o := Handle(response, jobDetails);
      !response.ok ==> o.Threw? && o.message == ServerError(response, HttpError(response.status))
    ensures var o := Handle(response, jobDetails);
      response.ok && response.json.Some? && !response.json.value.success ==> o.Threw? && o.message == ServerError(response, FAILED)
    ensures var o := Handle(response, jobDetails);
      o.Returned? ==>
        && o.data.success && o.data.error == response.json.value.error && o.data.rest == response.json.value.rest
        && o.data.jobDetails == (if response.json.value.jobDetails.Some? then response.json.value.jobDetails else Some(jobDetails))
    ensures var o := Handle(response, jobDetails);
      o.Threw? ==> o.message != ""
  {
    HttpErrorNamesStatus(response.status);
  }

  /** `errorData.error || fallback`: the error of the parsed body when it is truthy. */
  function ServerError<Rest>(response: ServerReply<Rest>, fallback: string): string {
    if response.json.Some? && Truthy(response.json.value.error) then response.json.value.error.value else fallback
  }

  /** The status message is never empty and the status can be read back from it. */
  lemma HttpErrorNamesStatus(status: nat)
    ensures var m := HttpError(status);
      && |m| > 20 && m[..20] == "HTTP error! status: "
      && (forall i :: 20 <= i < |m| ==> IsDigit(m[i]))
      && ParseDigits(m[20..]) == status
  {
    var m := HttpError(status);
    assert m[20..] == NatToString(status);
    ParseNatToString(status);
  }

  /**
   * `tailorResume`: the details are extracted, the body is built and
   * `selectedResume` added when truthy, and the answer is handled.
   */
  method TailorResume<Rest>(jobDescription: string, selectedResume: Option<string>,
                            company: seq<Pattern>, manager: seq<Pattern>, address: seq<Pattern>,
                            server: Worker.PostBody -> ServerReply<Rest>)
    returns (r: Outcome<Rest>)
    ensures var details := ExtractedDetails(jobDescription, company, manager, address);
      r == Handle(server(RequestBodyOf(jobDescription, details, selectedResume)), details)
  {
    var jobDetails := ExtractJobDetails(jobDescription, company, manager, address);
    var requestBody := Worker.PostBody(Some(jobDescription), Some(jobDetails), None);
    if selectedResume.Some? && selectedResume.value != "" {
      requestBody := requestBody.(selectedResume := selectedResume);
    }
    var response := server(requestBody);
    if !response.ok {
      var errorData := if response.json.Some? then response.json.value.error else None;
      r := Threw(if errorData.Some? && errorData.value != "" then errorData.value else HttpError(response.status));
      return;
    }
    if response.json.None? {
      r := Unreadable;
      return;
    }
    var data := response.json.value;
    if !data.success {
      r := Threw(if data.error.Some? && data.error.value != "" then data.error.value else FAILED);
      return;
    }
    r := Returned(data.(jobDetails := if data.jobDetails.Some? then data.jobDetails else Some(jobDetails)));
  }
}
