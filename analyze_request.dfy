/** The `/analyze` request of the web application: input validation, the
    resume-analysis call, the scoring call with the basic or the extended
    prompt, and the response with its previews and the company summary.
    Fetching the job description, reading the upload, the language model,
    the JSON codec and the company profile loaded at start-up are inputs. */
module AnalyzeRequest {
  import opened Wrappers
  import opened Text
  import opened Json
  import opened ResponseParsing
  import CompanyProfile

  /** The prompts the application sends. The fixed instruction text is not
      modelled; what varies is. A scoring prompt carries the encoded company
      profile exactly when it is the extended one. */
  datatype Prompt =
    | ResumePrompt(resumeText: string)
    | ScoringPrompt(candidate: string, jd: string, companyContext: Option<string>)

  /** The JSON keys each prompt asks the model for. */
  const ResumeFields: seq<string> :=
    ["name", "email", "phone", "skills", "experience_years", "experience_level", "summary"]
  const BasicFields: seq<string> :=
    ["overall_score", "skills_match", "experience_match", "culture_fit", "recommendation",
     "strengths", "concerns", "interview_focus", "rationale"]
  /** The four extra scores and the three extra lists of the extended prompt. */
  const CompanyFitScores: seq<string> :=
    ["industry_fit", "geographic_fit", "growth_stage_fit", "values_alignment"]
  const CompanyFitLists: seq<string> :=
    ["company_fit_highlights", "potential_challenges", "onboarding_considerations"]
  /** The extended keys, in the order the extended prompt lists them. */
  const ExtendedFields: seq<string> :=
    BasicFields[..4] + CompanyFitScores + BasicFields[4..8] + CompanyFitLists + BasicFields[8..]

  function RequestedFields(p: Prompt): seq<string> {
    match p
    case ResumePrompt(_) => ResumeFields
    case ScoringPrompt(_, _, context) => if context.Some? then ExtendedFields else BasicFields
  }

  /** The extended prompt asks for every basic field and for the company-fit fields, nothing else. */
  lemma ExtendedAddsCompanyFit(f: string)
    ensures f in ExtendedFields <==> f in BasicFields || f in CompanyFitScores || f in CompanyFitLists
  {
    assert BasicFields == BasicFields[..4] + BasicFields[4..8] + BasicFields[8..];
  }

  /** None of the company-fit fields is a basic field. */
  lemma CompanyFitNotBasic(f: string)
    requires f in CompanyFitScores || f in CompanyFitLists
    ensures f !in BasicFields
  {
  }

  /** `score_candidate_with_company_context`: the extended prompt is chosen
      exactly when the profile is truthy; `{}` and `[]` count as absent. */
  function ScoringPromptFor(candidate: string, jd: string, profile: Json, dumpProfile: Json -> string): (p: Prompt)
    ensures p.ScoringPrompt? && p.candidate == candidate && p.jd == jd
    ensures p.companyContext.Some? <==> PyTruthy(profile)
    ensures p.companyContext.Some? ==> p.companyContext.value == dumpProfile(profile)
  {
    if PyTruthy(profile) then ScoringPrompt(candidate, jd, Some(dumpProfile(profile)))
    else ScoringPrompt(candidate, jd, None)
  }

  /** `score_candidate`, the older entry point, always uses the basic prompt. */
  lemma LegacyScoringIsBasic(candidate: string, jd: string, dumpProfile: Json -> string)
    ensures ScoringPromptFor(candidate, jd, JNull, dumpProfile) == ScoringPrompt(candidate, jd, None)
    ensures RequestedFields(ScoringPromptFor(candidate, jd, JNull, dumpProfile)) == BasicFields
  {
  }

  // ----- Truncated previews -----

  const PreviewLimit: nat := 500
  const MissionLimit: nat := 200

  /** `s[:limit] + "..." if len(s) > limit else s`. */
  function Truncate(s: string, limit: nat): (r: string)
    ensures |r| <= limit + 3
    ensures StartsWith(r, Prefix(s, limit))
    ensures |s| <= limit ==> r == s
    ensures |s| > limit ==> |r| == limit + 3 && EndsWith(r, "...")
  {
    if |s| > limit then s[..limit] + "..." else s
  }

  // ----- Company summary -----

  /** What the response reports about the company profile. */
  datatype Summary = Summary(industry: Json, stage: Json, culture: Json, mission: Json)

  /** `profile.get(outer, {}).get(inner, default)`; `None` when a level is not
      an object, where Python raises an AttributeError. */
  function NestedGet(profile: Json, outer: string, inner: string, default: Json): (r: Option<Json>)
    ensures r.Some? <==> profile.JObj? && (outer in profile.fields ==> profile.fields[outer].JObj?)
    ensures r.Some? && outer in profile.fields && inner in profile.fields[outer].fields ==>
      r.value == profile.fields[outer].fields[inner]
    ensures r.Some? && !(outer in profile.fields && inner in profile.fields[outer].fields) ==> r.value == default
  {
    match profile
    case JObj(fields) =>
      if outer !in fields then Some(default)
      else (match fields[outer]
            case JObj(inside) => Some(if inner in inside then inside[inner] else default)
            case _ => None)
    case _ => None
  }

  /** Python's `len`, defined on strings, lists and objects only. */
  function PyLen(v: Json): Option<nat> {
    match v
    case JStr(s) => Some(|s|)
    case JArr(items) => Some(|items|)
    case JObj(fields) => Some(|fields|)
    case _ => None
  }

  /** The mission entry: a long string is cut to 200 characters plus "...",
      a missing one reads "N/A". */
  function Mission(profile: Json): (r: Option<Json>)
    ensures r.Some? && r.value.JStr? ==> |r.value.s| <= MissionLimit + 3
  {
    match NestedGet(profile, "company_focus", "core_mission", JStr(""))
    case None => None
    case Some(v) =>
      match PyLen(v)
      case None => None
      case Some(n) =>
        if n > MissionLimit then
          (if v.JStr? then Some(JStr(Truncate(v.s, MissionLimit))) else None)
        else NestedGet(profile, "company_focus", "core_mission", JStr("N/A"))
  }

  function CompanySummary(profile: Json): Option<Summary> {
    var industry := NestedGet(profile, "business_intelligence", "industry_sector", JStr("N/A"));
    var stage := NestedGet(profile, "growth_stage", "stage", JStr("N/A"));
    var culture := NestedGet(profile, "company_culture", "work_environment", JStr("N/A"));
    var mission := Mission(profile);
    if industry.Some? && stage.Some? && culture.Some? && mission.Some? then
      Some(Summary(industry.value, stage.value, culture.value, mission.value))
    else None
  }

  /** `len()` raises on the mission value, or it is too long and cannot be sliced. */
  predicate MissionRaises(fields: map<string, Json>) {
    "company_focus" in fields && fields["company_focus"].JObj? &&
    var focus := fields["company_focus"].fields;
    "core_mission" in focus &&
    (PyLen(focus["core_mission"]).None? ||
     (PyLen(focus["core_mission"]).value > MissionLimit && !focus["core_mission"].JStr?))
  }

  /** A section that is present but is not an object, so `.get` on it raises. */
  predicate NotAnObject(fields: map<string, Json>, section: string) {
    section in fields && !fields[section].JObj?
  }

  /** Building the company summary raises exactly when the profile is not an
      object, one of the four sections it reads is not an object, or the
      mission has no length or is a long value that is not a string. */
  lemma CompanySummaryFails(profile: Json)
    ensures CompanySummary(profile).None? <==>
      (!profile.JObj? ||
       NotAnObject(profile.fields, "business_intelligence") ||
       NotAnObject(profile.fields, "growth_stage") ||
       NotAnObject(profile.fields, "company_culture") ||
       NotAnObject(profile.fields, "company_focus") ||
       MissionRaises(profile.fields))
  {
  }

  /** A profile whose company-focus entry has no mission reports "N/A". */
  lemma MissionDefault(fields: map<string, Json>)
    requires "company_focus" !in fields
    ensures Mission(JObj(fields)) == Some(JStr("N/A"))
  {
  }

  /** A company-focus entry without a mission reports "N/A". */
  lemma MissionMissingCore(fields: map<string, Json>, focus: map<string, Json>)
    requires "company_focus" in fields && fields["company_focus"] == JObj(focus)
    requires "core_mission" !in focus
    ensures Mission(JObj(fields)) == Some(JStr("N/A"))
  {
  }

  /** A mission whose length is at most 200 is reported unchanged, whatever its type. */
  lemma MissionShort(fields: map<string, Json>, focus: map<string, Json>)
    requires "company_focus" in fields && fields["company_focus"] == JObj(focus)
    requires "core_mission" in focus
    requires PyLen(focus["core_mission"]).Some? && PyLen(focus["core_mission"]).value <= MissionLimit
    ensures Mission(JObj(fields)) == Some(focus["core_mission"])
  {
  }

  /** A long mission string is cut to its first 200 characters and "...". */
  lemma MissionTruncated(fields: map<string, Json>, focus: map<string, Json>, mission: string)
    requires "company_focus" in fields && fields["company_focus"] == JObj(focus)
    requires "core_mission" in focus && focus["core_mission"] == JStr(mission)
    requires |mission| > MissionLimit
    ensures Mission(JObj(fields)) == Some(JStr(mission[..MissionLimit] + "..."))
  {
  }

  // ----- The request -----

  /** An uploaded file: its name and what the two extractors make of its bytes
      (the PDF extractor never fails; UTF-8 decoding may). */
  datatype Upload = Upload(filename: string, pdfText: string, utf8Text: Option<string>)

  /** The form fields; `None` when absent. */
  datatype Request = Request(jdUrl: Option<string>, resume: Option<Upload>)

  /** Everything outside the request handler. A profile of `JNull` is no profile.
      The resume is serialised compactly for the scoring prompt and the profile
      with indentation, so the two serialisations are separate parameters. */
  datatype Services = Services(
    jdText: string -> string,
    model: Prompt -> CompanyProfile.ModelReply,
    decode: string -> Option<Json>,
    dumpResume: Json -> string,
    dumpProfile: Json -> string,
    profile: Json)

  datatype AnalyzeError =
    | MissingInputs
    | JdUnavailable(text: string)
    | NoResumeText(filename: string)
    | ResumeCallFailed
    | ResumeNotFound
    | ResumeNotJson
    | ScoringCallFailed
    | ScoringNotFound
    | ScoringNotJson
    | Unexpected

  datatype Response =
    | Failure(error: AnalyzeError)
    | Success(resume: Json, scoring: Json, jdPreview: string, enhanced: bool, summary: Option<Summary>)

  /** The response and the prompts sent to the model, in order. */
  datatype Outcome = Outcome(response: Response, calls: seq<Prompt>)

  /** The `error` text of each failure. For failures raised as exceptions the
      exception's own text, which Python appends, is not modelled. */
  function Message(e: AnalyzeError): string {
    match e
    case MissingInputs => "Please provide both JD URL and resume file"
    case JdUnavailable(text) => text
    case NoResumeText(filename) => "Could not extract text from " + filename
    case ResumeCallFailed => "Error analyzing resume: "
    case ResumeNotFound => "Could not parse resume analysis response"
    case ResumeNotJson => "Error parsing resume analysis"
    case ScoringCallFailed => "Error scoring candidate: "
    case ScoringNotFound => "Could not parse scoring response"
    case ScoringNotJson => "Error parsing scoring response"
    case Unexpected => "Unexpected error: "
  }

  /** Form fields count as given when present and non-empty; an upload
      without a file name counts as missing. */
  predicate InputsPresent(req: Request) {
    req.jdUrl.Some? && req.jdUrl.value != [] && req.resume.Some? && req.resume.value.filename != []
  }

  /** The resume text: the PDF extractor for names ending in `.pdf`, UTF-8 otherwise. */
  function ResumeText(upload: Upload): Option<string> {
    if EndsWith(upload.filename, ".pdf") then Some(upload.pdfText) else upload.utf8Text
  }

  /** A request the handler gets past validation with. */
  predicate Validated(req: Request, svc: Services) {
    InputsPresent(req) && !StartsWith(svc.jdText(req.jdUrl.value), "Error") &&
    ResumeText(req.resume.value).Some? && ResumeText(req.resume.value).value != []
  }

  /** What a model reply turns into once its outermost braces are decoded. */
  datatype ReadOutcome = Parsed(value: Json) | CallFailed | NoObject | NotJson

  function ReadReply(reply: CompanyProfile.ModelReply, decode: string -> Option<Json>): (r: ReadOutcome)
    ensures r.Parsed? <==> reply.Reply? && BracedText(reply.text).Some? && decode(BracedText(reply.text).value).Some?
    ensures r.NoObject? <==> reply.Reply? && !OpenBeforeClose(reply.text)
    ensures r.CallFailed? <==> reply.Raised?
    ensures r.Parsed? ==> r.value == decode(BracedText(reply.text).value).value
  {
    match reply
    case Raised => CallFailed
    case Reply(text) =>
      match BracedText(text)
      case None => NoObject
      case Some(body) =>
        match decode(body)
        case None => NotJson
        case Some(v) => Parsed(v)
  }

  /** The success response: the job description preview, whether a profile
      was loaded at all, and the company summary for a truthy profile. */
  function Respond(resume: Json, scoring: Json, jd: string, profile: Json): (r: Response)
    ensures r.Success? ==> r.jdPreview == Truncate(jd, PreviewLimit) && r.enhanced == (profile != JNull)
    ensures r.Success? ==> (r.summary.Some? <==> PyTruthy(profile))
    ensures r.Failure? <==> PyTruthy(profile) && CompanySummary(profile).None?
    ensures r.Failure? ==> r.error == Unexpected
    ensures r.Success? ==> r.resume == resume && r.scoring == scoring
    ensures r.Success? ==> r.summary == (if PyTruthy(profile) then CompanySummary(profile) else None)
  {
    if PyTruthy(profile) then
      match CompanySummary(profile)
      case None => Failure(Unexpected)
      case Some(summary) => Success(resume, scoring, Truncate(jd, PreviewLimit), profile != JNull, Some(summary))
    else Success(resume, scoring, Truncate(jd, PreviewLimit), profile != JNull, None)
  }

  /** The `/analyze` handler. */
  function Analyze(req: Request, svc: Services): (o: Outcome)
    ensures o.calls == [] <==> !Validated(req, svc)
    ensures !InputsPresent(req) ==> o.response == Failure(MissingInputs)
    ensures |o.calls| <= 2
    ensures o.calls != [] ==> o.calls[0] == ResumePrompt(ResumeText(req.resume.value).value)
    ensures |o.calls| == 2 ==>
      (o.calls[1].ScoringPrompt? && (o.calls[1].companyContext.Some? <==> PyTruthy(svc.profile)))
    ensures o.response.Success? ==> |o.calls| == 2 && o.response.enhanced == (svc.profile != JNull)
    ensures o.response.Failure? && o.response.error in {ResumeCallFailed, ResumeNotFound, ResumeNotJson} ==> |o.calls| == 1
    ensures |o.calls| == 2 ==>
      var resume := ReadReply(svc.model(o.calls[0]), svc.decode);
      resume.Parsed? &&
      o.calls[1] == ScoringPromptFor(svc.dumpResume(resume.value), svc.jdText(req.jdUrl.value), svc.profile, svc.dumpProfile)
    ensures o.calls != [] ==> (ReadReply(svc.model(o.calls[0]), svc.decode).Parsed? <==> |o.calls| == 2)
    ensures |o.calls| == 1 ==>
      var resume := ReadReply(svc.model(o.calls[0]), svc.decode);
      (resume.CallFailed? ==> o.response == Failure(ResumeCallFailed)) &&
      (resume.NoObject? ==> o.response == Failure(ResumeNotFound)) &&
      (resume.NotJson? ==> o.response == Failure(ResumeNotJson))
    ensures |o.calls| == 2 ==>
      var resume := ReadReply(svc.model(o.calls[0]), svc.decode);
      var scoring := ReadReply(svc.model(o.calls[1]), svc.decode);
      resume.Parsed? &&
      (scoring.CallFailed? ==> o.response == Failure(ScoringCallFailed)) &&
      (scoring.NoObject? ==> o.response == Failure(ScoringNotFound)) &&
      (scoring.NotJson? ==> o.response == Failure(ScoringNotJson)) &&
      (scoring.Parsed? ==>
        o.response == Respond(resume.value, scoring.value, svc.jdText(req.jdUrl.value), svc.profile))
    ensures o.response.Success? ==>
      var resume := ReadReply(svc.model(o.calls[0]), svc.decode);
      var scoring := ReadReply(svc.model(o.calls[1]), svc.decode);
      resume.Parsed? && scoring.Parsed? &&
      o.response == Respond(resume.value, scoring.value, svc.jdText(req.jdUrl.value), svc.profile)
  {
    if !InputsPresent(req) then Outcome(Failure(MissingInputs), [])
    else
      var jd := svc.jdText(req.jdUrl.value);
      if StartsWith(jd, "Error") then Outcome(Failure(JdUnavailable(jd)), [])
      else
        var upload := req.resume.value;
        match ResumeText(upload)
        case None => Outcome(Failure(Unexpected), [])
        case Some(text) =>
          if text == [] then Outcome(Failure(NoResumeText(upload.filename)), [])
          else
            var first := ResumePrompt(text);
            match ReadReply(svc.model(first), svc.decode)
            case CallFailed => Outcome(Failure(ResumeCallFailed), [first])
            case NoObject => Outcome(Failure(ResumeNotFound), [first])
            case NotJson => Outcome(Failure(ResumeNotJson), [first])
            case Parsed(resume) =>
              var second := ScoringPromptFor(svc.dumpResume(resume), jd, svc.profile, svc.dumpProfile);
              match ReadReply(svc.model(second), svc.decode)
              case CallFailed => Outcome(Failure(ScoringCallFailed), [first, second])
              case NoObject => Outcome(Failure(ScoringNotFound), [first, second])
              case NotJson => Outcome(Failure(ScoringNotJson), [first, second])
              case Parsed(scoring) => Outcome(Respond(resume, scoring, jd, svc.profile), [first, second])
  }

  // ----- Properties of the handler -----

  /** A job description that reads as an error stops the request, before the
      resume is looked at and before any model call. */
  lemma JdErrorStopsRequest(req: Request, svc: Services)
    requires InputsPresent(req) && StartsWith(svc.jdText(req.jdUrl.value), "Error")
    ensures Analyze(req, svc) == Outcome(Failure(JdUnavailable(svc.jdText(req.jdUrl.value))), [])
  {
  }

  /** An empty resume text is reported with the file name, before any model call. */
  lemma EmptyResumeStopsRequest(req: Request, svc: Services)
    requires InputsPresent(req) && !StartsWith(svc.jdText(req.jdUrl.value), "Error")
    requires ResumeText(req.resume.value) == Some([])
    ensures Analyze(req, svc) == Outcome(Failure(NoResumeText(req.resume.value.filename)), [])
  {
  }

  /** A resume reply without a braced object ends the request after one call:
      scoring is never reached. */
  lemma UnparsedResumeSkipsScoring(req: Request, svc: Services, reply: string)
    requires Validated(req, svc)
    requires svc.model(ResumePrompt(ResumeText(req.resume.value).value)) == CompanyProfile.Reply(reply)
    requires !OpenBeforeClose(reply)
    ensures Analyze(req, svc) == Outcome(Failure(ResumeNotFound), [ResumePrompt(ResumeText(req.resume.value).value)])
  {
  }

  /** An empty profile object is loaded, so the analysis is reported as
      enhanced, yet it is false: the basic prompt is used and no company
      summary is given. */
  lemma EmptyProfileObject(req: Request, svc: Services)
    requires svc.profile == JObj(map[])
    ensures var o := Analyze(req, svc);
      (|o.calls| == 2 ==> o.calls[1].companyContext.None?) &&
      (o.response.Success? ==> o.response.enhanced && o.response.summary.None?)
  {
  }

  /** Every error text is non-empty: a job description is only reported as
      an error when it starts with "Error". */
  lemma MessageNonEmpty(e: AnalyzeError)
    requires e.JdUnavailable? ==> StartsWith(e.text, "Error")
    ensures Message(e) != []
  {
  }
}
