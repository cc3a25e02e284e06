# candidate-scorer, modelled in Dafny

The candidate scorer is a small web application. A recruiter gives it a job
description URL and a resume file. The application asks a language model to
analyse the resume. It then asks the model to score the candidate against the
job description, with a richer prompt when a company profile was loaded at
start-up. The browser renders the result as score bars, a recommendation
badge and assessment lists. A company profile is built by scraping up to
eleven pages of the company's website and asking the model to summarise them.

This project models the core of that pipeline:

- `PageCollector` (`page_collector.dfy`) models the company page collector
  `extract_company_pages`. It covers the eleven labelled URLs and the
  whitespace normalisation `re.sub(r'\s+', ' ', text).strip()`. It also
  covers the 200/2000 character rules and the collection loop, which tries
  every URL in order.
- `ResponseParsing` (`response_parsing.dfy`) models the two ways a model
  reply is turned into JSON text:
  - the greedy `\{.*\}` search with `re.DOTALL`;
  - the code-fence removal `re.sub(r'```json\s*|\s*```', '', text).strip()`.
- `PromptTemplates` (`prompt_templates.dfy`) models `get_prompt`: a lookup in
  the prompt table, then Python's `str.format` with keyword arguments only.
  It covers escaped braces, unmatched braces, missing keys and the
  left-to-right order of errors.
- `CompanyProfile` (`company_profile.dfy`) models the two variants of
  `analyze_company_profile`. Each joins the pages into labelled sections,
  cuts them to 8000 characters, calls the model once and decodes the reply.
- `AnalyzeRequest` (`analyze_request.dfy`) models the `/analyze` handler. It
  covers input validation, the resume call, the choice between the basic and
  the extended scoring prompt, the error messages, and the response with its
  previews and company summary.
- `ResultsView` (`results_view.dfy`) models the front end's decisions:
  - the colour band of a score bar;
  - the recommendation icon and the badge class;
  - which company-fit bars and lists are shown.
- `Text`, `Json` and `Wrappers` hold the shared pieces:
  - Python's whitespace set and `str.strip()`;
  - ASCII case mapping;
  - JSON values with Python and JavaScript truthiness;
  - `Option` and `Result`.

The model is a set of parameters, not fixed functions, for:

- the network (`fetch`, `jdText`);
- the language model (`model`);
- the JSON codec (`decode`, and `dumpResume` and `dumpProfile` for the two serialisations);
- `urlparse`;
- the PDF and UTF-8 extractors;
- the prompt table and the company profile read from disk.

Each operation that calls the model also returns the prompts it sent. This
makes "how many model calls, with what" part of the result.

Two behaviours of the code are worth knowing:

- The fence cleanup is not idempotent. `ResponseParsing.CleanNotIdempotent`
  exhibits a reply that cleans to a bare fence, and that fence cleans to the
  empty string.
- An unknown prompt name is not an error. `get_prompt` looks it up with
  `.get(name, {}).get("prompt", "")` and so renders the empty template
  (`PromptTemplates.UnknownPromptIsEmpty`).

## Model

| member | source | states |
|---|---|---|
| Text.Strip | utils.py:66 | The result is empty exactly when the input is all whitespace; otherwise it neither starts nor ends with whitespace, and it is no longer than the input |
| Text.StripIdempotent | utils.py:66 | Stripping twice gives the same text as stripping once |
| Text.StripKeepsNonSpace | utils.py:66 | Stripping removes whitespace only: the other characters survive, in order |
| Text.LowerIdempotent | static/js/main.js:376 | Lower-casing a lower-cased text changes nothing |
| Text.LowerOfUpper | static/js/main.js:376 | Lower-casing after upper-casing gives the same text as lower-casing alone |
| Json.EmptyObjectTruthiness | main.py:252 | An empty object is false for Python's `if` but true for JavaScript's |
| PageCollector.Targets | utils.py:36-48 | Eleven targets: the website itself labelled `main`, then the ten labelled paths joined to the site's scheme and host, in list order |
| PageCollector.CheckedTargets | utils.py:28-33 | Nothing is tried for an empty or unparseable website; otherwise all eleven targets are tried, starting with the website |
| PageCollector.CollapseSpaces | utils.py:66 | The result is no longer than the input, empty only for empty input, and starts with whitespace exactly when the input does |
| PageCollector.CollapseSingleSpaced | utils.py:66 | After collapsing, no two whitespace characters are adjacent and every whitespace character is a plain space |
| PageCollector.CollapseAppend | utils.py:66 | Collapsing splits at any point right after a character that is not whitespace |
| PageCollector.CollapseSplit | utils.py:66 | A whitespace run of any length and characters between two words becomes exactly one space |
| PageCollector.CollapseNoSpace | utils.py:66 | Text without whitespace is unchanged |
| PageCollector.WordsAreWords | utils.py:66 | Every piece of the word split is non-empty and free of whitespace |
| PageCollector.NormalizeSpacesJoinsWords | utils.py:66 | The cleaned page text equals the text's words joined by single spaces, `" ".join(text.split())` |
| PageCollector.CollapseKeepsNonSpace | utils.py:66 | Collapsing whitespace keeps every other character in order |
| PageCollector.NormalizeSpaces | utils.py:66 | The cleaned text has no whitespace at its ends, is single-spaced, keeps every other character in order, and is empty exactly when the page text is all whitespace |
| PageCollector.PageText | utils.py:57-69 | A page is kept exactly when the status is 200 and the cleaned text is longer than 200 characters; the kept text is a prefix of the cleaned text of length exactly the smaller of its length and 2000 |
| PageCollector.KeepPagesBounds | utils.py:68-69 | Every stored page text is longer than 200 and at most 2000 characters |
| PageCollector.ExtractCompanyPages | utils.py:26-79 | The pages are the kept outcomes of the checked targets in order; the URLs fetched are exactly the checked targets; an empty website yields nothing and fetches nothing |
| PageCollector.TryTargets | main.py:133-156 | The loop fetches every target once, in order, and stores the kept pages in the order tried; a failed fetch does not stop it |
| PageCollector.KeepPagesInOrder | main.py:131-150 | The kept page types are the tried types with some left out, in the same order |
| PageCollector.CollectInListOrder | utils.py:36-52 | The keys of the result are a subsequence of the eleven page types |
| PageCollector.CollectLookup | utils.py:52-73 | Looking up a page type in the result gives exactly what that type's own fetch produced, whatever the other fetches gave |
| PageCollector.CollectOnlyLabels | utils.py:36-48 | No key outside the eleven page types is ever present |
| ResponseParsing.FirstIndexOf | main.py:236 | The index of the first occurrence, or none exactly when the character is absent |
| ResponseParsing.LastIndexOf | main.py:236 | The index of the last occurrence, or none exactly when the character is absent |
| ResponseParsing.SearchBraces | main.py:236-237 | The greedy search matches exactly when some `{` comes before some `}`; the match runs from the first `{` to the last `}` |
| ResponseParsing.BracedText | main.py:363-366 | The matched text exists exactly when some `{` precedes some `}`, and it is the substring of the reply from the first `{` to the last `}` |
| ResponseParsing.BracedTextOfWrapped | main.py:236-239 | Prose before a braced block without `{`, and after it without `}`, is discarded |
| ResponseParsing.CleanResponse | utils.py:108 | The cleaned reply has no whitespace at its ends and is no longer than the reply |
| ResponseParsing.CleanNoBacktick | utils.py:108 | A reply without backticks is only stripped |
| ResponseParsing.CleanFenced | utils.py:108 | A reply wrapped in a json code fence cleans to its stripped body |
| ResponseParsing.CleanFencedPadded | utils.py:108 | Whitespace around the fenced body makes no difference |
| ResponseParsing.CleanNotIdempotent | utils.py:108 | Cleaning is not idempotent: a one-backtick, space, five-backtick reply cleans to a fence, which cleans to the empty string |
| ResponseParsing.CleanSpaceBeforeOpeningFence | utils.py:108 | Whitespace before the opening fence is removed together with the backticks, so the word `json` stays in the cleaned text |
| ResponseParsing.CleanLeadingNewlineKeepsJsonWord | utils.py:108 | A newline before a fenced `{}` leaves `json` and a newline in front of it |
| PromptTemplates.Next | utils.py:24 | One scanner step: the end of the template exactly when it is empty; an emitted character is the undoubled form of what was consumed; a field is a valid plain name between braces; every step consumes input |
| PromptTemplates.Render | utils.py:24 | A missing-key error names a field that is valid and not among the arguments |
| PromptTemplates.Parse | utils.py:24 | A parsed template unparses to the original text and contains only valid field names; a syntax error is never a missing key |
| PromptTemplates.Fill | utils.py:24 | A fill succeeds exactly when every field of the template names a supplied key; a failure names a field of the template |
| PromptTemplates.ParseUnparse | utils.py:24 | Parsing recovers the pieces any well-formed template was written from |
| PromptTemplates.RenderIsParseThenFill | utils.py:24 | Rendering equals parsing followed by filling whenever the template parses, and a template that renders always parses |
| PromptTemplates.RenderEscape | utils.py:24 | Text with doubled braces renders to itself, whatever follows it |
| PromptTemplates.RenderLiteral | utils.py:24 | A template without fields renders to its text with the braces undoubled |
| PromptTemplates.RenderSubstitutes | utils.py:24 | A field is replaced by its keyword argument's value |
| PromptTemplates.RenderMissingKey | utils.py:24 | A field with a missing keyword fails, whatever comes after it |
| PromptTemplates.RenderUnmatched | utils.py:24 | A lone `}` or a trailing `{` is refused with its own error |
| PromptTemplates.RenderExtraArgs | utils.py:24 | Keyword arguments the template does not use make no difference |
| PromptTemplates.GetPrompt | utils.py:21-24 | A missing-key error names a key that was not passed |
| PromptTemplates.UnknownPromptIsEmpty | utils.py:23-24 | An unknown prompt name, or an entry without a template, renders the empty prompt |
| PromptTemplates.KnownPromptRenders | utils.py:21-24 | A known prompt renders its own template with the argument substituted |
| CompanyProfile.Section | utils.py:96 | The section's length is the page type plus the text plus 16 marker characters |
| CompanyProfile.SectionLayout | utils.py:96 | A section opens with the marker and the upper-cased page type, followed by " PAGE ---" and a newline, and ends with the page text, unchanged, and a newline |
| CompanyProfile.Sections | utils.py:94-96 | The combined content is empty exactly when there are no pages |
| CompanyProfile.CombineContent | main.py:175-177 | The loop builds the sections of all pages, in page order |
| CompanyProfile.SectionsAppend | utils.py:95-96 | The sections of two page lists in a row are the two section texts in a row |
| CompanyProfile.SectionAt | utils.py:95-96 | The section of page i appears intact, right after the sections of the pages before it |
| CompanyProfile.PromptContent | utils.py:101 | The prompt receives a prefix of the combined content of at most 8000 characters, and all of it when it fits |
| CompanyProfile.AnalyzeCompanyProfile | utils.py:81-118 | No pages means no profile and no model call. Otherwise the prompt table's analysis prompt is rendered with the cut content and sent once, unless rendering fails. A profile results exactly when the model answers and the fence-cleaned reply decodes |
| CompanyProfile.AnalyzeCompanyProfileInline | main.py:162-247 | No pages means no profile and no model call. Otherwise one prompt, holding the cut content inside the fixed instructions, is sent. A profile results exactly when the model answers and its outermost braced text decodes |
| AnalyzeRequest.ExtendedAddsCompanyFit | main.py:254-319 | The extended prompt asks for exactly the basic fields plus the four company-fit scores and three company-fit lists |
| AnalyzeRequest.CompanyFitNotBasic | main.py:254-319 | No company-fit field is among the basic fields |
| AnalyzeRequest.ScoringPromptFor | main.py:249-322 | The extended prompt is used exactly when the profile is truthy, and it carries the profile as `dumpProfile` serialises it |
| AnalyzeRequest.LegacyScoringIsBasic | main.py:324-326 | The legacy entry point always uses the basic prompt and asks for the basic fields |
| AnalyzeRequest.Truncate | main.py:404 | The preview starts with the first `limit` characters, is the whole text when it fits, and otherwise is `limit` characters followed by `...` |
| AnalyzeRequest.NestedGet | main.py:411-414 | A nested lookup with default fails exactly where Python raises, when a level is not an object; otherwise it is the stored value or the default |
| AnalyzeRequest.Mission | main.py:414 | A reported mission string is at most 203 characters long |
| AnalyzeRequest.MissionDefault | main.py:414 | A profile without a company-focus entry reports the mission as "N/A" |
| AnalyzeRequest.MissionMissingCore | main.py:414 | A company-focus entry without a mission reports "N/A" |
| AnalyzeRequest.MissionShort | main.py:414 | A mission whose length is at most 200 is reported unchanged |
| AnalyzeRequest.CompanySummaryFails | main.py:409-415 | The company summary raises exactly when the profile is not an object, one of the four sections it reads is present but not an object, or the mission has no length or is longer than 200 and not a string |
| AnalyzeRequest.MissionTruncated | main.py:414 | A mission longer than 200 characters is cut to 200 characters and "..." |
| AnalyzeRequest.ReadReply | main.py:359-375 | A reply is parsed exactly when the model answered and its braced text decodes, and the value is that decoding; "no object" exactly when no `{` precedes a `}`; a call failure exactly when the model raised |
| AnalyzeRequest.Respond | main.py:399-417 | The response carries the decoded resume and scoring and the truncated job description; the enhanced flag says whether a profile was loaded at all; the summary is the company summary exactly when the profile is truthy; the response is the unexpected error exactly when a truthy profile's summary raises |
| AnalyzeRequest.Analyze | main.py:332-421 | The model is called only when validation passes, at most twice, the resume prompt first. The scoring prompt is built from the serialised decoded resume and the job description, and is extended exactly when the profile is truthy. A success made both calls and is the response built from both decoded replies. A resume failure made exactly one call. Conversely, a resume reply that decodes leads to the second call, and each failure kind of either reply maps to its own error: call failed, no object found, not JSON |
| AnalyzeRequest.JdErrorStopsRequest | main.py:345-347 | A job description text starting with "Error" is returned as the error, with no model call |
| AnalyzeRequest.EmptyResumeStopsRequest | main.py:356-357 | An empty resume text is reported with the file name, with no model call |
| AnalyzeRequest.UnparsedResumeSkipsScoring | main.py:363-369 | A resume reply with no braced object ends the request after one call |
| AnalyzeRequest.EmptyProfileObject | main.py:399-415 | An empty profile object is reported as enhanced, yet the basic prompt is used and no summary is given |
| AnalyzeRequest.MessageNonEmpty | main.py:340-421 | Every error response carries a non-empty error text |
| ResultsView.ScoreBand | static/js/main.js:358 | A missing score, which compares as NaN, gets the lowest band |
| ResultsView.BandCountsThresholds | static/js/main.js:358 | The band of a score is the number of the thresholds 4, 6, 8 it reaches |
| ResultsView.BandMonotone | static/js/main.js:358 | A higher score never gets a lower band |
| ResultsView.RecommendationIcon | static/js/main.js:374-381 | The unknown icon is shown exactly for a missing or empty recommendation; otherwise the lower-cased text picks the strong, moderate or weak icon by the first of "strong", "moderate", "weak" it contains, in that priority, and the clipboard icon when it contains none |
| ResultsView.IconIgnoresCase | static/js/main.js:376 | The icon does not depend on letter case |
| ResultsView.ReplaceFirstSpec | static/js/main.js:189 | Only the first occurrence of the character is replaced; every other character is kept |
| ResultsView.BadgeClass | static/js/main.js:189 | A missing or empty recommendation gets the class "unknown" |
| ResultsView.BadgeClassSpec | static/js/main.js:189 | The badge class is the recommendation lower-cased, with its first space, and only that one, turned into a hyphen |
| ResultsView.BadgeOfStrongMatch | static/js/main.js:189 | "Strong Match" gets the class "strong-match" |
| ResultsView.Keep | static/js/main.js:236-241 | A panel is kept exactly when it is in the list and passes the test |
| ResultsView.EnhancedBarShown | static/js/main.js:236-241 | A company-fit bar is shown exactly when the analysis is enhanced and its score is truthy |
| ResultsView.EnhancedListShown | static/js/main.js:296-327 | A company-fit list is shown exactly when the analysis is enhanced and it is a non-empty array |
| ResultsView.EmptyListTruthyButHidden | static/js/main.js:297 | An empty list is truthy in the browser, yet its panel is not shown |
| ResultsView.PanelsMatchExtendedPrompt | static/js/main.js:236-327 | The company-fit panels show exactly the keys that only the extended scoring prompt asks for |

## Left out

- Network access and HTML handling are not modelled. `requests.get`, the 10-second timeout and BeautifulSoup's removal of script, style, nav, footer and header elements are folded into the `fetch` parameter, which yields the visible text or a failure.
- `urlparse` is an input (`UrlParts`). `urljoin` is modelled only for the absolute paths the collector joins.
- The language model is a parameter. Prompts are modelled by what varies in them: the page content, the resume text, the candidate, the job description and the company context. The fixed instruction text is `PromptFrame` or is left out.
- The JSON grammar is not modelled. `json.loads` is the `decode` parameter. The two serialisations are `dumpResume`, `json.dumps(resume_data)`, and `dumpProfile`, `json.dumps(company_profile, indent=2)`.
- PDF extraction, `extract_text_from_url` and UTF-8 decoding are inputs of the request (`Upload`, `Services.jdText`).
- Flask routing, `jsonify`, environment variables and the start-up loading of `prompts.json` and `company_profile.json` are left out. The loaded values are parameters. A profile file holding `null` counts as no profile.
- `analyze_company.py` and `test_local.py` are command-line and test drivers around the same functions. They are not part of this model.
- Printing and logging are left out, since they do not affect results.
- The HTML text of the result page, `sanitizeHTML`, DOM updates, timers and the company-context card are left out. The front end is modelled by the decisions it makes.
- ResultsView.BadgeClass: assumes `sanitizeHTML` leaves the class text unchanged, because the sanitiser is DOM code.
- ResultsView.ScoreBand: scores are modelled as numbers or NaN. JavaScript's coercion of a string score, and the bar's width percentage, are left out.
- ResultsView.RecommendationIcon: only string recommendations are modelled. A non-string value would throw in the browser.
- Text.Lower: case mapping covers the ASCII letters only, because full Unicode case tables are out of scope. JavaScript's `toLowerCase` and Python's `upper` also map other letters, some of them onto ASCII (U+212A KELVIN SIGN lower-cases to `k`). A recommendation or page type with such letters may therefore get a different icon, badge class or section header than the model gives.
- PromptTemplates.Render: the unsupported field features are reported as one `Unsupported` error. These are attribute access, indexing, conversions, format specs and nested fields. Non-ASCII decimal digits in a field name are not recognised as positional.
- PromptTemplates.TemplateOf: only prompt entries whose values are strings are modelled.
- AnalyzeRequest.Message: for failures raised as exceptions, only the fixed prefix of the error text is modelled. The exception's own message, which Python appends, is not.
- AnalyzeRequest.Analyze: an exception from the job description or PDF extractors is not modelled; they are total functions here. A failed UTF-8 decoding is the unexpected-error response.
