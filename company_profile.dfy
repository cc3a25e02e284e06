/** Company profile analysis: the collected pages are joined into labelled
    sections, cut to a fixed size, sent to the language model once, and the
    reply is decoded into a profile. The model and the JSON decoder are
    parameters; each method also returns the prompts it sent, so that the
    number of model calls is part of its result. */
module CompanyProfile {
  import opened Wrappers
  import opened Text
  import opened Json
  import opened PageCollector
  import opened ResponseParsing
  import PromptTemplates

  /** What the language model gives back: its text, or an exception. */
  datatype ModelReply = Reply(text: string) | Raised

  /** Only this many characters of the combined content reach the prompt. */
  const ContentLimit: nat := 8000

  /** The prompt-table entry used for company analysis, and its one argument. */
  const AnalysisPrompt: string := "analyze_company_profile"
  const ContentArg: string := "combined_content"

  /** The fixed instruction text that the inline prompt puts around the content. */
  datatype PromptFrame = PromptFrame(head: string, tail: string)

  /** One labelled section: a header naming the page type in capitals, the text, a newline. */
  function Section(p: Page): (s: string)
    ensures |s| == |p.pageType| + |p.text| + 16
  {
    "\n--- " + Upper(p.pageType) + " PAGE ---\n" + p.text + "\n"
  }

  /** A section opens with the marker and the capitalised page type, and holds
      the page text, unchanged, just before its final newline. */
  lemma SectionLayout(p: Page)
    ensures var s := Section(p);
      s[..5] == "\n--- " && s[5..5 + |p.pageType|] == Upper(p.pageType) &&
      s[5 + |p.pageType|..15 + |p.pageType|] == " PAGE ---\n" &&
      s[|s| - 1 - |p.text|..|s| - 1] == p.text && s[|s| - 1] == '\n'
  {
  }

  /** All sections, in the order of the pages. */
  function Sections(pages: seq<Page>): (s: string)
    ensures s == [] <==> pages == []
    decreases |pages|
  {
    if pages == [] then [] else Sections(pages[..|pages| - 1]) + Section(pages[|pages| - 1])
  }

  /** Builds the combined content section by section. */
  method CombineContent(pages: seq<Page>) returns (combined: string)
    ensures combined == Sections(pages)
  {
    combined := "";
    for i := 0 to |pages|
      invariant combined == Sections(pages[..i])
    {
      assert pages[..i + 1][..i] == pages[..i];
      combined := combined + Section(pages[i]);
    }
    assert pages[..|pages|] == pages;
  }

  lemma SectionsSnoc(pages: seq<Page>, p: Page)
    ensures Sections(pages + [p]) == Sections(pages) + Section(p)
  {
    assert (pages + [p])[..|pages|] == pages;
  }

  lemma SplitLast(a: seq<Page>, b: seq<Page>)
    requires b != []
    ensures a + b == (a + b[..|b| - 1]) + [b[|b| - 1]]
    ensures b == b[..|b| - 1] + [b[|b| - 1]]
  {
  }

  lemma {:induction false} SectionsAppend(a: seq<Page>, b: seq<Page>)
    ensures Sections(a + b) == Sections(a) + Sections(b)
    decreases |b|
  {
    if b == [] {
      assert a + b == a;
    } else {
      var b', last := b[..|b| - 1], b[|b| - 1];
      SplitLast(a, b);
      SectionsSnoc(a + b', last);
      SectionsSnoc(b', last);
      SectionsAppend(a, b');
    }
  }

  /** The section of page `i` starts right after the sections of the pages before it. */
  lemma SectionAt(pages: seq<Page>, i: nat)
    requires i < |pages|
    ensures var o := |Sections(pages[..i])|;
      o + |Section(pages[i])| <= |Sections(pages)| &&
      Sections(pages)[o..o + |Section(pages[i])|] == Section(pages[i])
  {
    var before, after := pages[..i], pages[i + 1..];
    SplitAt(pages, i);
    SectionsAppend(before, [pages[i]] + after);
    SectionsAppend([pages[i]], after);
    SectionsSingle(pages[i]);
    SliceOfMiddle(Sections(before), Section(pages[i]), Sections(after));
  }

  lemma SplitAt(pages: seq<Page>, i: nat)
    requires i < |pages|
    ensures pages == pages[..i] + ([pages[i]] + pages[i + 1..])
  {
  }

  lemma SectionsSingle(p: Page)
    ensures Sections([p]) == Section(p)
  {
    assert [p][..0] == [];
  }

  lemma SliceOfMiddle(x: string, y: string, z: string)
    ensures (x + (y + z))[|x|..|x| + |y|] == y
  {
  }

  /** The part of the combined content the prompt receives. */
  function PromptContent(combined: string): (c: string)
    ensures |c| <= ContentLimit
    ensures StartsWith(combined, c)
    ensures |combined| <= ContentLimit ==> c == combined
  {
    Prefix(combined, ContentLimit)
  }

  /** The keyword arguments of the analysis prompt. */
  function PromptArgs(combined: string): map<string, string> {
    map[ContentArg := PromptContent(combined)]
  }

  /** `analyze_company_profile` of the shared helpers: no website or no page
      gives no profile and no model call; otherwise the prompt is rendered
      from the prompt table, sent once, and the reply is freed of code
      fences and decoded. A prompt that fails to render, a model exception
      and a decoding failure all give no profile. */
  method AnalyzeCompanyProfile(website: string, url: UrlParts, fetch: string -> FetchOutcome,
                               prompts: map<string, map<string, string>>,
                               model: string -> ModelReply, decode: string -> Option<Json>)
    returns (profile: Option<Json>, calls: seq<string>)
    ensures CollectSpec(website, url, fetch) == [] ==> profile == None && calls == []
    ensures var rendered := PromptTemplates.GetPrompt(prompts, AnalysisPrompt, PromptArgs(Sections(CollectSpec(website, url, fetch))));
      calls == (if CollectSpec(website, url, fetch) == [] || rendered.Err? then [] else [rendered.value])
    ensures profile.Some? <==> calls != [] && model(calls[0]).Reply? && decode(CleanResponse(model(calls[0]).text)).Some?
    ensures profile.Some? ==> profile == decode(CleanResponse(model(calls[0]).text))
  {
    if website == "" {
      return None, [];
    }
    var pages, _ := ExtractCompanyPages(website, url, fetch);
    if pages == [] {
      return None, [];
    }
    var combined := CombineContent(pages);
    var rendered := PromptTemplates.GetPrompt(prompts, AnalysisPrompt, PromptArgs(combined));
    if rendered.Err? {
      return None, [];
    }
    calls := [rendered.value];
    match model(rendered.value)
    case Raised =>
      profile := None;
    case Reply(text) =>
      profile := decode(CleanResponse(text));
  }

  /** The variant written out in the web application: the prompt is the
      content inside a fixed instruction text, and the reply is cut down to
      its outermost braces before decoding. */
  method AnalyzeCompanyProfileInline(website: string, url: UrlParts, fetch: string -> FetchOutcome,
                                     frame: PromptFrame,
                                     model: string -> ModelReply, decode: string -> Option<Json>)
    returns (profile: Option<Json>, calls: seq<string>)
    ensures CollectSpec(website, url, fetch) == [] ==> profile == None && calls == []
    ensures CollectSpec(website, url, fetch) != [] ==>
      calls == [frame.head + PromptContent(Sections(CollectSpec(website, url, fetch))) + frame.tail]
    ensures profile.Some? <==>
      (calls != [] && model(calls[0]).Reply? &&
       BracedText(model(calls[0]).text).Some? && decode(BracedText(model(calls[0]).text).value).Some?)
    ensures profile.Some? ==> profile == decode(BracedText(model(calls[0]).text).value)
  {
    if website == "" {
      return None, [];
    }
    var pages, _ := ExtractCompanyPages(website, url, fetch);
    if pages == [] {
      return None, [];
    }
    var combined := CombineContent(pages);
    var prompt := frame.head + PromptContent(combined) + frame.tail;
    calls := [prompt];
    match model(prompt)
    case Raised =>
      profile := None;
    case Reply(text) =>
      match BracedText(text)
      case None =>
        profile := None;
      case Some(body) =>
        profile := decode(body);
  }
}
