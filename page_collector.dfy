/** The company page collector, `extract_company_pages` (identical in main.py
    and utils.py). Fetching, HTML tag removal and URL parsing are inputs: the
    parsed scheme and host of the website, and a function from URL to fetch
    outcome whose text is what remains after tag removal. */
module PageCollector {
  import opened Wrappers
  import opened Text

  /** What fetching one URL produced: an exception (network error, timeout,
      parser failure) or an HTTP status with the page's visible text. */
  datatype FetchOutcome = Failed | Response(status: int, text: string)

  /** Result of `urlparse(website)`: it raises on a malformed host. */
  datatype UrlParts = Invalid | Parsed(scheme: string, netloc: string)

  /** One labelled URL to try. */
  datatype Target = Target(pageType: string, url: string)

  /** One entry of the ordered page mapping (pageType to text). */
  datatype Page = Page(pageType: string, text: string)

  /** A page is kept only when its cleaned text is longer than this. */
  const MinLength: nat := 200
  /** Kept text is cut to this many characters. */
  const MaxLength: nat := 2000

  const PageTypes: seq<string> :=
    ["main", "about", "about-us", "careers", "jobs", "team", "culture", "values", "mission", "news", "blog"]

  /** Paths of the ten derived types, `PageTypes[1..]` in the same order. */
  const Paths: seq<string> :=
    ["/about", "/about-us", "/careers", "/jobs", "/team", "/culture", "/values", "/mission", "/news", "/blog"]

  /** Schemes for which `urljoin` resolves a relative reference against the base. */
  const RelativeSchemes: set<string> :=
    {"", "ftp", "http", "gopher", "nntp", "imap", "wais", "file", "https", "shttp", "mms",
     "prospero", "rtsp", "rtsps", "rtspu", "sftp", "svn", "svn+ssh", "ws", "wss"}

  lemma PageTypesDistinct()
    ensures forall i, j :: 0 <= i < j < |PageTypes| ==> PageTypes[i] != PageTypes[j]
  {
  }

  /** `urljoin(scheme + "://" + netloc, path)` for an absolute `path`: the base is
      only used when its scheme is a hierarchical one; otherwise, and when there is
      no scheme at all, the path comes back unchanged. */
  function JoinPath(scheme: string, netloc: string, path: string): string {
    if scheme != "" && scheme in RelativeSchemes then scheme + "://" + netloc + path else path
  }

  /** The list of pages to check, in the order they are tried. */
  function Targets(website: string, scheme: string, netloc: string): (ts: seq<Target>)
    ensures |ts| == |PageTypes|
    ensures ts[0] == Target("main", website)
    ensures forall i :: 0 <= i < |ts| ==> ts[i].pageType == PageTypes[i]
    ensures forall i :: 1 <= i < |ts| ==> ts[i].url == JoinPath(scheme, netloc, Paths[i - 1])
  {
    [ Target("main", website),
      Target("about", JoinPath(scheme, netloc, "/about")),
      Target("about-us", JoinPath(scheme, netloc, "/about-us")),
      Target("careers", JoinPath(scheme, netloc, "/careers")),
      Target("jobs", JoinPath(scheme, netloc, "/jobs")),
      Target("team", JoinPath(scheme, netloc, "/team")),
      Target("culture", JoinPath(scheme, netloc, "/culture")),
      Target("values", JoinPath(scheme, netloc, "/values")),
      Target("mission", JoinPath(scheme, netloc, "/mission")),
      Target("news", JoinPath(scheme, netloc, "/news")),
      Target("blog", JoinPath(scheme, netloc, "/blog")) ]
  }

  /** The targets actually tried: none for an empty website (nothing is fetched)
      or when the website cannot be parsed. */
  function CheckedTargets(website: string, url: UrlParts): (ts: seq<Target>)
    ensures ts == [] <==> website == "" || url.Invalid?
    ensures ts != [] ==> ts[0] == Target("main", website) && |ts| == |PageTypes|
  {
    if website == "" then []
    else match url
      case Invalid => []
      case Parsed(scheme, netloc) => Targets(website, scheme, netloc)
  }

  /** The URLs of `ts`, in order. */
  function Urls(ts: seq<Target>): (urls: seq<string>)
    ensures |urls| == |ts|
  {
    if ts == [] then [] else [ts[0].url] + Urls(ts[1..])
  }

  lemma {:induction false} UrlsAppend(ts: seq<Target>, t: Target)
    ensures Urls(ts + [t]) == Urls(ts) + [t.url]
  {
    if ts != [] {
      assert (ts + [t])[1..] == ts[1..] + [t];
      UrlsAppend(ts[1..], t);
    }
  }

  // ---------------------------------------------------------------------------
  // Whitespace normalisation: re.sub(r'\s+', ' ', text).strip()

  /** No two whitespace characters are adjacent, and every whitespace character
      is a plain space. */
  predicate SingleSpaced(s: string) {
    && (forall i :: 0 <= i < |s| && IsSpace(s[i]) ==> s[i] == ' ')
    && (forall i :: 0 <= i < |s| - 1 ==> !(IsSpace(s[i]) && IsSpace(s[i + 1])))
  }

  /** `re.sub(r'\s+', ' ', s)`: each maximal whitespace run becomes one space. */
  function CollapseSpaces(s: string): (r: string)
    ensures |r| <= |s|
    ensures r == [] <==> s == []
    ensures r != [] ==> IsSpace(r[0]) == IsSpace(s[0])
    decreases |s|
  {
    if s == [] then []
    else if IsSpace(s[0]) then [' '] + CollapseSpaces(s[LeadingSpaces(s)..])
    else [s[0]] + CollapseSpaces(s[1..])
  }

  /** Collapsing whitespace keeps every other character, in order. */
  lemma {:induction false} CollapseKeepsNonSpace(s: string)
    ensures NonSpace(CollapseSpaces(s)) == NonSpace(s)
    decreases |s|
  {
    if s != [] {
      if IsSpace(s[0]) {
        var n := LeadingSpaces(s);
        CollapseKeepsNonSpace(s[n..]);
        assert s == s[..n] + s[n..];
        NonSpaceOfSpaces(s[..n]);
        NonSpaceAppend(s[..n], s[n..]);
        NonSpaceAppend([' '], CollapseSpaces(s[n..]));
      } else {
        CollapseKeepsNonSpace(s[1..]);
        assert s == [s[0]] + s[1..];
        NonSpaceAppend([s[0]], s[1..]);
        NonSpaceAppend([s[0]], CollapseSpaces(s[1..]));
      }
    }
  }

  /** Collapsing leaves no two whitespace characters side by side, and only plain spaces. */
  lemma {:induction false} CollapseSingleSpaced(s: string)
    ensures SingleSpaced(CollapseSpaces(s))
    decreases |s|
  {
    if s != [] {
      if IsSpace(s[0]) {
        CollapseSingleSpaced(s[LeadingSpaces(s)..]);
        SingleSpacedCons(' ', CollapseSpaces(s[LeadingSpaces(s)..]));
      } else {
        CollapseSingleSpaced(s[1..]);
        SingleSpacedCons(s[0], CollapseSpaces(s[1..]));
      }
    }
  }

  lemma SingleSpacedCons(c: char, r: string)
    requires SingleSpaced(r)
    requires IsSpace(c) ==> c == ' ' && (r == [] || !IsSpace(r[0]))
    ensures SingleSpaced([c] + r)
  {
    var t := [c] + r;
    forall i | 1 <= i < |t|
      ensures t[i] == r[i - 1]
    {
    }
  }

  lemma SingleSpacedSlice(s: string, a: nat, b: nat)
    requires SingleSpaced(s) && a <= b <= |s|
    ensures SingleSpaced(s[a..b])
  {
    var t := s[a..b];
    forall i | 0 <= i < |t| - 1
      ensures !(IsSpace(t[i]) && IsSpace(t[i + 1]))
    {
      assert t[i] == s[a + i] && t[i + 1] == s[a + i + 1];
    }
  }

  /** `re.sub(r'\s+', ' ', s).strip()`: the cleaned page text. */
  function NormalizeSpaces(s: string): (r: string)
    ensures r == [] || (!IsSpace(r[0]) && !IsSpace(r[|r| - 1]))
    ensures SingleSpaced(r)
    ensures NonSpace(r) == NonSpace(s)
    ensures r == [] <==> AllSpace(s)
  {
    var c := CollapseSpaces(s);
    NormalizeSpacesProps(s, c);
    Strip(c)
  }

  lemma NormalizeSpacesProps(s: string, c: string)
    requires c == CollapseSpaces(s)
    ensures SingleSpaced(Strip(c))
    ensures NonSpace(Strip(c)) == NonSpace(s)
    ensures Strip(c) == [] <==> AllSpace(s)
  {
    CollapseSingleSpaced(s);
    StripSingleSpaced(c);
    CollapseKeepsNonSpace(s);
    StripKeepsNonSpace(c);
    NonSpaceOfAllSpace(s);
    NonSpaceOfAllSpace(c);
  }

  /** Stripping keeps a text single-spaced. */
  lemma StripSingleSpaced(c: string)
    requires SingleSpaced(c)
    ensures SingleSpaced(Strip(c))
  {
    var t := c[LeadingSpaces(c)..];
    SingleSpacedSlice(c, LeadingSpaces(c), |c|);
    SingleSpacedSlice(t, 0, |t| - TrailingSpaces(t));
    StripDef(c);
  }

  /** A string is all whitespace exactly when it has no other character. */
  lemma {:induction false} NonSpaceOfAllSpace(s: string)
    ensures NonSpace(s) == [] <==> AllSpace(s)
  {
    if s != [] {
      NonSpaceOfAllSpace(s[1..]);
      assert s == [s[0]] + s[1..];
      NonSpaceAppend([s[0]], s[1..]);
      if AllSpace(s[1..]) && IsSpace(s[0]) {
        assert AllSpace(s);
      }
    }
  }

  // ---------------------------------------------------------------------------
  // The same normalisation stated on words: each whitespace run between two
  // words becomes one space, so the cleaned text is `" ".join(s.split())`.

  /** Collapsing splits after a character that is not whitespace. */
  lemma {:induction false} CollapseAppend(a: string, b: string)
    requires a == [] || !IsSpace(a[|a| - 1])
    ensures CollapseSpaces(a + b) == CollapseSpaces(a) + CollapseSpaces(b)
    decreases |a|
  {
    if a == [] {
      assert a + b == b;
    } else if !IsSpace(a[0]) {
      CollapseCons(a, b);
      CollapseAppend(a[1..], b);
      SeqAssoc([a[0]], CollapseSpaces(a[1..]), CollapseSpaces(b));
    } else {
      var n := CollapseRun(a, b);
      CollapseAppend(a[n..], b);
      SeqAssoc(" ", CollapseSpaces(a[n..]), CollapseSpaces(b));
    }
  }

  lemma CollapseCons(a: string, b: string)
    requires a != [] && !IsSpace(a[0])
    ensures CollapseSpaces(a) == [a[0]] + CollapseSpaces(a[1..])
    ensures CollapseSpaces(a + b) == [a[0]] + CollapseSpaces(a[1..] + b)
    ensures a[1..] == [] || !IsSpace(a[|a| - 1]) ==> a[1..] == [] || !IsSpace(a[1..][|a[1..]| - 1])
  {
    assert (a + b)[1..] == a[1..] + b;
  }

  /** A leading whitespace run that stops inside `a` becomes one space. */
  lemma CollapseRun(a: string, b: string) returns (n: nat)
    requires a != [] && IsSpace(a[0]) && !IsSpace(a[|a| - 1])
    ensures 0 < n < |a| && !IsSpace(a[n..][|a[n..]| - 1])
    ensures CollapseSpaces(a) == " " + CollapseSpaces(a[n..])
    ensures CollapseSpaces(a + b) == " " + CollapseSpaces(a[n..] + b)
  {
    n := LeadingSpaces(a);
    assert n < |a|;
    LeadingSpacesUnique(a + b, n);
    assert (a + b)[n..] == a[n..] + b;
  }

  /** A whitespace run between two words, whatever its length and its
      characters, becomes a single space. */
  lemma CollapseSplit(a: string, w: string, b: string)
    requires a == [] || !IsSpace(a[|a| - 1])
    requires w != [] && AllSpace(w)
    requires b == [] || !IsSpace(b[0])
    ensures CollapseSpaces(a + w + b) == CollapseSpaces(a) + " " + CollapseSpaces(b)
  {
    SeqAssoc(a, w, b);
    CollapseAppend(a, w + b);
    CollapseSpaceRun(w, b);
    SeqAssoc(CollapseSpaces(a), " ", CollapseSpaces(b));
  }

  lemma CollapseSpaceRun(w: string, b: string)
    requires w != [] && AllSpace(w)
    requires b == [] || !IsSpace(b[0])
    ensures CollapseSpaces(w + b) == " " + CollapseSpaces(b)
  {
    LeadingSpacesUnique(w + b, |w|);
    assert (w + b)[|w|..] == b;
  }

  /** Text without whitespace is left as it is. */
  lemma CollapseNoSpace(x: string)
    requires forall i :: 0 <= i < |x| ==> !IsSpace(x[i])
    ensures CollapseSpaces(x) == x
  {
    CollapseWord(x, |x|);
    assert x[..|x|] == x;
  }

  /** Collapsing leaves a leading run of non-whitespace characters as it is. */
  lemma {:induction false} CollapseWord(t: string, n: nat)
    requires n <= |t| && forall i :: 0 <= i < n ==> !IsSpace(t[i])
    ensures CollapseSpaces(t) == t[..n] + CollapseSpaces(t[n..])
  {
    if n == 0 {
      assert t[..0] == [] && t[0..] == t;
    } else {
      assert !IsSpace(t[0]);
      assert CollapseSpaces(t) == [t[0]] + CollapseSpaces(t[1..]);
      forall i | 0 <= i < n - 1
        ensures !IsSpace(t[1..][i])
      {
        assert t[1..][i] == t[i + 1];
      }
      CollapseWord(t[1..], n - 1);
      assert t[1..][n - 1..] == t[n..];
      assert t[..n] == [t[0]] + t[1..][..n - 1];
    }
  }

  /** Length of the run of non-whitespace characters that starts `s`. */
  function WordLength(s: string): (n: nat)
    ensures n <= |s|
    ensures forall i :: 0 <= i < n ==> !IsSpace(s[i])
    ensures n == |s| || IsSpace(s[n])
    ensures s != [] && !IsSpace(s[0]) ==> n >= 1
  {
    if s == [] || IsSpace(s[0]) then 0 else 1 + WordLength(s[1..])
  }

  /** A non-empty text without whitespace. */
  predicate IsWord(w: string) {
    w != [] && forall i :: 0 <= i < |w| ==> !IsSpace(w[i])
  }

  /** `s.split()`: the maximal runs of non-whitespace characters, in order. */
  function Words(s: string): seq<string>
    decreases |s|
  {
    var t := s[LeadingSpaces(s)..];
    if t == [] then []
    else
      var n := WordLength(t);
      [t[..n]] + Words(t[n..])
  }

  /** `sep.join(ws)`. */
  function Join(ws: seq<string>, sep: string): string {
    if ws == [] then [] else if |ws| == 1 then ws[0] else ws[0] + sep + Join(ws[1..], sep)
  }

  /** Every piece `Words` yields is a word. */
  lemma {:induction false} WordsAreWords(s: string, k: nat)
    requires k < |Words(s)|
    ensures IsWord(Words(s)[k])
    decreases |s|
  {
    var rest := WordsStep(s);
    if k > 0 {
      WordsAreWords(rest, k - 1);
      assert Words(s)[k] == Words(s)[1..][k - 1];
    }
  }

  /** The first word of a text, and the text after it. */
  lemma WordsStep(s: string) returns (rest: string)
    requires Words(s) != []
    ensures |rest| < |s|
    ensures IsWord(Words(s)[0]) && Words(s)[1..] == Words(rest)
  {
    var t := s[LeadingSpaces(s)..];
    var n := WordLength(t);
    rest := t[n..];
    assert Words(s) == [t[..n]] + Words(rest);
    assert ([t[..n]] + Words(rest))[1..] == Words(rest);
  }

  /** Leading whitespace yields no word. */
  lemma WordsSkipSpaces(s: string)
    ensures Words(s[LeadingSpaces(s)..]) == Words(s)
  {
    var t := s[LeadingSpaces(s)..];
    LeadingSpacesUnique(t, 0);
    assert t[0..] == t;
  }

  /** A text that starts with a word: that word, then the words of the rest. */
  lemma WordsOfWordStart(u: string)
    requires u != [] && !IsSpace(u[0])
    ensures Words(u) == [u[..WordLength(u)]] + Words(u[WordLength(u)..])
  {
    LeadingSpacesUnique(u, 0);
    assert u[0..] == u;
  }

  lemma WordsOfEmpty()
    ensures Words([]) == []
  {
  }

  /** Stripping a word, with or without one trailing space, gives the word. */
  lemma StripWordSpace(x: string)
    requires x != [] && !IsSpace(x[0]) && !IsSpace(x[|x| - 1])
    ensures Strip(x) == x && Strip(x + " ") == x
  {
    StripNoop(x);
    var s := x + " ";
    LeadingSpacesUnique(s, 0);
    TrailingSpacesUnique(s, 1);
    StripDef(s);
    assert s[0..] == s;
    assert s[..|x|] == x;
  }

  /** With something other than whitespace at both starts, stripping only
      touches the end. */
  lemma StripAfterPrefix(x: string, c: string)
    requires x != [] && !IsSpace(x[0]) && c != [] && !IsSpace(c[0])
    ensures Strip(x + c) == x + Strip(c)
  {
    var s := x + c;
    StripNoLead(s);
    StripNoLead(c);
    SuffixNotAllSpace(x, c);
    TrailingSpacesOfSuffix(s, |x|);
    assert s[..|s| - TrailingSpaces(c)] == x + c[..|c| - TrailingSpaces(c)];
  }

  lemma SuffixNotAllSpace(x: string, c: string)
    requires c != [] && !IsSpace(c[0])
    ensures (x + c)[|x|..] == c && !AllSpace((x + c)[|x|..])
  {
    assert (x + c)[|x|..] == c;
  }

  /** Without leading whitespace, stripping only drops the trailing run. */
  lemma StripNoLead(s: string)
    requires s != [] && !IsSpace(s[0])
    ensures Strip(s) == s[..|s| - TrailingSpaces(s)]
  {
    LeadingSpacesUnique(s, 0);
    StripDef(s);
    assert s[0..] == s;
  }

  /** One leading space in front of a word is stripped away. */
  lemma StripLeadingSpace(c: string)
    requires c == [] || !IsSpace(c[0])
    ensures Strip(" " + c) == Strip(c)
  {
    var s := " " + c;
    LeadingSpacesUnique(s, 1);
    LeadingSpacesUnique(c, 0);
    StripDef(s);
    StripDef(c);
    assert s[1..] == c && c[0..] == c;
  }

  lemma {:induction false} StripCollapseWords(u: string)
    requires u == [] || !IsSpace(u[0])
    ensures Strip(CollapseSpaces(u)) == Join(Words(u), " ")
    decreases |u|
  {
    if u == [] {
      WordsOfEmpty();
    } else {
      var n := WordLength(u);
      var word, rest := u[..n], u[n..];
      WordsOfWordStart(u);
      CollapseWord(u, n);
      if rest == [] {
        WordsOfEmpty();
        StripWordSpace(word);
        assert CollapseSpaces(u) == word;
      } else {
        var v := rest[LeadingSpaces(rest)..];
        WordsSkipSpaces(rest);
        assert CollapseSpaces(rest) == " " + CollapseSpaces(v);
        if v == [] {
          WordsOfEmpty();
          StripWordSpace(word);
          assert CollapseSpaces(u) == word + " ";
        } else {
          var c := CollapseSpaces(v);
          StripCollapseWords(v);
          WordsOfWordStart(v);
          StripAfterPrefix(word + " ", c);
          assert CollapseSpaces(u) == word + (" " + c);
          SeqAssoc(word, " ", c);
          assert ([word] + Words(v))[1..] == Words(v);
        }
      }
    }
  }

  lemma SeqAssoc(x: string, y: string, z: string)
    ensures x + (y + z) == (x + y) + z
  {
  }

  /** The cleaned page text is the page's words joined by single spaces. */
  lemma NormalizeSpacesJoinsWords(s: string)
    ensures NormalizeSpaces(s) == Join(Words(s), " ")
  {
    if s != [] && IsSpace(s[0]) {
      var v := s[LeadingSpaces(s)..];
      WordsSkipSpaces(s);
      StripCollapseWords(v);
      assert CollapseSpaces(s) == " " + CollapseSpaces(v);
      StripLeadingSpace(CollapseSpaces(v));
    } else {
      StripCollapseWords(s);
    }
  }

  // ---------------------------------------------------------------------------
  // Per-page decision and the collection

  /** What is stored for one fetch outcome, or None when the page is skipped. */
  function PageText(outcome: FetchOutcome): (r: Option<string>)
    ensures r.Some? <==>
      outcome.Response? && outcome.status == 200 && |NormalizeSpaces(outcome.text)| > MinLength
    ensures r.Some? ==> MinLength < |r.value| <= MaxLength
    ensures r.Some? ==> |r.value| == (if |NormalizeSpaces(outcome.text)| <= MaxLength then |NormalizeSpaces(outcome.text)| else MaxLength)
    ensures r.Some? ==> StartsWith(NormalizeSpaces(outcome.text), r.value)
    ensures r.Some? ==> (r.value == NormalizeSpaces(outcome.text) <==> |NormalizeSpaces(outcome.text)| <= MaxLength)
    ensures r.Some? ==> !IsSpace(r.value[0]) && SingleSpaced(r.value)
  {
    match outcome
    case Failed => None
    case Response(status, text) =>
      var clean := NormalizeSpaces(text);
      if status == 200 && |clean| > MinLength then
        SingleSpacedSlice(clean, 0, |Prefix(clean, MaxLength)|);
        Some(Prefix(clean, MaxLength))
      else None
  }

  /** The pages kept from `ts`, in order (the specification of the loop). */
  function KeepPages(ts: seq<Target>, fetch: string -> FetchOutcome): (pages: seq<Page>)
    ensures |pages| <= |ts|
  {
    if ts == [] then []
    else match PageText(fetch(ts[0].url))
      case None => KeepPages(ts[1..], fetch)
      case Some(text) => [Page(ts[0].pageType, text)] + KeepPages(ts[1..], fetch)
  }

  /** Every stored text is longer than 200 and at most 2000 characters. */
  lemma {:induction false} KeepPagesBounds(ts: seq<Target>, fetch: string -> FetchOutcome, k: nat)
    requires k < |KeepPages(ts, fetch)|
    ensures MinLength < |KeepPages(ts, fetch)[k].text| <= MaxLength
  {
    if PageText(fetch(ts[0].url)).None? {
      KeepPagesBounds(ts[1..], fetch, k);
    } else if k > 0 {
      KeepPagesBounds(ts[1..], fetch, k - 1);
    }
  }

  /** What `extract_company_pages(website)` returns. */
  function CollectSpec(website: string, url: UrlParts, fetch: string -> FetchOutcome): seq<Page> {
    KeepPages(CheckedTargets(website, url), fetch)
  }

  function KeepOne(t: Target, fetch: string -> FetchOutcome): seq<Page> {
    match PageText(fetch(t.url))
    case None => []
    case Some(text) => [Page(t.pageType, text)]
  }

  lemma {:induction false} KeepPagesAppend(ts: seq<Target>, t: Target, fetch: string -> FetchOutcome)
    ensures KeepPages(ts + [t], fetch) == KeepPages(ts, fetch) + KeepOne(t, fetch)
  {
    if ts == [] {
      assert KeepPages([t][1..], fetch) == [];
    } else {
      assert (ts + [t])[1..] == ts[1..] + [t];
      KeepPagesAppend(ts[1..], t, fetch);
    }
  }

  /** `extract_company_pages(website)`: nothing is fetched for an empty or
      unparseable website; otherwise the eleven targets are tried in order. */
  method ExtractCompanyPages(website: string, url: UrlParts, fetch: string -> FetchOutcome)
    returns (pages: seq<Page>, attempted: seq<string>)
    ensures pages == CollectSpec(website, url, fetch)
    ensures attempted == Urls(CheckedTargets(website, url))
    ensures website == "" ==> pages == [] && attempted == []
    ensures attempted != [] ==> attempted[0] == website && |attempted| == |PageTypes|
  {
    pages, attempted := [], [];
    if website == "" {
      return;
    }
    if url.Invalid? {
      return;
    }
    pages, attempted := TryTargets(Targets(website, url.scheme, url.netloc), fetch);
  }

  lemma TakeOneMore<T>(s: seq<T>, i: nat)
    requires i < |s|
    ensures s[..i + 1] == s[..i] + [s[i]]
  {
  }

  /** The collection loop: fetches every target once, in order, whatever the
      earlier fetches gave, and inserts the kept pages in the order tried. */
  method TryTargets(targets: seq<Target>, fetch: string -> FetchOutcome)
    returns (pages: seq<Page>, attempted: seq<string>)
    ensures pages == KeepPages(targets, fetch)
    ensures attempted == Urls(targets)
  {
    pages, attempted := [], [];
    for i := 0 to |targets|
      invariant pages == KeepPages(targets[..i], fetch)
      invariant attempted == Urls(targets[..i])
    {
      var t := targets[i];
      TakeOneMore(targets, i);
      KeepPagesAppend(targets[..i], t, fetch);
      UrlsAppend(targets[..i], t);
      attempted := attempted + [t.url];
      var kept := PageText(fetch(t.url));
      if kept.Some? {
        pages := pages + [Page(t.pageType, kept.value)];
      }
    }
    assert targets[..|targets|] == targets;
  }

  // ---------------------------------------------------------------------------
  // Properties of the collection

  function TypesOf(pages: seq<Page>): (types: seq<string>)
    ensures |types| == |pages|
    ensures forall i :: 0 <= i < |pages| ==> types[i] == pages[i].pageType
  {
    seq(|pages|, i requires 0 <= i < |pages| => pages[i].pageType)
  }

  function TargetTypes(ts: seq<Target>): (types: seq<string>)
    ensures |types| == |ts|
    ensures forall i :: 0 <= i < |ts| ==> types[i] == ts[i].pageType
  {
    seq(|ts|, i requires 0 <= i < |ts| => ts[i].pageType)
  }

  /** `xs` is `ys` with some elements left out, order kept. */
  predicate IsSubsequence(xs: seq<string>, ys: seq<string>)
    decreases |ys|
  {
    if xs == [] then true
    else if ys == [] then false
    else (xs[0] == ys[0] && IsSubsequence(xs[1..], ys[1..])) || IsSubsequence(xs, ys[1..])
  }

  /** The kept types are the tried types with some left out, in list order. */
  lemma {:induction false} KeepPagesInOrder(ts: seq<Target>, fetch: string -> FetchOutcome)
    ensures IsSubsequence(TypesOf(KeepPages(ts, fetch)), TargetTypes(ts))
  {
    if ts != [] {
      KeepPagesInOrder(ts[1..], fetch);
      TargetTypesCons(ts);
      var rest := KeepPages(ts[1..], fetch);
      match PageText(fetch(ts[0].url))
      case None =>
        SubsequenceSkip(TypesOf(rest), ts[0].pageType, TargetTypes(ts[1..]));
      case Some(text) =>
        TypesOfCons(Page(ts[0].pageType, text), rest);
        SubsequenceCons(ts[0].pageType, TypesOf(rest), TargetTypes(ts[1..]));
    }
  }

  lemma TargetTypesCons(ts: seq<Target>)
    requires ts != []
    ensures TargetTypes(ts) == [ts[0].pageType] + TargetTypes(ts[1..])
  {
  }

  lemma TypesOfCons(p: Page, rest: seq<Page>)
    ensures TypesOf([p] + rest) == [p.pageType] + TypesOf(rest)
  {
  }

  lemma SubsequenceSkip(xs: seq<string>, y: string, ys: seq<string>)
    requires IsSubsequence(xs, ys)
    ensures IsSubsequence(xs, [y] + ys)
  {
    assert ([y] + ys)[1..] == ys;
  }

  lemma SubsequenceCons(x: string, xs: seq<string>, ys: seq<string>)
    requires IsSubsequence(xs, ys)
    ensures IsSubsequence([x] + xs, [x] + ys)
  {
    assert ([x] + xs)[1..] == xs;
    assert ([x] + ys)[1..] == ys;
  }

  /** Result keys are a subset of the eleven types, in list order. */
  lemma CollectInListOrder(website: string, url: UrlParts, fetch: string -> FetchOutcome)
    ensures IsSubsequence(TypesOf(CollectSpec(website, url, fetch)), PageTypes)
  {
    var ts := CheckedTargets(website, url);
    KeepPagesInOrder(ts, fetch);
    if ts != [] {
      assert TargetTypes(ts) == PageTypes;
    }
  }

  /** First entry with `pageType` (types are distinct in a collected result). */
  function Lookup(pages: seq<Page>, pageType: string): Option<string> {
    if pages == [] then None
    else if pages[0].pageType == pageType then Some(pages[0].text)
    else Lookup(pages[1..], pageType)
  }

  lemma {:induction false} KeepLookupAbsent(ts: seq<Target>, fetch: string -> FetchOutcome, pageType: string)
    requires pageType !in TargetTypes(ts)
    ensures Lookup(KeepPages(ts, fetch), pageType) == None
  {
    if ts != [] {
      assert TargetTypes(ts)[1..] == TargetTypes(ts[1..]);
      KeepLookupAbsent(ts[1..], fetch, pageType);
    }
  }

  predicate DistinctTypes(ts: seq<Target>) {
    forall a, b :: 0 <= a < b < |ts| ==> ts[a].pageType != ts[b].pageType
  }

  lemma DistinctHead(ts: seq<Target>)
    requires ts != [] && DistinctTypes(ts)
    ensures ts[0].pageType !in TargetTypes(ts[1..])
    ensures DistinctTypes(ts[1..])
  {
  }

  /** A page type that no later target has is found where it was kept. */
  lemma KeepLookupHead(ts: seq<Target>, fetch: string -> FetchOutcome)
    requires ts != [] && ts[0].pageType !in TargetTypes(ts[1..])
    ensures Lookup(KeepPages(ts, fetch), ts[0].pageType) == PageText(fetch(ts[0].url))
  {
    if PageText(fetch(ts[0].url)).None? {
      KeepLookupAbsent(ts[1..], fetch, ts[0].pageType);
    }
  }

  lemma KeepLookupSkip(ts: seq<Target>, fetch: string -> FetchOutcome, pageType: string)
    requires ts != [] && pageType != ts[0].pageType
    ensures Lookup(KeepPages(ts, fetch), pageType) == Lookup(KeepPages(ts[1..], fetch), pageType)
  {
  }

  lemma {:induction false} KeepLookup(ts: seq<Target>, fetch: string -> FetchOutcome, i: nat)
    requires i < |ts| && DistinctTypes(ts)
    ensures Lookup(KeepPages(ts, fetch), ts[i].pageType) == PageText(fetch(ts[i].url))
  {
    DistinctHead(ts);
    if i == 0 {
      KeepLookupHead(ts, fetch);
    } else {
      assert ts[1..][i - 1] == ts[i];
      KeepLookupSkip(ts, fetch, ts[i].pageType);
      KeepLookup(ts[1..], fetch, i - 1);
    }
  }

  /** A pageType is present exactly when its own fetch returned status 200 and its
      cleaned text is longer than 200 characters; the stored value is then the
      first min(length, 2000) characters. The outcome of every other page is
      irrelevant, so a failing page never prevents the others. */
  lemma CollectLookup(website: string, scheme: string, netloc: string, fetch: string -> FetchOutcome, i: nat)
    requires website != "" && i < |PageTypes|
    ensures Lookup(CollectSpec(website, Parsed(scheme, netloc), fetch), PageTypes[i])
         == PageText(fetch(Targets(website, scheme, netloc)[i].url))
  {
    PageTypesDistinct();
    KeepLookup(Targets(website, scheme, netloc), fetch, i);
  }

  /** No key outside the eleven types is ever present. */
  lemma CollectOnlyLabels(website: string, url: UrlParts, fetch: string -> FetchOutcome, pageType: string)
    requires pageType !in PageTypes
    ensures Lookup(CollectSpec(website, url, fetch), pageType) == None
  {
    var ts := CheckedTargets(website, url);
    if ts != [] {
      assert TargetTypes(ts) == PageTypes;
    }
    KeepLookupAbsent(ts, fetch, pageType);
  }
}
