/** The browser's report of an analysis: the colour band of a score bar, the
    recommendation icon and badge class, and which company-fit parts of the
    report are shown. Values come from the decoded JSON response. */
module ResultsView {
  import opened Wrappers
  import opened Text
  import opened Json
  import AnalyzeRequest

  // ----- Score bars -----

  /** A JavaScript number as comparisons see it; a missing score compares as NaN. */
  datatype JsNumber = Num(value: real) | NaN

  datatype Band = Poor | Fair | Good | Excellent

  /** The CSS class of each band. */
  function BandClass(b: Band): string {
    match b
    case Excellent => "excellent"
    case Good => "good"
    case Fair => "fair"
    case Poor => "poor"
  }

  function Rank(b: Band): nat {
    match b
    case Poor => 0
    case Fair => 1
    case Good => 2
    case Excellent => 3
  }

  /** The lower bounds of the bands above `poor`. */
  const Thresholds: seq<real> := [4.0, 6.0, 8.0]

  /** How many of the thresholds `x` reaches. */
  function Reached(x: real, ts: seq<real>): (n: nat)
    ensures n <= |ts|
  {
    if ts == [] then 0 else (if x >= ts[0] then 1 else 0) + Reached(x, ts[1..])
  }

  /** The colour band of a score bar; every input, NaN included, has one. */
  function ScoreBand(score: JsNumber): (b: Band)
    ensures score.NaN? ==> b == Poor
  {
    match score
    case NaN => Poor
    case Num(x) =>
      if x >= 8.0 then Excellent else if x >= 6.0 then Good else if x >= 4.0 then Fair else Poor
  }

  /** The band of a number is the number of thresholds it reaches. */
  lemma BandCountsThresholds(x: real)
    ensures Rank(ScoreBand(Num(x))) == Reached(x, Thresholds)
  {
    assert Reached(x, [8.0]) == (if x >= 8.0 then 1 else 0) by {
      assert [8.0][1..] == [];
    }
    assert Reached(x, [6.0, 8.0]) == (if x >= 6.0 then 1 else 0) + Reached(x, [8.0]) by {
      assert [6.0, 8.0][1..] == [8.0];
    }
    assert Reached(x, Thresholds) == (if x >= 4.0 then 1 else 0) + Reached(x, [6.0, 8.0]) by {
      assert Thresholds[1..] == [6.0, 8.0];
    }
  }

  /** A higher score never gets a lower band. */
  lemma BandMonotone(x: real, y: real)
    requires x <= y
    ensures Rank(ScoreBand(Num(x))) <= Rank(ScoreBand(Num(y)))
  {
    ReachedMonotone(x, y, Thresholds);
    BandCountsThresholds(x);
    BandCountsThresholds(y);
  }

  lemma {:induction false} ReachedMonotone(x: real, y: real, ts: seq<real>)
    requires x <= y
    ensures Reached(x, ts) <= Reached(y, ts)
  {
    if ts != [] {
      ReachedMonotone(x, y, ts[1..]);
    }
  }

  // ----- Recommendation icon and badge -----

  const IconUnknown: string := "\U{2753}"
  const IconStrong: string := "\U{1F3AF}"
  const IconModerate: string := "\U{2696}\U{FE0F}"
  const IconWeak: string := "\U{26A0}\U{FE0F}"
  const IconOther: string := "\U{1F4CB}"

  /** A missing or empty recommendation is falsy. */
  predicate Falsy(rec: Option<string>) {
    rec.None? || rec.value == []
  }

  /** `getRecommendationIcon`: the first of "strong", "moderate", "weak"
      found in the lower-cased text decides. */
  function RecommendationIcon(rec: Option<string>): (icon: string)
    ensures icon == IconUnknown <==> Falsy(rec)
    ensures !Falsy(rec) && Contains(Lower(rec.value), "strong") ==> icon == IconStrong
    ensures !Falsy(rec) && !Contains(Lower(rec.value), "strong") && Contains(Lower(rec.value), "moderate") ==>
      icon == IconModerate
    ensures (!Falsy(rec) && !Contains(Lower(rec.value), "strong") && !Contains(Lower(rec.value), "moderate") &&
             Contains(Lower(rec.value), "weak")) ==> icon == IconWeak
    ensures (!Falsy(rec) && !Contains(Lower(rec.value), "strong") && !Contains(Lower(rec.value), "moderate") &&
             !Contains(Lower(rec.value), "weak")) ==> icon == IconOther
  {
    if Falsy(rec) then IconUnknown
    else
      var r := Lower(rec.value);
      if Contains(r, "strong") then IconStrong
      else if Contains(r, "moderate") then IconModerate
      else if Contains(r, "weak") then IconWeak
      else IconOther
  }

  /** The icon does not depend on letter case. */
  lemma IconIgnoresCase(s: string)
    ensures RecommendationIcon(Some(Upper(s))) == RecommendationIcon(Some(s))
    ensures RecommendationIcon(Some(Lower(s))) == RecommendationIcon(Some(s))
  {
    LowerOfUpper(s);
    LowerIdempotent(s);
  }

  /** `s.replace(from, to)` with a one-character pattern. */
  function ReplaceFirst(s: string, from: char, to: char): (r: string)
    ensures |r| == |s|
  {
    if s == [] then []
    else if s[0] == from then [to] + s[1..]
    else [s[0]] + ReplaceFirst(s[1..], from, to)
  }

  /** Only the first occurrence is replaced; every other character is kept. */
  lemma {:induction false} ReplaceFirstSpec(s: string, from: char, to: char, i: nat)
    requires i < |s|
    ensures ReplaceFirst(s, from, to)[i] == (if s[i] == from && from !in s[..i] then to else s[i])
  {
    if s[0] != from && i > 0 {
      ReplaceFirstSpec(s[1..], from, to, i - 1);
      PrefixOfTail(s, i);
    }
  }

  lemma PrefixOfTail(s: string, i: nat)
    requires 0 < i <= |s|
    ensures s[..i] == [s[0]] + s[1..][..i - 1]
  {
  }

  /** The recommendation badge class: lower-cased, first space turned into
      a hyphen, "unknown" when that leaves nothing. */
  function BadgeClass(rec: Option<string>): (c: string)
    ensures Falsy(rec) ==> c == "unknown"
  {
    if rec.None? then "unknown"
    else
      var c := ReplaceFirst(Lower(rec.value), ' ', '-');
      if c == [] then "unknown" else c
  }

  /** Character by character, the badge class of a recommendation is its
      lower-cased text with only the first space replaced. */
  lemma BadgeClassSpec(s: string)
    requires s != []
    ensures |BadgeClass(Some(s))| == |s|
    ensures forall i :: 0 <= i < |s| ==>
      BadgeClass(Some(s))[i] == (if s[i] == ' ' && ' ' !in s[..i] then '-' else LowerChar(s[i]))
  {
    var l := Lower(s);
    forall i | 0 <= i < |s|
      ensures BadgeClass(Some(s))[i] == (if s[i] == ' ' && ' ' !in s[..i] then '-' else LowerChar(s[i]))
    {
      ReplaceFirstSpec(l, ' ', '-', i);
      assert forall j :: 0 <= j < i ==> (l[..i][j] == ' ' <==> s[..i][j] == ' ');
    }
  }

  /** The badge of the usual recommendation. */
  lemma BadgeOfStrongMatch(s: string)
    requires s == "Strong Match"
    ensures BadgeClass(Some(s)) == "strong-match"
  {
    BadgeClassSpec(s);
    assert s[..6] == "Strong";
  }

  // ----- Company-fit parts of the report -----

  /** A part of the report: its title and the scoring key it shows. */
  datatype Panel = Panel(title: string, key: string)

  const BaseBars: seq<Panel> :=
    [Panel("Skills Match", "skills_match"), Panel("Experience Match", "experience_match"),
     Panel("Culture Fit", "culture_fit")]
  const EnhancedBars: seq<Panel> :=
    [Panel("Industry Fit", "industry_fit"), Panel("Geographic Fit", "geographic_fit"),
     Panel("Growth Stage Fit", "growth_stage_fit"), Panel("Values Alignment", "values_alignment")]
  const BaseLists: seq<Panel> :=
    [Panel("Strengths", "strengths"), Panel("Concerns", "concerns"),
     Panel("Interview Focus", "interview_focus")]
  const EnhancedLists: seq<Panel> :=
    [Panel("Company Fit Highlights", "company_fit_highlights"),
     Panel("Potential Challenges", "potential_challenges"),
     Panel("Onboarding Considerations", "onboarding_considerations")]

  /** The panels for which `shown` holds, in their order. */
  function Keep(panels: seq<Panel>, shown: Panel -> bool): (r: seq<Panel>)
    ensures |r| <= |panels|
    ensures forall p :: p in r <==> p in panels && shown(p)
  {
    if panels == [] then []
    else (if shown(panels[0]) then [panels[0]] else []) + Keep(panels[1..], shown)
  }

  /** `Array.isArray(v) && v.length > 0`, as the company-fit lists require. */
  predicate NonEmptyArray(v: Option<Json>) {
    v.Some? && v.value.JArr? && v.value.items != []
  }

  /** The score bars: the three basic ones, then each company-fit score that
      is truthy, only for an enhanced analysis. */
  function ScoreBars(scoring: map<string, Json>, enhanced: bool): seq<Panel> {
    BaseBars + (if enhanced then Keep(EnhancedBars, (p: Panel) => JsTruthy(Get(scoring, p.key))) else [])
  }

  /** The assessment lists: the three basic ones, then each company-fit list
      that is a non-empty array, only for an enhanced analysis. */
  function AssessmentLists(scoring: map<string, Json>, enhanced: bool): seq<Panel> {
    BaseLists + (if enhanced then Keep(EnhancedLists, (p: Panel) => NonEmptyArray(Get(scoring, p.key))) else [])
  }

  /** A company-fit bar appears exactly when the analysis is enhanced and its score is truthy. */
  lemma EnhancedBarShown(scoring: map<string, Json>, enhanced: bool, p: Panel)
    requires p in EnhancedBars
    ensures p in ScoreBars(scoring, enhanced) <==> enhanced && JsTruthy(Get(scoring, p.key))
  {
    assert p !in BaseBars;
  }

  /** A company-fit list appears exactly when the analysis is enhanced and the list is a non-empty array. */
  lemma EnhancedListShown(scoring: map<string, Json>, enhanced: bool, p: Panel)
    requires p in EnhancedLists
    ensures p in AssessmentLists(scoring, enhanced) <==> enhanced && NonEmptyArray(Get(scoring, p.key))
  {
    assert p !in BaseLists;
  }

  /** An empty list is truthy in the browser, but its panel is still left out. */
  lemma EmptyListTruthyButHidden(scoring: map<string, Json>, p: Panel)
    requires p in EnhancedLists && Get(scoring, p.key) == Some(JArr([]))
    ensures JsTruthy(Get(scoring, p.key))
    ensures p !in AssessmentLists(scoring, true)
  {
    EnhancedListShown(scoring, true, p);
  }

  function Keys(panels: seq<Panel>): seq<string> {
    if panels == [] then [] else [panels[0].key] + Keys(panels[1..])
  }

  /** The company-fit parts of the report show exactly the keys that only the
      extended scoring prompt asks for. */
  lemma PanelsMatchExtendedPrompt()
    ensures Keys(EnhancedBars) == AnalyzeRequest.CompanyFitScores
    ensures Keys(EnhancedLists) == AnalyzeRequest.CompanyFitLists
  {
  }
}
