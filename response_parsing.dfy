/** Heuristics that pull a JSON document out of a language-model reply:
    the greedy brace search of main.py and the code-fence removal of utils.py. */
module ResponseParsing {
  import opened Wrappers
  import opened Text

  // ---------------------------------------------------------------------------
  // re.search(r'\{.*\}', text, re.DOTALL)

  /** Half-open character range `[start, end)` of a match. */
  datatype Span = Span(start: nat, end: nat)

  /** Index of the first `c` in `s`. */
  function FirstIndexOf(s: string, c: char): (r: Option<nat>)
    ensures r.None? <==> c !in s
    ensures r.Some? ==> r.value < |s| && s[r.value] == c && c !in s[..r.value]
  {
    if s == [] then None
    else if s[0] == c then Some(0)
    else match FirstIndexOf(s[1..], c)
      case None => None
      case Some(i) => assert s[..i + 1] == [s[0]] + s[1..][..i]; Some(i + 1)
  }

  /** Index of the last `c` in `s`. */
  function LastIndexOf(s: string, c: char): (r: Option<nat>)
    ensures r.None? <==> c !in s
    ensures r.Some? ==> r.value < |s| && s[r.value] == c && c !in s[r.value + 1..]
  {
    if s == [] then None
    else if s[|s| - 1] == c then Some(|s| - 1)
    else
      var init := s[..|s| - 1];
      assert s == init + [s[|s| - 1]];
      LastIndexOf(init, c)
  }

  /** Some `{` occurs before some `}`. */
  predicate OpenBeforeClose(s: string) {
    exists i, j :: 0 <= i < j < |s| && s[i] == '{' && s[j] == '}'
  }

  /** The greedy, dot-matches-all search: from the first `{` to the last `}`.
      It succeeds exactly when some `{` comes before some `}`, and no match
      starts earlier or ends later than the one returned. */
  function SearchBraces(s: string): (r: Option<Span>)
    ensures r.Some? <==> OpenBeforeClose(s)
    ensures r.Some? ==>
      && r.value.start < r.value.end <= |s|
      && s[r.value.start] == '{' && s[r.value.end - 1] == '}'
      && '{' !in s[..r.value.start]
      && '}' !in s[r.value.end..]
  {
    match (FirstIndexOf(s, '{'), LastIndexOf(s, '}'))
    case (Some(i), Some(j)) =>
      if i < j then Some(Span(i, j + 1))
      else
        NoOpenBeforeClose(s, i, j);
        None
    case (None, _) =>
      assert forall k :: 0 <= k < |s| ==> s[k] != '{';
      None
    case (_, None) =>
      assert forall k :: 0 <= k < |s| ==> s[k] != '}';
      None
  }

  lemma NoOpenBeforeClose(s: string, i: nat, j: nat)
    requires j <= i < |s| && '{' !in s[..i] && '}' !in s[j + 1..]
    ensures !OpenBeforeClose(s)
  {
    forall a, b | 0 <= a < b < |s| && s[a] == '{'
      ensures s[b] != '}'
    {
      assert s[j + 1..][b - j - 1] == s[b];
    }
  }

  /** `match.group(0)`, or None when there is no match. */
  function BracedText(s: string): (r: Option<string>)
    ensures r.Some? <==> OpenBeforeClose(s)
    ensures r.Some? ==> |r.value| >= 2 && r.value[0] == '{' && r.value[|r.value| - 1] == '}'
    ensures r.Some? ==> SearchBraces(s).Some? && r.value == s[SearchBraces(s).value.start..SearchBraces(s).value.end]
  {
    match SearchBraces(s)
    case None => None
    case Some(span) => Some(s[span.start..span.end])
  }

  /** Text around a single braced block is ignored, provided the text before
      it has no `{` and the text after it has no `}`. */
  lemma BracedTextOfWrapped(pre: string, body: string, post: string)
    requires '{' !in pre && '}' !in post
    ensures BracedText(pre + "{" + body + "}" + post) == Some("{" + body + "}")
  {
    var s := pre + "{" + body + "}" + post;
    WrappedLayout(pre, body, post);
    FirstIndexOfIs(s, '{', |pre|);
    LastIndexOfIs(s, '}', |pre| + 1 + |body|);
  }

  lemma WrappedLayout(pre: string, body: string, post: string)
    ensures var s := pre + "{" + body + "}" + post;
      && s[|pre|] == '{' && s[|pre| + 1 + |body|] == '}'
      && s[..|pre|] == pre && s[|pre| + 2 + |body|..] == post
      && s[|pre|..|pre| + 2 + |body|] == "{" + body + "}"
  {
  }

  lemma FirstIndexOfIs(s: string, c: char, i: nat)
    requires i < |s| && s[i] == c && c !in s[..i]
    ensures FirstIndexOf(s, c) == Some(i)
  {
  }

  lemma LastIndexOfIs(s: string, c: char, j: nat)
    requires j < |s| && s[j] == c && c !in s[j + 1..]
    ensures LastIndexOf(s, c) == Some(j)
  {
  }

  // ---------------------------------------------------------------------------
  // re.sub(r'```json\s*|\s*```', '', text).strip()


  const Fence: string := "```"
  const JsonFence: string := "```json"

  /** Length of the text the pattern matches at the start of `s`, if any. The
      first alternative, an opening fence and the whitespace run after it, is
      tried first. The second, a whitespace run and a fence, can only match
      with the whole run, since a fence does not begin with whitespace. */
  function MatchAt(s: string): (k: Option<nat>)
    ensures k.Some? ==> |Fence| <= k.value <= |s|
  {
    if StartsWith(s, JsonFence) then Some(|JsonFence| + LeadingSpaces(s[|JsonFence|..]))
    else
      var n := LeadingSpaces(s);
      if StartsWith(s[n..], Fence) then Some(n + |Fence|) else None
  }

  /** The substitution, scanning left to right: a match is removed and the
      scan resumes after it; otherwise one character is kept. */
  function StripFences(s: string): (r: string)
    ensures |r| <= |s|
    decreases |s|
  {
    if s == [] then []
    else match MatchAt(s)
      case Some(k) => StripFences(s[k..])
      case None => [s[0]] + StripFences(s[1..])
  }

  /** The cleaned reply handed to the JSON decoder in utils.py. */
  function CleanResponse(s: string): (r: string)
    ensures r == [] || (!IsSpace(r[0]) && !IsSpace(r[|r| - 1]))
    ensures |r| <= |s|
  {
    Strip(StripFences(s))
  }

  /** Text that does not start with a backtick starts with no fence. */
  lemma NoFenceAt(s: string)
    requires s == [] || s[0] != '`'
    ensures !StartsWith(s, Fence) && !StartsWith(s, JsonFence)
  {
    if s != [] {
      if |Fence| <= |s| { assert s[..|Fence|][0] == s[0]; }
      if |JsonFence| <= |s| { assert s[..|JsonFence|][0] == s[0]; }
    }
  }

  /** Nothing matches where neither the text nor the whitespace run it starts
      with is followed by a backtick. */
  lemma NoMatchAt(s: string)
    requires s != [] && s[0] != '`'
    requires LeadingSpaces(s) == |s| || s[LeadingSpaces(s)] != '`'
    ensures MatchAt(s) == None
  {
    var n := LeadingSpaces(s);
    NoFenceAt(s);
    if n < |s| {
      assert s[n..][0] == s[n];
    }
    NoFenceAt(s[n..]);
  }

  /** A bare fence, not followed by `json`, matches on its own. */
  lemma MatchAtFence(s: string)
    requires StartsWith(s, Fence) && !StartsWith(s, JsonFence)
    ensures MatchAt(s) == Some(|Fence|)
  {
    assert s[..|Fence|][0] == s[0];
    assert s[0..] == s;
  }

  /** Without a backtick there is nothing to remove. */
  lemma {:induction false} StripFencesNoBacktick(s: string)
    requires '`' !in s
    ensures StripFences(s) == s
    decreases |s|
  {
    if s != [] {
      assert s[0] != '`';
      var n := LeadingSpaces(s);
      if n < |s| {
        assert s[n] != '`';
      }
      NoMatchAt(s);
      assert '`' !in s[1..];
      StripFencesNoBacktick(s[1..]);
      assert s == [s[0]] + s[1..];
    }
  }

  /** A reply with no backtick is only stripped. */
  lemma CleanNoBacktick(s: string)
    requires '`' !in s
    ensures CleanResponse(s) == Strip(s)
  {
    StripFencesNoBacktick(s);
  }

  lemma {:induction false} LeadingSpacesAppend(x: string, y: string)
    requires !AllSpace(x)
    ensures LeadingSpaces(x + y) == LeadingSpaces(x)
    decreases |x|
  {
    if IsSpace(x[0]) {
      assert (x + y)[1..] == x[1..] + y;
      LeadingSpacesAppend(x[1..], y);
    }
  }

  lemma TrailingSpacesTail(x: string)
    requires x != [] && !AllSpace(x)
    ensures TrailingSpaces(x[1..]) == TrailingSpaces(x)
  {
    if !AllSpace(x[1..]) {
      TrailingSpacesOfSuffix(x, 1);
    } else {
      var t := x[1..];
      assert !IsSpace(x[0]);
      assert TrailingSpaces(t) == |t|;
      forall i | |x| - |t| <= i < |x|
        ensures IsSpace(x[i])
      {
        assert x[i] == t[i - 1];
      }
      TrailingSpacesUnique(x, |t|);
    }
  }

  /** A backtick-free text followed by a closing fence loses the fence and the
      whitespace just before it, and nothing else. */
  lemma {:induction false} StripFencesBeforeFence(x: string)
    requires '`' !in x
    ensures StripFences(x + Fence) == x[..|x| - TrailingSpaces(x)]
    decreases |x|
  {
    if x == [] {
      StripFencesOfFence();
      assert x + Fence == Fence;
    } else if AllSpace(x) {
      StripFencesSpacesFence(x);
      TrailingSpacesUnique(x, |x|);
    } else {
      StripFencesKeepsFirst(x);
      assert '`' !in x[1..];
      StripFencesBeforeFence(x[1..]);
      TrailingSpacesTail(x);
      ConsSlice(x, |x| - TrailingSpaces(x));
    }
  }

  lemma StripFencesOfFence()
    ensures StripFences(Fence) == []
  {
    MatchAtFence(Fence);
    assert Fence[|Fence|..] == [];
  }

  lemma StripFencesSpacesFence(x: string)
    requires x != [] && AllSpace(x)
    ensures StripFences(x + Fence) == []
  {
    SpacesThenFence(x, []);
    assert x + Fence + [] == x + Fence;
  }

  /** A whitespace run followed by a fence is one match of the second alternative. */
  lemma SpacesThenFence(w: string, z: string)
    requires w != [] && AllSpace(w)
    ensures StripFences(w + Fence + z) == StripFences(z)
  {
    var s := w + Fence + z;
    assert s[0] == w[0];
    NoFenceAt(s);
    assert s[|w|] == '`';
    LeadingSpacesUnique(s, |w|);
    assert s[|w|..][..|Fence|] == Fence;
    assert MatchAt(s) == Some(|w| + |Fence|);
    assert s[|w| + |Fence|..] == z;
  }

  /** Where the whitespace run at the front is not followed by a backtick, the
      first character is kept. */
  lemma StripFencesKeepsFirst(x: string)
    requires '`' !in x && !AllSpace(x)
    ensures StripFences(x + Fence) == [x[0]] + StripFences(x[1..] + Fence)
  {
    var s := x + Fence;
    var n := LeadingSpaces(x);
    LeadingSpacesAppend(x, Fence);
    assert s[0] == x[0] && x[0] != '`';
    assert s[n] == x[n] && x[n] != '`';
    NoMatchAt(s);
    assert s[1..] == x[1..] + Fence;
  }

  lemma ConsSlice(x: string, m: nat)
    requires 1 <= m <= |x|
    ensures [x[0]] + x[1..][..m - 1] == x[..m]
  {
  }

  /** A reply wrapped in a json code fence, with a backtick-free body,
      cleans to the body with its ends stripped. */
  lemma CleanFenced(x: string)
    requires '`' !in x
    ensures CleanResponse(JsonFence + x + Fence) == Strip(x)
  {
    OpeningFenceMatch(x);
    if AllSpace(x) {
      FenceAfterSpaces(x);
      StripFencesOfFence();
    } else {
      StripFencesAfterOpening(x);
      StripIdempotent(x);
    }
  }

  lemma StripFencesAfterOpening(x: string)
    requires '`' !in x && !AllSpace(x)
    ensures StripFences((x + Fence)[LeadingSpaces(x + Fence)..]) == Strip(x)
  {
    var n := LeadingSpaces(x + Fence);
    LeadingSpacesAppend(x, Fence);
    DropBeforeFence(x, n);
    StripFencesBeforeFence(x[n..]);
    StripDef(x);
  }

  /** The opening fence and the whitespace after it are the first match. */
  lemma OpeningFenceMatch(x: string)
    ensures var s := JsonFence + x + Fence;
      StripFences(s) == StripFences((x + Fence)[LeadingSpaces(x + Fence)..])
  {
    var s := JsonFence + x + Fence;
    assert s[..|JsonFence|] == JsonFence;
    assert s[|JsonFence|..] == x + Fence;
  }

  lemma FenceAfterSpaces(x: string)
    requires AllSpace(x)
    ensures (x + Fence)[LeadingSpaces(x + Fence)..] == Fence
  {
    var rest := x + Fence;
    assert rest[|x|] == '`';
    LeadingSpacesUnique(rest, |x|);
  }

  lemma DropBeforeFence(x: string, n: nat)
    requires '`' !in x && n <= |x|
    ensures (x + Fence)[n..] == x[n..] + Fence
    ensures '`' !in x[n..]
  {
    var t := x[n..];
    forall i | 0 <= i < |t|
      ensures t[i] != '`'
    {
      assert t[i] == x[n + i];
    }
  }

  /** Whitespace around the body does not matter either. */
  lemma CleanFencedPadded(w1: string, body: string, w2: string)
    requires AllSpace(w1) && AllSpace(w2) && '`' !in body
    ensures CleanResponse(JsonFence + w1 + body + w2 + Fence) == Strip(body)
  {
    var x := w1 + body + w2;
    assert '`' !in x by {
      forall i | 0 <= i < |x|
        ensures x[i] != '`'
      {
        if i < |w1| {
          assert IsSpace(w1[i]) && x[i] == w1[i];
        } else if i < |w1| + |body| {
          assert x[i] == body[i - |w1|];
        } else {
          assert IsSpace(w2[i - |w1| - |body|]) && x[i] == w2[i - |w1| - |body|];
        }
      }
    }
    assert JsonFence + w1 + body + w2 + Fence == JsonFence + x + Fence;
    CleanFenced(x);
    StripPadded(w1, body, w2);
  }

  /** `strip()` ignores whitespace added at either end. */
  lemma StripPadded(w1: string, body: string, w2: string)
    requires AllSpace(w1) && AllSpace(w2)
    ensures Strip(w1 + body + w2) == Strip(body)
  {
    if AllSpace(body) {
      AllSpaceConcat(w1, body, w2);
    } else {
      StripPaddedNonSpace(w1, body, w2);
    }
  }

  lemma StripPaddedNonSpace(w1: string, body: string, w2: string)
    requires AllSpace(w1) && AllSpace(w2) && !AllSpace(body)
    ensures Strip(w1 + body + w2) == Strip(body)
  {
    var a := LeadingSpaces(body);
    var t := body[a..];
    StripPaddedLeading(w1, body, w2);
    DropPadded(w1, body, w2, a);
    NotAllSpaceAfterLeading(body);
    StripOfParts(w1 + body + w2, t, w2);
    StripDef(body);
  }

  lemma NotAllSpaceAfterLeading(s: string)
    requires !AllSpace(s)
    ensures !AllSpace(s[LeadingSpaces(s)..])
  {
    assert s[LeadingSpaces(s)..][0] == s[LeadingSpaces(s)];
  }

  /** Once the leading whitespace of `x` is gone, trailing whitespace `w` after
      the rest `t` is removed together with that of `t`. */
  lemma StripOfParts(x: string, t: string, w: string)
    requires x[LeadingSpaces(x)..] == t + w && AllSpace(w) && !AllSpace(t)
    ensures Strip(x) == t[..|t| - TrailingSpaces(t)]
  {
    StripDef(x);
    StripPaddedTrailing(t, w);
    PrefixOfAppend(t, w, |t| - TrailingSpaces(t));
  }

  lemma AllSpaceConcat(w1: string, body: string, w2: string)
    requires AllSpace(w1) && AllSpace(body) && AllSpace(w2)
    ensures AllSpace(w1 + body + w2)
  {
    var x := w1 + body + w2;
    forall i | 0 <= i < |x|
      ensures IsSpace(x[i])
    {
      if i < |w1| {
        assert x[i] == w1[i];
      } else if i < |w1| + |body| {
        assert x[i] == body[i - |w1|];
      } else {
        assert x[i] == w2[i - |w1| - |body|];
      }
    }
  }

  lemma DropPadded(w1: string, body: string, w2: string, a: nat)
    requires a <= |body|
    ensures (w1 + body + w2)[|w1| + a..] == body[a..] + w2
  {
  }

  lemma PrefixOfAppend(t: string, w: string, m: nat)
    requires m <= |t|
    ensures (t + w)[..m] == t[..m]
  {
  }

  lemma StripPaddedLeading(w1: string, body: string, w2: string)
    requires AllSpace(w1) && !AllSpace(body)
    ensures LeadingSpaces(w1 + body + w2) == |w1| + LeadingSpaces(body)
  {
    var x := w1 + body + w2;
    var a := LeadingSpaces(body);
    assert x[|w1| + a] == body[a];
    forall i | 0 <= i < |w1| + a
      ensures IsSpace(x[i])
    {
      if i < |w1| {
        assert x[i] == w1[i];
      } else {
        assert x[i] == body[i - |w1|];
      }
    }
    LeadingSpacesUnique(x, |w1| + a);
  }

  lemma StripPaddedTrailing(t: string, w2: string)
    requires AllSpace(w2) && !AllSpace(t)
    ensures TrailingSpaces(t + w2) == TrailingSpaces(t) + |w2|
  {
    var u := t + w2;
    var b := TrailingSpaces(t);
    assert b < |t|;
    forall i | |u| - (b + |w2|) <= i < |u|
      ensures IsSpace(u[i])
    {
      if i < |t| {
        assert u[i] == t[i];
      } else {
        assert u[i] == w2[i - |t|];
      }
    }
    assert u[|u| - 1 - (b + |w2|)] == t[|t| - 1 - b];
    TrailingSpacesUnique(u, b + |w2|);
  }

  /** Fence removal is not idempotent: one backtick, a space and five
      backticks clean to a bare fence, and cleaning that again gives the
      empty string. */
  lemma CleanNotIdempotent(s: string)
    requires s == "` `````"
    ensures CleanResponse(s) == Fence
    ensures CleanResponse(CleanResponse(s)) == ""
  {
    ExampleFirstBacktickKept();
    ExampleSpaceAndFenceRemoved();
    ExampleTwoBackticksKept();
    ExampleFenceStrip();
  }

  lemma ExampleFenceStrip()
    ensures Strip("`" + "``") == Fence
    ensures Strip(StripFences(Fence)) == ""
  {
    assert "`" + "``" == Fence;
    StripNoop(Fence);
    StripFencesOfFence();
  }

  lemma ExampleFirstBacktickKept()
    ensures StripFences("` `````") == "`" + StripFences(" `````")
  {
    var s := "` `````";
    assert s[..|Fence|] == "` `";
    assert s[..|JsonFence|] == s;
    LeadingSpacesUnique(s, 0);
    assert s[0..] == s;
    assert MatchAt(s) == None;
    assert s[1..] == " `````";
  }

  lemma ExampleSpaceAndFenceRemoved()
    ensures StripFences(" `````") == StripFences("``")
  {
    var s := " `````";
    NoFenceAt(s);
    LeadingSpacesUnique(s, 1);
    assert s[1..][..|Fence|] == Fence;
    assert MatchAt(s) == Some(4);
    assert s[4..] == "``";
  }

  lemma ExampleTwoBackticksKept()
    ensures StripFences("``") == "``"
  {
    var s := "``";
    LeadingSpacesUnique(s, 0);
    assert s[0..] == s;
    assert MatchAt(s) == None;
    assert s[1..] == "`";
    ExampleOneBacktickKept();
  }

  lemma ExampleOneBacktickKept()
    ensures StripFences("`") == "`"
  {
    var s := "`";
    LeadingSpacesUnique(s, 0);
    assert s[0..] == s;
    assert MatchAt(s) == None;
    assert s[1..] == [];
  }

  /** Whitespace in front of an opening fence is removed together with the
      three backticks by the second alternative, so the word `json` is left
      at the start of the cleaned text. */
  lemma CleanSpaceBeforeOpeningFence(w: string, x: string)
    requires w != [] && AllSpace(w) && '`' !in x
    ensures CleanResponse(w + JsonFence + x + Fence) == Strip("json" + x)
  {
    SpacesBeforeOpeningFence(w, x);
    JsonWordNoBacktick(x);
    StripFencesBeforeFenceNoLead("json" + x);
    StripIdempotent("json" + x);
  }

  lemma SpacesBeforeOpeningFence(w: string, x: string)
    requires w != [] && AllSpace(w)
    ensures StripFences(w + JsonFence + x + Fence) == StripFences("json" + x + Fence)
  {
    assert w + JsonFence + x + Fence == w + Fence + ("json" + x + Fence);
    SpacesThenFence(w, "json" + x + Fence);
  }

  lemma JsonWordNoBacktick(x: string)
    requires '`' !in x
    ensures '`' !in "json" + x
  {
  }

  /** Before a closing fence, a backtick-free text that does not start with
      whitespace loses exactly its trailing whitespace. */
  lemma StripFencesBeforeFenceNoLead(y: string)
    requires '`' !in y && y != [] && !IsSpace(y[0])
    ensures StripFences(y + Fence) == Strip(y)
  {
    StripFencesBeforeFence(y);
    LeadingSpacesUnique(y, 0);
    StripDef(y);
    assert y[0..] == y;
  }

  /** For instance, a newline before the fence leaves `json` in the output. */
  lemma CleanLeadingNewlineKeepsJsonWord()
    ensures CleanResponse("\n```json\n{}\n```") == "json\n{}"
  {
    NewlineExampleLayout();
    CleanSpaceBeforeOpeningFence("\n", "\n{}\n");
    StripOfJsonExample();
  }

  lemma NewlineExampleLayout()
    ensures "\n" + JsonFence + "\n{}\n" + Fence == "\n```json\n{}\n```"
  {
  }

  lemma StripOfJsonExample()
    ensures Strip("json" + "\n{}\n") == "json\n{}"
  {
    var y := "json\n{}\n";
    assert "json" + "\n{}\n" == y;
    JsonExampleSpaces(y);
    StripDef(y);
    assert y[0..] == y;
  }

  lemma JsonExampleSpaces(y: string)
    requires y == "json\n{}\n"
    ensures LeadingSpaces(y) == 0
    ensures TrailingSpaces(y) == 1
  {
    LeadingSpacesUnique(y, 0);
    TrailingSpacesUnique(y, 1);
  }
}
