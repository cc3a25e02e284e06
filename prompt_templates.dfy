/** Prompt rendering: a table of named prompt entries and the substitution
    of keyword arguments into a template, following Python's `str.format`
    restricted to `{name}` fields and the `{{` / `}}` escapes. */
module PromptTemplates {
  import opened Wrappers

  /** Why `str.format` refuses a template. */
  datatype FormatError =
    | SingleClose                 // a `}` that is not doubled
    | SingleOpen                  // a `{` as the last character
    | ExpectedClose               // a field that is never closed
    | Positional                  // `{}` or `{0}`: no positional arguments are ever passed
    | MissingKey(name: string)    // KeyError: the field names no keyword argument
    | Unsupported(field: string)  // attribute or index lookup, conversion, format spec, nested field

  /** Characters that end a plain field name or open a nested field. */
  predicate Special(c: char) {
    c in "{}.[!:"
  }

  predicate HasSpecial(f: string) {
    exists i :: 0 <= i < |f| && Special(f[i])
  }

  /** A field made of digits only is a positional index. */
  predicate Digits(f: string) {
    f != [] && forall i :: 0 <= i < |f| ==> '0' <= f[i] <= '9'
  }

  /** A field that is looked up, as a whole, among the keyword arguments. */
  predicate ValidKey(f: string) {
    f != [] && !Digits(f) && !HasSpecial(f)
  }

  /** The template text that stands for the literal character `c`. */
  function EscapeChar(c: char): string {
    if c == '{' || c == '}' then [c, c] else [c]
  }

  /** One step of the scanner: the end, one literal character, one field, or an error. */
  datatype Step =
    | Done
    | Emit(c: char, rest: string)
    | Ref(name: string, rest: string)
    | Fail(error: FormatError)

  /** The index in `s` of the `}` that closes a field opened `depth` levels deep. */
  function FieldLength(s: string, depth: nat): (r: Option<nat>)
    requires depth >= 1
    ensures r.Some? ==> r.value < |s| && s[r.value] == '}'
    decreases |s|
  {
    if s == [] then None
    else if s[0] == '{' then
      match FieldLength(s[1..], depth + 1)
      case None => None
      case Some(k) => Some(k + 1)
    else if s[0] == '}' then
      if depth == 1 then Some(0)
      else match FieldLength(s[1..], depth - 1)
        case None => None
        case Some(k) => Some(k + 1)
    else
      match FieldLength(s[1..], depth)
      case None => None
      case Some(k) => Some(k + 1)
  }

  /** Reads the next chunk of template `t`. */
  function Next(t: string): (st: Step)
    ensures st.Done? <==> t == []
    ensures st.Emit? ==> t == EscapeChar(st.c) + st.rest
    ensures st.Ref? ==> t == "{" + st.name + "}" + st.rest && ValidKey(st.name)
    ensures st.Emit? || st.Ref? ==> |st.rest| < |t|
  {
    if t == [] then Done
    else if t[0] == '{' then
      if |t| == 1 then Fail(SingleOpen)
      else if t[1] == '{' then Emit('{', t[2..])
      else match FieldLength(t[1..], 1)
        case None => Fail(ExpectedClose)
        case Some(k) =>
          var f := t[1..k + 1];
          if HasSpecial(f) then Fail(Unsupported(f))
          else if f == [] || Digits(f) then Fail(Positional)
          else
            assert t == "{" + f + "}" + t[k + 2..] by {
              assert t == [t[0]] + t[1..k + 1] + [t[k + 1]] + t[k + 2..];
            }
            Ref(f, t[k + 2..])
    else if t[0] == '}' then
      if |t| >= 2 && t[1] == '}' then Emit('}', t[2..]) else Fail(SingleClose)
    else Emit(t[0], t[1..])
  }

  /** Puts `x` in front of a successful result. */
  function Prepend(x: string, r: Result<string, FormatError>): Result<string, FormatError> {
    match r
    case Ok(v) => Ok(x + v)
    case Err(e) => Err(e)
  }

  /** `t.format(**args)`: fields are looked up as they are reached, so the
      first problem from the left is the one reported. */
  function Render(t: string, args: map<string, string>): (r: Result<string, FormatError>)
    ensures r.Err? && r.error.MissingKey? ==> r.error.name !in args && ValidKey(r.error.name)
    decreases |t|
  {
    match Next(t)
    case Done => Ok([])
    case Fail(e) => Err(e)
    case Emit(c, rest) => Prepend([c], Render(rest, args))
    case Ref(n, rest) =>
      if n in args then Prepend(args[n], Render(rest, args)) else Err(MissingKey(n))
  }

  /** A parsed template: literal characters and named fields. */
  datatype Piece = Lit(c: char) | Field(name: string)

  predicate WellFormed(ps: seq<Piece>) {
    forall i :: 0 <= i < |ps| ==> ps[i].Field? ==> ValidKey(ps[i].name)
  }

  /** The template text of a parsed template. */
  function Unparse(ps: seq<Piece>): string {
    if ps == [] then []
    else
      match ps[0]
      case Lit(c) => EscapeChar(c) + Unparse(ps[1..])
      case Field(n) => "{" + n + "}" + Unparse(ps[1..])
  }

  /** Syntax only: splits a template into pieces, without any lookup. */
  function Parse(t: string): (r: Result<seq<Piece>, FormatError>)
    ensures r.Ok? ==> Unparse(r.value) == t && WellFormed(r.value)
    ensures r.Err? ==> !r.error.MissingKey?
    decreases |t|
  {
    match Next(t)
    case Done => Ok([])
    case Fail(e) => Err(e)
    case Emit(c, rest) =>
      (match Parse(rest)
       case Ok(ps) => Ok([Lit(c)] + ps)
       case Err(e) => Err(e))
    case Ref(n, rest) =>
      (match Parse(rest)
       case Ok(ps) => Ok([Field(n)] + ps)
       case Err(e) => Err(e))
  }

  /** Lookup only: substitutes the keyword arguments into parsed pieces. */
  function Fill(ps: seq<Piece>, args: map<string, string>): (r: Result<string, FormatError>)
    ensures r.Err? ==> r.error.MissingKey? && r.error.name !in args
    ensures r.Err? ==> exists i :: 0 <= i < |ps| && ps[i] == Field(r.error.name)
    ensures r.Ok? <==> forall i :: 0 <= i < |ps| && ps[i].Field? ==> ps[i].name in args
  {
    if ps == [] then Ok([])
    else
      var r := match ps[0]
        case Lit(c) => Prepend([c], Fill(ps[1..], args))
        case Field(n) => if n in args then Prepend(args[n], Fill(ps[1..], args)) else Err(MissingKey(n));
      assert r.Err? ==> exists i :: 0 <= i < |ps| && ps[i] == Field(r.error.name) by {
        if r.Err? && !(ps[0].Field? && ps[0].name !in args) {
          var i :| 0 <= i < |ps[1..]| && ps[1..][i] == Field(r.error.name);
          assert ps[i + 1] == ps[1..][i];
        }
      }
      r
  }

  /** The template text that renders to exactly `s`. */
  function Escape(s: string): (t: string)
    ensures |s| <= |t| <= 2 * |s|
  {
    if s == [] then [] else EscapeChar(s[0]) + Escape(s[1..])
  }

  /** `PROMPTS.get(name, {}).get("prompt", "")`. */
  function TemplateOf(prompts: map<string, map<string, string>>, name: string): string {
    if name in prompts && "prompt" in prompts[name] then prompts[name]["prompt"] else []
  }

  /** `get_prompt(name, **args)`. */
  function GetPrompt(prompts: map<string, map<string, string>>, name: string, args: map<string, string>): (r: Result<string, FormatError>)
    ensures r.Err? && r.error.MissingKey? ==> r.error.name !in args
  {
    Render(TemplateOf(prompts, name), args)
  }

  // ----- The scanner on the texts it is meant to read -----

  lemma NextEscapeChar(c: char, u: string)
    ensures Next(EscapeChar(c) + u) == Emit(c, u)
  {
    var t := EscapeChar(c) + u;
    if c == '{' || c == '}' {
      assert t[2..] == u;
    } else {
      assert t[1..] == u;
    }
  }

  lemma {:induction false} FieldLengthPlain(n: string, u: string)
    requires !HasSpecial(n)
    ensures FieldLength(n + "}" + u, 1) == Some(|n|)
  {
    if n != [] {
      assert !HasSpecial(n[1..]) by {
        forall i | 0 <= i < |n[1..]| ensures !Special(n[1..][i]) {
          assert n[1..][i] == n[i + 1];
        }
      }
      assert !Special(n[0]);
      FieldLengthPlain(n[1..], u);
      assert (n + "}" + u)[1..] == n[1..] + "}" + u;
    }
  }

  lemma NextField(n: string, u: string)
    requires ValidKey(n)
    ensures Next("{" + n + "}" + u) == Ref(n, u)
  {
    var t := "{" + n + "}" + u;
    assert t[1..] == n + "}" + u;
    FieldLengthPlain(n, u);
    assert t[1] == n[0] && !Special(n[0]);
    assert t[1..|n| + 1] == n;
    assert t[|n| + 2..] == u;
  }

  // ----- Rendering -----

  lemma PrependPrepend(x: string, y: string, r: Result<string, FormatError>)
    ensures Prepend(x, Prepend(y, r)) == Prepend(x + y, r)
  {
    if r.Ok? {
      assert x + (y + r.value) == (x + y) + r.value;
    }
  }

  lemma RenderEmit(c: char, u: string, args: map<string, string>)
    ensures Render(EscapeChar(c) + u, args) == Prepend([c], Render(u, args))
  {
    NextEscapeChar(c, u);
  }

  lemma RenderRef(n: string, u: string, args: map<string, string>)
    requires ValidKey(n)
    ensures n in args ==> Render("{" + n + "}" + u, args) == Prepend(args[n], Render(u, args))
    ensures n !in args ==> Render("{" + n + "}" + u, args) == Err(MissingKey(n))
  {
    NextField(n, u);
  }

  /** Escaped text renders to itself, whatever follows it. */
  lemma {:induction false} RenderEscape(s: string, rest: string, args: map<string, string>)
    ensures Render(Escape(s) + rest, args) == Prepend(s, Render(rest, args))
  {
    if s == [] {
      assert Escape(s) + rest == rest;
      if Render(rest, args).Ok? {
        assert [] + Render(rest, args).value == Render(rest, args).value;
      }
    } else {
      var u := Escape(s[1..]) + rest;
      assert Escape(s) + rest == EscapeChar(s[0]) + u;
      RenderEmit(s[0], u, args);
      RenderEscape(s[1..], rest, args);
      PrependPrepend([s[0]], s[1..], Render(rest, args));
      assert [s[0]] + s[1..] == s;
    }
  }

  /** A template without fields renders to its text with the braces undoubled. */
  lemma RenderLiteral(s: string, args: map<string, string>)
    ensures Render(Escape(s), args) == Ok(s)
  {
    RenderEscape(s, [], args);
    assert Escape(s) + [] == Escape(s);
    assert s + [] == s;
  }

  /** A field is replaced by the value of its keyword argument. */
  lemma RenderSubstitutes(a: string, n: string, b: string, args: map<string, string>)
    requires ValidKey(n) && n in args
    ensures Render(Escape(a) + "{" + n + "}" + Escape(b), args) == Ok(a + args[n] + b)
  {
    var tail := "{" + n + "}" + Escape(b);
    FieldAfterEscape(a, n, Escape(b));
    RenderEscape(a, tail, args);
    RenderRef(n, Escape(b), args);
    RenderLiteral(b, args);
    PrependPrepend(a, args[n], Ok(b));
  }

  lemma FieldAfterEscape(a: string, n: string, u: string)
    ensures Escape(a) + "{" + n + "}" + u == Escape(a) + ("{" + n + "}" + u)
  {
  }

  /** A field whose keyword is missing fails at once, before anything after it is read. */
  lemma RenderMissingKey(a: string, n: string, b: string, args: map<string, string>)
    requires ValidKey(n) && n !in args
    ensures Render(Escape(a) + "{" + n + "}" + b, args) == Err(MissingKey(n))
  {
    FieldAfterEscape(a, n, b);
    RenderEscape(a, "{" + n + "}" + b, args);
    RenderRef(n, b, args);
  }

  /** A lone closing brace, or an opening brace at the end, is refused. */
  lemma RenderUnmatched(a: string, args: map<string, string>)
    ensures Render(Escape(a) + "}", args) == Err(SingleClose)
    ensures Render(Escape(a) + "{", args) == Err(SingleOpen)
  {
    RenderEscape(a, "}", args);
    RenderEscape(a, "{", args);
  }

  /** Keyword arguments the template does not name make no difference. */
  lemma {:induction false} RenderExtraArgs(t: string, args: map<string, string>, more: map<string, string>)
    requires Render(t, args).Ok?
    requires forall k :: k in args ==> k in more && more[k] == args[k]
    ensures Render(t, more) == Render(t, args)
    decreases |t|
  {
    match Next(t)
    case Done =>
    case Fail(_) =>
    case Emit(_, rest) => RenderExtraArgs(rest, args, more);
    case Ref(_, rest) => RenderExtraArgs(rest, args, more);
  }

  // ----- Rendering is parsing followed by filling -----

  /** Parsing and filling in two passes agrees with rendering whenever the
      template parses; a template that renders always parses. */
  lemma {:induction false} RenderIsParseThenFill(t: string, args: map<string, string>)
    ensures Parse(t).Ok? ==> Render(t, args) == Fill(Parse(t).value, args)
    ensures Render(t, args).Ok? ==> Parse(t).Ok?
    decreases |t|
  {
    match Next(t)
    case Done =>
    case Fail(_) =>
    case Emit(c, rest) =>
      RenderIsParseThenFill(rest, args);
      if Parse(rest).Ok? {
        assert ([Lit(c)] + Parse(rest).value)[1..] == Parse(rest).value;
      }
    case Ref(n, rest) =>
      RenderIsParseThenFill(rest, args);
      if Parse(rest).Ok? {
        assert ([Field(n)] + Parse(rest).value)[1..] == Parse(rest).value;
      }
  }

  /** Parsing recovers the pieces a template was written from. */
  lemma {:induction false} ParseUnparse(ps: seq<Piece>)
    requires WellFormed(ps)
    ensures Parse(Unparse(ps)) == Ok(ps)
  {
    if ps != [] {
      assert WellFormed(ps[1..]) by {
        forall i | 0 <= i < |ps[1..]| ensures ps[1..][i].Field? ==> ValidKey(ps[1..][i].name) {
          assert ps[1..][i] == ps[i + 1];
        }
      }
      ParseUnparse(ps[1..]);
      match ps[0]
      case Lit(c) =>
        NextEscapeChar(c, Unparse(ps[1..]));
        assert [Lit(c)] + ps[1..] == ps;
      case Field(n) =>
        assert ValidKey(n) by { assert ps[0].Field?; }
        NextField(n, Unparse(ps[1..]));
        assert [Field(n)] + ps[1..] == ps;
    }
  }

  // ----- Prompt lookup -----

  /** An unknown prompt name, or an entry without a template, gives the empty prompt. */
  lemma UnknownPromptIsEmpty(prompts: map<string, map<string, string>>, name: string, args: map<string, string>)
    requires name !in prompts || "prompt" !in prompts[name]
    ensures GetPrompt(prompts, name, args) == Ok([])
  {
  }

  /** A known prompt renders its own template. */
  lemma KnownPromptRenders(prompts: map<string, map<string, string>>, name: string, a: string, n: string, b: string, args: map<string, string>)
    requires name in prompts && "prompt" in prompts[name]
    requires prompts[name]["prompt"] == Escape(a) + "{" + n + "}" + Escape(b)
    requires ValidKey(n) && n in args
    ensures GetPrompt(prompts, name, args) == Ok(a + args[n] + b)
  {
    RenderSubstitutes(a, n, b, args);
  }
}
