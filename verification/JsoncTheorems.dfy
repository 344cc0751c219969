/** What stripping JSON-with-comments means, lexeme by lexeme, for every text. */
module JsoncTheorems {
  import opened GraphModel
  import opened JsonStrings
  import opened Jsonc

  datatype Lexeme =
    | Quoted(quote: char, chars: seq<StringChar>)
    | OpenQuoted(quote: char, chars: seq<StringChar>, dangling: bool)  // runs into the end of the text
    | LineComment(body: string)
    | BlockComment(body: string)
    | OpenBlock(body: string)                                           // runs into the end of the text
    | Comma
    | Space(c: char)
    | Raw(c: char)

  function RenderOne(l: Lexeme): string {
    match l
    case Quoted(quote, chars) => [quote] + RenderChars(chars) + [quote]
    case OpenQuoted(quote, chars, dangling) => [quote] + RenderChars(chars) + (if dangling then "\\" else "")
    case LineComment(body) => "//" + body
    case BlockComment(body) => "/*" + body + "*/"
    case OpenBlock(body) => "/*" + body
    case Comma => ","
    case Space(c) => [c]
    case Raw(c) => [c]
  }

  function Render(ls: seq<Lexeme>): string {
    if ls == [] then "" else RenderOne(ls[0]) + Render(ls[1..])
  }

  predicate NoBlockEnd(body: string) {
    forall i :: 0 <= i < |body| - 1 ==> !(body[i] == '*' && body[i + 1] == '/')
  }

  predicate Valid(l: Lexeme) {
    match l
    case Quoted(quote, chars) => (quote == '"' || quote == '\'') && GoodChars(chars, quote)
    case OpenQuoted(quote, chars, _) => (quote == '"' || quote == '\'') && GoodChars(chars, quote)
    case LineComment(body) => '\n' !in body
    case BlockComment(body) => NoBlockEnd(body)
    case OpenBlock(body) => NoBlockEnd(body)
    case Comma => true
    case Space(c) => c in {' ', '\t', '\r', '\n'}
    case Raw(c) => c !in {'"', '\'', ' ', '\t', '\r', '\n', ','}
  }

  predicate IsOpen(l: Lexeme) { l.OpenQuoted? || l.OpenBlock? }

  predicate IsComment(l: Lexeme) { l.LineComment? || l.BlockComment? || l.OpenBlock? }

  /** What may follow: a slash must not start a comment, a line comment ends with its line, and an
      open lexeme ends the text. */
  predicate Fits(l: Lexeme, rest: string) {
    && (l == Raw('/') ==> rest == "" || (rest[0] != '/' && rest[0] != '*'))
    && (l.LineComment? ==> rest == "" || rest[0] == '\n')
    && (IsOpen(l) ==> rest == "")
  }

  predicate WellFormed(ls: seq<Lexeme>) {
    ls == [] || (Valid(ls[0]) && Fits(ls[0], Render(ls[1..])) && WellFormed(ls[1..]))
  }

  // ---- what should be left --------------------------------------------------------------------

  function WithoutComments(ls: seq<Lexeme>): seq<Lexeme> {
    if ls == [] then []
    else (if IsComment(ls[0]) then [] else [ls[0]]) + WithoutComments(ls[1..])
  }

  /** The next lexeme that is neither white space nor a comment is a closing bracket. */
  predicate CloseFollows(ls: seq<Lexeme>) {
    ls != [] &&
    (if ls[0].Space? || IsComment(ls[0]) then CloseFollows(ls[1..]) else ls[0] == Raw('}') || ls[0] == Raw(']'))
  }

  /** Comments removed, and exactly those commas that a closing bracket follows. */
  function Cleaned(ls: seq<Lexeme>): seq<Lexeme> {
    if ls == [] then []
    else (if IsComment(ls[0]) || (ls[0].Comma? && CloseFollows(ls[1..])) then [] else [ls[0]]) + Cleaned(ls[1..])
  }

  // ---- strings pass through both scanners -----------------------------------------------------

  lemma {:induction false} StripChars(quote: char, chars: seq<StringChar>, rest: string)
    requires GoodChars(chars, quote)
    ensures StripComments(RenderChars(chars) + rest, Some(quote))
         == RenderChars(chars) + StripComments(rest, Some(quote))
    ensures DropCommas(RenderChars(chars) + rest, Some(quote)) == RenderChars(chars) + DropCommas(rest, Some(quote))
  {
    if chars == [] {
      Nothing(rest);
      Nothing(StripComments(rest, Some(quote)));
      Nothing(DropCommas(rest, Some(quote)));
    } else {
      var one, more := RenderChar(chars[0]), RenderChars(chars[1..]);
      assert chars[0] in chars;
      StripChars(quote, chars[1..], rest);
      Regroup(one, more, rest);
      StepChar(chars[0], more + rest, quote);
      Regroup(one, more, StripComments(rest, Some(quote)));
      Regroup(one, more, DropCommas(rest, Some(quote)));
    }
  }

  lemma Nothing(s: string)
    ensures "" + s == s
  {
  }

  lemma Regroup(a: string, b: string, c: string)
    ensures (a + b) + c == a + (b + c)
  {
  }

  lemma StepChar(x: StringChar, rest: string, quote: char)
    requires x.Plain? ==> x.c != quote && x.c != '\\'
    ensures StripComments(RenderChar(x) + rest, Some(quote)) == RenderChar(x) + StripComments(rest, Some(quote))
    ensures DropCommas(RenderChar(x) + rest, Some(quote)) == RenderChar(x) + DropCommas(rest, Some(quote))
  {
  }

  lemma StepQuote(c: char, rest: string)
    requires IsQuote(c)
    ensures StripComments([c] + rest, Some(c)) == [c] + StripComments(rest, None)
    ensures StripComments([c] + rest, None) == [c] + StripComments(rest, Some(c))
    ensures DropCommas([c] + rest, Some(c)) == [c] + DropCommas(rest, None)
    ensures DropCommas([c] + rest, None) == [c] + DropCommas(rest, Some(c))
  {
  }

  lemma QuotedPasses(quote: char, chars: seq<StringChar>, rest: string)
    requires IsQuote(quote) && GoodChars(chars, quote)
    ensures StripComments(RenderOne(Quoted(quote, chars)) + rest, None)
         == RenderOne(Quoted(quote, chars)) + StripComments(rest, None)
    ensures DropCommas(RenderOne(Quoted(quote, chars)) + rest, None)
         == RenderOne(Quoted(quote, chars)) + DropCommas(rest, None)
  {
    var q, inner := [quote], RenderChars(chars);
    Bracketed(q, inner, rest);
    Bracketed(q, inner, StripComments(rest, None));
    Bracketed(q, inner, DropCommas(rest, None));
    StepQuote(quote, inner + (q + rest));
    StripChars(quote, chars, q + rest);
    StepQuote(quote, rest);
  }

  lemma Bracketed(q: string, inner: string, rest: string)
    ensures (q + inner + q) + rest == q + (inner + (q + rest))
  {
  }

  lemma OpenQuotedPasses(quote: char, chars: seq<StringChar>, dangling: bool)
    requires IsQuote(quote) && GoodChars(chars, quote)
    ensures StripComments(RenderOne(OpenQuoted(quote, chars, dangling)), None)
         == RenderOne(OpenQuoted(quote, chars, dangling))
    ensures DropCommas(RenderOne(OpenQuoted(quote, chars, dangling)), None)
         == RenderOne(OpenQuoted(quote, chars, dangling))
  {
    var inner, tail := RenderChars(chars), if dangling then "\\" else "";
    assert RenderOne(OpenQuoted(quote, chars, dangling)) == [quote] + (inner + tail);
    StepQuote(quote, inner + tail);
    StripChars(quote, chars, tail);
    Dangling(quote);
  }

  lemma Dangling(quote: char)
    ensures StripComments("\\", Some(quote)) == "\\" && DropCommas("\\", Some(quote)) == "\\"
  {
  }

  // ---- comments -------------------------------------------------------------------------------

  lemma {:induction false} LineEnds(body: string, rest: string)
    requires '\n' !in body && (rest == "" || rest[0] == '\n')
    ensures AfterLine(body + rest) == rest
  {
    if body == "" {
      assert body + rest == rest;
    } else {
      assert (body + rest)[1..] == body[1..] + rest;
      LineEnds(body[1..], rest);
    }
  }

  lemma {:induction false} BlockEnds(body: string, rest: string)
    requires NoBlockEnd(body)
    ensures AfterBlock(body + "*/" + rest) == rest
  {
    var s := body + "*/" + rest;
    if body == "" {
      assert s == "*/" + rest && s[2..] == rest;
    } else {
      assert s[1..] == body[1..] + "*/" + rest;
      BlockEnds(body[1..], rest);
    }
  }

  lemma {:induction false} OpenBlockEnds(body: string)
    requires NoBlockEnd(body)
    ensures AfterBlock(body) == ""
  {
    if |body| >= 2 { OpenBlockEnds(body[1..]); }
  }

  lemma CommentVanishes(l: Lexeme, rest: string)
    requires IsComment(l) && Valid(l) && Fits(l, rest)
    ensures StripComments(RenderOne(l) + rest, None) == StripComments(rest, None)
  {
    match l {
      case LineComment(body) =>
        LineEnds(body, rest);
        LineVanishes("//" + body + rest, body + rest);
      case BlockComment(body) =>
        BlockEnds(body, rest);
        BlockVanishes("/*" + body + "*/" + rest, body + "*/" + rest);
      case OpenBlock(body) =>
        OpenBlockEnds(body);
        BlockVanishes("/*" + body + rest, body);
    }
  }

  lemma LineVanishes(s: string, inside: string)
    requires s == "//" + inside
    ensures StripComments(s, None) == StripComments(AfterLine(inside), None)
  {
    assert s[2..] == inside && s[0] == s[1] == '/';
  }

  lemma BlockVanishes(s: string, inside: string)
    requires s == "/*" + inside
    ensures StripComments(s, None) == StripComments(AfterBlock(inside), None)
  {
    assert s[2..] == inside && s[0] == '/' && s[1] == '*';
  }

  lemma OneCharPasses(l: Lexeme, rest: string)
    requires (l.Comma? || l.Space? || l.Raw?) && Valid(l) && Fits(l, rest)
    ensures StripComments(RenderOne(l) + rest, None) == RenderOne(l) + StripComments(rest, None)
  {
  }

  lemma OthersPass(l: Lexeme, rest: string)
    requires !IsComment(l) && Valid(l) && Fits(l, rest)
    ensures StripComments(RenderOne(l) + rest, None) == RenderOne(l) + StripComments(rest, None)
  {
    match l {
      case Quoted(quote, chars) => QuotedPasses(quote, chars, rest);
      case OpenQuoted(quote, chars, dangling) =>
        OpenQuotedPasses(quote, chars, dangling);
        assert RenderOne(l) + "" == RenderOne(l);
      case _ => OneCharPasses(l, rest);
    }
  }

  lemma RenderCons(l: Lexeme, ls: seq<Lexeme>)
    ensures Render([l] + ls) == RenderOne(l) + Render(ls)
  {
  }

  /** The first pass removes the comments and nothing else. */
  lemma {:induction false} CommentsAreStripped(ls: seq<Lexeme>)
    requires WellFormed(ls)
    ensures StripComments(Render(ls), None) == Render(WithoutComments(ls))
  {
    if ls != [] {
      CommentsAreStripped(ls[1..]);
      if IsComment(ls[0]) {
        CommentVanishes(ls[0], Render(ls[1..]));
        assert [] + WithoutComments(ls[1..]) == WithoutComments(ls[1..]);
      } else {
        OthersPass(ls[0], Render(ls[1..]));
        RenderCons(ls[0], WithoutComments(ls[1..]));
      }
    }
  }

  // ---- trailing commas ------------------------------------------------------------------------

  /** Comment-free lexemes, an open string last: all that the second pass relies on. */
  predicate Plainly(ls: seq<Lexeme>) {
    ls == [] || (Valid(ls[0]) && !IsComment(ls[0]) && (IsOpen(ls[0]) ==> ls[1..] == []) && Plainly(ls[1..]))
  }

  lemma {:induction false} ClosesNextIs(ls: seq<Lexeme>)
    requires Plainly(ls)
    ensures ClosesNext(Render(ls)) == CloseFollows(ls)
  {
    if ls != [] {
      var s := Render(ls);
      if ls[0].Space? {
        assert s[1..] == Render(ls[1..]);
        ClosesNextIs(ls[1..]);
      } else {
        assert s[0] == RenderOne(ls[0])[0];
      }
    }
  }

  lemma {:induction false} CommasAreDropped(ls: seq<Lexeme>)
    requires Plainly(ls)
    ensures DropCommas(Render(ls), None) == Render(Cleaned(ls))
  {
    if ls != [] {
      var rest := Render(ls[1..]);
      CommasAreDropped(ls[1..]);
      ClosesNextIs(ls[1..]);
      if ls[0].Comma? && CloseFollows(ls[1..]) {
        assert ("," + rest)[1..] == rest;
        assert [] + Cleaned(ls[1..]) == Cleaned(ls[1..]);
      } else {
        RenderCons(ls[0], Cleaned(ls[1..]));
        if ls[0].Quoted? {
          QuotedPasses(ls[0].quote, ls[0].chars, rest);
        } else if ls[0].OpenQuoted? {
          OpenQuotedPasses(ls[0].quote, ls[0].chars, ls[0].dangling);
          assert RenderOne(ls[0]) + "" == RenderOne(ls[0]);
        } else {
          assert (RenderOne(ls[0]) + rest)[1..] == rest;
        }
      }
    }
  }

  lemma {:induction false} CommentFree(ls: seq<Lexeme>)
    requires WellFormed(ls)
    ensures Plainly(WithoutComments(ls))
  {
    if ls != [] {
      CommentFree(ls[1..]);
      var rest := WithoutComments(ls[1..]);
      if IsComment(ls[0]) {
        assert [] + rest == rest;
      } else {
        assert ([ls[0]] + rest)[1..] == rest;
        if IsOpen(ls[0]) { EmptyRender(ls[1..]); }
      }
    }
  }

  lemma EmptyRender(ls: seq<Lexeme>)
    requires Render(ls) == ""
    ensures ls == []
  {
  }

  lemma {:induction false} CommentsDoNotMatter(ls: seq<Lexeme>)
    ensures CloseFollows(WithoutComments(ls)) == CloseFollows(ls)
    ensures Cleaned(WithoutComments(ls)) == Cleaned(ls)
  {
    if ls != [] {
      CommentsDoNotMatter(ls[1..]);
      var rest := WithoutComments(ls[1..]);
      if IsComment(ls[0]) {
        assert [] + rest == rest;
        assert [] + Cleaned(ls[1..]) == Cleaned(ls[1..]);
      } else {
        assert ([ls[0]] + rest)[1..] == rest;
      }
    }
  }

  /** `strip_jsonc` of a rendering is the rendering with comments removed and with exactly those
      commas removed whose next lexeme, white space and comments aside, is a closing bracket. */
  lemma StrippedIsCleaned(ls: seq<Lexeme>)
    requires WellFormed(ls)
    ensures StripJsonc(Render(ls)) == Render(Cleaned(ls))
  {
    CommentsAreStripped(ls);
    CommentFree(ls);
    CommasAreDropped(WithoutComments(ls));
    CommentsDoNotMatter(ls);
  }

  // ---- every text is a rendering --------------------------------------------------------------

  datatype Cut = Cut(lexeme: Lexeme, rest: string)

  datatype StringCut = StringCut(chars: seq<StringChar>, closed: bool, dangling: bool, rest: string)

  function CutString(s: string, quote: char): (r: StringCut)
    ensures |r.rest| <= |s| && (!r.closed ==> r.rest == "")
    decreases |s|
  {
    if s == "" then StringCut([], false, false, "")
    else if s[0] == '\\' && |s| > 1 then
      var r := CutString(s[2..], quote);
      StringCut([Escaped(s[1])] + r.chars, r.closed, r.dangling, r.rest)
    else if s[0] == '\\' then StringCut([], false, true, "")
    else if s[0] == quote then StringCut([], true, false, s[1..])
    else
      var r := CutString(s[1..], quote);
      StringCut([Plain(s[0])] + r.chars, r.closed, r.dangling, r.rest)
  }

  function TailOf(r: StringCut, quote: char): string {
    (if r.closed then [quote] else if r.dangling then "\\" else "") + r.rest
  }

  lemma CharPrepended(x: StringChar, r: StringCut, quote: char, rest: string)
    requires GoodChars(r.chars, quote) && rest == RenderChars(r.chars) + TailOf(r, quote)
    requires x.Plain? ==> x.c != quote && x.c != '\\'
    ensures var longer := r.(chars := [x] + r.chars);
      GoodChars(longer.chars, quote) && RenderChar(x) + rest == RenderChars(longer.chars) + TailOf(longer, quote)
  {
  }

  lemma {:induction false} CutStringRenders(s: string, quote: char)
    ensures GoodChars(CutString(s, quote).chars, quote)
    ensures s == RenderChars(CutString(s, quote).chars) + TailOf(CutString(s, quote), quote)
    decreases |s|
  {
    if s == "" {
    } else if s[0] == '\\' {
      if |s| > 1 {
        CutStringRenders(s[2..], quote);
        CharPrepended(Escaped(s[1]), CutString(s[2..], quote), quote, s[2..]);
        assert s == RenderChar(Escaped(s[1])) + s[2..];
      }
    } else if s[0] == quote {
      assert s == [quote] + s[1..];
    } else {
      CutStringRenders(s[1..], quote);
      CharPrepended(Plain(s[0]), CutString(s[1..], quote), quote, s[1..]);
      assert s == RenderChar(Plain(s[0])) + s[1..];
    }
  }

  function LineBody(s: string): (r: string)
    ensures '\n' !in r && s == r + AfterLine(s)
  {
    if s == "" || s[0] == '\n' then "" else
      assert s == [s[0]] + s[1..];
      [s[0]] + LineBody(s[1..])
  }

  /** The text of a block comment and whether it is closed. */
  function BlockBody(s: string): (r: (string, bool))
    ensures NoBlockEnd(r.0) && s == r.0 + (if r.1 then "*/" else "") + AfterBlock(s)
    ensures !r.1 ==> AfterBlock(s) == ""
    ensures r.0 <= s
  {
    if |s| < 2 then (s, false)
    else if s[0] == '*' && s[1] == '/' then ("", true)
    else
      var r := BlockBody(s[1..]);
      assert s == [s[0]] + s[1..];
      ([s[0]] + r.0, r.1)
  }

  function CutOne(s: string): (r: Cut)
    requires s != ""
    ensures |r.rest| < |s|
  {
    if IsQuote(s[0]) then
      var r := CutString(s[1..], s[0]);
      Cut(if r.closed then Quoted(s[0], r.chars) else OpenQuoted(s[0], r.chars, r.dangling), r.rest)
    else if |s| > 1 && s[0] == '/' && s[1] == '/' then Cut(LineComment(LineBody(s[2..])), AfterLine(s[2..]))
    else if |s| > 1 && s[0] == '/' && s[1] == '*' then
      var r := BlockBody(s[2..]);
      Cut(if r.1 then BlockComment(r.0) else OpenBlock(r.0), AfterBlock(s[2..]))
    else if s[0] == ',' then Cut(Comma, s[1..])
    else if IsSpace(s[0]) then Cut(Space(s[0]), s[1..])
    else Cut(Raw(s[0]), s[1..])
  }

  lemma CutOneRenders(s: string)
    requires s != ""
    ensures var r := CutOne(s); s == RenderOne(r.lexeme) + r.rest && Valid(r.lexeme) && Fits(r.lexeme, r.rest)
  {
    assert s == [s[0]] + s[1..];
    if IsQuote(s[0]) {
      CutQuoteRenders(s);
    } else if |s| > 1 && s[0] == '/' && (s[1] == '/' || s[1] == '*') {
      CutCommentRenders(s);
    }
  }

  lemma CutQuoteRenders(s: string)
    requires s != "" && IsQuote(s[0])
    ensures var r := CutOne(s); s == RenderOne(r.lexeme) + r.rest && Valid(r.lexeme) && Fits(r.lexeme, r.rest)
  {
    assert s == [s[0]] + s[1..];
    CutStringRenders(s[1..], s[0]);
  }

  lemma CutCommentRenders(s: string)
    requires |s| > 1 && s[0] == '/' && (s[1] == '/' || s[1] == '*')
    ensures var r := CutOne(s); s == RenderOne(r.lexeme) + r.rest && Valid(r.lexeme) && Fits(r.lexeme, r.rest)
  {
    assert s == [s[0], s[1]] + s[2..] && "//" == ['/', '/'] && "/*" == ['/', '*'];
    if s[1] == '/' {
      LineCommentRenders(s[2..]);
    } else {
      BlockCommentRenders(s[2..]);
    }
  }

  lemma LineCommentRenders(body: string)
    ensures RenderOne(LineComment(LineBody(body))) + AfterLine(body) == "//" + body
  {
    Associates("//", LineBody(body), AfterLine(body));
  }

  lemma Associates(a: string, b: string, c: string)
    ensures a + (b + c) == a + b + c
  {
  }

  lemma BlockCommentRenders(body: string)
    ensures var r := BlockBody(body);
      RenderOne(if r.1 then BlockComment(r.0) else OpenBlock(r.0)) + AfterBlock(body) == "/*" + body
  {
    var r := BlockBody(body);
    Associates("/*", r.0, if r.1 then "*/" else "");
    Associates("/*", r.0 + if r.1 then "*/" else "", AfterBlock(body));
    assert !r.1 ==> "/*" + r.0 + "" == "/*" + r.0;
  }

  /** Every text whatsoever, unterminated strings and comments included, is the rendering of
      well-formed lexemes. */
  function Lex(s: string): (ls: seq<Lexeme>)
    ensures Render(ls) == s && WellFormed(ls)
    decreases |s|
  {
    if s == "" then []
    else
      var cut := CutOne(s);
      CutOneRenders(s);
      var rest := Lex(cut.rest);
      assert ([cut.lexeme] + rest)[1..] == rest;
      [cut.lexeme] + rest
  }

  /** The meaning of `strip_jsonc`, for every text. */
  lemma StripJsoncMeans(text: string)
    ensures StripJsonc(text) == Render(Cleaned(Lex(text)))
    ensures StripComments(text, None) == Render(WithoutComments(Lex(text)))
  {
    StrippedIsCleaned(Lex(text));
    CommentsAreStripped(Lex(text));
  }

  // ---- stripping again ------------------------------------------------------------------------

  lemma {:induction false} StaysWellFormed(ls: seq<Lexeme>)
    requires WellFormed(ls)
    ensures WellFormed(WithoutComments(ls)) && WithoutComments(WithoutComments(ls)) == WithoutComments(ls)
  {
    if ls != [] {
      StaysWellFormed(ls[1..]);
      var rest := WithoutComments(ls[1..]);
      if IsComment(ls[0]) {
        assert [] + rest == rest;
      } else {
        assert ([ls[0]] + rest)[1..] == rest;
        FitsWithoutComments(ls[0], ls[1..]);
      }
    }
  }

  lemma FirstChar(ls: seq<Lexeme>)
    requires ls != []
    ensures Render(ls) != "" && Render(ls)[0] == RenderOne(ls[0])[0]
  {
  }

  lemma FitsWithoutComments(l: Lexeme, ls: seq<Lexeme>)
    requires Fits(l, Render(ls)) && !IsComment(l)
    ensures Fits(l, Render(WithoutComments(ls)))
  {
  }

  /** Removing comments never creates one: the first pass is idempotent, on every text. */
  lemma StripCommentsIdempotent(text: string)
    ensures StripComments(StripComments(text, None), None) == StripComments(text, None)
  {
    var ls := Lex(text);
    CommentsAreStripped(ls);
    StaysWellFormed(ls);
    CommentsAreStripped(WithoutComments(ls));
  }

  lemma {:induction false} CleanedStartsSafely(ls: seq<Lexeme>)
    requires WellFormed(ls) && CloseFollows(ls)
    ensures Cleaned(ls) != []
    ensures var l := Cleaned(ls)[0]; (l.Space? && IsSpace(l.c)) || (l.Raw? && IsClose(l.c))
  {
    if IsComment(ls[0]) { CleanedStartsSafely(ls[1..]); }
  }

  lemma FitsCleaned(l: Lexeme, ls: seq<Lexeme>)
    requires Fits(l, Render(ls)) && !IsComment(l) && WellFormed(ls)
    ensures Fits(l, Render(Cleaned(ls)))
  {
    if l == Raw('/') && ls != [] {
      FirstChar(ls);
      if ls[0].Comma? && CloseFollows(ls[1..]) {
        CleanedStartsSafely(ls[1..]);
        assert Cleaned(ls) == Cleaned(ls[1..]);
      } else {
        assert Cleaned(ls) == [ls[0]] + Cleaned(ls[1..]);
      }
      FirstChar(Cleaned(ls));
    } else if IsOpen(l) {
      EmptyRender(ls);
    }
  }

  lemma {:induction false} CleanedIsWellFormed(ls: seq<Lexeme>)
    requires WellFormed(ls)
    ensures WellFormed(Cleaned(ls)) && WithoutComments(Cleaned(ls)) == Cleaned(ls)
  {
    if ls != [] {
      CleanedIsWellFormed(ls[1..]);
      var rest := Cleaned(ls[1..]);
      if IsComment(ls[0]) || (ls[0].Comma? && CloseFollows(ls[1..])) {
        assert [] + rest == rest;
      } else {
        assert ([ls[0]] + rest)[1..] == rest;
        FitsCleaned(ls[0], ls[1..]);
      }
    }
  }

  /** Nothing that `strip_jsonc` returns contains a comment: the first pass leaves it alone. */
  lemma NoCommentLeft(text: string)
    ensures StripComments(StripJsonc(text), None) == StripJsonc(text)
  {
    var ls := Lex(text);
    StripJsoncMeans(text);
    CleanedIsWellFormed(ls);
    CommentsAreStripped(Cleaned(ls));
  }

  // ---- the second pass, twice -----------------------------------------------------------------

  /** The next lexeme, white space and comments aside, is a comma that will be dropped. */
  predicate DroppedCommaFollows(ls: seq<Lexeme>) {
    ls != []
    && (if ls[0].Space? || IsComment(ls[0]) then DroppedCommaFollows(ls[1..])
        else ls[0].Comma? && CloseFollows(ls[1..]))
  }

  /** Somewhere a comma is followed by a comma that a closing bracket follows. */
  predicate DoubledComma(ls: seq<Lexeme>) {
    ls != [] && ((ls[0].Comma? && DroppedCommaFollows(ls[1..])) || DoubledComma(ls[1..]))
  }

  lemma {:induction false} CloseAfterCleaning(ls: seq<Lexeme>)
    ensures CloseFollows(Cleaned(ls)) <==> CloseFollows(ls) || DroppedCommaFollows(ls)
  {
    if ls != [] {
      CloseAfterCleaning(ls[1..]);
      var rest := Cleaned(ls[1..]);
      if IsComment(ls[0]) || (ls[0].Comma? && CloseFollows(ls[1..])) {
        assert [] + rest == rest;
      } else {
        assert ([ls[0]] + rest)[1..] == rest;
      }
    }
  }

  lemma {:induction false} CleanedTwice(ls: seq<Lexeme>)
    ensures |Cleaned(Cleaned(ls))| <= |Cleaned(ls)|
    ensures Cleaned(Cleaned(ls)) == Cleaned(ls) <==> !DoubledComma(ls)
  {
    if ls != [] {
      CleanedTwice(ls[1..]);
      CloseAfterCleaning(ls[1..]);
      var rest := Cleaned(ls[1..]);
      if IsComment(ls[0]) || (ls[0].Comma? && CloseFollows(ls[1..])) {
        assert [] + rest == rest;
        DroppedCommaIsAlone(ls);
      } else {
        assert ([ls[0]] + rest)[1..] == rest;
        if ls[0].Comma? && CloseFollows(rest) {
          assert [] + Cleaned(rest) == Cleaned(rest);
        } else {
          assert ([ls[0]] + Cleaned(rest))[1..] == Cleaned(rest);
        }
      }
    }
  }

  lemma {:induction false} DroppedCommaIsAlone(ls: seq<Lexeme>)
    ensures !(CloseFollows(ls) && DroppedCommaFollows(ls))
    ensures ls != [] && ls[0].Comma? && CloseFollows(ls[1..]) ==> !DroppedCommaFollows(ls[1..])
  {
    if ls != [] { DroppedCommaIsAlone(ls[1..]); }
  }

  lemma {:induction false} RenderInjectiveLength(ls: seq<Lexeme>, ms: seq<Lexeme>)
    requires Plainly(ls) && Cleaned(ls) == ms
    ensures |Render(ms)| <= |Render(ls)| && (Render(ms) == Render(ls) <==> ms == ls)
  {
    if ls != [] {
      RenderInjectiveLength(ls[1..], Cleaned(ls[1..]));
      var rest := Cleaned(ls[1..]);
      if ls[0].Comma? && CloseFollows(ls[1..]) {
        assert [] + rest == rest;
        CleanedShrinks(ls[1..]);
      } else {
        assert ([ls[0]] + rest)[1..] == rest;
        RenderCons(ls[0], rest);
        var one := RenderOne(ls[0]);
        assert (one + Render(rest))[|one|..] == Render(rest) && (one + Render(ls[1..]))[|one|..] == Render(ls[1..]);
        assert ls == [ls[0]] + ls[1..];
      }
    }
  }

  lemma {:induction false} CleanedShrinks(ls: seq<Lexeme>)
    ensures |Cleaned(ls)| <= |ls|
  {
    if ls != [] { CleanedShrinks(ls[1..]); }
  }

  /** The whole stripper is idempotent on a text exactly when the text has no doubled trailing
      comma; on one that has, a second run removes another comma. */
  lemma StripJsoncIdempotentIff(text: string)
    ensures StripJsonc(StripJsonc(text)) == StripJsonc(text) <==> !DoubledComma(Lex(text))
  {
    var ls := Lex(text);
    var once := Cleaned(ls);
    StripJsoncMeans(text);
    CleanedIsWellFormed(ls);
    StrippedIsCleaned(once);
    CommentFree(once);
    CleanedTwice(ls);
    RenderInjectiveLength(once, Cleaned(once));
  }

  /** One such text: "[1,,]" loses one comma only. */
  lemma DoubledCommaSurvives()
    ensures StripJsonc("[1,,]") == "[1,]"
  {
  }
}
