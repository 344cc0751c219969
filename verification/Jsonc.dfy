/** Stripping comments and trailing commas from JSON-with-comments (adapters/jsonc.py). */
module Jsonc {
  import opened GraphModel

  predicate IsQuote(c: char) { c == '"' || c == '\'' }

  predicate IsSpace(c: char) { c == ' ' || c == '\t' || c == '\r' || c == '\n' }

  predicate IsClose(c: char) { c == '}' || c == ']' }

  // ---- the two scanners, as functions of the text that is left --------------------------------

  function AfterLine(s: string): (r: string)
    ensures |r| <= |s| && (r == "" || r[0] == '\n')
  {
    if s == "" || s[0] == '\n' then s else AfterLine(s[1..])
  }

  function AfterBlock(s: string): (r: string)
    ensures |r| <= |s|
  {
    if |s| < 2 then "" else if s[0] == '*' && s[1] == '/' then s[2..] else AfterBlock(s[1..])
  }

  function StripComments(s: string, quote: Option<char>): string
    decreases |s|
  {
    if s == "" then ""
    else if quote.Some? then
      if s[0] == '\\' && |s| > 1 then s[..2] + StripComments(s[2..], quote)
      else [s[0]] + StripComments(s[1..], if s[0] == quote.value then None else quote)
    else if IsQuote(s[0]) then [s[0]] + StripComments(s[1..], Some(s[0]))
    else if |s| > 1 && s[0] == '/' && s[1] == '/' then StripComments(AfterLine(s[2..]), None)
    else if |s| > 1 && s[0] == '/' && s[1] == '*' then StripComments(AfterBlock(s[2..]), None)
    else [s[0]] + StripComments(s[1..], None)
  }

  predicate ClosesNext(s: string) {
    s != "" && (if IsSpace(s[0]) then ClosesNext(s[1..]) else IsClose(s[0]))
  }

  function DropCommas(s: string, quote: Option<char>): string
    decreases |s|
  {
    if s == "" then ""
    else if quote.Some? then
      if s[0] == '\\' && |s| > 1 then s[..2] + DropCommas(s[2..], quote)
      else [s[0]] + DropCommas(s[1..], if s[0] == quote.value then None else quote)
    else if IsQuote(s[0]) then [s[0]] + DropCommas(s[1..], Some(s[0]))
    else if s[0] == ',' && ClosesNext(s[1..]) then DropCommas(s[1..], None)
    else [s[0]] + DropCommas(s[1..], None)
  }

  function StripJsonc(text: string): string { DropCommas(StripComments(text, None), None) }

  // ---- the loops ------------------------------------------------------------------------------

  /** Skips a line comment from index i. */
  method SkipLine(text: string, i: nat) returns (j: nat)
    requires i <= |text|
    ensures i <= j <= |text| && text[j..] == AfterLine(text[i..])
  {
    j := i;
    while j < |text| && text[j] != '\n'
      invariant i <= j <= |text|
      invariant AfterLine(text[j..]) == AfterLine(text[i..])
    {
      assert text[j..][1..] == text[j + 1..];
      j := j + 1;
    }
  }

  /** Skips a block comment from index i; an unterminated one runs past the end. */
  method SkipBlock(text: string, i: nat) returns (j: nat)
    requires i <= |text|
    ensures i < j && (if j <= |text| then text[j..] else "") == AfterBlock(text[i..])
  {
    j := i;
    while j + 1 < |text| && !(text[j] == '*' && text[j + 1] == '/')
      invariant i <= j <= |text|
      invariant AfterBlock(text[j..]) == AfterBlock(text[i..])
    {
      assert text[j..][1..] == text[j + 1..];
      j := j + 1;
    }
    assert j + 2 <= |text| ==> text[j..][2..] == text[j + 2..];
    j := j + 2;
  }

  /** Looks past white space for a closing bracket. */
  method LookPastSpace(text: string, i: nat) returns (closes: bool)
    requires i <= |text|
    ensures closes == ClosesNext(text[i..])
  {
    var j := i;
    while j < |text| && IsSpace(text[j])
      invariant i <= j <= |text|
      invariant ClosesNext(text[j..]) == ClosesNext(text[i..])
    {
      assert text[j..][1..] == text[j + 1..];
      j := j + 1;
    }
    closes := j < |text| && IsClose(text[j]);
  }

  function Toggle(quote: Option<char>, c: char): Option<char> {
    if quote.Some? then (if c == quote.value then None else quote)
    else if IsQuote(c) then Some(c) else None
  }

  lemma StripAt(text: string, i: nat, quote: Option<char>)
    requires i < |text|
    ensures StripComments(text[i..], quote) ==
      if quote.Some? && text[i] == '\\' && i + 1 < |text| then
        [text[i], text[i + 1]] + StripComments(text[i + 2..], quote)
      else if quote.None? && i + 1 < |text| && text[i] == '/' && text[i + 1] == '/' then
        StripComments(AfterLine(text[i + 2..]), None)
      else if quote.None? && i + 1 < |text| && text[i] == '/' && text[i + 1] == '*' then
        StripComments(AfterBlock(text[i + 2..]), None)
      else [text[i]] + StripComments(text[i + 1..], Toggle(quote, text[i]))
  {
  }

  lemma Appended(out: string, more: string, rest: string, goal: string)
    requires out + (more + rest) == goal
    ensures (out + more) + rest == goal
  {
  }

  /** `_strip_comments` */
  method StripCommentsLoop(text: string) returns (out: string)
    ensures out == StripComments(text, None)
  {
    out := "";
    var i, quote: Option<char> := 0, None;
    ghost var goal := StripComments(text, None);
    ghost var rest := goal;
    while i < |text|
      invariant 0 <= i && rest == StripComments(if i <= |text| then text[i..] else "", quote)
      invariant out + rest == goal
    {
      var c := text[i];
      StripAt(text, i, quote);
      if quote.Some? && c == '\\' && i + 1 < |text| {
        rest := StripComments(text[i + 2..], quote);
        Appended(out, [c, text[i + 1]], rest, goal);
        out := out + [c, text[i + 1]];
        i := i + 2;
      } else if quote.None? && c == '/' && i + 1 < |text| && text[i + 1] == '/' {
        i := SkipLine(text, i + 2);
      } else if quote.None? && c == '/' && i + 1 < |text| && text[i + 1] == '*' {
        i := SkipBlock(text, i + 2);
      } else {
        rest := StripComments(text[i + 1..], Toggle(quote, c));
        Appended(out, [c], rest, goal);
        out := out + [c];
        quote := Toggle(quote, c);
        i := i + 1;
      }
    }
    assert rest == "";
  }

  lemma DropAt(text: string, i: nat, quote: Option<char>)
    requires i < |text|
    ensures DropCommas(text[i..], quote) ==
      if quote.Some? && text[i] == '\\' && i + 1 < |text| then [text[i], text[i + 1]] + DropCommas(text[i + 2..], quote)
      else if quote.None? && text[i] == ',' && ClosesNext(text[i + 1..]) then DropCommas(text[i + 1..], None)
      else [text[i]] + DropCommas(text[i + 1..], Toggle(quote, text[i]))
  {
  }

  /** `_drop_trailing_commas` */
  method DropCommasLoop(text: string) returns (out: string)
    ensures out == DropCommas(text, None)
  {
    out := "";
    var i, quote: Option<char> := 0, None;
    ghost var goal := DropCommas(text, None);
    ghost var rest := goal;
    while i < |text|
      invariant 0 <= i <= |text| && rest == DropCommas(text[i..], quote)
      invariant out + rest == goal
    {
      var c := text[i];
      DropAt(text, i, quote);
      if quote.Some? && c == '\\' && i + 1 < |text| {
        rest := DropCommas(text[i + 2..], quote);
        Appended(out, [c, text[i + 1]], rest, goal);
        out := out + [c, text[i + 1]];
        i := i + 2;
        continue;
      }
      if quote.None? && c == ',' {
        var closes := LookPastSpace(text, i + 1);
        if closes {
          i := i + 1;
          continue;
        }
      }
      rest := DropCommas(text[i + 1..], Toggle(quote, c));
      Appended(out, [c], rest, goal);
      out := out + [c];
      quote := Toggle(quote, c);
      i := i + 1;
    }
    assert rest == "";
  }

  /** `strip_jsonc` */
  method StripJsoncText(text: string) returns (out: string)
    ensures out == StripJsonc(text)
  {
    var stripped := StripCommentsLoop(text);
    out := DropCommasLoop(stripped);
  }
}
