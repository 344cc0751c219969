/** The linear nesting check (discovery/live_tools.py, `_depth_ok`) against JSON structure. */
module JsonDepth {
  import opened GraphModel
  import opened JsonStrings

  // ---- JSON texts, with arbitrary white space (sections 2 and 7 of RFC 8259) -----------------

  datatype Text =
    | Scalar(literal: string)
    | Quoted(chars: seq<StringChar>)
    | Array(space: string, elements: seq<Element>)
    | Object(space: string, members: seq<Member>)

  datatype Element = Element(before: string, value: Text, after: string)

  datatype Member = Member(before: string, name: seq<StringChar>, space: string, value: Element)

  predicate IsStructural(c: char) { c in {'"', '[', ']', '{', '}'} }

  ghost predicate Neutral(s: string) { forall c :: c in s ==> !IsStructural(c) }

  /** Literals and white space hold no quote and no bracket; quotes and backslashes in strings
      are escaped. */
  ghost predicate WellFormed(t: Text) {
    match t
    case Scalar(literal) => Neutral(literal)
    case Quoted(chars) => GoodChars(chars, '"')
    case Array(space, elements) => Neutral(space) && forall e :: e in elements ==> GoodElement(e)
    case Object(space, members) => Neutral(space) && forall m :: m in members ==> GoodMember(m)
  }

  ghost predicate GoodElement(e: Element) { Neutral(e.before) && Neutral(e.after) && WellFormed(e.value) }

  ghost predicate GoodMember(m: Member) {
    Neutral(m.before) && GoodChars(m.name, '"') && Neutral(m.space) && GoodElement(m.value)
  }

  function RenderString(chars: seq<StringChar>): string { "\"" + RenderChars(chars) + "\"" }

  function Render(t: Text): string {
    match t
    case Scalar(literal) => literal
    case Quoted(chars) => RenderString(chars)
    case Array(space, elements) => "[" + (if elements == [] then space else RenderElements(elements)) + "]"
    case Object(space, members) => "{" + (if members == [] then space else RenderMembers(members)) + "}"
  }

  function RenderElement(e: Element): string { e.before + Render(e.value) + e.after }

  function RenderElements(elements: seq<Element>): string
    requires elements != []
  {
    if |elements| == 1 then RenderElement(elements[0])
    else RenderElement(elements[0]) + "," + RenderElements(elements[1..])
  }

  function RenderMember(m: Member): string {
    m.before + RenderString(m.name) + (m.space + ":") + RenderElement(m.value)
  }

  function RenderMembers(members: seq<Member>): string
    requires members != []
  {
    if |members| == 1 then RenderMember(members[0])
    else RenderMember(members[0]) + "," + RenderMembers(members[1..])
  }

  function Max(a: nat, b: nat): nat { if a >= b then a else b }

  /** How deeply arrays and objects nest. */
  function Depth(t: Text): nat {
    match t
    case Scalar(_) => 0
    case Quoted(_) => 0
    case Array(_, elements) => 1 + DepthOfElements(elements)
    case Object(_, members) => 1 + DepthOfMembers(members)
  }

  function DepthOfElements(elements: seq<Element>): nat {
    if elements == [] then 0 else Max(Depth(elements[0].value), DepthOfElements(elements[1..]))
  }

  function DepthOfMembers(members: seq<Member>): nat {
    if members == [] then 0 else Max(Depth(members[0].value.value), DepthOfMembers(members[1..]))
  }

  // ---- the scanner ---------------------------------------------------------------------------

  datatype Scan = Scan(depth: int, quoted: bool, escaped: bool)

  /** One character; None once the limit is passed. */
  function Step(s: Scan, c: char, limit: int): Option<Scan> {
    if s.quoted then
      if s.escaped then Some(s.(escaped := false))
      else if c == '\\' then Some(s.(escaped := true))
      else if c == '"' then Some(s.(quoted := false))
      else Some(s)
    else if c == '"' then Some(s.(quoted := true))
    else if c == '[' || c == '{' then
      if s.depth + 1 > limit then None else Some(s.(depth := s.depth + 1))
    else if c == ']' || c == '}' then Some(s.(depth := s.depth - 1))
    else Some(s)
  }

  function Run(s: Option<Scan>, text: string, limit: int): Option<Scan>
    decreases |text|
  {
    if s.None? || text == "" then s else Run(Step(s.value, text[0], limit), text[1..], limit)
  }

  function Outside(depth: int): Scan { Scan(depth, false, false) }

  lemma {:induction false} RunConcat(s: Option<Scan>, a: string, b: string, limit: int)
    ensures Run(s, a + b, limit) == Run(Run(s, a, limit), b, limit)
    decreases |a|
  {
    if s.None? {
    } else if a == "" {
      assert a + b == b;
    } else {
      assert (a + b)[1..] == a[1..] + b;
      RunConcat(Step(s.value, a[0], limit), a[1..], b, limit);
    }
  }

  /** `_depth_ok` */
  method DepthOk(text: string, limit: int) returns (ok: bool)
    ensures ok <==> Run(Some(Outside(0)), text, limit).Some?
  {
    var depth, quoted, escaped := 0, false, false;
    for i := 0 to |text|
      invariant Run(Some(Outside(0)), text, limit) == Run(Some(Scan(depth, quoted, escaped)), text[i..], limit)
    {
      var c := text[i];
      assert text[i..][0] == c && text[i..][1..] == text[i + 1..];
      if quoted {
        if escaped {
          escaped := false;
        } else if c == '\\' {
          escaped := true;
        } else if c == '"' {
          quoted := false;
        }
      } else if c == '"' {
        quoted := true;
      } else if c == '[' || c == '{' {
        depth := depth + 1;
        if depth > limit {
          return false;
        }
      } else if c == ']' || c == '}' {
        depth := depth - 1;
      }
    }
    return true;
  }

  lemma {:induction false} RunNeutral(d: int, s: string, limit: int)
    requires Neutral(s)
    ensures Run(Some(Outside(d)), s, limit) == Some(Outside(d))
  {
    if s != "" {
      assert s[0] in s;
      RunNeutral(d, s[1..], limit);
    }
  }

  lemma {:induction false} RunChars(d: int, chars: seq<StringChar>, limit: int)
    requires GoodChars(chars, '"')
    ensures Run(Some(Scan(d, true, false)), RenderChars(chars), limit) == Some(Scan(d, true, false))
  {
    if chars != [] {
      assert chars[0] in chars;
      var rest := RenderChars(chars[1..]);
      RunChars(d, chars[1..], limit);
      match chars[0] {
        case Plain(c) =>
          assert ([c] + rest)[1..] == rest;
        case Escaped(c) =>
          assert (['\\', c] + rest)[1..] == [c] + rest && ([c] + rest)[1..] == rest;
      }
    }
  }

  lemma RunString(d: int, chars: seq<StringChar>, limit: int)
    requires GoodChars(chars, '"')
    ensures Run(Some(Outside(d)), RenderString(chars), limit) == Some(Outside(d))
  {
    var inner := RenderChars(chars);
    assert RenderString(chars) == "\"" + (inner + "\"");
    assert ("\"" + (inner + "\""))[1..] == inner + "\"";
    RunChars(d, chars, limit);
    RunConcat(Some(Scan(d, true, false)), inner, "\"", limit);
    RunOne(Scan(d, true, false), '"', limit);
  }

  lemma RunOne(s: Scan, c: char, limit: int)
    ensures Run(Some(s), [c], limit) == Step(s, c, limit)
  {
  }

  function Reaches(d: int, depth: nat, limit: int): Option<Scan> {
    if d + depth <= limit then Some(Outside(d)) else None
  }

  /** Scanning a well-formed text from depth d succeeds exactly when the limit leaves room for its
      nesting, and then comes back to depth d, outside any string. */
  lemma {:induction false} RunText(d: int, t: Text, limit: int)
    requires WellFormed(t) && d <= limit
    ensures Run(Some(Outside(d)), Render(t), limit) == Reaches(d, Depth(t), limit)
    decreases t, 0
  {
    match t {
      case Scalar(literal) => RunNeutral(d, literal, limit);
      case Quoted(chars) => RunString(d, chars, limit);
      case Array(space, elements) =>
        if d < limit {
          if elements == [] { RunNeutral(d + 1, space, limit); } else { RunElements(d + 1, elements, limit); }
        }
        var inner := if elements == [] then space else RenderElements(elements);
        RunBrackets(d, '[', inner, ']', DepthOfElements(elements), limit);
      case Object(space, members) =>
        if d < limit {
          if members == [] { RunNeutral(d + 1, space, limit); } else { RunMembers(d + 1, members, limit); }
        }
        var inner := if members == [] then space else RenderMembers(members);
        RunBrackets(d, '{', inner, '}', DepthOfMembers(members), limit);
    }
  }

  lemma RunBrackets(d: int, open: char, inner: string, close: char, depth: nat, limit: int)
    requires (open == '[' || open == '{') && (close == ']' || close == '}')
    requires d < limit ==> Run(Some(Outside(d + 1)), inner, limit) == Reaches(d + 1, depth, limit)
    ensures Run(Some(Outside(d)), [open] + inner + [close], limit) == Reaches(d, 1 + depth, limit)
  {
    assert [open] + inner + [close] == [open] + (inner + [close]);
    RunConcat(Some(Outside(d)), [open], inner + [close], limit);
    RunOne(Outside(d), open, limit);
    if d < limit {
      RunConcat(Some(Outside(d + 1)), inner, [close], limit);
      RunOne(Outside(d + 1), close, limit);
    }
  }

  lemma {:induction false} RunElement(d: int, e: Element, limit: int)
    requires GoodElement(e) && d <= limit
    ensures Run(Some(Outside(d)), RenderElement(e), limit) == Reaches(d, Depth(e.value), limit)
    decreases e, 1
  {
    RunConcat(Some(Outside(d)), e.before + Render(e.value), e.after, limit);
    RunConcat(Some(Outside(d)), e.before, Render(e.value), limit);
    RunNeutral(d, e.before, limit);
    RunText(d, e.value, limit);
    RunNeutral(d, e.after, limit);
  }

  lemma RunComma(d: int, first: string, rest: string, m: nat, n: nat, limit: int)
    requires Run(Some(Outside(d)), first, limit) == Reaches(d, m, limit)
    requires Run(Some(Outside(d)), rest, limit) == Reaches(d, n, limit)
    ensures Run(Some(Outside(d)), first + "," + rest, limit) == Reaches(d, Max(m, n), limit)
  {
    RunConcat(Some(Outside(d)), first + ",", rest, limit);
    RunConcat(Some(Outside(d)), first, ",", limit);
    RunOne(Outside(d), ',', limit);
  }

  lemma {:induction false} RunElements(d: int, elements: seq<Element>, limit: int)
    requires elements != [] && (forall e :: e in elements ==> GoodElement(e)) && d <= limit
    ensures Run(Some(Outside(d)), RenderElements(elements), limit) == Reaches(d, DepthOfElements(elements), limit)
    decreases elements, 2
  {
    RunElement(d, elements[0], limit);
    if |elements| > 1 {
      RunElements(d, elements[1..], limit);
      RunComma(d, RenderElement(elements[0]), RenderElements(elements[1..]), Depth(elements[0].value),
          DepthOfElements(elements[1..]), limit);
    }
  }

  lemma {:induction false} RunMember(d: int, m: Member, limit: int)
    requires GoodMember(m) && d <= limit
    ensures Run(Some(Outside(d)), RenderMember(m), limit) == Reaches(d, Depth(m.value.value), limit)
    decreases m, 1
  {
    var name := m.before + RenderString(m.name);
    RunConcat(Some(Outside(d)), name + (m.space + ":"), RenderElement(m.value), limit);
    RunConcat(Some(Outside(d)), name, m.space + ":", limit);
    RunConcat(Some(Outside(d)), m.before, RenderString(m.name), limit);
    RunNeutral(d, m.before, limit);
    RunString(d, m.name, limit);
    RunNeutral(d, m.space + ":", limit);
    RunElement(d, m.value, limit);
  }

  lemma {:induction false} RunMembers(d: int, members: seq<Member>, limit: int)
    requires members != [] && (forall m :: m in members ==> GoodMember(m)) && d <= limit
    ensures Run(Some(Outside(d)), RenderMembers(members), limit) == Reaches(d, DepthOfMembers(members), limit)
    decreases members, 2
  {
    RunMember(d, members[0], limit);
    if |members| > 1 {
      RunMembers(d, members[1..], limit);
      RunComma(d, RenderMember(members[0]), RenderMembers(members[1..]), Depth(members[0].value.value),
          DepthOfMembers(members[1..]), limit);
    }
  }

  /** The check accepts a JSON text exactly when its nesting depth is within the limit. */
  lemma DepthOkIff(t: Text, before: string, after: string, limit: nat)
    requires WellFormed(t) && Neutral(before) && Neutral(after)
    ensures Run(Some(Outside(0)), before + Render(t) + after, limit).Some? <==> Depth(t) <= limit
  {
    RunElement(0, Element(before, t, after), limit);
  }
}
