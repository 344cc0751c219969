/** The checks over a captured manifest: which strings are read, and which findings follow
    (checks/live_tools.py). */
module LiveChecks {
  import opened GraphModel

  const MAX_SCHEMA_STRINGS := 4096

  /** A decoded JSON value with its members in some order. */
  datatype Value = Text(text: string) | Mapping(members: seq<Member>) | List(items: seq<Value>) | Other

  datatype Member = Member(key: string, value: Value)

  // ---- all strings of a value, recursively ---------------------------------------------------

  function Strings(v: Value): multiset<string> {
    match v
    case Text(text) => multiset{text}
    case Mapping(members) => MemberStrings(members)
    case List(items) => ItemStrings(items)
    case Other => multiset{}
  }

  function MemberStrings(members: seq<Member>): multiset<string> {
    if members == [] then multiset{}
    else multiset{members[0].key} + Strings(members[0].value) + MemberStrings(members[1..])
  }

  function ItemStrings(items: seq<Value>): multiset<string> {
    if items == [] then multiset{} else Strings(items[0]) + ItemStrings(items[1..])
  }

  /** t is read somewhere in a value: as the text itself, as a key, or inside a member or an item. */
  ghost predicate ReadIn(v: Value, t: string) {
    match v
    case Text(text) => t == text
    case Mapping(members) => exists m :: m in members && (t == m.key || ReadIn(m.value, t))
    case List(items) => exists item :: item in items && ReadIn(item, t)
    case Other => false
  }

  lemma {:induction false} StringsIff(v: Value, t: string)
    ensures t in Strings(v) <==> ReadIn(v, t)
  {
    match v {
      case Mapping(members) =>
        forall m | m in members ensures t in Strings(m.value) <==> ReadIn(m.value, t) { StringsIff(m.value, t); }
        MembersHold(members, t);
      case List(items) =>
        forall item | item in items ensures t in Strings(item) <==> ReadIn(item, t) { StringsIff(item, t); }
        ItemsHold(items, t);
      case _ =>
    }
  }

  lemma {:induction false} MembersHold(members: seq<Member>, t: string)
    ensures t in MemberStrings(members) <==> exists m :: m in members && (t == m.key || t in Strings(m.value))
  {
    if members != [] {
      MembersHold(members[1..], t);
      assert members == [members[0]] + members[1..];
    }
  }

  lemma {:induction false} ItemsHold(items: seq<Value>, t: string)
    ensures t in ItemStrings(items) <==> exists item :: item in items && t in Strings(item)
  {
    if items != [] {
      ItemsHold(items[1..], t);
      assert items == [items[0]] + items[1..];
      if item :| item in items && t in Strings(item) {
        assert item == items[0] || item in items[1..];
      }
    }
  }

  /** The number of nodes, keys included. */
  function Size(v: Value): nat {
    match v
    case Text(_) => 1
    case Mapping(members) => 1 + MembersSize(members)
    case List(items) => 1 + ItemsSize(items)
    case Other => 1
  }

  function MembersSize(members: seq<Member>): nat {
    if members == [] then 0 else 1 + Size(members[0].value) + MembersSize(members[1..])
  }

  function ItemsSize(items: seq<Value>): nat {
    if items == [] then 0 else Size(items[0]) + ItemsSize(items[1..])
  }

  lemma {:induction false} ItemsConcat(a: seq<Value>, b: seq<Value>)
    ensures ItemStrings(a + b) == ItemStrings(a) + ItemStrings(b) && ItemsSize(a + b) == ItemsSize(a) + ItemsSize(b)
  {
    if a == [] {
      assert a + b == b;
    } else {
      assert (a + b)[1..] == a[1..] + b;
      ItemsConcat(a[1..], b);
    }
  }

  lemma OneItem(v: Value)
    ensures ItemStrings([v]) == Strings(v) && ItemsSize([v]) == Size(v)
  {
  }

  // ---- the worklist ---------------------------------------------------------------------------

  /** Pushes each member's value and then its key. */
  method PushMembers(stack0: seq<Value>, members: seq<Member>) returns (stack: seq<Value>)
    ensures ItemStrings(stack) == ItemStrings(stack0) + MemberStrings(members)
    ensures ItemsSize(stack) == ItemsSize(stack0) + MembersSize(members)
  {
    stack := stack0;
    for i := 0 to |members|
      invariant ItemStrings(stack) + MemberStrings(members[i..]) == ItemStrings(stack0) + MemberStrings(members)
      invariant ItemsSize(stack) + MembersSize(members[i..]) == ItemsSize(stack0) + MembersSize(members)
    {
      var m := members[i];
      assert members[i..][0] == m && members[i..][1..] == members[i + 1..];
      ItemsConcat(stack, [m.value]);
      OneItem(m.value);
      ItemsConcat(stack + [m.value], [Text(m.key)]);
      OneItem(Text(m.key));
      stack := stack + [m.value];
      stack := stack + [Text(m.key)];
    }
  }

  lemma Popped(stack: seq<Value>)
    requires stack != []
    ensures ItemStrings(stack) == ItemStrings(stack[..|stack| - 1]) + Strings(stack[|stack| - 1])
    ensures ItemsSize(stack) == ItemsSize(stack[..|stack| - 1]) + Size(stack[|stack| - 1])
  {
    var rest, node := stack[..|stack| - 1], stack[|stack| - 1];
    assert stack == rest + [node];
    ItemsConcat(rest, [node]);
    OneItem(node);
  }

  /** `_walk_strings`: exactly as many strings as the budget allows, each a string of the value and
      none twice over; all of them when the budget suffices. */
  method WalkStrings(value: Value, budget0: nat) returns (yielded: seq<string>, budget: nat)
    ensures |yielded| == if |Strings(value)| <= budget0 then |Strings(value)| else budget0
    ensures budget == budget0 - |yielded|
    ensures multiset(yielded) <= Strings(value)
    ensures |Strings(value)| <= budget0 ==> multiset(yielded) == Strings(value)
  {
    var stack := [value];
    OneItem(value);
    yielded, budget := [], budget0;
    while stack != [] && budget > 0
      invariant multiset(yielded) + ItemStrings(stack) == Strings(value)
      invariant |yielded| + budget == budget0
      decreases ItemsSize(stack)
    {
      var node := stack[|stack| - 1];
      Popped(stack);
      ghost var whole := ItemStrings(stack);
      stack := stack[..|stack| - 1];
      match node {
        case Text(text) =>
          budget := budget - 1;
          YieldOne(yielded, text, ItemStrings(stack), Strings(value));
          yielded := yielded + [text];
        case Mapping(members) =>
          stack := PushMembers(stack, members);
          assert ItemStrings(stack) == whole;
        case List(items) =>
          ItemsConcat(stack, items);
          stack := stack + items;
          assert ItemStrings(stack) == whole;
        case Other =>
          assert ItemStrings(stack) == whole;
      }
    }
    SplitSizes(yielded, ItemStrings(stack), Strings(value));
  }

  lemma YieldOne(yielded: seq<string>, text: string, left: multiset<string>, all: multiset<string>)
    requires multiset(yielded) + (left + multiset{text}) == all
    ensures multiset(yielded + [text]) + left == all
  {
  }

  lemma SplitSizes(yielded: seq<string>, left: multiset<string>, all: multiset<string>)
    requires multiset(yielded) + left == all
    ensures |yielded| + |left| == |all| && multiset(yielded) <= all
    ensures |left| == 0 ==> multiset(yielded) == all
  {
  }

  // ---- surfaces -------------------------------------------------------------------------------

  datatype Tool = Tool(name: string, description: string, inputSchema: Value, outputSchema: Value,
                       annotations: Value, oversized: bool)

  datatype Place = ToolName | Description | InputSchema | OutputSchema | Annotations

  datatype Surface = Surface(place: Place, text: string)

  function Placed(place: Place, texts: seq<string>): (s: seq<Surface>)
    ensures |s| == |texts| && forall i :: 0 <= i < |s| ==> s[i] == Surface(place, texts[i])
  {
    seq(|texts|, i requires 0 <= i < |texts| => Surface(place, texts[i]))
  }

  /** Everything the model reads of a tool. */
  ghost function AllSurfaces(tool: Tool): set<Surface> {
    {Surface(ToolName, tool.name), Surface(Description, tool.description)}
    + Read(InputSchema, tool.inputSchema) + Read(OutputSchema, tool.outputSchema) + Read(Annotations, tool.annotations)
  }

  ghost function Read(place: Place, v: Value): set<Surface> {
    set t | t in Strings(v) :: Surface(place, t)
  }

  function SchemaStrings(tool: Tool): nat {
    |Strings(tool.inputSchema)| + |Strings(tool.outputSchema)| + |Strings(tool.annotations)|
  }

  /** `_surfaces`: nothing but what the model reads, and all of it while the shared budget lasts. */
  method Surfaces(tool: Tool) returns (surfaces: seq<Surface>)
    ensures Seen(surfaces) <= AllSurfaces(tool)
    ensures SchemaStrings(tool) <= 4096 ==> Seen(surfaces) == AllSurfaces(tool)
    ensures |surfaces|
         == 2 + if SchemaStrings(tool) <= 4096 then SchemaStrings(tool) else 4096
  {
    surfaces := [Surface(ToolName, tool.name), Surface(Description, tool.description)];
    var budget := MAX_SCHEMA_STRINGS;
    var part;
    part, budget := SurfacesOf(InputSchema, tool.inputSchema, budget);
    surfaces := surfaces + part;
    SeenConcat([Surface(ToolName, tool.name), Surface(Description, tool.description)], part);
    var part2;
    part2, budget := SurfacesOf(OutputSchema, tool.outputSchema, budget);
    SeenConcat(surfaces, part2);
    surfaces := surfaces + part2;
    var part3;
    part3, budget := SurfacesOf(Annotations, tool.annotations, budget);
    SeenConcat(surfaces, part3);
    surfaces := surfaces + part3;
  }

  /** One value's strings under its place. */
  method SurfacesOf(place: Place, v: Value, budget0: nat) returns (part: seq<Surface>, budget: nat)
    ensures |part| == if |Strings(v)| <= budget0 then |Strings(v)| else budget0
    ensures budget == budget0 - |part|
    ensures Seen(part) <= Read(place, v)
    ensures |Strings(v)| <= budget0 ==> Seen(part) == Read(place, v)
  {
    var texts;
    texts, budget := WalkStrings(v, budget0);
    part := Placed(place, texts);
    forall t ensures t in texts <==> Surface(place, t) in part {
      if t in texts {
        var i :| 0 <= i < |texts| && texts[i] == t;
        assert part[i] == Surface(place, t);
      }
    }
    forall t ensures t in texts <==> t in multiset(texts) { }
  }

  /** The surfaces met so far. */
  ghost function Seen(surfaces: seq<Surface>): set<Surface> {
    set s | s in surfaces
  }

  lemma SeenConcat(a: seq<Surface>, b: seq<Surface>)
    ensures Seen(a + b) == Seen(a) + Seen(b)
  {
  }

  // ---- findings of one tool -------------------------------------------------------------------

  /** The scanner's catalogs: hidden code points, injection phrases, cross-tool directives. */
  datatype Catalog = Catalog(
    hidden: string -> set<int>, phrase: string -> Option<string>, directive: string -> Option<string>)

  datatype Finding =
    | Hidden(tool: string, codes: set<int>)
    | Injection(tool: string, place: Place)
    | Directive(tool: string, place: Place)
    | Oversized(tool: string)

  datatype Tally = Tally(hidden: set<int>, injected: set<Place>, directed: set<Place>)

  /** What a set of surfaces amounts to, in whatever order it is met. */
  ghost function TallyOf(c: Catalog, seen: set<Surface>): Tally {
    Tally(
      set s, code | s in seen && code in c.hidden(s.text) :: code,
      set s | s in seen && c.phrase(s.text).Some? :: s.place,
      set s | s in seen && c.phrase(s.text).None? && c.directive(s.text).Some? :: s.place)
  }

  /** The loop over a tool's surfaces. */
  method TallySurfaces(c: Catalog, surfaces: seq<Surface>) returns (t: Tally)
    ensures t == TallyOf(c, Seen(surfaces))
  {
    t := Tally({}, {}, {});
    for i := 0 to |surfaces|
      invariant t == TallyOf(c, Seen(surfaces[..i]))
    {
      var s := surfaces[i];
      assert surfaces[..i + 1] == surfaces[..i] + [s];
      SeenConcat(surfaces[..i], [s]);
      TallyOne(c, Seen(surfaces[..i]), s);
      assert Seen([s]) == {s};
      var phrase := c.phrase(s.text);
      t := Tally(
        t.hidden + c.hidden(s.text),
        if phrase.Some? then t.injected + {s.place} else t.injected,
        if phrase.None? && c.directive(s.text).Some? then t.directed + {s.place} else t.directed);
    }
    assert surfaces[..|surfaces|] == surfaces;
  }

  lemma TallyOne(c: Catalog, seen: set<Surface>, s: Surface)
    ensures TallyOf(c, seen + {s}).hidden == TallyOf(c, seen).hidden + c.hidden(s.text)
    ensures TallyOf(c, seen + {s}).injected
         == TallyOf(c, seen).injected + if c.phrase(s.text).Some? then {s.place} else {}
    ensures TallyOf(c, seen + {s}).directed
         == TallyOf(c, seen).directed
          + if c.phrase(s.text).None? && c.directive(s.text).Some? then {s.place} else {}
  {
    var all := TallyOf(c, seen + {s}).hidden;
    forall code ensures code in all <==> code in TallyOf(c, seen).hidden || code in c.hidden(s.text) {
      if code in c.hidden(s.text) {
        assert s in seen + {s};
      }
    }
  }

  /** The findings of one tool: one for hidden code points, one per injected surface, one per
      surface with directives and no injection, one for size. */
  function FindingsOf(tool: Tool, t: Tally): set<Finding> {
    (if t.hidden != {} then {Hidden(tool.name, t.hidden)} else {})
    + (set l | l in t.injected :: Injection(tool.name, l))
    + (set l | l in t.directed && l !in t.injected :: Directive(tool.name, l))
    + (if tool.oversized then {Oversized(tool.name)} else {})
  }

  /** Sound for every tool, and complete for a tool within the string budget. */
  ghost predicate ToolFindings(c: Catalog, tool: Tool, findings: set<Finding>) {
    && (exists seen :: seen <= AllSurfaces(tool) && findings == FindingsOf(tool, TallyOf(c, seen)))
    && (SchemaStrings(tool) <= 4096 ==> findings == FindingsOf(tool, TallyOf(c, AllSurfaces(tool))))
  }

  method CheckTool(c: Catalog, tool: Tool) returns (findings: set<Finding>)
    ensures ToolFindings(c, tool, findings)
  {
    var surfaces := Surfaces(tool);
    var t := TallySurfaces(c, surfaces);
    findings := FindingsOf(tool, t);
  }

  lemma NonEmpty(codes: set<int>)
    requires codes != {}
    ensures exists code :: code in codes
  {
    assert (forall code :: code !in codes) ==> codes == {};
  }

  lemma HiddenOf(c: Catalog, tool: Tool, seen: set<Surface>, codes: set<int>)
    ensures Hidden(tool.name, codes) in FindingsOf(tool, TallyOf(c, seen))
      <==> (codes == TallyOf(c, seen).hidden && exists s :: s in seen && c.hidden(s.text) != {})
  {
    var t := TallyOf(c, seen);
    if s :| s in seen && c.hidden(s.text) != {} {
      NonEmpty(c.hidden(s.text));
      var code :| code in c.hidden(s.text);
      assert code in t.hidden;
    }
    assert Hidden(tool.name, codes) in FindingsOf(tool, t) <==> t.hidden != {} && codes == t.hidden;
  }

  /** A tool within the budget is reported for hidden characters exactly when something the model
      reads of it has one, and then with all such code points. */
  lemma HiddenIff(c: Catalog, tool: Tool, findings: set<Finding>, codes: set<int>)
    requires ToolFindings(c, tool, findings) && SchemaStrings(tool) <= 4096
    ensures Hidden(tool.name, codes) in findings
      <==> ((exists s :: s in AllSurfaces(tool) && c.hidden(s.text) != {})
            && codes == set s, code | s in AllSurfaces(tool) && code in c.hidden(s.text) :: code)
  {
    HiddenOf(c, tool, AllSurfaces(tool), codes);
  }

  /** What a tool is reported for apart from its surfaces: its size. */
  lemma OversizedIff(c: Catalog, tool: Tool, findings: set<Finding>)
    requires ToolFindings(c, tool, findings)
    ensures Oversized(tool.name) in findings <==> tool.oversized
  {
  }

  /** Everything the model reads of a tool: its name, its description, and every string and key of
      its schemas and annotations. */
  lemma AllSurfacesIff(tool: Tool, s: Surface)
    ensures s in AllSurfaces(tool) <==>
      match s.place
      case ToolName => s.text == tool.name
      case Description => s.text == tool.description
      case InputSchema => ReadIn(tool.inputSchema, s.text)
      case OutputSchema => ReadIn(tool.outputSchema, s.text)
      case Annotations => ReadIn(tool.annotations, s.text)
  {
    StringsIff(tool.inputSchema, s.text);
    StringsIff(tool.outputSchema, s.text);
    StringsIff(tool.annotations, s.text);
  }

  /** A tool of any size is only reported for code points it really contains. */
  lemma HiddenIsReal(c: Catalog, tool: Tool, findings: set<Finding>, codes: set<int>, code: int)
    requires ToolFindings(c, tool, findings) && Hidden(tool.name, codes) in findings && code in codes
    ensures exists s :: s in AllSurfaces(tool) && code in c.hidden(s.text)
  {
    var seen :| seen <= AllSurfaces(tool) && findings == FindingsOf(tool, TallyOf(c, seen));
    HiddenOf(c, tool, seen, codes);
  }

  /** Within the budget every surface is reported once, for its strongest signal: an injection
      phrase if any of its texts has one, else a directive if any has one, else nothing. */
  lemma StrongestSignalOnce(c: Catalog, tool: Tool, findings: set<Finding>, l: Place)
    requires ToolFindings(c, tool, findings) && SchemaStrings(tool) <= 4096
    ensures Injection(tool.name, l) in findings
      <==> exists s :: s in AllSurfaces(tool) && s.place == l && c.phrase(s.text).Some?
    ensures Directive(tool.name, l) in findings
      <==> (Injection(tool.name, l) !in findings
            && exists s :: s in AllSurfaces(tool) && s.place == l && c.directive(s.text).Some?)
  {
    StrongestOf(c, tool, AllSurfaces(tool), l);
  }

  lemma StrongestOf(c: Catalog, tool: Tool, seen: set<Surface>, l: Place)
    ensures var findings := FindingsOf(tool, TallyOf(c, seen));
      && (Injection(tool.name, l) in findings <==> exists s :: s in seen && s.place == l && c.phrase(s.text).Some?)
      && (Directive(tool.name, l) in findings
          <==> (Injection(tool.name, l) !in findings
                && exists s :: s in seen && s.place == l && c.directive(s.text).Some?))
  {
  }
}
