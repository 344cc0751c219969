/** The capture protocol against an untrusted server, and the offline reading of a saved manifest
    (discovery/live_tools.py). */
module Capture {
  import opened GraphModel
  import opened Json

  const MAX_TOOLS := 2000
  const MAX_PAGES := 50
  const MAX_NAME_CHARS := 256

  // ---- tool entries --------------------------------------------------------------------------

  /** An accepted entry; an absent output schema or annotation block is Null. */
  datatype Tool = Tool(name: string, description: string, inputSchema: Json, outputSchema: Json, annotations: Json)

  function Field(item: Json, name: string, default: Json): Json
    requires item.Obj?
  {
    if name in item.fields then item.fields[name] else default
  }

  function ParseTool(item: Json): Option<Tool> {
    if !item.Obj? then None
    else
      var name := Field(item, "name", Null);
      var description := Field(item, "description", Null);
      var inputSchema := Field(item, "inputSchema", Obj(map[]));
      var outputSchema := Field(item, "outputSchema", Null);
      var annotations := Field(item, "annotations", Null);
      if !name.Str? || !(0 < |name.text| <= MAX_NAME_CHARS) then None
      else if !description.Null? && !description.Str? then None
      else if !inputSchema.Obj? then None
      else if !outputSchema.Null? && !outputSchema.Obj? then None
      else if !annotations.Null? && !annotations.Obj? then None
      else
        var text := if description.Str? then description.text else "";
        Some(Tool(name.text, text, inputSchema, outputSchema, annotations))
  }

  /** Which entries are accepted: an object with a name of 1 to 256 characters, a description that
      is text, null or missing, an input schema that is an object or missing, and an output schema
      and annotations that are objects, null or missing. */
  lemma ParseToolIff(item: Json)
    ensures ParseTool(item).Some? <==>
      && item.Obj?
      && "name" in item.fields && item.fields["name"].Str? && 1 <= |item.fields["name"].text| <= 256
      && ("description" in item.fields ==> item.fields["description"].Str? || item.fields["description"].Null?)
      && ("inputSchema" in item.fields ==> item.fields["inputSchema"].Obj?)
      && ("outputSchema" in item.fields ==> item.fields["outputSchema"].Obj? || item.fields["outputSchema"].Null?)
      && ("annotations" in item.fields ==> item.fields["annotations"].Obj? || item.fields["annotations"].Null?)
  {
  }

  ghost predicate IsField(item: Json, name: string, value: Json) {
    item.Obj? && name in item.fields && item.fields[name] == value
  }

  /** What an accepted entry is read as: what is missing is empty or null. */
  lemma ParseToolIs(item: Json)
    requires ParseTool(item).Some?
    ensures var t := ParseTool(item).value;
      && IsField(item, "name", Str(t.name))
      && (IsField(item, "description", Str(t.description))
          || (t.description == "" && ("description" in item.fields ==> IsField(item, "description", Null))))
      && (IsField(item, "inputSchema", t.inputSchema)
          || (t.inputSchema == Obj(map[]) && "inputSchema" !in item.fields))
      && (IsField(item, "outputSchema", t.outputSchema) || (t.outputSchema == Null && "outputSchema" !in item.fields))
      && (IsField(item, "annotations", t.annotations) || (t.annotations == Null && "annotations" !in item.fields))
  {
  }

  function Parsed(items: seq<Json>): seq<Tool> {
    if items == [] then []
    else
      var last := ParseTool(items[|items| - 1]);
      Parsed(items[..|items| - 1]) + (if last.Some? then [last.value] else [])
  }

  function Malformed(items: seq<Json>): nat {
    if items == [] then 0
    else Malformed(items[..|items| - 1]) + (if ParseTool(items[|items| - 1]).None? then 1 else 0)
  }

  function Clip(tools: seq<Tool>): seq<Tool> {
    if |tools| <= MAX_TOOLS then tools else tools[..MAX_TOOLS]
  }

  lemma {:induction false} ParsedOrMalformed(items: seq<Json>)
    ensures |Parsed(items)| + Malformed(items) == |items|
  {
    if items != [] { ParsedOrMalformed(items[..|items| - 1]); }
  }

  lemma {:induction false} ParsedConcat(a: seq<Json>, b: seq<Json>)
    ensures Parsed(a + b) == Parsed(a) + Parsed(b)
    ensures Malformed(a + b) == Malformed(a) + Malformed(b)
  {
    if b == [] {
      assert a + b == a;
    } else {
      assert (a + b)[..|a + b| - 1] == a + b[..|b| - 1];
      ParsedConcat(a, b[..|b| - 1]);
    }
  }

  // ---- what one request accepts --------------------------------------------------------------

  datatype Error =
    | DeadlineExceeded | SendFailed(code: string) | HttpStatus(status: int) | BadPayload(code: string)
    | BadJsonRpcResponse | ServerError | BadJsonRpcResult | BadSessionId | BadToolsList | BadToolsJson

  datatype Call = Initialize | Initialized | ListTools(cursor: Option<string>)

  /** A message as it leaves: its request id, and the session and protocol headers. */
  datatype Message = Message(id: Option<nat>, call: Call, session: Option<string>, protocol: Option<string>)

  /** What the sender yields for a message: an error of its own, or a status, the session header
      and the body as the bounded JSON reader reads it. */
  datatype Reply =
    | Failure(code: string)
    | Reply(status: int, sessionHeader: Option<string>, body: Result<Json, string>)

  type Page = map<string, Json>

  /** Python's `obj["id"] == req_id`, under which `true` and 1.0 equal 1. */
  predicate EqualsId(j: Json, id: nat) {
    j == Number(id as real) || (j == Bool(true) && id == 1) || (j == Bool(false) && id == 0)
  }

  predicate GoodStatus(status: int) { 200 <= status < 300 }

  function Answer(reply: Reply, id: nat): Result<Page, Error> {
    if reply.Failure? then Err(SendFailed(reply.code))
    else if !GoodStatus(reply.status) then Err(HttpStatus(reply.status))
    else if reply.body.Err? then Err(BadPayload(reply.body.error))
    else
      var obj := reply.body.value;
      if !obj.Obj? || "id" !in obj.fields || !EqualsId(obj.fields["id"], id) then Err(BadJsonRpcResponse)
      else if "error" in obj.fields then Err(ServerError)
      else if "result" !in obj.fields || !obj.fields["result"].Obj? then Err(BadJsonRpcResult)
      else Ok(obj.fields["result"].fields)
  }

  /** The reply with another id. */
  function Relabelled(reply: Reply, id: Json): Reply {
    if reply.Reply? && reply.body.Ok? && reply.body.value.Obj? && "id" in reply.body.value.fields then
      reply.(body := Ok(Obj(reply.body.value.fields["id" := id])))
    else reply
  }

  /** Relabelling a reply from the number of its request to `true` changes nothing for the first
      request, and makes every later request refuse a reply that is an object with an id. */
  lemma TrueAnswersTheFirst(reply: Reply, id: nat)
    requires id >= 1 && Relabelled(reply, Number(id as real)) == reply
    ensures id == 1 ==> Answer(Relabelled(reply, Bool(true)), id) == Answer(reply, id)
    ensures id > 1 && Answer(reply, id).Ok? ==> Answer(Relabelled(reply, Bool(true)), id) == Err(BadJsonRpcResponse)
  {
  }

  /** The reply carries a numeric id. */
  ghost predicate Numbered(reply: Reply, n: real) {
    && reply.Reply? && reply.body.Ok? && reply.body.value.Obj?
    && "id" in reply.body.value.fields && reply.body.value.fields["id"] == Number(n)
  }

  /** A reply with another number than that of the request is refused, whatever else it holds. */
  lemma AnotherNumberIsRefused(reply: Reply, id: nat, n: real)
    requires Numbered(reply, n) && n != id as real
    ensures Answer(reply, id) == Err(if 200 <= reply.status < 300 then BadJsonRpcResponse else HttpStatus(reply.status))
  {
  }

  /** The body of a reply with a status in the 200s, when it is an object that names the request. */
  ghost predicate Named(reply: Reply, id: nat, fields: map<string, Json>) {
    && reply.Reply? && 200 <= reply.status < 300 && reply.body == Ok(Obj(fields)) && "id" in fields
    && (fields["id"] == Number(id as real) || (fields["id"] == Bool(true) && id == 1)
        || (fields["id"] == Bool(false) && id == 0))
  }

  /** Exactly which replies a request takes, and for which result. */
  lemma AnswerIff(reply: Reply, id: nat, result: Page)
    ensures Answer(reply, id) == Ok(result) <==> exists fields ::
      Named(reply, id, fields) && "error" !in fields && "result" in fields && fields["result"] == Obj(result)
  {
    if Answer(reply, id) == Ok(result) {
      assert Named(reply, id, reply.body.value.fields);
    }
  }

  /** And why it does not take the others. */
  lemma RefusalIff(reply: Reply, id: nat, code: string, status: int)
    ensures Answer(reply, id) == Err(SendFailed(code)) <==> reply == Failure(code)
    ensures Answer(reply, id) == Err(HttpStatus(status)) <==>
      reply.Reply? && reply.status == status && !(200 <= status < 300)
    ensures Answer(reply, id) == Err(BadPayload(code)) <==>
      reply.Reply? && 200 <= reply.status < 300 && reply.body == Err(code)
    ensures Answer(reply, id) == Err(BadJsonRpcResponse) <==>
      reply.Reply? && 200 <= reply.status < 300 && reply.body.Ok? && forall fields :: !Named(reply, id, fields)
    ensures Answer(reply, id) == Err(ServerError) <==> exists fields :: Named(reply, id, fields) && "error" in fields
    ensures Answer(reply, id) == Err(BadJsonRpcResult) <==> exists fields: Page ::
      Named(reply, id, fields) && "error" !in fields && ("result" in fields ==> !fields["result"].Obj?)
  {
    if reply.Reply? && reply.body.Ok? && reply.body.value.Obj? {
      assert Named(reply, id, reply.body.value.fields) || forall fields :: !Named(reply, id, fields);
    }
  }

  /** A session id is accepted only as 1 to 256 visible ASCII characters. */
  function SessionId(header: Option<string>): Result<Option<string>, Error> {
    match header
    case None => Ok(None)
    case Some(value) =>
      if 0 < |value| <= 256 && forall i :: 0 <= i < |value| ==> '\U{21}' <= value[i] <= '\U{7E}' then Ok(Some(value))
      else Err(BadSessionId)
  }

  /** The list of tools of a page, when it is a list. */
  function Listed(page: Page): Option<seq<Json>> {
    if "tools" in page && page["tools"].Arr? then Some(page["tools"].items) else None
  }

  /** Exactly which session headers are taken over: those of 1 to 256 characters between the codes
      33 and 126. */
  lemma SessionIdIff(header: Option<string>)
    ensures SessionId(header) == if header.None? || VisibleAscii(header.value) then Ok(header) else Err(BadSessionId)
  {
  }

  ghost predicate VisibleAscii(text: string) {
    1 <= |text| <= 256 && forall i :: 0 <= i < |text| ==> 33 <= text[i] as int <= 126
  }

  function NextCursor(page: Page): Json {
    if "nextCursor" in page then page["nextCursor"] else Null
  }

  /** The cursor a page makes the client ask for next, given the one that fetched it. */
  function Follow(page: Page, cursor: Option<string>): Option<string> {
    match NextCursor(page)
    case Str(text) => if text != "" && Some(text) != cursor then Some(text) else None
    case _ => None
  }

  /** When a page leads on: its cursor is text, not empty, and another one than it was asked for. */
  lemma FollowIff(page: Page, cursor: Option<string>, text: string)
    ensures Follow(page, cursor) == Some(text) <==>
      "nextCursor" in page && page["nextCursor"] == Str(text) && text != "" && cursor != Some(text)
  {
  }

  /** A page is final when it has no cursor or a null one. */
  lemma FinalIff(page: Page)
    ensures NextCursor(page) == Null <==> ("nextCursor" in page ==> page["nextCursor"] == Null)
  {
  }

  function AllItems(pages: seq<Page>): seq<Json> {
    if pages == [] then []
    else
      var last := Listed(pages[|pages| - 1]);
      AllItems(pages[..|pages| - 1]) + (if last.Some? then last.value else [])
  }

  datatype Manifest = Manifest(ok: bool, tools: seq<Tool>, error: Option<Error>, truncated: bool, malformed: nat,
                               protocol: string)

  function Failed(e: Error): Manifest { Manifest(false, [], Some(e), false, 0, "") }

  /** Nothing was left out: no entry malformed, none beyond the cap, and the last page final. */
  predicate Complete(pages: seq<Page>) {
    && pages != [] && Malformed(AllItems(pages)) == 0 && |AllItems(pages)| <= MAX_TOOLS
    && NextCursor(pages[|pages| - 1]).Null?
  }

  lemma ItemsOfOneMore(pages: seq<Page>, page: Page)
    requires Listed(page).Some?
    ensures AllItems(pages + [page]) == AllItems(pages) + Listed(page).value
  {
  }

  lemma OneMore(listed: seq<Json>, i: nat)
    requires i < |listed|
    ensures Parsed(listed[..i + 1])
         == Parsed(listed[..i]) + (if ParseTool(listed[i]).Some? then [ParseTool(listed[i]).value] else [])
    ensures Malformed(listed[..i + 1]) == Malformed(listed[..i]) + (if ParseTool(listed[i]).None? then 1 else 0)
  {
    assert listed[..i + 1][..i] == listed[..i];
  }

  // ---- the tool cap --------------------------------------------------------------------------

  /** The cap is reached before the last of the entries is looked at. */
  predicate Full(items: seq<Json>) {
    items != [] && |Parsed(items[..|items| - 1])| >= MAX_TOOLS
  }

  /** The malformed entries among those looked at, which are the ones before the cap is reached. */
  function MalformedSeen(items: seq<Json>): nat {
    if items == [] then 0
    else
      var init := items[..|items| - 1];
      MalformedSeen(init)
      + (if |Parsed(init)| < MAX_TOOLS && ParseTool(items[|items| - 1]).None? then 1 else 0)
  }

  lemma {:induction false} AllSeenUnlessFull(items: seq<Json>)
    ensures MalformedSeen(items) <= Malformed(items)
    ensures !Full(items) ==> |Parsed(items)| <= MAX_TOOLS && MalformedSeen(items) == Malformed(items)
    ensures Malformed(items) == 0 ==> (Full(items) <==> |items| > MAX_TOOLS)
  {
    if items != [] {
      AllSeenUnlessFull(items[..|items| - 1]);
      ParsedOrMalformed(items[..|items| - 1]);
      ParsedOrMalformed(items);
    }
  }

  /** Nothing after the cap changes the outcome. */
  lemma {:induction false} CapStops(items: seq<Json>, more: seq<Json>)
    requires |Parsed(items)| == MAX_TOOLS
    ensures MalformedSeen(items + more) == MalformedSeen(items) && Clip(Parsed(items + more)) == Parsed(items)
    ensures Full(items + more) <==> Full(items) || more != []
  {
    ParsedConcat(items, more);
    if more == [] {
      assert items + more == items;
    } else {
      var init := more[..|more| - 1];
      assert (items + more)[..|items + more| - 1] == items + init;
      ParsedConcat(items, init);
      CapStops(items, init);
    }
  }

  lemma NextEntry(items: seq<Json>, item: Json)
    requires |Parsed(items)| < MAX_TOOLS
    ensures var tool := ParseTool(item);
      && Parsed(items + [item]) == (if tool.Some? then Parsed(items) + [tool.value] else Parsed(items))
      && MalformedSeen(items + [item]) == MalformedSeen(items) + (if tool.None? then 1 else 0)
      && !Full(items + [item])
  {
    assert (items + [item])[..|items|] == items;
  }

  lemma SplitAt(before: seq<Json>, listed: seq<Json>, i: nat)
    requires i < |listed|
    ensures before + listed[..i] + listed[i..] == before + listed
    ensures before + listed[..i] + [listed[i]] == before + listed[..i + 1]
  {
  }

  /** The loop over one page's entries, after the entries `before`. */
  method AddTools(listed: seq<Json>, tools0: seq<Tool>, malformed0: nat, ghost before: seq<Json>)
    returns (tools: seq<Tool>, malformed: nat, full: bool)
    requires !Full(before) && tools0 == Parsed(before) && malformed0 == MalformedSeen(before)
    ensures tools == Clip(Parsed(before + listed)) && malformed == MalformedSeen(before + listed)
    ensures full <==> Full(before + listed)
  {
    tools, malformed := tools0, malformed0;
    assert before + listed[..0] == before;
    AllSeenUnlessFull(before);
    for i := 0 to |listed|
      invariant tools == Parsed(before + listed[..i]) && |tools| <= MAX_TOOLS
      invariant malformed == MalformedSeen(before + listed[..i]) && !Full(before + listed[..i])
    {
      if |tools| >= MAX_TOOLS {
        CapStops(before + listed[..i], listed[i..]);
        SplitAt(before, listed, i);
        return tools, malformed, true;
      }
      NextEntry(before + listed[..i], listed[i]);
      SplitAt(before, listed, i);
      var tool := ParseTool(listed[i]);
      if tool.None? {
        malformed := malformed + 1;
      } else {
        tools := tools + [tool.value];
      }
    }
    assert listed[..|listed|] == listed;
    full := false;
  }

  // ---- the offline reading -------------------------------------------------------------------

  /** A tools/list result, a whole JSON-RPC response, or a bare array. */
  function ListedTools(document: Json): Option<seq<Json>> {
    match document
    case Arr(items) => Some(items)
    case Obj(fields) =>
      var wrapped := "jsonrpc" in fields && "result" in fields && fields["result"].Obj?;
      Listed(if wrapped then fields["result"].fields else fields)
    case _ => None
  }

  /** The list of tools of a saved document: the document itself, or the "tools" of the object or of
      the JSON-RPC result in it. */
  lemma ListedToolsIff(document: Json, items: seq<Json>)
    ensures ListedTools(document) == Some(items) <==>
      || document == Arr(items)
      || (document.Obj? && !IsWrapped(document.fields) && "tools" in document.fields
          && document.fields["tools"] == Arr(items))
      || (document.Obj? && IsWrapped(document.fields) && "tools" in document.fields["result"].fields
          && document.fields["result"].fields["tools"] == Arr(items))
  {
  }

  ghost predicate IsWrapped(fields: map<string, Json>) {
    "jsonrpc" in fields && "result" in fields && fields["result"].Obj?
  }

  /** No capture and no offline reading keeps more than 2000 tools; up to that it keeps them all. */
  lemma CapIs(tools: seq<Tool>, items: seq<Json>)
    ensures Clip(tools) <= tools && |Clip(tools)| == if |tools| <= 2000 then |tools| else 2000
    ensures Front(items) <= items && |Front(items)| == if |items| <= 2000 then |items| else 2000
  {
  }

  function Front(items: seq<Json>): seq<Json> {
    if |items| <= MAX_TOOLS then items else items[..MAX_TOOLS]
  }

  /** `manifest_from_tools_json` */
  method ManifestFromToolsJson(document: Result<Json, string>) returns (m: Manifest)
    ensures m.ok <==> document.Ok? && ListedTools(document.value).Some?
    ensures m.ok ==> var items := ListedTools(document.value).value;
      && m.tools == Parsed(Front(items)) && m.malformed == Malformed(Front(items))
      && m.truncated == (|items| > MAX_TOOLS || Malformed(Front(items)) > 0)
      && m.error == None && m.protocol == ""
    ensures !m.ok ==>
      m == Manifest(false, [], Some(if document.Err? then BadPayload(document.error) else BadToolsJson), false, 0, "")
  {
    if document.Err? {
      return Failed(BadPayload(document.error));
    }
    var listed := ListedTools(document.value);
    if listed.None? {
      return Failed(BadToolsJson);
    }
    var tools, malformed := [], 0;
    var front := Front(listed.value);
    for i := 0 to |front|
      invariant tools == Parsed(front[..i]) && malformed == Malformed(front[..i])
    {
      OneMore(front, i);
      var tool := ParseTool(front[i]);
      if tool.None? {
        malformed := malformed + 1;
      } else {
        tools := tools + [tool.value];
      }
    }
    assert front[..|front|] == front;
    m := Manifest(true, tools, None, |listed.value| > MAX_TOOLS || malformed > 0, malformed, "");
  }

  /** One final page, captured live and read back offline: the truncation flags always agree, the
      offline tools are a prefix of the live ones, and the two are equal exactly when the entries
      past the cap add nothing or the cap is already filled. */
  lemma LiveAndOfflineAgree(page: Page, live: Manifest, offline: Manifest)
    requires Listed(page).Some? && NextCursor(page).Null?
    requires live.tools == Clip(Parsed(AllItems([page]))) && live.truncated == !Complete([page])
    requires var items := Listed(page).value;
      && offline.tools == Parsed(Front(items))
      && offline.truncated == (|items| > MAX_TOOLS || Malformed(Front(items)) > 0)
    ensures live.truncated == offline.truncated && offline.tools <= live.tools
    ensures live.tools == offline.tools <==>
      |Parsed(Front(Listed(page).value))| == MAX_TOOLS
        || Parsed(Listed(page).value[|Front(Listed(page).value)|..]) == []
    ensures Malformed(Front(Listed(page).value)) == 0 ==> live.tools == offline.tools
  {
    var items := Listed(page).value;
    OnePage(page);
    FrontAndRest(items);
    PrefixOfClip(Parsed(Front(items)), Parsed(items[|Front(items)|..]));
  }

  lemma OnePage(page: Page)
    requires Listed(page).Some?
    ensures AllItems([page]) == Listed(page).value
  {
  }

  lemma FrontAndRest(items: seq<Json>)
    ensures Parsed(items) == Parsed(Front(items)) + Parsed(items[|Front(items)|..])
    ensures |Parsed(Front(items))| <= MAX_TOOLS
    ensures |items| <= MAX_TOOLS ==> Malformed(Front(items)) == Malformed(items)
    ensures Malformed(Front(items)) == 0 && |items| >= MAX_TOOLS ==> |Parsed(Front(items))| == MAX_TOOLS
    ensures |items| <= MAX_TOOLS ==> Parsed(items[|Front(items)|..]) == []
  {
    ParsedConcat(Front(items), items[|Front(items)|..]);
    assert Front(items) + items[|Front(items)|..] == items;
    ParsedOrMalformed(Front(items));
  }

  lemma PrefixOfClip(a: seq<Tool>, b: seq<Tool>)
    requires |a| <= MAX_TOOLS
    ensures a <= Clip(a + b) && (Clip(a + b) == a <==> |a| == MAX_TOOLS || b == [])
  {
  }
}
