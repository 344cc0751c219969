/** One capture from its first message to its last, against an arbitrary server
    (discovery/live_tools.py, `CaptureSession` and `run_capture`). */
module CaptureRun {
  import opened GraphModel
  import opened Json
  import opened Capture

  /** The other side and the clock are arbitrary: a reply, and whether the deadline has passed,
      may depend on everything sent so far. */
  datatype World = World(server: seq<Message> -> Reply, late: seq<Message> -> bool, printable: string -> bool)

  const HELLO := Message(Some(1), Initialize, None, None)

  // ---- what a capture is ---------------------------------------------------------------------

  /** The protocol version taken over from the reply to initialize. */
  function Negotiated(w: World, init: Page): Option<string> {
    match (if "protocolVersion" in init then init["protocolVersion"] else Null)
    case Str(text) => if 0 < |text| <= 32 && w.printable(text) then Some(text) else None
    case _ => None
  }

  /** What the reply to initialize settles: the session and the protocol version. */
  function Welcome(w: World): Result<(Option<string>, Option<string>), Error> {
    var reply := w.server([HELLO]);
    match Answer(reply, 1)
    case Err(e) => Err(e)
    case Ok(init) =>
      match SessionId(reply.sessionHeader)
      case Err(e) => Err(e)
      case Ok(session) => Ok((session, Negotiated(w, init)))
  }

  /** What is wrong with the reply to a notification. */
  function Refusal(reply: Reply): Option<Error> {
    if reply.Failure? then Some(SendFailed(reply.code))
    else if !GoodStatus(reply.status) then Some(HttpStatus(reply.status))
    else None
  }

  /** The page that answers the last of the messages. */
  function PageOf(w: World, sent: seq<Message>): Result<Page, Error>
    requires sent != []
  {
    match Answer(w.server(sent), |sent| - 1)
    case Err(e) => Err(e)
    case Ok(page) => if Listed(page).None? then Err(BadToolsList) else Ok(page)
  }

  /** The pages read so far, in order. */
  function PagesOf(w: World, sent: seq<Message>): seq<Page> {
    if |sent| <= 2 then []
    else
      var before := PagesOf(w, sent[..|sent| - 1]);
      match PageOf(w, sent)
      case Err(_) => before
      case Ok(page) => before + [page]
  }

  function CursorOf(m: Message): Option<string> {
    if m.call.ListTools? then m.call.cursor else None
  }

  /** The message that follows some others, when the capture goes on. */
  function Next(w: World, sent: seq<Message>): Option<Message> {
    if w.late(sent) then None
    else if sent == [] then Some(HELLO)
    else
      match Welcome(w)
      case Err(_) => None
      case Ok((session, protocol)) =>
        if |sent| == 1 then Some(Message(None, Initialized, session, protocol))
        else if |sent| == 2 then
          if Refusal(w.server(sent)).Some? then None else Some(Message(Some(2), ListTools(None), session, protocol))
        else
          match NextPage(w, sent)
          case None => None
          case Some(cursor) => Some(Message(Some(|sent|), ListTools(Some(cursor)), session, protocol))
  }

  /** The cursor to go on with after the last page, if the capture may go on. */
  function NextPage(w: World, sent: seq<Message>): Option<string>
    requires |sent| > 2
  {
    match PageOf(w, sent)
    case Err(_) => None
    case Ok(page) =>
      if |sent| == 2 + MAX_PAGES || Full(AllItems(PagesOf(w, sent))) then None
      else Follow(page, CursorOf(sent[|sent| - 1]))
  }

  /** Every message is the one that follows those before it. */
  ghost predicate Follows(w: World, sent: seq<Message>) {
    sent == []
    || (Follows(w, sent[..|sent| - 1]) && Next(w, sent[..|sent| - 1]) == Some(sent[|sent| - 1]))
  }

  /** A whole capture: it goes on as long as it may. */
  ghost predicate IsRun(w: World, sent: seq<Message>) {
    Follows(w, sent) && Next(w, sent).None?
  }

  /** Why a capture that read no page failed. */
  function FailureOf(w: World, sent: seq<Message>): Error {
    if sent == [] then DeadlineExceeded
    else if |sent| == 1 then match Welcome(w) case Err(e) => e case Ok(_) => DeadlineExceeded
    else if |sent| == 2 then match Refusal(w.server(sent)) case Some(e) => e case None => DeadlineExceeded
    else match PageOf(w, sent) case Err(e) => e case Ok(_) => DeadlineExceeded
  }

  function VersionOf(w: World): string {
    match Welcome(w) case Ok((_, Some(version))) => version case _ => ""
  }

  /** What a capture reports on the pages it read, or on its failure to read any. */
  function Report(pages: seq<Page>, failure: Error, version: string): Manifest {
    if pages == [] then Failed(failure)
    else
      var items := AllItems(pages);
      Manifest(true, Clip(Parsed(items)), None, !Complete(pages), MalformedSeen(items), version)
  }

  function ManifestOf(w: World, sent: seq<Message>): Manifest {
    Report(PagesOf(w, sent), FailureOf(w, sent), VersionOf(w))
  }

  lemma FollowsGrows(w: World, before: seq<Message>, m: Message)
    requires Follows(w, before) && Next(w, before) == Some(m)
    ensures Follows(w, before + [m])
  {
    assert (before + [m])[..|before|] == before;
  }

  // ---- the client ----------------------------------------------------------------------------

  /** Where the page loop stands: the next list request is due. */
  ghost predicate Ready(w: World, sent: seq<Message>, session: Option<string>, protocol: Option<string>,
                        cursor: Option<string>) {
    && Follows(w, sent) && |sent| >= 2 && Welcome(w) == Ok((session, protocol))
    && (|sent| == 2 ==> cursor == None && Refusal(w.server(sent)).None?)
    && (|sent| > 2 ==> cursor.Some? && LeadsTo(w, sent, cursor))
    && !Full(AllItems(PagesOf(w, sent))) && |PagesOf(w, sent)| == |sent| - 2
  }

  ghost predicate LeadsTo(w: World, sent: seq<Message>, cursor: Option<string>)
    requires sent != []
  {
    PageOf(w, sent).Ok? && Follow(PageOf(w, sent).value, CursorOf(sent[|sent| - 1])) == cursor
  }

  lemma ReadyToSend(w: World, sent: seq<Message>, session: Option<string>, protocol: Option<string>,
                    cursor: Option<string>)
    requires Ready(w, sent, session, protocol, cursor) && !w.late(sent) && |sent| < 2 + MAX_PAGES
    ensures Next(w, sent) == Some(Message(Some(|sent|), ListTools(cursor), session, protocol))
  {
  }

  datatype Step = Stopped(error: Error) | Cut | Last | More(cursor: string)

  /** What the last page read leads to, after all the entries so far. */
  function StepAfter(items: seq<Json>, page: Page, cursor: Option<string>): Step {
    if Full(items) then Cut
    else if NextCursor(page).Null? then Last
    else if Follow(page, cursor).None? then Cut
    else More(Follow(page, cursor).value)
  }

  /** The running totals. */
  ghost predicate Account(items: seq<Json>, tools: seq<Tool>, malformed: nat) {
    tools == Clip(Parsed(items)) && malformed == MalformedSeen(items)
  }

  lemma NotFullYet(items: seq<Json>)
    requires !Full(items)
    ensures Clip(Parsed(items)) == Parsed(items)
  {
    AllSeenUnlessFull(items);
  }

  /** What may follow the first message, when there is one. */
  lemma Greeted(w: World)
    ensures Follows(w, [])
    ensures w.late([]) ==> Next(w, []).None? && FailureOf(w, []) == DeadlineExceeded
    ensures !w.late([]) ==> Follows(w, [HELLO])
    ensures Welcome(w).Err? ==> Next(w, [HELLO]).None? && FailureOf(w, [HELLO]) == Welcome(w).error
  {
    if !w.late([]) {
      FollowsGrows(w, [], HELLO);
      assert [] + [HELLO] == [HELLO];
    }
  }

  /** What may follow a reply to initialize that the client accepts. */
  lemma Welcomed(w: World, session: Option<string>, protocol: Option<string>)
    requires Follows(w, [HELLO]) && Welcome(w) == Ok((session, protocol))
    ensures w.late([HELLO]) ==> Next(w, [HELLO]).None? && FailureOf(w, [HELLO]) == DeadlineExceeded
    ensures !w.late([HELLO]) ==>
      var sent, refusal := [HELLO] + [Message(None, Initialized, session, protocol)],
                           Refusal(w.server([HELLO] + [Message(None, Initialized, session, protocol)]));
      && Follows(w, sent) && (refusal.None? ==> Ready(w, sent, session, protocol, None))
      && (refusal.Some? ==> Next(w, sent).None? && FailureOf(w, sent) == refusal.value)
  {
    if !w.late([HELLO]) {
      FollowsGrows(w, [HELLO], Message(None, Initialized, session, protocol));
    }
  }

  class CaptureSession {
    const world: World
    var sent: seq<Message>
    var sessionId: Option<string>
    var protocolVersion: Option<string>
    var nextId: nat

    constructor (world: World)
      ensures this.world == world && sent == [] && sessionId == None && protocolVersion == None && nextId == 1
    {
      this.world := world;
      sent, sessionId, protocolVersion, nextId := [], None, None, 1;
    }

    /** `_post`: refuse once the deadline has passed, else send with the session's headers. */
    method Post(id: Option<nat>, call: Call) returns (r: Result<Reply, Error>)
      modifies this`sent
      ensures world.late(old(sent)) ==> r == Err(DeadlineExceeded) && sent == old(sent)
      ensures !world.late(old(sent)) ==>
          sent == old(sent) + [Message(id, call, sessionId, protocolVersion)] && r == Ok(world.server(sent))
    {
      if world.late(sent) {
        return Err(DeadlineExceeded);
      }
      sent := sent + [Message(id, call, sessionId, protocolVersion)];
      return Ok(world.server(sent));
    }

    /** `request`: a fresh id, one message, one checked answer and its session header. */
    method Request(call: Call) returns (r: Result<Page, Error>, header: Option<string>)
      modifies this`sent, this`nextId
      ensures nextId == old(nextId) + 1
      ensures world.late(old(sent)) ==> r == Err(DeadlineExceeded) && sent == old(sent)
      ensures !world.late(old(sent)) ==>
          sent == old(sent) + [Message(Some(old(nextId)), call, sessionId, protocolVersion)]
          && r == Answer(world.server(sent), old(nextId))
      ensures r.Ok? ==> header == world.server(sent).sessionHeader
    {
      var id := nextId;
      header := None;
      nextId := nextId + 1;
      var reply := Post(Some(id), call);
      if reply.Err? {
        return Err(reply.error), None;
      }
      r := Answer(reply.value, id);
      if r.Ok? {
        header := reply.value.sessionHeader;
      }
    }

    /** `notify`: one message without an id, accepted only with a status in the 200s. */
    method Notify(call: Call) returns (r: Option<Error>)
      modifies this`sent
      ensures world.late(old(sent)) ==> r == Some(DeadlineExceeded) && sent == old(sent)
      ensures !world.late(old(sent)) ==>
          sent == old(sent) + [Message(None, call, sessionId, protocolVersion)] && r == Refusal(world.server(sent))
    {
      var reply := Post(None, call);
      if reply.Err? {
        return Some(reply.error);
      }
      if reply.value.Failure? {
        return Some(SendFailed(reply.value.code));
      }
      if !GoodStatus(reply.value.status) {
        return Some(HttpStatus(reply.value.status));
      }
      return None;
    }

    /** The first half of the handshake: initialize, and take over the session and the protocol
        version that the reply settles. */
    method Greet() returns (failure: Option<Error>)
      requires sent == [] && sessionId == None && protocolVersion == None && nextId == 1
      modifies this
      ensures nextId == 2 && sent == (if world.late([]) then [] else [HELLO])
      ensures world.late([]) ==> failure == Some(DeadlineExceeded)
      ensures !world.late([]) ==> (failure.Some? <==> Welcome(world).Err?)
      ensures !world.late([]) && failure.Some? ==> failure.value == Welcome(world).error
      ensures failure.None? ==> Welcome(world) == Ok((sessionId, protocolVersion))
    {
      var init, header := Request(Initialize);
      assert !world.late([]) ==> sent == [HELLO];
      if init.Err? {
        return Some(init.error);
      }
      var accepted := SessionId(header);
      if accepted.Err? {
        return Some(accepted.error);
      }
      sessionId := accepted.value;
      var negotiated := if "protocolVersion" in init.value then init.value["protocolVersion"] else Null;
      if negotiated.Str? && 0 < |negotiated.text| <= 32 && world.printable(negotiated.text) {
        protocolVersion := Some(negotiated.text);
      }
      failure := None;
    }

    /** The handshake: initialize, then the notification under what the reply settled. */
    method Handshake() returns (failure: Option<Error>)
      requires sent == [] && sessionId == None && protocolVersion == None && nextId == 1
      modifies this
      ensures Follows(world, sent) && |sent| <= 2
      ensures failure.Some? ==> Next(world, sent).None? && failure.value == FailureOf(world, sent)
      ensures failure.None? ==> |sent| == nextId == 2 && Ready(world, sent, sessionId, protocolVersion, None)
    {
      failure := Greet();
      Greeted(world);
      if failure.None? {
        Welcomed(world, sessionId, protocolVersion);
        failure := Notify(Initialized);
      }
    }

    /** One list request and the check that its answer holds a list of tools. */
    method FetchPage(cursor: Option<string>) returns (r: Result<Page, Error>)
      requires |sent| == nextId
      modifies this`sent, this`nextId
      ensures world.late(old(sent)) ==> r == Err(DeadlineExceeded) && sent == old(sent)
      ensures !world.late(old(sent)) ==>
          sent == old(sent) + [Message(Some(|old(sent)|), ListTools(cursor), sessionId, protocolVersion)]
          && r == PageOf(world, sent) && nextId == |sent|
    {
      var header;
      r, header := Request(ListTools(cursor));
      if r.Ok? && Listed(r.value).None? {
        r := Err(BadToolsList);
      }
    }

    /** One turn of the page loop, after the entries `items`. */
    method ReadPage(cursor: Option<string>, tools0: seq<Tool>, malformed0: nat, ghost items: seq<Json>)
      returns (step: Step, tools: seq<Tool>, malformed: nat)
      requires |sent| == nextId && Account(items, tools0, malformed0) && !Full(items)
      modifies this`sent, this`nextId
      ensures world.late(old(sent)) ==> sent == old(sent) && step == Stopped(DeadlineExceeded)
      ensures !world.late(old(sent)) ==>
          sent == old(sent) + [Message(Some(|old(sent)|), ListTools(cursor), sessionId, protocolVersion)]
            && nextId == |sent|
      ensures !world.late(old(sent)) && PageOf(world, sent).Err? ==> step == Stopped(PageOf(world, sent).error)
      ensures step.Stopped? ==> tools == tools0 && malformed == malformed0
      ensures !world.late(old(sent)) && PageOf(world, sent).Ok? ==>
          var page := PageOf(world, sent).value;
          Account(items + Listed(page).value, tools, malformed)
            && step == StepAfter(items + Listed(page).value, page, cursor)
    {
      var result := FetchPage(cursor);
      if result.Err? {
        return Stopped(result.error), tools0, malformed0;
      }
      var page := result.value;
      var full;
      NotFullYet(items);
      tools, malformed, full := AddTools(Listed(page).value, tools0, malformed0, items);
      if full {
        return Cut, tools, malformed;
      }
      var nextCursor := NextCursor(page);
      if nextCursor.Null? {
        return Last, tools, malformed;
      }
      if !nextCursor.Str? || nextCursor.text == "" || Some(nextCursor.text) == cursor {
        return Cut, tools, malformed;
      }
      return More(nextCursor.text), tools, malformed;
    }

    /** `run_capture`: the handshake, then page after page until one of the bounds or an error. */
    method RunCapture() returns (m: Manifest)
      requires sent == [] && sessionId == None && protocolVersion == None && nextId == 1
      modifies this
      ensures IsRun(world, sent) && m == ManifestOf(world, sent)
    {
      var failure := Handshake();
      if failure.Some? {
        return Failed(failure.value);
      }
      var tools: seq<Tool>, malformed: nat, cursor: Option<string> := [], 0, None;
      for page := 0 to MAX_PAGES
        invariant Ready(world, sent, sessionId, protocolVersion, cursor) && |sent| == 2 + page == nextId
        invariant Account(AllItems(PagesOf(world, sent)), tools, malformed)
      {
        ghost var before := sent;
        var step;
        step, tools, malformed := ReadPage(cursor, tools, malformed, AllItems(PagesOf(world, sent)));
        Turn(world, before, sent, sessionId, protocolVersion, cursor);
        match step {
          case Stopped(error) =>
            if page == 0 {
              return Failed(error);
            }
            Reported(world, sent, sessionId, protocolVersion, tools, malformed, true);
            return Finished(tools, malformed, true);
          case Cut =>
            Reported(world, sent, sessionId, protocolVersion, tools, malformed, true);
            return Finished(tools, malformed, true);
          case Last =>
            Reported(world, sent, sessionId, protocolVersion, tools, malformed, false);
            return Finished(tools, malformed, false);
          case More(next) =>
            cursor := Some(next);
        }
      }
      OutOfPages(world, sent, sessionId, protocolVersion, cursor);
      Reported(world, sent, sessionId, protocolVersion, tools, malformed, true);
      return Finished(tools, malformed, true);
    }

    function Finished(tools: seq<Tool>, malformed: nat, truncated: bool): Manifest
      reads this`protocolVersion
    {
      ReportOn(tools, malformed, truncated, protocolVersion)
    }
  }

  function ReportOn(tools: seq<Tool>, malformed: nat, truncated: bool, protocol: Option<string>): Manifest {
    Manifest(true, tools, None, truncated || malformed > 0, malformed, if protocol.Some? then protocol.value else "")
  }

  lemma Reported(w: World, sent: seq<Message>, session: Option<string>, protocol: Option<string>,
                 tools: seq<Tool>, malformed: nat, truncated: bool)
    requires Welcome(w) == Ok((session, protocol)) && PagesOf(w, sent) != []
    requires Account(AllItems(PagesOf(w, sent)), tools, malformed)
    requires !Complete(PagesOf(w, sent)) <==> truncated || malformed > 0
    ensures ReportOn(tools, malformed, truncated, protocol) == ManifestOf(w, sent)
  {
  }

  /** What one turn of the page loop means for the run. */
  lemma Turn(w: World, before: seq<Message>, sent: seq<Message>,
             session: Option<string>, protocol: Option<string>, cursor: Option<string>)
    requires Ready(w, before, session, protocol, cursor) && |before| < 2 + MAX_PAGES
    requires w.late(before) ==> sent == before
    requires !w.late(before) ==> sent == before + [Message(Some(|before|), ListTools(cursor), session, protocol)]
    ensures Follows(w, sent)
    ensures w.late(before) ==> Ends(w, before, sent, DeadlineExceeded)
    ensures !w.late(before) && PageOf(w, sent).Err? ==> Ends(w, before, sent, PageOf(w, sent).error)
    ensures !w.late(before) && PageOf(w, sent).Ok? ==>
        AllItems(PagesOf(w, sent)) == AllItems(PagesOf(w, before)) + Listed(PageOf(w, sent).value).value
    ensures !w.late(before) && PageOf(w, sent).Ok? ==>
        Leads(w, sent, session, protocol, StepAfter(AllItems(PagesOf(w, sent)), PageOf(w, sent).value, cursor))
  {
    if |before| > 2 { Pending(w, before, session, protocol, cursor); }
    if !w.late(before) {
      ReadyToSend(w, before, session, protocol, cursor);
      FollowsGrows(w, before, Message(Some(|before|), ListTools(cursor), session, protocol));
      if PageOf(w, sent).Ok? {
        PageRead(w, before, sent, PageOf(w, sent).value);
        TurnLeads(w, before, sent, PageOf(w, sent).value, session, protocol, cursor);
      } else {
        NoNewPage(w, before, sent);
        EndsHere(w, sent);
      }
    } else {
      EndsHere(w, sent);
    }
  }

  /** The run ends without a further page. */
  ghost predicate Ends(w: World, before: seq<Message>, sent: seq<Message>, error: Error) {
    && Next(w, sent).None? && PagesOf(w, sent) == PagesOf(w, before)
    && (if |before| == 2 then PagesOf(w, sent) == [] && error == FailureOf(w, sent) else !Complete(PagesOf(w, sent)))
  }

  /** What a step after a page says about the run. */
  ghost predicate Leads(w: World, sent: seq<Message>, session: Option<string>, protocol: Option<string>, step: Step) {
    && !step.Stopped? && PagesOf(w, sent) != []
    && (step.Cut? ==> Next(w, sent).None? && !Complete(PagesOf(w, sent)))
    && (step.Last? ==> Next(w, sent).None?)
    && (step.Last? ==> (Complete(PagesOf(w, sent)) <==> MalformedSeen(AllItems(PagesOf(w, sent))) == 0))
    && (step.More? ==> Ready(w, sent, session, protocol, Some(step.cursor)))
  }

  lemma NoNewPage(w: World, before: seq<Message>, sent: seq<Message>)
    requires sent == before || (|sent| == |before| + 1 > 2 && before <= sent && PageOf(w, sent).Err?)
    ensures PagesOf(w, sent) == PagesOf(w, before)
  {
    if sent != before { assert sent[..|before|] == before; }
  }

  lemma EndsHere(w: World, sent: seq<Message>)
    requires w.late(sent) || (|sent| > 2 && PageOf(w, sent).Err?)
    ensures Next(w, sent).None?
  {
  }

  lemma PageRead(w: World, before: seq<Message>, sent: seq<Message>, page: Page)
    requires |sent| == |before| + 1 > 2 && before <= sent && PageOf(w, sent) == Ok(page)
    ensures PagesOf(w, sent) == PagesOf(w, before) + [page]
    ensures AllItems(PagesOf(w, sent)) == AllItems(PagesOf(w, before)) + Listed(page).value
  {
    assert sent[..|before|] == before;
    ItemsOfOneMore(PagesOf(w, before), page);
  }

  /** A page with a cursor to go on with is not the last. */
  lemma Pending(w: World, sent: seq<Message>, session: Option<string>, protocol: Option<string>, cursor: Option<string>)
    requires Ready(w, sent, session, protocol, cursor) && |sent| > 2
    ensures PagesOf(w, sent) != [] && !Complete(PagesOf(w, sent))
  {
  }

  lemma OutOfPages(w: World, sent: seq<Message>, session: Option<string>, protocol: Option<string>,
                   cursor: Option<string>)
    requires Ready(w, sent, session, protocol, cursor) && |sent| == 2 + MAX_PAGES
    ensures Next(w, sent).None? && PagesOf(w, sent) != [] && !Complete(PagesOf(w, sent))
  {
    Pending(w, sent, session, protocol, cursor);
  }

  lemma TurnLeads(w: World, before: seq<Message>, sent: seq<Message>, page: Page,
                  session: Option<string>, protocol: Option<string>, cursor: Option<string>)
    requires Welcome(w) == Ok((session, protocol)) && |PagesOf(w, before)| == |before| - 2 && Follows(w, sent)
    requires |sent| == |before| + 1 > 2 && CursorOf(sent[|before|]) == cursor && PageOf(w, sent) == Ok(page)
    requires PagesOf(w, sent) == PagesOf(w, before) + [page]
    ensures Leads(w, sent, session, protocol, StepAfter(AllItems(PagesOf(w, sent)), page, cursor))
  {
    CompleteIf(PagesOf(w, sent), page, cursor);
    assert CursorOf(sent[|sent| - 1]) == cursor;
    var step := StepAfter(AllItems(PagesOf(w, sent)), page, cursor);
    if step.More? {
      assert Ready(w, sent, session, protocol, Some(step.cursor));
    } else {
      assert NextPage(w, sent).None?;
    }
  }

  lemma CompleteIf(pages: seq<Page>, page: Page, cursor: Option<string>)
    requires pages != [] && pages[|pages| - 1] == page
    ensures var step := StepAfter(AllItems(pages), page, cursor);
      && (step.Cut? ==> !Complete(pages))
      && (step.Last? ==> (Complete(pages) <==> MalformedSeen(AllItems(pages)) == 0))
  {
    AllSeenUnlessFull(AllItems(pages));
    ParsedOrMalformed(AllItems(pages));
  }
}
