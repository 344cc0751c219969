/** The stdio channel: a reader thread feeding a bounded queue that the client drains
    (discovery/stdio_sandbox.py, `_StdioChannel`), as interleaved steps. */
module Channel {
  import opened GraphModel
  import opened Json
  import Capture
  import opened CaptureRun
  import opened CaptureTheorems

  type Bytes = seq<byte>

  const MAX_BODY := 1024 * 1024
  const LINE_LIMIT := MAX_BODY
  const TOTAL_LIMIT := 8 * MAX_BODY
  const QUEUE_SIZE := 256

  /** b"\x00oversized" */
  const MARKER: Bytes := [0, 111, 118, 101, 114, 115, 105, 122, 101, 100]
  const RESULT: Bytes := [34, 114, 101, 115, 117, 108, 116, 34]
  const ERROR: Bytes := [34, 101, 114, 114, 111, 114, 34]

  /** A queue entry: a line, or the None that closes the stream. */
  datatype Item = Line(bytes: Bytes) | End

  // ---- what the reader puts, in order --------------------------------------------------------

  /** `_pump`, given the lines that readline yields before the stream ends or fails. */
  function Pumped(lines: seq<Bytes>, total: nat): seq<Item> {
    if lines == [] then [End]
    else if |lines[0]| > LINE_LIMIT || total + |lines[0]| > TOTAL_LIMIT then [Line(MARKER), End]
    else [Line(lines[0])] + Pumped(lines[1..], total + |lines[0]|)
  }

  // ---- what the client makes of an item ------------------------------------------------------

  predicate IsSpace(b: byte) { b == 32 || 9 <= b <= 13 }

  function StripLeft(s: Bytes): Bytes { if s != [] && IsSpace(s[0]) then StripLeft(s[1..]) else s }

  function StripRight(s: Bytes): Bytes { if s != [] && IsSpace(s[|s| - 1]) then StripRight(s[..|s| - 1]) else s }

  function Strip(s: Bytes): Bytes { StripRight(StripLeft(s)) }

  predicate Within(needle: Bytes, hay: Bytes) { needle <= hay || (hay != [] && Within(needle, hay[1..])) }

  predicate IsResponse(line: Bytes) {
    var s := Strip(line);
    s != [] && s[0] == 123 && (Within(RESULT, s) || Within(ERROR, s))
  }

  ghost predicate Blank(s: Bytes) { forall b :: b in s ==> b in {32, 9, 10, 11, 12, 13} }

  /** t is s without the white space around it. */
  ghost predicate Trimmed(s: Bytes, t: Bytes) {
    && (exists a, b :: s == a + t + b && Blank(a) && Blank(b))
    && (t != [] ==> !Blank([t[0]]) && !Blank([t[|t| - 1]]))
  }

  lemma {:induction false} StripLeftIs(s: Bytes) returns (a: Bytes)
    ensures s == a + StripLeft(s) && Blank(a)
    ensures StripLeft(s) != [] ==> !Blank([StripLeft(s)[0]])
  {
    a := [];
    if s != [] && IsSpace(s[0]) {
      var b := StripLeftIs(s[1..]);
      a := [s[0]] + b;
      assert s == [s[0]] + s[1..];
    } else if s != [] {
      assert s[0] in [s[0]];
    }
  }

  lemma {:induction false} StripRightIs(s: Bytes) returns (b: Bytes)
    ensures s == StripRight(s) + b && Blank(b)
    ensures StripRight(s) != [] ==> !Blank([StripRight(s)[|StripRight(s)| - 1]])
  {
    b := [];
    if s != [] && IsSpace(s[|s| - 1]) {
      var a := StripRightIs(s[..|s| - 1]);
      b := a + [s[|s| - 1]];
      assert s == s[..|s| - 1] + [s[|s| - 1]];
    } else if s != [] {
      assert s[|s| - 1] in [s[|s| - 1]];
    }
  }

  lemma StripIs(s: Bytes)
    ensures Trimmed(s, Strip(s))
  {
    var a := StripLeftIs(s);
    var b := StripRightIs(StripLeft(s));
    var t := Strip(s);
    assert s == a + t + b;
    assert t != [] ==> t[0] == StripLeft(s)[0];
  }

  lemma {:induction false} WithinIff(needle: Bytes, hay: Bytes)
    ensures Within(needle, hay) <==> exists i :: 0 <= i <= |hay| - |needle| && needle <= hay[i..]
  {
    assert hay[0..] == hay;
    if !(needle <= hay) && hay != [] {
      WithinIff(needle, hay[1..]);
      if i :| 0 <= i <= |hay| - |needle| && needle <= hay[i..] {
        if i > 0 { assert hay[1..][i - 1..] == hay[i..]; }
      }
      if i :| 0 <= i <= |hay[1..]| - |needle| && needle <= hay[1..][i..] {
        assert hay[1..][i..] == hay[i + 1..];
      }
    }
  }

  ghost predicate Has(hay: Bytes, needle: Bytes) {
    exists i :: 0 <= i <= |hay| - |needle| && needle <= hay[i..]
  }

  ghost predicate LooksLikeResponse(t: Bytes) {
    && t != [] && t[0] == 123
    && (Has(t, [34, 114, 101, 115, 117, 108, 116, 34]) || Has(t, [34, 101, 114, 114, 111, 114, 34]))
  }

  /** What the client makes of one item. A line is a response when, without the white space around
      it, it begins with a brace and has "result" or "error" in quotes; the stream's end closes,
      the reader's marker for an oversized stream ends the wait, and any other line is skipped. */
  lemma TakenIs(item: Item)
    ensures item == End ==> Taken(item) == Some(Closed)
    ensures item == Line([0, 111, 118, 101, 114, 115, 105, 122, 101, 100]) ==> Taken(item) == Some(TooLarge)
    ensures item.Line? && item.bytes != [0, 111, 118, 101, 114, 115, 105, 122, 101, 100] ==>
      exists t :: Trimmed(item.bytes, t) && Taken(item) == if LooksLikeResponse(t) then Some(Response(t)) else None
  {
    if item.Line? {
      StripIs(item.bytes);
      WithinIff(RESULT, Strip(item.bytes));
      WithinIff(ERROR, Strip(item.bytes));
    }
  }

  /** How one awaited `send` ends. */
  datatype Outcome = Response(payload: Bytes) | Closed | TooLarge | DeadlinePassed | WriteFailed

  /** What taking one item does: an outcome, or nothing and the wait goes on. */
  function Taken(item: Item): Option<Outcome> {
    match item
    case End => Some(Closed)
    case Line(bytes) =>
      if bytes == MARKER then Some(TooLarge)
      else if IsResponse(bytes) then Some(Response(Strip(bytes)))
      else None
  }

  /** The outcomes of successive sends over a plain list of items, read one after the other. */
  function Sequential(items: seq<Item>): seq<Outcome> {
    if items == [] then []
    else
      match Taken(items[0])
      case None => Sequential(items[1..])
      case Some(Response(p)) => [Response(p)] + Sequential(items[1..])
      case Some(o) => [o]
  }

  // ---- the interleaved system ----------------------------------------------------------------

  datatype Reader = Reading | Holding(line: Bytes) | HoldingMarker | HoldingEnd | Finished

  datatype Client = Idle | Waiting | Over

  datatype State = State(
    rest: seq<Bytes>, total: nat, reader: Reader, queue: seq<Item>,
    client: Client, consumed: seq<Item>, outcomes: seq<Outcome>)

  datatype Step = ReadLine | Put | Ask | AskFails | Take | Expire

  function Start(lines: seq<Bytes>): State { State(lines, 0, Reading, [], Idle, [], []) }

  function Held(r: Reader): seq<Item> {
    match r
    case Holding(line) => [Line(line)]
    case HoldingMarker => [Line(MARKER)]
    case HoldingEnd => [End]
    case _ => []
  }

  /** One atomic step of the reader or of the client, where it is enabled. */
  function Next(s: State, step: Step): Option<State> {
    match step
    case ReadLine =>
      if !s.reader.Reading? then None
      else if s.rest == [] then Some(s.(reader := HoldingEnd))
      else
        var line, total := s.rest[0], s.total + |s.rest[0]|;
        Some(s.(rest := s.rest[1..], total := total,
                reader := if |line| > LINE_LIMIT || total > TOTAL_LIMIT then HoldingMarker else Holding(line)))
    case Put =>
      if Held(s.reader) == [] || |s.queue| >= QUEUE_SIZE then None
      else Some(s.(queue := s.queue + Held(s.reader),
                   reader := if s.reader.Holding? then Reading
                             else if s.reader.HoldingMarker? then HoldingEnd else Finished))
    case Ask => if s.client.Idle? then Some(s.(client := Waiting)) else None
    case AskFails => if s.client.Idle? then Some(s.(client := Over, outcomes := s.outcomes + [WriteFailed])) else None
    case Take =>
      if !s.client.Waiting? || s.queue == [] then None
      else
        var taken := s.(queue := s.queue[1..], consumed := s.consumed + [s.queue[0]]);
        var o := Taken(s.queue[0]);
        if o.None? then Some(taken)
        else Some(taken.(client := if o.value.Response? then Idle else Over, outcomes := s.outcomes + [o.value]))
    case Expire =>
      if s.client.Waiting? then Some(s.(client := Over, outcomes := s.outcomes + [DeadlinePassed])) else None
  }

  function RunSteps(s: State, steps: seq<Step>): Option<State> {
    if steps == [] then Some(s)
    else
      match RunSteps(s, steps[..|steps| - 1])
      case None => None
      case Some(t) => Next(t, steps[|steps| - 1])
  }

  /** What the reader has still to put. */
  function Ahead(s: State): seq<Item> {
    match s.reader
    case Reading => Pumped(s.rest, s.total)
    case Holding(line) => [Line(line)] + Pumped(s.rest, s.total)
    case HoldingMarker => [Line(MARKER), End]
    case HoldingEnd => [End]
    case Finished => []
  }

  predicate IsLocal(o: Outcome) { o.DeadlinePassed? || o.WriteFailed? }

  /** The outcomes that come from the server, without a final local failure. */
  function Served(outcomes: seq<Outcome>): seq<Outcome> {
    if outcomes != [] && IsLocal(outcomes[|outcomes| - 1]) then outcomes[..|outcomes| - 1] else outcomes
  }

  /** Nothing is lost, reordered or made up, and the queue stays within its bound. */
  ghost predicate InOrder(lines: seq<Bytes>, s: State) {
    s.consumed + s.queue + Ahead(s) == Pumped(lines, 0) && |s.queue| <= QUEUE_SIZE
  }

  /** The client has seen what it would have seen reading the items one after the other. */
  ghost predicate Faithful(s: State) {
    && Served(s.outcomes) == Sequential(s.consumed)
    && (!s.client.Over? ==> s.outcomes == Sequential(s.consumed) && AllResponses(s.outcomes))
  }

  ghost predicate AllResponses(outcomes: seq<Outcome>) { forall o :: o in outcomes ==> o.Response? }

  lemma {:induction false} SequentialAppend(items: seq<Item>, item: Item)
    requires AllResponses(Sequential(items))
    ensures Sequential(items + [item]) == Sequential(items) + (if Taken(item).Some? then [Taken(item).value] else [])
  {
    if items == [] {
      assert [item][1..] == [];
    } else {
      assert (items + [item])[1..] == items[1..] + [item];
      assert Taken(items[0]).Some? ==> Sequential(items)[0] == Taken(items[0]).value;
      SequentialAppend(items[1..], item);
    }
  }

  lemma NextInOrder(lines: seq<Bytes>, s: State, step: Step)
    requires InOrder(lines, s) && Next(s, step).Some?
    ensures InOrder(lines, Next(s, step).value)
  {
    var t := Next(s, step).value;
    if step.ReadLine? {
      ReadKeepsAhead(s);
    } else if step.Put? {
      PutMovesAhead(s);
      Regroup(s.consumed, s.queue, Held(s.reader), Ahead(t));
    } else if step.Take? {
      HeadMoves(s.consumed, s.queue);
      assert Ahead(t) == Ahead(s);
    } else {
      assert Ahead(t) == Ahead(s);
    }
  }

  lemma Regroup(a: seq<Item>, b: seq<Item>, c: seq<Item>, d: seq<Item>)
    ensures a + (b + c) + d == a + b + (c + d)
  {
  }

  lemma HeadMoves(a: seq<Item>, b: seq<Item>)
    requires b != []
    ensures (a + [b[0]]) + b[1..] == a + b
  {
  }

  lemma ReadKeepsAhead(s: State)
    requires Next(s, ReadLine).Some?
    ensures Ahead(Next(s, ReadLine).value) == Ahead(s)
  {
  }

  lemma PutMovesAhead(s: State)
    requires Next(s, Put).Some?
    ensures Held(s.reader) + Ahead(Next(s, Put).value) == Ahead(s)
  {
  }

  lemma NextFaithful(s: State, step: Step)
    requires Faithful(s) && Next(s, step).Some?
    ensures Faithful(Next(s, step).value)
  {
    if step.Take? {
      TakeFaithful(s);
    } else if step.AskFails? || step.Expire? {
      LocalEnd(s, if step.AskFails? then WriteFailed else DeadlinePassed);
    }
  }

  lemma TakeFaithful(s: State)
    requires Faithful(s) && Next(s, Take).Some?
    ensures Faithful(Next(s, Take).value)
  {
    SequentialAppend(s.consumed, s.queue[0]);
    OneMoreServed(s.outcomes, Taken(s.queue[0]));
  }

  /** An item that the client does not skip adds one outcome of the server's. */
  lemma OneMoreServed(outcomes: seq<Outcome>, o: Option<Outcome>)
    requires AllResponses(outcomes) && (o.Some? ==> !IsLocal(o.value))
    ensures var after := outcomes + if o.Some? then [o.value] else [];
      && Served(after) == after && (o.None? ==> after == outcomes)
      && (o.None? || o.value.Response? ==> AllResponses(after))
  {
    var after := outcomes + if o.Some? then [o.value] else [];
    assert o.None? ==> after == outcomes;
    assert outcomes != [] ==> outcomes[|outcomes| - 1] in outcomes;
  }

  lemma LocalEnd(s: State, o: Outcome)
    requires Faithful(s) && !s.client.Over? && IsLocal(o)
    ensures Faithful(s.(client := Over, outcomes := s.outcomes + [o]))
  {
  }

  /** Under every interleaving of reader and client. */
  lemma {:induction false} EveryInterleaving(lines: seq<Bytes>, steps: seq<Step>)
    requires RunSteps(Start(lines), steps).Some?
    ensures InOrder(lines, RunSteps(Start(lines), steps).value) && Faithful(RunSteps(Start(lines), steps).value)
  {
    if steps != [] {
      var init := steps[..|steps| - 1];
      EveryInterleaving(lines, init);
      NextInOrder(lines, RunSteps(Start(lines), init).value, steps[|steps| - 1]);
      NextFaithful(RunSteps(Start(lines), init).value, steps[|steps| - 1]);
    }
  }

  /** The sends begun, one by one. */
  function Sends(steps: seq<Step>): nat {
    if steps == [] then 0
    else Sends(steps[..|steps| - 1]) + (if steps[|steps| - 1] in {Ask, AskFails} then 1 else 0)
  }

  /** Every send has one outcome, or is the one still waited for; and a client that saw anything but
      a response sends no more. */
  lemma {:induction false} EachSendEndsOnce(lines: seq<Bytes>, steps: seq<Step>)
    requires RunSteps(Start(lines), steps).Some?
    ensures var s := RunSteps(Start(lines), steps).value;
      && |s.outcomes| + (if s.client == Waiting then 1 else 0) == Sends(steps)
      && (s.client == Over <==> s.outcomes != [] && !s.outcomes[|s.outcomes| - 1].Response?)
  {
    if steps != [] { EachSendEndsOnce(lines, steps[..|steps| - 1]); }
  }

  // ---- bounds --------------------------------------------------------------------------------

  /** The bytes of the lines among some items. */
  function LineBytes(items: seq<Item>): nat {
    if items == [] then 0
    else LineBytes(items[1..]) + (match items[0] case Line(b) => |b| case End => 0)
  }

  lemma {:induction false} PumpedBound(lines: seq<Bytes>, total: nat)
    requires total <= TOTAL_LIMIT
    ensures total + LineBytes(Pumped(lines, total)) <= TOTAL_LIMIT + |MARKER|
    ensures forall x :: x in Pumped(lines, total) && x.Line? ==> |x.bytes| <= LINE_LIMIT
  {
    if lines == [] {
      assert [End][1..] == [];
    } else if |lines[0]| > LINE_LIMIT || total + |lines[0]| > TOTAL_LIMIT {
      assert [Line(MARKER), End][1..] == [End] && [End][1..] == [];
    } else {
      PumpedBound(lines[1..], total + |lines[0]|);
      assert ([Line(lines[0])] + Pumped(lines[1..], total + |lines[0]|))[1..] == Pumped(lines[1..], total + |lines[0]|);
    }
  }

  lemma {:induction false} LineBytesConcat(a: seq<Item>, b: seq<Item>)
    ensures LineBytes(a + b) == LineBytes(a) + LineBytes(b)
  {
    if a == [] {
      assert a + b == b;
    } else {
      assert (a + b)[1..] == a[1..] + b;
      LineBytesConcat(a[1..], b);
    }
  }

  /** At any moment: what was taken followed by what is queued is a prefix of the reader's
      sequence, at most 256 entries are queued, at most 8 MiB of lines and the reader's own marker
      were ever enqueued, and no line was longer than the line limit. */
  lemma ChannelIsBounded(lines: seq<Bytes>, steps: seq<Step>)
    requires RunSteps(Start(lines), steps).Some?
    ensures var s := RunSteps(Start(lines), steps).value;
      && s.consumed + s.queue <= Pumped(lines, 0) && |s.queue| <= 256
      && LineBytes(s.consumed + s.queue) <= 8 * 1024 * 1024 + 10
      && forall x :: x in s.consumed + s.queue && x.Line? ==> |x.bytes| <= 1024 * 1024
  {
    var s := RunSteps(Start(lines), steps).value;
    EveryInterleaving(lines, steps);
    PumpedBound(lines, 0);
    LineBytesConcat(s.consumed + s.queue, Ahead(s));
    forall x | x in s.consumed + s.queue ensures x in Pumped(lines, 0) {
      assert x in s.consumed + s.queue + Ahead(s);
    }
  }

  /** The bytes of some lines together. */
  function Total(lines: seq<Bytes>): nat {
    if lines == [] then 0 else |lines[0]| + Total(lines[1..])
  }

  /** No line is longer than a mebibyte, and together they fit what is left of eight. */
  ghost predicate Fit(lines: seq<Bytes>, total: nat) {
    total + Total(lines) <= 8 * 1024 * 1024 && forall l :: l in lines ==> |l| <= 1024 * 1024
  }

  function AsItems(lines: seq<Bytes>): seq<Item> {
    seq(|lines|, i requires 0 <= i < |lines| => Line(lines[i]))
  }

  /** What the reader puts: every line and the end, while all fit; otherwise those before the first
      that does not, the marker and the end. */
  lemma {:induction false} PumpedIs(lines: seq<Bytes>, total: nat, k: nat)
    requires k <= |lines| && Fit(lines[..k], total) && (k < |lines| ==> !Fit(lines[..k + 1], total))
    ensures Pumped(lines, total) == AsItems(lines[..k]) + Ending(lines, k)
  {
    if lines != [] {
      if k == 0 {
        assert lines[..1][1..] == [] && lines[..1][0] == lines[0];
        assert |lines[0]| > LINE_LIMIT || total + |lines[0]| > TOTAL_LIMIT;
        assert AsItems(lines[..0]) == [];
      } else {
        FitsOn(lines, total, k);
        if k < |lines| { FitsOn(lines, total, k + 1); }
        PumpedIs(lines[1..], total + |lines[0]|, k - 1);
        FirstItem(lines, k);
        Regroup([], [Line(lines[0])], AsItems(lines[1..][..k - 1]), Ending(lines, k));
      }
    }
  }

  /** What closes the sequence after the first k lines. */
  function Ending(lines: seq<Bytes>, k: nat): seq<Item> {
    if k == |lines| then [End] else [Line([0, 111, 118, 101, 114, 115, 105, 122, 101, 100]), End]
  }

  lemma FirstItem(lines: seq<Bytes>, k: nat)
    requires 0 < k <= |lines|
    ensures AsItems(lines[..k]) == [Line(lines[0])] + AsItems(lines[1..][..k - 1])
  {
  }

  lemma FitsOn(lines: seq<Bytes>, total: nat, k: nat)
    requires 0 < k <= |lines|
    ensures Fit(lines[..k], total) <==> |lines[0]| <= 1024 * 1024 && Fit(lines[1..][..k - 1], total + |lines[0]|)
  {
    assert lines[..k] == [lines[0]] + lines[1..][..k - 1] && lines[..k][1..] == lines[1..][..k - 1];
  }

  // ---- the client cannot tell the channel from a list of lines --------------------------------

  lemma {:induction false} SequentialPrefix(a: seq<Item>, b: seq<Item>)
    ensures Sequential(a) <= Sequential(a + b)
  {
    if a == [] {
    } else {
      assert (a + b)[1..] == a[1..] + b;
      SequentialPrefix(a[1..], b);
    }
  }

  /** Whatever the schedule, the i-th send ends as it would have over the plain list of lines, or
      else with a failure of the client's own: the deadline, or a write that did not go through. */
  lemma ScheduleIsInvisible(lines: seq<Bytes>, steps: seq<Step>, i: nat)
    requires RunSteps(Start(lines), steps).Some? && i < |RunSteps(Start(lines), steps).value.outcomes|
    ensures var o := RunSteps(Start(lines), steps).value.outcomes[i];
      (IsLocal(o) && i == |RunSteps(Start(lines), steps).value.outcomes| - 1)
      || (i < |Sequential(Pumped(lines, 0))| && o == Sequential(Pumped(lines, 0))[i])
  {
    var s := RunSteps(Start(lines), steps).value;
    EveryInterleaving(lines, steps);
    ServedIsPrefix(lines, s);
    ServedOrLast(s.outcomes, i);
  }

  lemma ServedIsPrefix(lines: seq<Bytes>, s: State)
    requires InOrder(lines, s) && Faithful(s)
    ensures Served(s.outcomes) <= Sequential(Pumped(lines, 0))
  {
    PrefixOf(s.consumed, s.queue, Ahead(s), Pumped(lines, 0));
  }

  lemma PrefixOf(a: seq<Item>, b: seq<Item>, c: seq<Item>, all: seq<Item>)
    requires a + b + c == all
    ensures Sequential(a) <= Sequential(all)
  {
    SequentialPrefix(a, b + c);
    assert a + (b + c) == a + b + c;
  }

  lemma ServedOrLast(outcomes: seq<Outcome>, i: nat)
    requires i < |outcomes|
    ensures (IsLocal(outcomes[i]) && i == |outcomes| - 1)
         || (i < |Served(outcomes)| && Served(outcomes)[i] == outcomes[i])
  {
  }

  /** What the n-th awaited request is answered, fixed by the lines alone. */
  function AnswerTo(lines: seq<Bytes>, decode: Decoder, n: nat): Capture.Reply {
    var answers := Sequential(Pumped(lines, 0));
    if n < |answers| then ReplyOf(answers[n], decode) else Capture.Failure("stdio_closed")
  }

  /** The bounded JSON reader, on one line. */
  type Decoder = Bytes -> Result<Json, string>

  function ReplyOf(o: Outcome, decode: Decoder): Capture.Reply {
    match o
    case Response(payload) => Capture.Reply(200, None, decode(payload))
    case Closed => Capture.Failure("stdio_closed")
    case TooLarge => Capture.Failure("response_too_large")
    case DeadlinePassed => Capture.Failure("deadline_exceeded")
    case WriteFailed => Capture.Failure("stdio_closed")
  }

  /** What the capture is told of an outcome: a response with status 200 and no session, or why
      there is none. */
  lemma ReplyOfIs(o: Outcome, decode: Decoder)
    ensures o.Response? ==> ReplyOf(o, decode) == Capture.Reply(200, None, decode(o.payload))
    ensures ReplyOf(o, decode) == Capture.Failure("stdio_closed") <==> o == Closed || o == WriteFailed
    ensures ReplyOf(o, decode) == Capture.Failure("response_too_large") <==> o == TooLarge
    ensures ReplyOf(o, decode) == Capture.Failure("deadline_exceeded") <==> o == DeadlinePassed
  {
    assert "stdio_closed"[0] != "response_too_large"[0] && "stdio_closed"[0] != "deadline_exceeded"[0];
    assert "response_too_large"[0] != "deadline_exceeded"[0];
  }

  const ACCEPTED := Capture.Reply(202, None, Err(""))

  function Requests(sent: seq<Capture.Message>): nat {
    if sent == [] then 0 else Requests(sent[..|sent| - 1]) + (if Awaited(sent) then 1 else 0)
  }

  /** The last message is a request, which awaits its answer. */
  predicate Awaited(sent: seq<Capture.Message>) { sent != [] && sent[|sent| - 1].id.Some? }

  /** Of the messages of a capture all but the second are requests. */
  lemma {:induction false} RequestsOfARun(w: World, sent: seq<Capture.Message>)
    requires Follows(w, sent)
    ensures Awaited(sent) <==> |sent| == 1 || |sent| > 2
    ensures Requests(sent) == if |sent| <= 1 then |sent| else |sent| - 1
  {
    if sent != [] { RequestsOfARun(w, sent[..|sent| - 1]); }
  }

  /** The notification is acknowledged without a body. */
  lemma NotificationIsAccepted()
    ensures ACCEPTED == Capture.Reply(202, None, Err("")) && Refusal(ACCEPTED) == None
  {
  }

  /** A server that answers the n-th request by the n-th response among the lines, with no reader
      thread, no queue and no deadline. */
  function LineWorld(lines: seq<Bytes>, decode: Decoder, printable: string -> bool): World {
    World((sent: seq<Capture.Message>) =>
            if Awaited(sent) then AnswerTo(lines, decode, Requests(sent) - 1) else ACCEPTED,
          (sent: seq<Capture.Message>) => false, printable)
  }

  /** The answer that a schedule gave to the n-th request; none if it ends before. */
  function Scheduled(s: State, decode: Decoder, n: nat): Capture.Reply {
    if n < |s.outcomes| then ReplyOf(s.outcomes[n], decode) else Capture.Failure("deadline_exceeded")
  }

  /** The channel under one schedule, as the capture sees it. A notification is written without
      touching the queue: whether the write goes through is `told`. The client's own deadline
      checks are `late`. */
  function ScheduleWorld(s: State, told: bool, decode: Decoder, late: seq<Capture.Message> -> bool,
                         printable: string -> bool): World {
    World((sent: seq<Capture.Message>) =>
            if Awaited(sent) then Scheduled(s, decode, Requests(sent) - 1)
            else if told then ACCEPTED else Capture.Failure("stdio_closed"),
          late, printable)
  }

  /** What the schedule itself made fail: the write of the notification, or the n-th request by its
      deadline, by its write, or by the schedule's end. */
  predicate FailedLocally(s: State, told: bool, sent: seq<Capture.Message>) {
    if Awaited(sent) then Requests(sent) > |s.outcomes| || IsLocal(s.outcomes[Requests(sent) - 1]) else !told
  }

  lemma ScheduledOrLocal(lines: seq<Bytes>, steps: seq<Step>, s: State, decode: Decoder, n: nat)
    requires RunSteps(Start(lines), steps) == Some(s)
    ensures n < |s.outcomes| && !IsLocal(s.outcomes[n]) ==> Scheduled(s, decode, n) == AnswerTo(lines, decode, n)
    ensures n >= |s.outcomes| || IsLocal(s.outcomes[n]) ==> Scheduled(s, decode, n).Failure?
  {
    if n < |s.outcomes| { ScheduleIsInvisible(lines, steps, n); }
  }

  /** The channel answers as the list of lines would, unless it fails locally. */
  lemma ChannelAnswersAsLines(lines: seq<Bytes>, steps: seq<Step>, s: State, told: bool, decode: Decoder,
                              w: World, w': World)
    requires RunSteps(Start(lines), steps) == Some(s)
    requires w == ScheduleWorld(s, told, decode, w.late, w.printable) && w' == LineWorld(lines, decode, w.printable)
    ensures AnswersAs(w, w')
    ensures forall sent :: w.server(sent) == w'.server(sent) || FailedLocally(s, told, sent)
  {
    forall sent
      ensures w.server(sent) == w'.server(sent) || (w.server(sent).Failure? && FailedLocally(s, told, sent)) {
      if Awaited(sent) { ScheduledOrLocal(lines, steps, s, decode, Requests(sent) - 1); }
    }
  }

  /** A whole capture over the channel, under any schedule, is the capture over the list of lines,
      unless a deadline or a write that failed cut it short: then it is a beginning of that capture,
      with its messages, pages and tools. */
  lemma ChannelCaptureIsLineCapture(lines: seq<Bytes>, steps: seq<Step>, s: State, told: bool, decode: Decoder,
                                    w: World, w': World, a: seq<Capture.Message>, b: seq<Capture.Message>)
    requires RunSteps(Start(lines), steps) == Some(s)
    requires w == ScheduleWorld(s, told, decode, w.late, w.printable) && w' == LineWorld(lines, decode, w.printable)
    requires IsRun(w, a) && IsRun(w', b)
    ensures a <= b && PagesOf(w, a) <= PagesOf(w', b) && ManifestOf(w, a).tools <= ManifestOf(w', b).tools
    ensures w.late(a) || FailedLocally(s, told, a) || (a == b && ManifestOf(w, a) == ManifestOf(w', b))
  {
    ChannelAnswersAsLines(lines, steps, s, told, decode, w, w');
    SameCaptureUnlessCutShort(w, w', a, b);
    FewerPagesFewerTools(PagesOf(w, a), PagesOf(w', b));
  }

  // ---- progress ------------------------------------------------------------------------------

  lemma {:induction false} PumpedCloses(lines: seq<Bytes>, total: nat)
    ensures var p := Pumped(lines, total); p != [] && p[|p| - 1] == End
  {
    if lines != [] { PumpedCloses(lines[1..], total + |lines[0]|); }
  }

  lemma {:induction false} EndStops(items: seq<Item>)
    requires items != [] && items[|items| - 1] == End
    ensures !AllResponses(Sequential(items))
  {
    if Taken(items[0]).None? {
      EndStops(items[1..]);
    } else if Taken(items[0]).value.Response? {
      EndStops(items[1..]);
      var o :| o in Sequential(items[1..]) && !o.Response?;
      assert o in Sequential(items);
    } else {
      assert Sequential(items)[0] == Taken(items[0]).value;
    }
  }

  /** A waiting client is never stuck: it can take an item, or the reader can move. */
  lemma WaitingIsNeverStuck(lines: seq<Bytes>, steps: seq<Step>)
    requires RunSteps(Start(lines), steps).Some? && RunSteps(Start(lines), steps).value.client.Waiting?
    ensures var s := RunSteps(Start(lines), steps).value;
      Next(s, Take).Some? || Next(s, Put).Some? || Next(s, ReadLine).Some?
  {
    var s := RunSteps(Start(lines), steps).value;
    EveryInterleaving(lines, steps);
    if s.queue == [] && s.reader.Finished? {
      assert s.consumed + [] + [] == s.consumed;
      PumpedCloses(lines, 0);
      EndStops(s.consumed);
    }
  }

  /** Work left: every step but Ask uses some up, so a wait without a deadline still ends. */
  function WorkLeft(s: State): nat {
    4 * |s.rest| + |s.queue| + (if s.client.Over? then 0 else 1)
    + (match s.reader
       case Reading => 5
       case Holding(_) => 8
       case HoldingMarker => 5
       case HoldingEnd => 3
       case Finished => 0)
  }

  lemma StepsUseUpWork(s: State, step: Step)
    requires Next(s, step).Some? && !step.Ask?
    ensures WorkLeft(Next(s, step).value) < WorkLeft(s)
  {
  }
}
