/** The incremental server-sent-events reader (discovery/live_tools.py, `_first_sse_response`). */
module Sse {
  import opened Json

  type Bytes = seq<byte>

  const LF: byte := 10
  const CR: byte := 13
  const SPACE: byte := 32
  const DATA: Bytes := [100, 97, 116, 97, 58]

  datatype NoResponse = NoResponse

  /** The position of the first line feed, or the length when there is none. */
  function FindLf(s: Bytes): (n: nat)
    ensures n <= |s| && (forall i :: 0 <= i < n ==> s[i] != LF) && (n < |s| ==> s[n] == LF)
  {
    if s == [] || s[0] == LF then 0 else 1 + FindLf(s[1..])
  }

  /** `rstrip(b"\r")` */
  function StripCr(s: Bytes): (r: Bytes)
    ensures r <= s && (r == [] || r[|r| - 1] != CR)
    ensures forall i :: |r| <= i < |s| ==> s[i] == CR
  {
    if s != [] && s[|s| - 1] == CR then StripCr(s[..|s| - 1]) else s
  }

  /** The value of a data line: one leading space is dropped. */
  function DataValue(line: Bytes): Bytes
    requires DATA <= line
  {
    var value := line[5..];
    if value != [] && value[0] == SPACE then value[1..] else value
  }

  function Join(lines: seq<Bytes>): Bytes {
    if lines == [] then [] else if |lines| == 1 then lines[0] else lines[0] + [LF] + Join(lines[1..])
  }

  type Test = Bytes -> bool

  // ---- the reference: split into lines, group into events, take the first response -----------

  function Lines(s: Bytes): seq<Bytes>
    decreases |s|
  {
    var n := FindLf(s);
    if n == |s| then [StripCr(s)] else [StripCr(s[..n])] + Lines(s[n + 1..])
  }

  function Pending(data: seq<Bytes>): seq<Bytes> {
    if data == [] then [] else [Join(data)]
  }

  /** The payload of every event with data, the last one closed by the end of the stream. */
  function Payloads(lines: seq<Bytes>, data: seq<Bytes>): seq<Bytes> {
    if lines == [] then Pending(data)
    else if lines[0] == [] then Pending(data) + Payloads(lines[1..], [])
    else if DATA <= lines[0] then Payloads(lines[1..], data + [DataValue(lines[0])])
    else Payloads(lines[1..], data)
  }

  function First(payloads: seq<Bytes>, looks: Test): Result<Bytes, NoResponse> {
    if payloads == [] then Err(NoResponse.NoResponse)
    else if looks(payloads[0]) then Ok(payloads[0])
    else First(payloads[1..], looks)
  }

  /** "The first event whose joined data looks like a response." */
  function FirstResponse(stream: Bytes, looks: Test): Result<Bytes, NoResponse> {
    First(Payloads(Lines(stream), []), looks)
  }

  // ---- what the buffer loop does -------------------------------------------------------------

  datatype State = Found(payload: Bytes) | Reading(buffer: Bytes, data: seq<Bytes>)

  datatype Took = Done(payload: Bytes) | More(data: seq<Bytes>)

  /** What one complete line does to the event being read. */
  function TakeLine(line: Bytes, data: seq<Bytes>, looks: Test): Took {
    if line == [] then (if data != [] && looks(Join(data)) then Done(Join(data)) else More([]))
    else if DATA <= line then More(data + [DataValue(line)])
    else More(data)
  }

  /** Takes every complete line off the buffer, or stops at a response. */
  function Drain(buffer: Bytes, data: seq<Bytes>, looks: Test): State
    decreases |buffer|, 0
  {
    var n := FindLf(buffer);
    if n == |buffer| then Reading(buffer, data)
    else
      Went(TakeLine(StripCr(buffer[..n]), data, looks), buffer[n + 1..], looks)
  }

  function Went(took: Took, rest: Bytes, looks: Test): State
    decreases |rest|, 1
  {
    match took
    case Done(payload) => Found(payload)
    case More(data) => Drain(rest, data, looks)
  }

  lemma DrainOnce(buffer: Bytes, data: seq<Bytes>, looks: Test, n: nat)
    requires n == FindLf(buffer) < |buffer|
    ensures Drain(buffer, data, looks) == Went(TakeLine(StripCr(buffer[..n]), data, looks), buffer[n + 1..], looks)
  {
  }

  lemma FindLfUnique(s: Bytes, n: nat)
    requires n < |s| && s[n] == LF && forall i :: 0 <= i < n ==> s[i] != LF
    ensures FindLf(s) == n
  {
  }

  lemma FindLfConcat(a: Bytes, b: Bytes)
    requires FindLf(a) < |a|
    ensures FindLf(a + b) == FindLf(a)
  {
    var n := FindLf(a);
    assert (a + b)[..n] == a[..n];
    FindLfUnique(a + b, n);
  }

  /** Draining a longer buffer is draining a prefix of it and then going on. */
  lemma {:induction false} DrainConcat(a: Bytes, b: Bytes, data: seq<Bytes>, looks: Test)
    ensures Drain(a + b, data, looks) ==
      var s := Drain(a, data, looks);
      if s.Found? then s else Drain(s.buffer + b, s.data, looks)
    decreases |a|
  {
    var n := FindLf(a);
    if n < |a| {
      FindLfConcat(a, b);
      assert (a + b)[..n] == a[..n] && (a + b)[n + 1..] == a[n + 1..] + b;
      var took := TakeLine(StripCr(a[..n]), data, looks);
      if took.More? {
        DrainConcat(a[n + 1..], b, took.data, looks);
      }
    }
  }

  function Concat(chunks: seq<Bytes>): Bytes {
    if chunks == [] then [] else Concat(chunks[..|chunks| - 1]) + chunks[|chunks| - 1]
  }

  lemma StripKeepsData(s: Bytes)
    ensures DATA <= StripCr(s) <==> DATA <= s
  {
  }

  /** At the end of the stream the buffer holds one unfinished line. */
  function Finish(buffer: Bytes, data: seq<Bytes>, looks: Test): Result<Bytes, NoResponse> {
    var all := if DATA <= buffer && DATA <= StripCr(buffer) then data + [DataValue(StripCr(buffer))] else data;
    if all != [] && looks(Join(all)) then Ok(Join(all)) else Err(NoResponse.NoResponse)
  }

  function Outcome(s: State, looks: Test): Result<Bytes, NoResponse> {
    match s
    case Found(p) => Ok(p)
    case Reading(buffer, data) => Finish(buffer, data, looks)
  }

  /** The loop computes the reference. */
  lemma {:induction false} DrainIsReference(s: Bytes, data: seq<Bytes>, looks: Test)
    ensures Outcome(Drain(s, data, looks), looks) == First(Payloads(Lines(s), data), looks)
    decreases |s|
  {
    var n := FindLf(s);
    if n == |s| {
      UnfinishedBuffer(s, data, looks);
    } else {
      var line, rest := StripCr(s[..n]), s[n + 1..];
      LineDecides(s, data, looks, line, rest);
      var took := TakeLine(line, data, looks);
      if took.More? {
        DrainIsReference(rest, took.data, looks);
      }
    }
  }

  lemma LineDecides(s: Bytes, data: seq<Bytes>, looks: Test, line: Bytes, rest: Bytes)
    requires var n := FindLf(s); n < |s| && line == StripCr(s[..n]) && rest == s[n + 1..]
    ensures var took := TakeLine(line, data, looks);
      && Drain(s, data, looks) == Went(took, rest, looks)
      && First(Payloads(Lines(s), data), looks)
           == if took.Done? then Ok(took.payload) else First(Payloads(Lines(rest), took.data), looks)
  {
    DrainOnce(s, data, looks, FindLf(s));
    FirstOfLine(line, Lines(rest), data, looks);
  }

  lemma UnfinishedBuffer(s: Bytes, data: seq<Bytes>, looks: Test)
    requires FindLf(s) == |s|
    ensures Finish(s, data, looks) == First(Payloads(Lines(s), data), looks)
  {
  }

  lemma FirstOfLine(line: Bytes, rest: seq<Bytes>, data: seq<Bytes>, looks: Test)
    ensures First(Payloads([line] + rest, data), looks) ==
      var took := TakeLine(line, data, looks);
      if took.Done? then Ok(took.payload) else First(Payloads(rest, took.data), looks)
  {
    assert ([line] + rest)[1..] == rest;
    FirstPending(data, Payloads(rest, []), looks);
  }

  lemma FirstPending(data: seq<Bytes>, rest: seq<Bytes>, looks: Test)
    ensures First(Pending(data) + rest, looks) ==
      if data != [] && looks(Join(data)) then Ok(Join(data)) else First(rest, looks)
  {
    if data == [] {
      assert Pending(data) + rest == rest;
    } else {
      assert (Pending(data) + rest)[1..] == rest;
    }
  }

  /** `_first_sse_response`. The answer depends only on the bytes, not on how they were cut into
      chunks, and nothing past the chunk that completes it is looked at. */
  method FirstSseResponse(chunks: seq<Bytes>, looks: Test) returns (r: Result<Bytes, NoResponse>, used: nat)
    ensures used <= |chunks|
    ensures r == FirstResponse(Concat(chunks), looks)
    ensures used < |chunks| ==> r == FirstResponse(Concat(chunks[..used]), looks) && r.Ok?
  {
    var buffer: Bytes, data: seq<Bytes> := [], [];
    for i := 0 to |chunks|
      invariant Drain(Concat(chunks[..i]), [], looks) == Reading(buffer, data)
      invariant FindLf(buffer) == |buffer|
    {
      ghost var before := Concat(chunks[..i]);
      assert chunks[..i + 1][..i] == chunks[..i];
      DrainConcat(before, chunks[i], [], looks);
      buffer := buffer + chunks[i];
      var newline := FindLf(buffer);
      while newline < |buffer|
        invariant newline == FindLf(buffer)
        invariant Drain(Concat(chunks[..i + 1]), [], looks) == Drain(buffer, data, looks)
        decreases |buffer|
      {
        var line := StripCr(buffer[..newline]);
        DrainOnce(buffer, data, looks, newline);
        buffer := buffer[newline + 1..];
        if line == [] {
          if data != [] && looks(Join(data)) {
            FoundStaysFound(chunks, i + 1, looks);
            return Ok(Join(data)), i + 1;
          }
          data := [];
        } else if DATA <= line {
          data := data + [DataValue(line)];
        }
        newline := FindLf(buffer);
      }
    }
    assert chunks[..|chunks|] == chunks;
    DrainIsReference(Concat(chunks), [], looks);
    r, used := Finish(buffer, data, looks), |chunks|;
  }

  lemma {:induction false} FoundStaysFound(chunks: seq<Bytes>, i: nat, looks: Test)
    requires i <= |chunks| && Drain(Concat(chunks[..i]), [], looks).Found?
    ensures FirstResponse(Concat(chunks), looks) == Ok(Drain(Concat(chunks[..i]), [], looks).payload)
    ensures FirstResponse(Concat(chunks[..i]), looks) == Ok(Drain(Concat(chunks[..i]), [], looks).payload)
    decreases |chunks| - i
  {
    DrainIsReference(Concat(chunks[..i]), [], looks);
    if i < |chunks| {
      assert chunks[..i + 1][..i] == chunks[..i];
      DrainConcat(Concat(chunks[..i]), chunks[i], [], looks);
      FoundStaysFound(chunks, i + 1, looks);
    } else {
      assert chunks[..i] == chunks;
    }
  }

  // ---- consequences --------------------------------------------------------------------------

  /** Bytes after a completed response event never change the answer. */
  lemma LaterBytesIrrelevant(stream: Bytes, more: Bytes, looks: Test)
    requires Drain(stream, [], looks).Found?
    ensures FirstResponse(stream + more, looks) == FirstResponse(stream, looks)
  {
    DrainConcat(stream, more, [], looks);
    DrainIsReference(stream, [], looks);
    DrainIsReference(stream + more, [], looks);
  }

  // ---- what a server has to send --------------------------------------------------------------

  /** The lines of a payload. */
  function SplitLf(p: Bytes): (lines: seq<Bytes>)
    ensures lines != []
    decreases |p|
  {
    var n := FindLf(p);
    if n == |p| then [p] else [p[..n]] + SplitLf(p[n + 1..])
  }

  /** A line ends with a line feed, or with a carriage return and a line feed. */
  function Eol(cr: bool): Bytes { if cr then [13, 10] else [10] }

  /** Each line after "data: ". */
  function EncodeLines(lines: seq<Bytes>, cr: bool): Bytes {
    if lines == [] then []
    else DataLine(lines[0], cr) + EncodeLines(lines[1..], cr)
  }

  function DataLine(line: Bytes, cr: bool): Bytes { [100, 97, 116, 97, 58, 32] + line + Eol(cr) }

  /** One event with a payload: its lines and then an empty one. */
  function Encode(p: Bytes, cr: bool): Bytes { EncodeLines(SplitLf(p), cr) + Eol(cr) }

  predicate PlainLine(line: Bytes) { 10 !in line && (line == [] || line[|line| - 1] != 13) }

  ghost predicate PlainLines(lines: seq<Bytes>) { forall l :: l in lines ==> PlainLine(l) }

  /** An event is read back as the payload it was made from, when that looks like a response, and
      passed over otherwise. */
  lemma EventIsRead(p: Bytes, cr: bool, rest: Bytes, looks: Test)
    requires PlainLines(SplitLf(p))
    ensures FirstResponse(Encode(p, cr) + rest, looks) == if looks(p) then Ok(p) else FirstResponse(rest, looks)
  {
    var lines := SplitLf(p);
    LinesTaken(lines, cr, Eol(cr) + rest, [], looks);
    Associates(EncodeLines(lines, cr), Eol(cr), rest);
    assert [] + lines == lines && [] + Eol(cr) + rest == Eol(cr) + rest;
    LineTaken([], cr, rest, lines, looks);
    SplitJoins(p);
    DrainIsReference(Encode(p, cr) + rest, [], looks);
    DrainIsReference(rest, [], looks);
  }

  /** A line of any other field leaves no trace. */
  lemma OtherLineIsIgnored(line: Bytes, cr: bool, rest: Bytes, looks: Test)
    requires PlainLine(line) && line != [] && !([100, 97, 116, 97, 58] <= line)
    ensures FirstResponse(line + Eol(cr) + rest, looks) == FirstResponse(rest, looks)
  {
    LineTaken(line, cr, rest, [], looks);
    DrainIsReference(line + Eol(cr) + rest, [], looks);
    DrainIsReference(rest, [], looks);
  }

  lemma {:induction false} SplitJoins(p: Bytes)
    ensures Join(SplitLf(p)) == p
    decreases |p|
  {
    var n := FindLf(p);
    if n < |p| {
      SplitJoins(p[n + 1..]);
      JoinOneMore(p[..n], SplitLf(p[n + 1..]));
      assert p == p[..n] + [LF] + p[n + 1..];
    }
  }

  lemma JoinOneMore(line: Bytes, lines: seq<Bytes>)
    requires lines != []
    ensures Join([line] + lines) == line + [LF] + Join(lines)
  {
    assert ([line] + lines)[1..] == lines;
  }

  lemma LineTaken(line: Bytes, cr: bool, rest: Bytes, data: seq<Bytes>, looks: Test)
    requires PlainLine(line)
    ensures Drain(line + Eol(cr) + rest, data, looks) == Went(TakeLine(line, data, looks), rest, looks)
  {
    var s, n := line + Eol(cr) + rest, |line| + |Eol(cr)| - 1;
    assert s[n] == LF && forall i :: 0 <= i < n ==> s[i] == if i < |line| then line[i] else CR;
    FindLfUnique(s, n);
    assert s[..n] == if cr then line + [CR] else line;
    assert s[n + 1..] == rest;
    StripOne(line);
    DrainOnce(s, data, looks, n);
  }

  lemma StripOne(line: Bytes)
    requires PlainLine(line)
    ensures StripCr(line) == line && StripCr(line + [CR]) == line
  {
    assert (line + [CR])[..|line|] == line;
  }

  lemma {:induction false} LinesTaken(lines: seq<Bytes>, cr: bool, rest: Bytes, data: seq<Bytes>, looks: Test)
    requires PlainLines(lines)
    ensures Drain(EncodeLines(lines, cr) + rest, data, looks) == Drain(rest, data + lines, looks)
    decreases |lines|
  {
    MoveFirst(data, lines);
    if lines == [] {
      assert [] + rest == rest;
    } else {
      FirstLineTaken(lines, cr, rest, data, looks);
      LinesTaken(lines[1..], cr, rest, data + [lines[0]], looks);
    }
  }

  lemma MoveFirst(a: seq<Bytes>, b: seq<Bytes>)
    ensures if b == [] then a + b == a else a + [b[0]] + b[1..] == a + b
  {
  }

  lemma FirstLineTaken(lines: seq<Bytes>, cr: bool, rest: Bytes, data: seq<Bytes>, looks: Test)
    requires lines != [] && PlainLine(lines[0])
    ensures Drain(EncodeLines(lines, cr) + rest, data, looks)
         == Drain(EncodeLines(lines[1..], cr) + rest, data + [lines[0]], looks)
  {
    DataLineTaken(lines[0], cr, EncodeLines(lines[1..], cr) + rest, data, looks);
    Associates(DataLine(lines[0], cr), EncodeLines(lines[1..], cr), rest);
  }

  lemma Associates(a: Bytes, b: Bytes, c: Bytes)
    ensures a + b + c == a + (b + c)
  {
  }

  lemma DataLineTaken(line: Bytes, cr: bool, rest: Bytes, data: seq<Bytes>, looks: Test)
    requires PlainLine(line)
    ensures Drain(DataLine(line, cr) + rest, data, looks) == Drain(rest, data + [line], looks)
  {
    var field := [100, 97, 116, 97, 58, 32] + line;
    assert DATA <= field && field[5..] == [SPACE] + line && ([SPACE] + line)[1..] == line;
    assert PlainLine(field);
    LineTaken(field, cr, rest, data, looks);
  }

  // ---- the standard's end of stream -----------------------------------------------------------

  /** The lines that a line feed ends. */
  function CompleteLines(s: Bytes): seq<Bytes>
    decreases |s|
  {
    var n := FindLf(s);
    if n == |s| then [] else [StripCr(s[..n])] + CompleteLines(s[n + 1..])
  }

  /** The payload of every event with data that a blank line closes. */
  function Dispatched(lines: seq<Bytes>, data: seq<Bytes>): seq<Bytes> {
    if lines == [] then []
    else if lines[0] == [] then Pending(data) + Dispatched(lines[1..], [])
    else if DATA <= lines[0] then Dispatched(lines[1..], data + [DataValue(lines[0])])
    else Dispatched(lines[1..], data)
  }

  /** The first response under the rule of section 9.2.6 of the WHATWG HTML standard: what the
      stream's end finds pending, an event or a line, is discarded. */
  function StandardResponse(stream: Bytes, looks: Test): Result<Bytes, NoResponse> {
    First(Dispatched(CompleteLines(stream), []), looks)
  }

  lemma DispatchLine(line: Bytes, rest: seq<Bytes>, data: seq<Bytes>, looks: Test)
    ensures First(Dispatched([line] + rest, data), looks) ==
      var took := TakeLine(line, data, looks);
      if took.Done? then Ok(took.payload) else First(Dispatched(rest, took.data), looks)
  {
    assert ([line] + rest)[1..] == rest;
    FirstPending(data, Dispatched(rest, []), looks);
  }

  /** The standard's answer is what the buffer loop finds before the stream ends. */
  lemma {:induction false} DrainIsStandard(s: Bytes, data: seq<Bytes>, looks: Test)
    ensures First(Dispatched(CompleteLines(s), data), looks) ==
      var end := Drain(s, data, looks); if end.Found? then Ok(end.payload) else Err(NoResponse.NoResponse)
    decreases |s|
  {
    var n := FindLf(s);
    if n < |s| {
      var line, rest := StripCr(s[..n]), s[n + 1..];
      LineDispatches(s, data, looks, line, rest);
      var took := TakeLine(line, data, looks);
      if took.More? {
        DrainIsStandard(rest, took.data, looks);
      }
    }
  }

  lemma LineDispatches(s: Bytes, data: seq<Bytes>, looks: Test, line: Bytes, rest: Bytes)
    requires var n := FindLf(s); n < |s| && line == StripCr(s[..n]) && rest == s[n + 1..]
    ensures var took := TakeLine(line, data, looks);
      && Drain(s, data, looks) == Went(took, rest, looks)
      && First(Dispatched(CompleteLines(s), data), looks)
           == if took.Done? then Ok(took.payload) else First(Dispatched(CompleteLines(rest), took.data), looks)
  {
    DrainOnce(s, data, looks, FindLf(s));
    DispatchLine(line, CompleteLines(rest), data, looks);
  }

  /** The code departs from the standard exactly on the streams that end, with no response before,
      in the middle of an event that looks like one. */
  lemma StandardIff(stream: Bytes, looks: Test)
    ensures FirstResponse(stream, looks) == StandardResponse(stream, looks) <==>
      var end := Drain(stream, [], looks); end.Found? || Finish(end.buffer, end.data, looks).Err?
  {
    DrainIsReference(stream, [], looks);
    DrainIsStandard(stream, [], looks);
  }

  /** Such streams: any response on one data line, cut off before its line feed. */
  lemma CutOffEventIsTaken(payload: Bytes, looks: Test)
    requires payload != [] && payload[0] != SPACE && payload[|payload| - 1] != CR && LF !in payload
    requires looks(payload)
    ensures FirstResponse(DATA + payload, looks) == Ok(payload)
    ensures StandardResponse(DATA + payload, looks) == Err(NoResponse.NoResponse)
  {
    var s := DATA + payload;
    NoLf(s);
    assert s[|s| - 1] == payload[|payload| - 1];
    assert StripCr(s) == s && DataValue(s) == payload && [] + [DataValue(s)] == [payload];
    DrainIsReference(s, [], looks);
    DrainIsStandard(s, [], looks);
  }

  lemma {:induction false} NoLf(s: Bytes)
    requires LF !in s
    ensures FindLf(s) == |s|
  {
    if s != [] { NoLf(s[1..]); }
  }

  /** The bytes of {"result":{}}, which the program's test accepts. */
  const RESULT: Bytes := [123, 34, 114, 101, 115, 117, 108, 116, 34, 58, 123, 125, 125]

  /** One of them, with the program's own test. */
  lemma CutOffResultIsTaken(looks: Test)
    requires looks(RESULT)
    ensures FirstResponse(DATA + RESULT, looks) == Ok(RESULT)
    ensures StandardResponse(DATA + RESULT, looks) == Err(NoResponse.NoResponse)
  {
    CutOffEventIsTaken(RESULT, looks);
  }

  /** The end of the stream closes a pending event, as a blank line would. */
  lemma EndOfStreamIsABlankLine(stream: Bytes, looks: Test)
    ensures FirstResponse(stream + [LF, LF], looks) == FirstResponse(stream, looks)
  {
    DrainIsReference(stream, [], looks);
    DrainIsReference(stream + [LF, LF], [], looks);
    DrainConcat(stream, [LF, LF], [], looks);
    var s := Drain(stream, [], looks);
    if s.Reading? {
      DrainStops(stream, [], looks);
      BlankLineFlushes(s.buffer, s.data, looks);
    }
  }

  lemma {:induction false} DrainStops(s: Bytes, data: seq<Bytes>, looks: Test)
    requires Drain(s, data, looks).Reading?
    ensures FindLf(Drain(s, data, looks).buffer) == |Drain(s, data, looks).buffer|
    decreases |s|
  {
    var n := FindLf(s);
    if n < |s| {
      DrainStops(s[n + 1..], TakeLine(StripCr(s[..n]), data, looks).data, looks);
    }
  }

  lemma BlankLineFlushes(buffer: Bytes, data: seq<Bytes>, looks: Test)
    requires FindLf(buffer) == |buffer|
    ensures Outcome(Drain(buffer + [LF, LF], data, looks), looks) == Finish(buffer, data, looks)
  {
    var s := buffer + [LF, LF];
    assert s[..|buffer|] == buffer == buffer[..|buffer|];
    FindLfUnique(s, |buffer|);
    assert s[|buffer| + 1..] == [LF];
    DrainOnce(s, data, looks, |buffer|);
    FlushAfter(StripCr(buffer), data, looks);
    StripKeepsData(buffer);
  }

  lemma FlushAfter(line: Bytes, data: seq<Bytes>, looks: Test)
    ensures var all := if DATA <= line then data + [DataValue(line)] else data;
      Outcome(Went(TakeLine(line, data, looks), [LF], looks), looks)
        == if all != [] && looks(Join(all)) then Ok(Join(all)) else Err(NoResponse.NoResponse)
  {
    BlankLine(if DATA <= line then data + [DataValue(line)] else data, looks);
    BlankLine([], looks);
  }

  lemma BlankLine(data: seq<Bytes>, looks: Test)
    ensures FindLf([LF]) == 0
    ensures Drain([LF], data, looks) == if data != [] && looks(Join(data)) then Found(Join(data)) else Reading([], [])
  {
    assert [LF][..0] == [] && [LF][1..] == [];
    assert Drain([], [], looks) == Reading([], []);
  }
}
