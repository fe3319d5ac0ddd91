/** The incremental server-sent-events parser (c-sdk-common/src/sse.c). Bytes arrive in arbitrary chunks; complete
    lines are cut at LF and fed to the line rule, which dispatches named events to a callback.
    The callback's verdict may depend on everything dispatched before. */
module Sse {
  import opened Basics
  import opened Cutting

  const NUL: byte := 0
  const LF: byte := 10
  const SPACE: byte := 32
  const COLON: byte := 58
  const DATA: seq<byte> := [100, 97, 116, 97, 58]         // "data:"
  const EVENT: seq<byte> := [101, 118, 101, 110, 116, 58] // "event:"

  type Text = seq<byte>

  datatype Event = Event(name: Text, body: Text)
  type Dispatch = (seq<Event>, Event) -> bool

  /** `eventName` and `eventBody`; None is the null pointer. */
  datatype Pending = Pending(name: Option<Text>, body: Option<Text>)

  /** What a parser has done: the event under construction, the events dispatched, and whether all were accepted. */
  datatype Run = Run(pending: Pending, dispatched: seq<Event>, ok: bool)

  const NOTHING := Pending(None, None)
  const FRESH := Run(NOTHING, [], true)

  // ---------- the line rule ----------

  /** The field value: what follows the prefix, less one optional space. */
  function Value(line: Text, prefix: Text): Text
    requires prefix <= line
  {
    var rest := line[|prefix|..];
    if rest != [] && rest[0] == SPACE then rest[1..] else rest
  }

  function Append(body: Option<Text>, value: Text): Text {
    match body
    case None => value
    case Some(old') => old' + [LF] + value
  }

  /** LDi_processLine. */
  function ProcessedLine(run: Run, line: Text, dispatch: Dispatch): Run {
    var text := CString(line, NUL);
    if text == [] then
      if run.pending.name.Some? && run.pending.body.Some? then
        var e := Event(run.pending.name.value, run.pending.body.value);
        Run(NOTHING, run.dispatched + [e], dispatch(run.dispatched, e))
      else run.(pending := NOTHING)
    else if text[0] == COLON then run
    else if DATA <= text then run.(pending := run.pending.(body := Some(Append(run.pending.body, Value(text, DATA)))))
    else if EVENT <= text then run.(pending := run.pending.(name := Some(Value(text, EVENT))))
    else run
  }

  /** Lines in order, stopping at the first rejected event. */
  function Fold(lines: seq<Text>, run: Run, dispatch: Dispatch): Run {
    if lines == [] || !run.ok then run
    else Fold(lines[1..], ProcessedLine(run, lines[0], dispatch), dispatch)
  }

  // ---------- whole streams ----------

  function Concat(chunks: seq<Text>): Text {
    if chunks == [] then [] else chunks[0] + Concat(chunks[1..])
  }

  lemma {:induction false} FoldConcat(first: seq<Text>, second: seq<Text>, run: Run, dispatch: Dispatch)
    ensures Fold(first + second, run, dispatch) == Fold(second, Fold(first, run, dispatch), dispatch)
  {
    if first == [] {
      assert first + second == second;
    } else if run.ok {
      assert (first + second)[1..] == first[1..] + second;
      FoldConcat(first[1..], second, ProcessedLine(run, first[0], dispatch), dispatch);
    }
  }

  // ---------- chunk independence ----------

  /** A parser between calls, while no dispatch has failed: unconsumed bytes and progress. */
  datatype State = State(buffer: Text, run: Run)

  /** One LDSSEParserProcess call; after a failed dispatch the caller stops feeding. */
  function Fed(st: State, chunk: Text, dispatch: Dispatch): State {
    if !st.run.ok then st
    else State(Remainder(st.buffer + chunk, LF), Fold(Lines(st.buffer + chunk, LF), st.run, dispatch))
  }

  function FedAll(st: State, chunks: seq<Text>, dispatch: Dispatch): State
    decreases |chunks|
  {
    if chunks == [] then st else FedAll(Fed(st, chunks[0], dispatch), chunks[1..], dispatch)
  }

  lemma {:induction false} FeedingIsCutting(st: State, chunks: seq<Text>, dispatch: Dispatch)
    requires Lines(st.buffer, LF) == []
    ensures FedAll(st, chunks, dispatch).run == Fold(Lines(st.buffer + Concat(chunks), LF), st.run, dispatch)
    decreases |chunks|
  {
    if chunks == [] {
      assert st.buffer + Concat(chunks) == st.buffer;
    } else if !st.run.ok {
      assert Fed(st, chunks[0], dispatch) == st;
      FeedingIsCutting(st, chunks[1..], dispatch);
    } else {
      FeedThen(st, chunks[0], Concat(chunks[1..]), dispatch);
      FeedingIsCutting(Fed(st, chunks[0], dispatch), chunks[1..], dispatch);
    }
  }

  lemma {:induction false} FeedThen(st: State, chunk: Text, rest: Text, dispatch: Dispatch)
    requires st.run.ok
    ensures
      var st' := Fed(st, chunk, dispatch);
      && Lines(st'.buffer, LF) == []
      && Fold(Lines(st.buffer + (chunk + rest), LF), st.run, dispatch)
        == Fold(Lines(st'.buffer + rest, LF), st'.run, dispatch)
  {
    var all := st.buffer + chunk;
    RemainderHasNoLine(all, LF);
    assert st.buffer + (chunk + rest) == all + rest;
    FoldLinesOfConcat(all, rest, st.run, dispatch);
  }

  lemma {:induction false} FoldLinesOfConcat(a: Text, b: Text, run: Run, dispatch: Dispatch)
    ensures Fold(Lines(a + b, LF), run, dispatch)
      == Fold(Lines(Remainder(a, LF) + b, LF), Fold(Lines(a, LF), run, dispatch), dispatch)
  {
    LinesOfConcat(a, b, LF);
    FoldConcat(Lines(a, LF), Lines(Remainder(a, LF) + b, LF), run, dispatch);
  }

  /** From a fresh parser, however the bytes are chunked: the dispatched events, up to and including the first
      rejected one, are those of the whole stream cut at LF and folded through the line rule. */
  lemma {:induction false} ChunkIndependence(chunks: seq<Text>, dispatch: Dispatch)
    ensures FedAll(State([], FRESH), chunks, dispatch).run == Fold(Lines(Concat(chunks), LF), FRESH, dispatch)
  {
    FeedingIsCutting(State([], FRESH), chunks, dispatch);
    assert [] + Concat(chunks) == Concat(chunks);
  }

  // ---------- reference: the stream as blocks of fields ----------

  predicate IsBlank(line: Text) {
    CString(line, NUL) == []
  }

  /** The values of one field in a block, in order. */
  function Fields(block: seq<Text>, prefix: Text): seq<Text> {
    if block == [] then []
    else
      var text := CString(block[|block| - 1], NUL);
      Fields(block[..|block| - 1], prefix) + (if prefix <= text then [Value(text, prefix)] else [])
  }

  /** `values` separated by LF. */
  function Join(values: seq<Text>): Text
    requires values != []
  {
    if |values| == 1 then values[0] else Join(values[..|values| - 1]) + [LF] + values[|values| - 1]
  }

  /** A block with at least one event field and one data field is one event: the last name, the joined data. */
  function EventsOf(block: seq<Text>): seq<Event> {
    var names, data := Fields(block, EVENT), Fields(block, DATA);
    if names == [] || data == [] then [] else [Event(names[|names| - 1], Join(data))]
  }

  /** The events of a stream: blank lines end blocks; an unfinished last block yields nothing. Unlike section
      9.2.6, a line `data` or `event` without a colon is no field: it is ignored. */
  function EventsIn(lines: seq<Text>, open: seq<Text>): seq<Event> {
    if lines == [] then []
    else if IsBlank(lines[0]) then EventsOf(open) + EventsIn(lines[1..], [])
    else EventsIn(lines[1..], open + [lines[0]])
  }

  /** Handing events to the callback until it rejects one. */
  function Handed(done: seq<Event>, events: seq<Event>, dispatch: Dispatch): seq<Event>
    decreases |events|
  {
    if events == [] then done
    else if dispatch(done, events[0]) then Handed(done + [events[0]], events[1..], dispatch)
    else done + [events[0]]
  }

  function PendingOf(block: seq<Text>): Pending {
    var names, data := Fields(block, EVENT), Fields(block, DATA);
    Pending(if names == [] then None else Some(names[|names| - 1]), if data == [] then None else Some(Join(data)))
  }

  lemma {:induction false} FieldsGrow(open: seq<Text>, line: Text, prefix: Text)
    ensures Fields(open + [line], prefix)
         == if prefix <= CString(line, NUL) then Fields(open, prefix) + [Value(CString(line, NUL), prefix)]
           else Fields(open, prefix)
  {
  }

  lemma {:induction false} JoinGrows(values: seq<Text>, value: Text)
    ensures Join(values + [value]) == if values == [] then value else Join(values) + [LF] + value
  {
  }

  lemma {:induction false} NameGrows(open: seq<Text>, line: Text)
    ensures PendingOf(open + [line]).name
         == if EVENT <= CString(line, NUL) then Some(Value(CString(line, NUL), EVENT)) else PendingOf(open).name
  {
  }

  lemma {:induction false} BodyGrows(open: seq<Text>, line: Text)
    ensures PendingOf(open + [line]).body
         == if DATA <= CString(line, NUL) then Some(Append(PendingOf(open).body, Value(CString(line, NUL), DATA)))
            else PendingOf(open).body
  {
    FieldsGrow(open, line, DATA);
    if DATA <= CString(line, NUL) {
      JoinGrows(Fields(open, DATA), Value(CString(line, NUL), DATA));
    }
  }

  lemma {:induction false} FieldHeads(text: Text)
    ensures DATA <= text ==> text[0] == 100
    ensures EVENT <= text ==> text[0] == 101
  {
  }

  lemma {:induction false} LineExtendsBlock(open: seq<Text>, line: Text, run: Run, dispatch: Dispatch)
    requires run.pending == PendingOf(open) && !IsBlank(line)
    ensures ProcessedLine(run, line, dispatch) == run.(pending := PendingOf(open + [line]))
  {
    NameGrows(open, line);
    BodyGrows(open, line);
    FieldHeads(CString(line, NUL));
  }

  lemma {:induction false} FoldIsBlocks(lines: seq<Text>, open: seq<Text>, run: Run, dispatch: Dispatch)
    requires run.ok && run.pending == PendingOf(open)
    ensures Fold(lines, run, dispatch).dispatched == Handed(run.dispatched, EventsIn(lines, open), dispatch)
    decreases |lines|
  {
    if lines != [] {
      var run' := ProcessedLine(run, lines[0], dispatch);
      if !IsBlank(lines[0]) {
        LineExtendsBlock(open, lines[0], run, dispatch);
        FoldIsBlocks(lines[1..], open + [lines[0]], run', dispatch);
      } else if EventsOf(open) == [] {
        FoldIsBlocks(lines[1..], [], run', dispatch);
        assert EventsIn(lines, open) == EventsIn(lines[1..], []);
      } else {
        var e := EventsOf(open)[0];
        assert EventsIn(lines, open)[1..] == EventsIn(lines[1..], []);
        if dispatch(run.dispatched, e) {
          FoldIsBlocks(lines[1..], [], run', dispatch);
        }
      }
    }
  }

  /** However the bytes are chunked, a fresh parser hands over the events of the stream's blocks: the LF-only,
      named-events subset of section 9.2.6 of the HTML standard, fields being lines with a colon. */
  lemma {:induction false} ParserHandsOverBlocks(chunks: seq<Text>, dispatch: Dispatch)
    ensures FedAll(State([], FRESH), chunks, dispatch).run.dispatched
         == Handed([], EventsIn(Lines(Concat(chunks), LF), []), dispatch)
  {
    ChunkIndependence(chunks, dispatch);
    FoldIsBlocks(Lines(Concat(chunks), LF), [], FRESH, dispatch);
  }

  // ---------- the parser itself ----------

  lemma {:induction false} CStringTwice(s: Text)
    ensures CString(CString(s, NUL), NUL) == CString(s, NUL)
  {
    if s != [] && s[0] != NUL {
      CStringTwice(s[1..]);
      assert CString(s, NUL)[1..] == CString(s[1..], NUL);
    }
  }

  /** The buffer when an event of it is rejected: NUL for the LF of every line taken. */
  function Blotted(s: Text, run: Run, dispatch: Dispatch): Text
    decreases |s|
  {
    var i := FirstOf(s, LF);
    if i == |s| then s
    else
      var run' := ProcessedLine(run, s[..i], dispatch);
      s[..i] + ([NUL] + if run'.ok then Blotted(s[i + 1..], run', dispatch) else s[i + 1..])
  }

  class Parser {
    var buffer: Text
    var eventName: Option<Text>
    var eventBody: Option<Text>
    const dispatch: Dispatch
    /** What the callback has been given, and whether the last call took all its lines. */
    var dispatched: seq<Event>
    var accepted: bool

    function Progress(): Run
      reads this
    {
      Run(Pending(eventName, eventBody), dispatched, accepted)
    }

    /** LDSSEParserInitialize. */
    constructor (dispatch: Dispatch)
      ensures buffer == [] && Progress() == FRESH && this.dispatch == dispatch
    {
      buffer := [];
      eventName, eventBody := None, None;
      this.dispatch := dispatch;
      dispatched, accepted := [], true;
    }

    /** LDi_processLine on a C string. */
    method ProcessLine(line: Text) returns (ok: bool)
      requires accepted && CString(line, NUL) == line
      modifies this`eventName, this`eventBody, this`dispatched, this`accepted
      ensures Progress() == ProcessedLine(old(Progress()), line, dispatch)
      ensures ok == accepted
    {
      ok := true;
      if line == [] {
        if eventName.Some? && eventBody.Some? {
          var e := Event(eventName.value, eventBody.value);
          ok := dispatch(dispatched, e);
          dispatched := dispatched + [e];
          accepted := ok;
        }
        eventName, eventBody := None, None;
      } else if line[0] == COLON {
      } else if DATA <= line {
        eventBody := Some(Append(eventBody, Value(line, DATA)));
      } else if EVENT <= line {
        eventName := Some(Value(line, EVENT));
      }
    }

    /** The loop body of LDSSEParserProcess: overwrite the LF by NUL and hand over the C string before it. */
    method TakeLine(consumed: nat, newline: nat) returns (ok: bool)
      requires accepted && consumed + newline < |buffer|
      modifies this
      ensures Progress() == ProcessedLine(old(Progress()), old(buffer)[consumed..consumed + newline], dispatch)
      ensures buffer == old(buffer)[consumed + newline := NUL] && ok == accepted
    {
      buffer := buffer[consumed + newline := NUL];
      var line := CString(buffer[consumed..], NUL);
      ghost var expected := old(buffer)[consumed..consumed + newline];
      CStringStops(buffer[consumed..], newline, NUL);
      assert buffer[consumed..][..newline] == expected;
      CStringTwice(expected);
      ok := ProcessLine(line);
    }

    /** LDSSEParserProcess: append the chunk, take every complete line, move the unconsumed bytes to the front. */
    method Process(chunk: Text) returns (ok: bool)
      modifies this
      ensures chunk == [] ==> ok && buffer == old(buffer) && Progress() == old(Progress())
      ensures chunk != [] ==> ok == accepted
      ensures chunk != [] ==>
        Progress() == Fold(Lines(old(buffer) + chunk, LF), old(Progress()).(ok := true), dispatch)
      ensures chunk != [] && ok ==> buffer == Remainder(old(buffer) + chunk, LF) && Lines(buffer, LF) == []
      ensures !ok ==> buffer == Blotted(old(buffer) + chunk, old(Progress()).(ok := true), dispatch)
    {
      if chunk == [] {
        return true;
      }
      buffer, accepted := buffer + chunk, true;
      RemainderHasNoLine(buffer, LF);
      var consumed;
      ok, consumed := TakeLines();
      if ok {
        buffer := buffer[consumed..];
      }
    }

    /** One turn of the loop, in terms of the lines still to be cut. */
    method TakeNext(
      consumed: nat, newline: nat, ghost whole: Text, ghost start: Run, ghost head: Text, ghost tail: Text)
      returns (ok: bool, ghost head': Text, ghost tail': Text)
      requires accepted && buffer == head + tail && consumed == |head| && newline == FirstOf(tail, LF) < |tail|
      requires Midway(whole, start, head, tail, Progress(), dispatch)
      modifies this
      ensures ok == accepted && |buffer| == old(|buffer|)
      ensures ok ==> buffer == head' + tail' && consumed + newline + 1 == |head'| && buffer[|head'|..] == tail'
      ensures ok ==> Midway(whole, start, head', tail', Progress(), dispatch)
      ensures !ok ==> Progress() == Fold(Lines(whole, LF), start, dispatch)
      ensures !ok ==> buffer == Blotted(whole, start, dispatch)
    {
      ghost var line, rest := FirstCut(tail);
      Overwritten(head, line, rest);
      LineTaken(whole, start, head, line, rest, Progress(), dispatch);
      ok := TakeLine(consumed, newline);
      head', tail' := head + (line + [NUL]), rest;
    }

    /** The loop of LDSSEParserProcess. */
    method TakeLines() returns (ok: bool, consumed: nat)
      requires accepted
      modifies this
      ensures Progress() == Fold(Lines(old(buffer), LF), old(Progress()), dispatch)
      ensures ok == accepted
      ensures ok ==> consumed <= |buffer| && buffer[consumed..] == Remainder(old(buffer), LF)
      ensures !ok ==> buffer == Blotted(old(buffer), old(Progress()), dispatch)
    {
      consumed := 0;
      var newline := FirstOf(buffer, LF);
      ghost var head, tail := [], buffer;
      BeforeLines(buffer, Progress(), dispatch);
      while consumed + newline < |buffer|
        invariant buffer == head + tail && consumed == |head| && newline == FirstOf(tail, LF) && accepted
        invariant Midway(old(buffer), old(Progress()), head, tail, Progress(), dispatch)
        decreases |buffer| - consumed
      {
        ok, head, tail := TakeNext(consumed, newline, old(buffer), old(Progress()), head, tail);
        if !ok {
          return;
        }
        consumed := consumed + newline + 1;
        newline := FirstOf(buffer[consumed..], LF);
      }
      AfterLines(old(buffer), old(Progress()), head, tail, Progress(), dispatch);
      ok := true;
    }
  }

  /** Between two lines: `head` is what the lines taken have become, `tail` what is still to be cut. */
  ghost predicate Midway(whole: Text, start: Run, head: Text, tail: Text, run: Run, dispatch: Dispatch) {
    && Fold(Lines(whole, LF), start, dispatch) == Fold(Lines(tail, LF), run, dispatch)
    && Remainder(whole, LF) == Remainder(tail, LF)
    && Blotted(whole, start, dispatch) == head + Blotted(tail, run, dispatch)
  }

  lemma {:induction false} BeforeLines(whole: Text, start: Run, dispatch: Dispatch)
    ensures [] + whole == whole && Midway(whole, start, [], whole, start, dispatch)
  {
    EmptyEnds(Blotted(whole, start, dispatch));
  }

  lemma {:induction false} FirstCut(s: Text) returns (line: Text, rest: Text)
    requires FirstOf(s, LF) < |s|
    ensures s == line + ([LF] + rest) && FirstOf(line, LF) == |line| == FirstOf(s, LF)
  {
    line, rest := Opened(s, LF);
    FirstAfter(line, rest, LF);
  }

  /** The LF of one line overwritten. */
  lemma {:induction false} Overwritten(head: Text, line: Text, rest: Text)
    ensures var s, end := head + (line + ([LF] + rest)), |head| + |line|;
      && end < |s| && s[|head|..end] == line
      && s[end := NUL] == head + (line + ([NUL] + rest)) == (head + (line + [NUL])) + rest
      && s[end := NUL][end + 1..] == rest
  {
    Regroup(head, line, [LF] + rest);
    RegroupFour(head, line, [NUL], rest);
    Replaced(head + line, LF, NUL, rest);
    assert (head + (line + ([LF] + rest)))[|head|..|head| + |line|] == line;
  }

  lemma {:induction false} Replaced<T>(head: seq<T>, x: T, y: T, tail: seq<T>)
    ensures |head| < |head + ([x] + tail)|
    ensures (head + ([x] + tail))[|head| := y] == head + ([y] + tail)
    ensures (head + ([y] + tail))[|head| + 1..] == tail
  {
  }

  lemma {:induction false} BlottedUnfold(line: Text, rest: Text, run: Run, dispatch: Dispatch)
    requires FirstOf(line, LF) == |line|
    ensures var run' := ProcessedLine(run, line, dispatch);
      Blotted(line + ([LF] + rest), run, dispatch)
        == line + ([NUL] + if run'.ok then Blotted(rest, run', dispatch) else rest)
  {
    FirstAfter(line, rest, LF);
    SplitAround(line, LF, rest);
  }

  lemma {:induction false} FoldUnfold(line: Text, rest: Text, run: Run, dispatch: Dispatch)
    requires run.ok && FirstOf(line, LF) == |line|
    ensures Fold(Lines(line + ([LF] + rest), LF), run, dispatch)
      == Fold(Lines(rest, LF), ProcessedLine(run, line, dispatch), dispatch)
  {
    OneLine(line, rest, LF);
    FirstLine(Lines(line + ([LF] + rest), LF), line, Lines(rest, LF), run, dispatch);
  }

  lemma {:induction false} LineTaken(
    whole: Text, start: Run, head: Text, line: Text, rest: Text, run: Run, dispatch: Dispatch)
    requires run.ok && FirstOf(line, LF) == |line|
    requires Midway(whole, start, head, line + ([LF] + rest), run, dispatch)
    ensures var run' := ProcessedLine(run, line, dispatch);
      && (run'.ok ==> Midway(whole, start, head + (line + [NUL]), rest, run', dispatch))
      && (!run'.ok ==> run' == Fold(Lines(whole, LF), start, dispatch))
      && (!run'.ok ==> Blotted(whole, start, dispatch) == head + (line + ([NUL] + rest)))
  {
    FoldUnfold(line, rest, run, dispatch);
    OneLine(line, rest, LF);
    BlottedUnfold(line, rest, run, dispatch);
    RegroupFour(head, line, [NUL], Blotted(rest, ProcessedLine(run, line, dispatch), dispatch));
  }

  lemma {:induction false} AfterLines(whole: Text, start: Run, head: Text, tail: Text, run: Run, dispatch: Dispatch)
    requires FirstOf(tail, LF) == |tail| && Midway(whole, start, head, tail, run, dispatch)
    ensures Fold(Lines(whole, LF), start, dispatch) == run && Remainder(whole, LF) == tail
  {
    Unbroken(tail, LF);
  }

  /** After a rejected event the lines already taken are still in the buffer, with NUL for LF: the next call reads
      the first of them again, and only that one. */
  lemma {:induction false} FirstLineIsReadAgain(s: Text, run: Run, dispatch: Dispatch, chunk: Text)
    requires FirstOf(s, LF) < |s|
    ensures var b := Blotted(s, run, dispatch) + chunk;
      FirstOf(b, LF) > FirstOf(s, LF) && CString(b[..FirstOf(b, LF)], NUL) == CString(s[..FirstOf(s, LF)], NUL)
  {
    var b, i := Blotted(s, run, dispatch) + chunk, FirstOf(s, LF);
    assert b[..i] == s[..i] && b[i] == NUL;
    FirstIsLater(s, b);
    CStringStops(b[..FirstOf(b, LF)], i, NUL);
    assert b[..FirstOf(b, LF)][..i] == s[..i];
  }

  lemma {:induction false} FirstIsLater(s: Text, b: Text)
    requires FirstOf(s, LF) < |s| && FirstOf(s, LF) < |b|
    requires b[..FirstOf(s, LF)] == s[..FirstOf(s, LF)] && b[FirstOf(s, LF)] == NUL
    ensures FirstOf(b, LF) > FirstOf(s, LF)
  {
    if s[0] != LF {
      var i := FirstOf(s, LF);
      assert b[0] == b[..i][0] == s[0];
      assert b[1..][..i - 1] == b[..i][1..] && s[1..][..i - 1] == s[..i][1..];
      FirstIsLater(s[1..], b[1..]);
    }
  }

  lemma {:induction false} FirstLine(lines: seq<Text>, line: Text, rest: seq<Text>, run: Run, dispatch: Dispatch)
    requires run.ok && lines == [line] + rest
    ensures Fold(lines, run, dispatch) == Fold(rest, ProcessedLine(run, line, dispatch), dispatch)
  {
    TailOfCons(line, rest);
  }

  lemma {:induction false} RejectedStays(st: State, chunks: seq<Text>, dispatch: Dispatch)
    requires !st.run.ok
    ensures FedAll(st, chunks, dispatch) == st
    decreases |chunks|
  {
    if chunks != [] {
      RejectedStays(st, chunks[1..], dispatch);
    }
  }

  /** A fresh parser fed chunk by chunk until it rejects an event: what it hands over are the events of the
      whole stream. */
  method Feed(chunks: seq<Text>, dispatch: Dispatch) returns (dispatched: seq<Event>)
    ensures dispatched == Handed([], EventsIn(Lines(Concat(chunks), LF), []), dispatch)
  {
    var parser := new Parser(dispatch);
    ghost var end := FedAll(State([], FRESH), chunks, dispatch);
    ParserHandsOverBlocks(chunks, dispatch);
    var rest, ok := chunks, true;
    while ok && rest != []
      invariant fresh(parser) && parser.dispatch == dispatch && ok == parser.accepted
      invariant ok ==> Lines(parser.buffer, LF) == []
      invariant ok ==> end == FedAll(State(parser.buffer, parser.Progress()), rest, dispatch)
      invariant !ok ==> end.run == parser.Progress()
      decreases |rest|
    {
      ghost var st := Fed(State(parser.buffer, parser.Progress()), rest[0], dispatch);
      EmptyEnds(parser.buffer);
      ok := parser.Process(rest[0]);
      rest := rest[1..];
      if !ok {
        RejectedStays(st, rest, dispatch);
      }
    }
    dispatched := parser.dispatched;
  }
}
